/** Host names by key fingerprint, from any number of `known_hosts` files (src/knownhosts.rs). */
module KnownHosts {
  import opened Basics
  import opened Strings

  // --- The first of each ---

  /** `xs` with every repetition dropped. */
  function FirstSeen<T(==)>(xs: seq<T>): seq<T> {
    if xs == [] then []
    else
      var init, last := FirstSeen(xs[..|xs| - 1]), xs[|xs| - 1];
      if last in init then init else init + [last]
  }

  ghost predicate Distinct<T>(xs: seq<T>) {
    forall i, j | 0 <= i < j < |xs| :: xs[i] != xs[j]
  }

  /** Nothing is lost, and nothing is there twice. */
  lemma {:induction false} FirstSeenKeepsEachOnce<T>(xs: seq<T>)
    ensures Distinct(FirstSeen(xs))
    ensures forall x :: x in FirstSeen(xs) <==> x in xs
    decreases |xs|
  {
    if xs != [] {
      var init, last := xs[..|xs| - 1], xs[|xs| - 1];
      FirstSeenKeepsEachOnce(init);
      assert xs == init + [last];
      assert forall i | 0 <= i < |FirstSeen(init)| :: FirstSeen(init)[i] in FirstSeen(init);
    }
  }

  /** What is seen first comes first: reading on only appends. */
  lemma {:induction false} FirstSeenGrows<T>(xs: seq<T>, more: seq<T>)
    ensures FirstSeen(xs) <= FirstSeen(xs + more)
    decreases |more|
  {
    if more == [] {
      assert xs + more == xs;
    } else {
      FirstSeenGrows(xs, more[..|more| - 1]);
      assert (xs + more)[..|xs + more| - 1] == xs + more[..|more| - 1];
    }
  }

  // --- Lines ---

  function WordLength(s: string): (n: nat)
    ensures n <= |s|
    ensures s != [] && !IsWhitespace(s[0]) ==> n > 0
  {
    if s == [] || IsWhitespace(s[0]) then 0 else 1 + WordLength(s[1..])
  }

  lemma TrimStartIsNoLonger(s: string)
    ensures |TrimStart(s)| <= |s|
    ensures TrimStart(s) == [] || !IsWhitespace(TrimStart(s)[0])
  {
  }

  /** The runs of text between white space. */
  function Fields(s: string): seq<string>
    decreases |s|
  {
    TrimStartIsNoLonger(s);
    var text := TrimStart(s);
    if text == [] then [] else [text[..WordLength(text)]] + Fields(text[WordLength(text)..])
  }

  datatype Line = Named(fingerprint: string, hosts: string) | Revoked(fingerprint: string) | Hashed

  /** The public keys that parse, each written as its algorithm and its text, with their fingerprints. */
  type Keys = map<string, string>

  predicate StartsWith(s: string, prefix: string) { prefix <= s }

  function ParseKey(keys: Keys, fields: seq<string>): Option<string> {
    if |fields| < 2 then None
    else
      var key := fields[0] + " " + fields[1];
      if key in keys then Some(keys[key]) else None
  }

  function ParseLine(keys: Keys, raw: string): Option<Line> {
    var line := Trim(raw);
    var fields := Fields(line);
    if line == "" || StartsWith(line, "#") || fields == [] then None
    else if fields[0] == "@revoked" then
      if |fields| < 2 then None
      else
        match ParseKey(keys, fields[2..])
        case Some(fingerprint) => Some(Revoked(fingerprint))
        case None => None
    else if StartsWith(fields[0], "@") then None
    else if StartsWith(fields[0], "|1|") then Some(Hashed)
    else
      match ParseKey(keys, fields[1..])
      case Some(fingerprint) => Some(Named(fingerprint, fields[0]))
      case None => None
  }

  predicate IsWord(s: string) { s != "" && forall i | 0 <= i < |s| :: !IsWhitespace(s[i]) }

  predicate IsGap(s: string) { s != "" && IsBlank(s) }

  /** Words with white space between them. */
  function Spaced(words: seq<string>, gaps: seq<string>): string
    requires |words| == |gaps| + 1
  {
    if gaps == [] then words[0] else words[0] + (gaps[0] + Spaced(words[1..], gaps[1..]))
  }

  ghost predicate Separates(words: seq<string>, gaps: seq<string>) {
    && |words| == |gaps| + 1
    && (forall i | 0 <= i < |words| :: IsWord(words[i]))
    && (forall i | 0 <= i < |gaps| :: IsGap(gaps[i]))
  }

  lemma {:induction false} WordIsRead(word: string, rest: string)
    requires forall i | 0 <= i < |word| :: !IsWhitespace(word[i])
    requires rest == "" || IsWhitespace(rest[0])
    ensures WordLength(word + rest) == |word|
  {
    if word == "" {
      assert word + rest == rest;
    } else {
      assert (word + rest)[1..] == word[1..] + rest;
      WordIsRead(word[1..], rest);
    }
  }

  lemma FieldsAfterAWord(word: string, gap: string, rest: string)
    requires IsWord(word) && IsGap(gap)
    ensures Fields(word + (gap + rest)) == [word] + Fields(rest)
  {
    var line := word + (gap + rest);
    WordIsRead(word, gap + rest);
    assert TrimStart(line) == line && line[..|word|] == word && line[|word|..] == gap + rest;
    TrimStartDropsBlank(gap, rest);
  }

  lemma {:induction false} FieldsAreTheWords(words: seq<string>, gaps: seq<string>)
    requires Separates(words, gaps)
    ensures Fields(Spaced(words, gaps)) == words
    decreases |gaps|
  {
    if gaps == [] {
      var line := words[0];
      WordIsRead(line, "");
      assert line + "" == line && line[..|line|] == line && line[|line|..] == "";
      assert Fields("") == [];
    } else {
      FieldsAfterAWord(words[0], gaps[0], Spaced(words[1..], gaps[1..]));
      FieldsAreTheWords(words[1..], gaps[1..]);
    }
  }

  lemma {:induction false} SpacedIsTrim(words: seq<string>, gaps: seq<string>)
    requires Separates(words, gaps)
    ensures var line := Spaced(words, gaps); line != "" && line[0] == words[0][0] && !IsWhitespace(line[|line| - 1])
    decreases |gaps|
  {
    if gaps != [] {
      SpacedIsTrim(words[1..], gaps[1..]);
    }
  }

  lemma TrimmingFinds(line: string, before: string, after: string)
    requires line != "" && !IsWhitespace(line[0]) && !IsWhitespace(line[|line| - 1])
    requires IsBlank(before) && IsBlank(after)
    ensures Trim(before + line + after) == line
  {
    TrimEndDropsBlank(before + line, after);
    assert TrimEnd(before + line) == before + line;
    TrimStartDropsBlank(before, line);
  }

  /** A line is read by its fields alone: what white space stands between and around them is nothing. */
  lemma SpacingDoesNotMatter(keys: Keys, words: seq<string>, gaps: seq<string>, before: string, after: string)
    requires Separates(words, gaps) && IsBlank(before) && IsBlank(after)
    ensures ParseLine(keys, before + Spaced(words, gaps) + after) == ParseLine(keys, Spaced(words, gaps))
    ensures Trim(before + Spaced(words, gaps) + after) == Spaced(words, gaps)
    ensures Fields(Spaced(words, gaps)) == words
  {
    var line := Spaced(words, gaps);
    SpacedIsTrim(words, gaps);
    TrimmingFinds(line, before, after);
    assert TrimStart(line) == TrimEnd(line) == line;
    FieldsAreTheWords(words, gaps);
  }

  /** A revocation is a field, not a prefix of the text: it counts however the line is spaced, and
      whatever follows the key. */
  lemma RevocationCountsHoweverSpaced(keys: Keys, words: seq<string>, gaps: seq<string>, before: string, after: string)
    requires Separates(words, gaps) && IsBlank(before) && IsBlank(after)
    requires |words| >= 4 && words[0] == "@revoked"
    ensures ParseLine(keys, before + Spaced(words, gaps) + after)
         == match ParseKey(keys, words[2..]) case Some(fingerprint) => Some(Revoked(fingerprint)) case None => None
  {
    SpacingDoesNotMatter(keys, words, gaps, before, after);
    SpacedIsTrim(words, gaps);
  }

  /** Everything some files say, line by line. */
  type Record = seq<Option<Line>>

  function Parsed(keys: Keys, lines: seq<string>): (record: Record)
    ensures |record| == |lines|
  {
    if lines == [] then [] else Parsed(keys, lines[..|lines| - 1]) + [ParseLine(keys, lines[|lines| - 1])]
  }

  lemma {:induction false} ParsedAt(keys: Keys, lines: seq<string>, i: nat)
    requires i < |lines|
    ensures Parsed(keys, lines)[i] == ParseLine(keys, lines[i])
    decreases |lines|
  {
    if i < |lines| - 1 {
      ParsedAt(keys, lines[..|lines| - 1], i);
    }
  }

  // --- What a record says of a key ---

  predicate Revokes(record: Record, fingerprint: string) { Some(Revoked(fingerprint)) in record }

  predicate Names(record: Record, fingerprint: string, hosts: string) { Some(Named(fingerprint, hosts)) in record }

  /** The host field a line records against a key, if it does. */
  function HostIn(line: Option<Line>, fingerprint: string): Option<string> {
    match line
    case Some(Named(f, hosts)) => if f == fingerprint then Some(hosts) else None
    case _ => None
  }

  /** Every host field recorded against a key, in file order, repetitions included. */
  function Recorded(record: Record, fingerprint: string): seq<string> {
    if record == [] then []
    else
      var before := Recorded(record[..|record| - 1], fingerprint);
      match HostIn(record[|record| - 1], fingerprint)
      case Some(hosts) => before + [hosts]
      case None => before
  }

  lemma {:induction false} RecordedIsExact(record: Record, fingerprint: string, hosts: string)
    ensures hosts in Recorded(record, fingerprint) <==> Names(record, fingerprint, hosts)
    decreases |record|
  {
    if record != [] {
      RecordedIsExact(record[..|record| - 1], fingerprint, hosts);
      assert record == record[..|record| - 1] + [record[|record| - 1]];
    }
  }

  function HostsOf(record: Record, fingerprint: string): seq<string> {
    FirstSeen(Recorded(record, fingerprint))
  }

  /** How a prompt names a host, given everything that was read. */
  function NameIn(record: Record, fingerprint: string): Option<string> {
    if Revokes(record, fingerprint) || HostsOf(record, fingerprint) == [] then None
    else Some(Join(HostsOf(record, fingerprint), ", "))
  }

  /** A key goes without a name exactly when some line revokes it or no plain line names it; and the
      names it has are the distinct host fields recorded against it, each once. */
  lemma NamelessExactlyWhenRevokedOrUnknown(record: Record, fingerprint: string)
    ensures NameIn(record, fingerprint) == None
       <==> Revokes(record, fingerprint) || !exists hosts :: Names(record, fingerprint, hosts)
    ensures Distinct(HostsOf(record, fingerprint))
    ensures forall hosts :: hosts in HostsOf(record, fingerprint) <==> Names(record, fingerprint, hosts)
  {
    var recorded := Recorded(record, fingerprint);
    FirstSeenKeepsEachOnce(recorded);
    forall hosts
      ensures hosts in FirstSeen(recorded) <==> Names(record, fingerprint, hosts)
    {
      RecordedIsExact(record, fingerprint, hosts);
    }
    if FirstSeen(recorded) != [] {
      assert FirstSeen(recorded)[0] in FirstSeen(recorded);
    }
  }

  /** Names come in the order they are first recorded: reading on only adds to the end. */
  lemma {:induction false} NamesKeepTheirOrder(record: Record, more: Record, fingerprint: string)
    ensures HostsOf(record, fingerprint) <= HostsOf(record + more, fingerprint)
    decreases |more|
  {
    if more == [] {
      assert record + more == record;
    } else {
      var init, last := more[..|more| - 1], more[|more| - 1];
      assert (record + more)[..|record + more| - 1] == record + init;
      NamesKeepTheirOrder(record, init, fingerprint);
      if HostIn(last, fingerprint).Some? {
        FirstSeenGrows(Recorded(record + init, fingerprint), [HostIn(last, fingerprint).value]);
        PrefixesChain(HostsOf(record, fingerprint), HostsOf(record + init, fingerprint), HostsOf(record + more, fingerprint));
      }
    }
  }

  lemma PrefixesChain<T>(a: seq<T>, b: seq<T>, c: seq<T>)
    requires a <= b && b <= c
    ensures a <= c
  {
  }

  lemma SameLinesSameRecord(keys: Keys, a: seq<string>, b: seq<string>)
    requires forall line :: line in a ==> line in b
    ensures forall entry :: entry in Parsed(keys, a) ==> entry in Parsed(keys, b)
  {
    forall i | 0 <= i < |a|
      ensures Parsed(keys, a)[i] in Parsed(keys, b)
    {
      assert a[i] in b;
      var j :| 0 <= j < |b| && b[j] == a[i];
      ParsedAt(keys, a, i);
      ParsedAt(keys, b, j);
    }
  }

  lemma SameMembersSameLength<T>(a: seq<T>, b: seq<T>)
    requires Distinct(a) && Distinct(b) && forall x :: x in a <==> x in b
    ensures |a| == |b|
  {
    DistinctCountsMembers(a);
    DistinctCountsMembers(b);
    assert (set x | x in a) == (set x | x in b);
  }

  lemma {:induction false} DistinctCountsMembers<T>(xs: seq<T>)
    requires Distinct(xs)
    ensures |set x | x in xs| == |xs|
    decreases |xs|
  {
    if xs == [] {
      assert (set x | x in xs) == {};
    } else {
      var init, last := xs[..|xs| - 1], xs[|xs| - 1];
      DistinctCountsMembers(init);
      assert last !in init && xs == init + [last];
      assert (set x | x in xs) == (set x | x in init) + {last};
    }
  }

  // --- Several files ---

  /** The lines of each file, for those that could be read. */
  type Files = seq<Option<seq<string>>>

  /** What every file that could be read says, one file after another. */
  function RecordOf(keys: Keys, files: Files): Record {
    if files == [] then []
    else
      var before := RecordOf(keys, files[..|files| - 1]);
      match files[|files| - 1]
      case Some(lines) => before + Parsed(keys, lines)
      case None => before
  }

  /** The lines of every file that could be read, one file after another. */
  function AllLines(files: Files): seq<string> {
    if files == [] then []
    else
      var before := AllLines(files[..|files| - 1]);
      match files[|files| - 1]
      case Some(lines) => before + lines
      case None => before
  }

  lemma {:induction false} ParsedJoins(keys: Keys, a: seq<string>, b: seq<string>)
    ensures Parsed(keys, a + b) == Parsed(keys, a) + Parsed(keys, b)
    decreases |b|
  {
    if b == [] {
      assert a + b == a;
    } else {
      ParsedJoins(keys, a, b[..|b| - 1]);
      assert (a + b)[..|a + b| - 1] == a + b[..|b| - 1];
    }
  }

  /** Several files say what one file of all their lines would. */
  lemma {:induction false} FilesReadAsOne(keys: Keys, files: Files)
    ensures RecordOf(keys, files) == Parsed(keys, AllLines(files))
    decreases |files|
  {
    if files != [] {
      var init := files[..|files| - 1];
      FilesReadAsOne(keys, init);
      if files[|files| - 1].Some? {
        ParsedJoins(keys, AllLines(init), files[|files| - 1].value);
      }
    }
  }

  lemma {:induction false} LinesAreThoseOfTheFiles(files: Files, line: string)
    ensures line in AllLines(files) <==> exists i | 0 <= i < |files| :: files[i].Some? && line in files[i].value
    decreases |files|
  {
    if files != [] {
      var init := files[..|files| - 1];
      LinesAreThoseOfTheFiles(init, line);
      assert forall i | 0 <= i < |init| :: init[i] == files[i];
    }
  }

  /** Over any files: reordering lines, moving them between files and repeating them changes neither
      whether a key has a name nor which names it has; so revoking a key anywhere is final. */
  lemma OrderDoesNotMatter(keys: Keys, a: Files, b: Files, fingerprint: string)
    requires forall line :: line in AllLines(a) <==> line in AllLines(b)
    ensures NameIn(RecordOf(keys, a), fingerprint) == None <==> NameIn(RecordOf(keys, b), fingerprint) == None
    ensures forall hosts ::
              hosts in HostsOf(RecordOf(keys, a), fingerprint) <==> hosts in HostsOf(RecordOf(keys, b), fingerprint)
    ensures |HostsOf(RecordOf(keys, a), fingerprint)| == |HostsOf(RecordOf(keys, b), fingerprint)|
  {
    FilesReadAsOne(keys, a);
    FilesReadAsOne(keys, b);
    SameLinesSameRecord(keys, AllLines(a), AllLines(b));
    SameLinesSameRecord(keys, AllLines(b), AllLines(a));
    NamelessExactlyWhenRevokedOrUnknown(RecordOf(keys, a), fingerprint);
    NamelessExactlyWhenRevokedOrUnknown(RecordOf(keys, b), fingerprint);
    SameMembersSameLength(HostsOf(RecordOf(keys, a), fingerprint), HostsOf(RecordOf(keys, b), fingerprint));
  }

  /** Reordered and repeated files, and unreadable ones among them, have the same lines. */
  lemma FileOrderDoesNotMatter(keys: Keys, a: Files, b: Files, fingerprint: string)
    requires forall lines :: Some(lines) in a <==> Some(lines) in b
    ensures NameIn(RecordOf(keys, a), fingerprint) == None <==> NameIn(RecordOf(keys, b), fingerprint) == None
    ensures forall hosts ::
              hosts in HostsOf(RecordOf(keys, a), fingerprint) <==> hosts in HostsOf(RecordOf(keys, b), fingerprint)
  {
    forall line
      ensures line in AllLines(a) <==> line in AllLines(b)
    {
      if line in AllLines(a) { LinesOfTheSameFiles(a, b, line); }
      if line in AllLines(b) { LinesOfTheSameFiles(b, a, line); }
    }
    OrderDoesNotMatter(keys, a, b, fingerprint);
  }

  lemma LinesOfTheSameFiles(a: Files, b: Files, line: string)
    requires forall lines :: Some(lines) in a ==> Some(lines) in b
    requires line in AllLines(a)
    ensures line in AllLines(b)
  {
    LinesAreThoseOfTheFiles(a, line);
    LinesAreThoseOfTheFiles(b, line);
    var i :| 0 <= i < |a| && a[i].Some? && line in a[i].value;
    assert Some(a[i].value) in a;
    var j :| 0 <= j < |b| && b[j] == Some(a[i].value);
  }

  lemma {:induction false} FieldsAreNotEmpty(s: string)
    ensures forall i | 0 <= i < |Fields(s)| :: Fields(s)[i] != ""
    decreases |s|
  {
    TrimStartIsNoLonger(s);
    var text := TrimStart(s);
    if text != [] {
      FieldsAreNotEmpty(text[WordLength(text)..]);
    }
  }

  lemma HostFieldsAreNotEmpty(keys: Keys, raw: string)
    ensures ParseLine(keys, raw).Some? && ParseLine(keys, raw).value.Named? ==> ParseLine(keys, raw).value.hosts != ""
  {
    FieldsAreNotEmpty(Trim(raw));
  }

  /** A host has a name or it has none: it is never named by empty text. */
  lemma NamesAreNotEmpty(keys: Keys, files: Files, fingerprint: string)
    ensures NameIn(RecordOf(keys, files), fingerprint) != Some("")
  {
    var lines, record := AllLines(files), RecordOf(keys, files);
    FilesReadAsOne(keys, files);
    if NameIn(record, fingerprint).Some? {
      NamelessExactlyWhenRevokedOrUnknown(record, fingerprint);
      var first := HostsOf(record, fingerprint)[0];
      assert Names(record, fingerprint, first);
      var i :| 0 <= i < |record| && record[i] == Some(Named(fingerprint, first));
      ParsedAt(keys, lines, i);
      HostFieldsAreNotEmpty(keys, lines[i]);
    }
  }

  // --- The index ---

  lemma TakesGrow<T>(before: seq<T>, all: seq<T>, i: nat)
    requires i <= |all|
    ensures before + all[..0] == before && all[..|all|] == all
    ensures i < |all| ==> before + all[..i + 1] == before + all[..i] + [all[i]]
  {
  }

  /** How many of the first `n` lines keep their host as a hash. */
  function HashedIn(record: Record, n: nat): nat
    requires n <= |record|
  {
    if n == 0 then 0 else HashedIn(record, n - 1) + if record[n - 1] == Some(Hashed) then 1 else 0
  }

  /** The names and revocations held are those of the record. */
  ghost predicate Agrees(names: map<string, seq<string>>, revoked: set<string>, record: Record) {
    && (forall f :: f in names <==> HostsOf(record, f) != [])
    && (forall f | f in names :: names[f] == HostsOf(record, f))
    && (forall f :: f in revoked <==> Revokes(record, f))
  }

  lemma HostsAfter(record: Record, line: Option<Line>, f: string)
    ensures HostsOf(record + [line], f)
         == match HostIn(line, f)
            case Some(hosts) => if hosts in HostsOf(record, f) then HostsOf(record, f) else HostsOf(record, f) + [hosts]
            case None => HostsOf(record, f)
  {
    assert (record + [line])[..|record|] == record;
    if HostIn(line, f).Some? {
      var all := Recorded(record, f);
      assert (all + [HostIn(line, f).value])[..|all|] == all;
    }
  }

  lemma NamingAgrees(names: map<string, seq<string>>, revoked: set<string>, record: Record, line: Line)
    requires Agrees(names, revoked, record) && line.Named?
    ensures Agrees(names[line.fingerprint := HostsOf(record + [Some(line)], line.fingerprint)], revoked, record + [Some(line)])
  {
    forall f
      ensures f != line.fingerprint ==> HostsOf(record + [Some(line)], f) == HostsOf(record, f)
      ensures f == line.fingerprint ==> HostsOf(record + [Some(line)], f) != []
      ensures Revokes(record + [Some(line)], f) <==> Revokes(record, f)
    {
      HostsAfter(record, Some(line), f);
    }
  }

  lemma OtherLinesAgree(names: map<string, seq<string>>, revoked: set<string>, record: Record, line: Option<Line>)
    requires Agrees(names, revoked, record) && (line.Some? ==> !line.value.Named?)
    ensures Agrees(names, if line.Some? && line.value.Revoked? then revoked + {line.value.fingerprint} else revoked, record + [line])
  {
    forall f
      ensures HostsOf(record + [line], f) == HostsOf(record, f)
    {
      HostsAfter(record, line, f);
    }
  }

  class Index {
    const keys: Keys
    var names: map<string, seq<string>>
    var revoked: set<string>
    var hashed: nat
    ghost var record: Record

    /** The index says of each key exactly what the lines read so far say. */
    ghost predicate Valid()
      reads this
    {
      Agrees(names, revoked, record)
    }

    constructor (keys: Keys)
      ensures Valid() && record == [] && this.keys == keys
    {
      this.keys := keys;
      names, revoked, hashed, record := map[], {}, 0, [];
    }

    method NoteName(fingerprint: string, hosts: string)
      requires Valid()
      modifies this
      ensures Valid() && record == old(record) + [Some(Named(fingerprint, hosts))] && hashed == old(hashed)
    {
      ghost var line := Named(fingerprint, hosts);
      var seen := if fingerprint in names then names[fingerprint] else [];
      assert seen == HostsOf(record, fingerprint);
      var now := if hosts in seen then seen else seen + [hosts];
      assert now == HostsOf(record + [Some(line)], fingerprint) by {
        HostsAfter(record, Some(line), fingerprint);
      }
      NamingAgrees(names, revoked, record, line);
      names, record := names[fingerprint := now], record + [Some(line)];
    }

    method Note(line: Option<Line>)
      requires Valid()
      modifies this
      ensures Valid() && record == old(record) + [line]
      ensures hashed == old(hashed) + if line == Some(Hashed) then 1 else 0
    {
      match line
      case Some(Named(fingerprint, hosts)) =>
        NoteName(fingerprint, hosts);
      case Some(Revoked(fingerprint)) =>
        OtherLinesAgree(names, revoked, record, line);
        revoked := revoked + {fingerprint};
        record := record + [line];
      case Some(Hashed) =>
        OtherLinesAgree(names, revoked, record, line);
        hashed := hashed + 1;
        record := record + [line];
      case None =>
        OtherLinesAgree(names, revoked, record, line);
        record := record + [line];
    }

    /** Takes a file into the record. */
    method Add(lines: seq<string>)
      requires Valid()
      modifies this
      ensures Valid() && record == old(record) + Parsed(keys, lines)
      ensures hashed == old(hashed) + HashedIn(Parsed(keys, lines), |lines|)
    {
      ghost var before, all := record, Parsed(keys, lines);
      TakesGrow(before, all, 0);
      for i := 0 to |lines|
        invariant Valid() && record == before + all[..i]
        invariant hashed == old(hashed) + HashedIn(all, i)
      {
        ParsedAt(keys, lines, i);
        TakesGrow(before, all, i);
        Note(ParseLine(keys, lines[i]));
      }
      TakesGrow(before, all, |lines|);
    }

    method NameFor(fingerprint: string) returns (name: Option<string>)
      requires Valid()
      ensures name == NameIn(record, fingerprint)
    {
      if fingerprint in revoked {
        return None;
      }
      name := if fingerprint in names then Some(Join(names[fingerprint], ", ")) else None;
    }
  }

  method IndexFiles(keys: Keys, files: Files) returns (index: Index)
    ensures fresh(index) && index.Valid() && index.record == RecordOf(keys, files)
  {
    index := new Index(keys);
    for i := 0 to |files|
      invariant index.Valid() && fresh(index) && index.keys == keys && index.record == RecordOf(keys, files[..i])
    {
      assert files[..i + 1][..i] == files[..i];
      if files[i].Some? {
        index.Add(files[i].value);
      }
    }
    assert files[..|files|] == files;
  }

  method LookUp(index: Index, fingerprints: seq<string>) returns (names: seq<Option<string>>)
    requires index.Valid()
    ensures |names| == |fingerprints|
    ensures forall i | 0 <= i < |names| :: names[i] == NameIn(index.record, fingerprints[i])
  {
    names := [];
    for i := 0 to |fingerprints|
      invariant |names| == i
      invariant forall j | 0 <= j < i :: names[j] == NameIn(index.record, fingerprints[j])
    {
      var name := index.NameFor(fingerprints[i]);
      names := names + [name];
    }
  }

  /** `NameIn` of each fingerprint over all files, or nothing at all if the lookup was cut short. */
  method NamesFor(keys: Keys, files: Files, fingerprints: seq<string>, finished: bool)
    returns (names: seq<Option<string>>)
    ensures finished ==> |names| == |fingerprints|
    ensures finished ==> forall i | 0 <= i < |names| :: names[i] == NameIn(RecordOf(keys, files), fingerprints[i])
    ensures !finished ==> names == []
  {
    if fingerprints == [] || !finished {
      return [];
    }
    var index := IndexFiles(keys, files);
    names := LookUp(index, fingerprints);
  }
}
