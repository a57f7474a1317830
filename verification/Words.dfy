/** What the words of a prompt tell of the question an answer is remembered under (src/confirm/mod.rs). */
module Words {
  import opened Basics
  import opened Strings
  import opened Text
  import opened Binding
  import opened Requester
  import opened Confirm

  // --- Reading the prompt line by line ---

  /** What may follow a line: nothing, or the break that starts another. */
  predicate IsRest(s: string) { s == "" || s[0] == '\n' }

  lemma LineIsRecovered(x: string, restX: string, y: string, restY: string)
    requires Without(x, '\n') && Without(y, '\n') && IsRest(restX) && IsRest(restY)
    requires x + restX == y + restY
    ensures x == y && restX == restY
  {
    var s, t := x + restX, y + restY;
    assert restX != "" ==> s[|x|] == '\n';
    assert restY != "" ==> t[|y|] == '\n';
    assert forall i | 0 <= i < |x| :: s[i] == x[i];
    assert forall i | 0 <= i < |y| :: t[i] == y[i];
    assert |x| == |y|;
    assert x == s[..|x|] && y == t[..|y|] && restX == s[|x|..] && restY == t[|y|..];
  }

  lemma FrontIsRecovered<T>(front: seq<T>, x: seq<T>, y: seq<T>)
    requires front + x == front + y
    ensures x == y
  {
    assert x == (front + x)[|front|..] && y == (front + y)[|front|..];
  }

  lemma BackIsRecovered<T>(x: seq<T>, y: seq<T>, back: seq<T>)
    requires x + back == y + back
    ensures x == y
  {
    assert |x + back| == |x| + |back| && |y + back| == |y| + |back|;
    assert x == (x + back)[..|x|] && y == (y + back)[..|y|];
  }

  /** A labelled line, and what follows it. */
  function Then(title: string, text: string, rest: string): string { Labelled(title, text) + rest }

  lemma FieldIsRecovered(title: string, x: string, restX: string, y: string, restY: string)
    requires Without(x, '\n') && Without(y, '\n') && IsRest(restX) && IsRest(restY)
    requires Then(title, x, restX) == Then(title, y, restY)
    ensures x == y && restX == restY
  {
    assert Then(title, x, restX) == ("\n" + title) + (x + restX);
    assert Then(title, y, restY) == ("\n" + title) + (y + restY);
    FrontIsRecovered("\n" + title, x + restX, y + restY);
    LineIsRecovered(x, restX, y, restY);
  }

  // --- The requester's line ---

  function PidText(ctx: Context): string
    requires ctx.peer.Some?
  {
    if ctx.peer.value.pid.Some? then Decimal(ctx.peer.value.pid.value) else "0"
  }

  function Ids(pid: string, uid: string): string { " (pid " + pid + ", uid " + uid + ")" }

  lemma LastNumberIsRecovered(x: string, u: string, y: string, v: string)
    requires forall i | 0 <= i < |u| :: IsDigit(u[i])
    requires forall i | 0 <= i < |v| :: IsDigit(v[i])
    requires x != "" && !IsDigit(x[|x| - 1]) && y != "" && !IsDigit(y[|y| - 1])
    requires x + u == y + v
    ensures x == y && u == v
  {
    var s, t := x + u, y + v;
    assert s[|x| - 1] == x[|x| - 1] && t[|y| - 1] == y[|y| - 1];
    assert forall i | |x| <= i < |s| :: IsDigit(s[i]);
    assert forall i | |y| <= i < |t| :: IsDigit(t[i]);
    assert |x| == |y|;
    assert x == s[..|x|] && y == t[..|y|] && u == s[|x|..] && v == t[|y|..];
  }

  lemma IdsAreRecovered(process: string, other: string, pid: string, uid: nat, otherUid: nat)
    requires process + Ids(pid, Decimal(uid)) == other + Ids(pid, Decimal(otherUid))
    ensures process == other && uid == otherUid
  {
    var middle := " (pid " + pid + ", uid ";
    assert process + Ids(pid, Decimal(uid)) == ((process + middle) + Decimal(uid)) + ")";
    assert other + Ids(pid, Decimal(otherUid)) == ((other + middle) + Decimal(otherUid)) + ")";
    BackIsRecovered((process + middle) + Decimal(uid), (other + middle) + Decimal(otherUid), ")");
    assert middle[|middle| - 1] == ' ';
    LastNumberIsRecovered(process + middle, Decimal(uid), other + middle, Decimal(otherUid));
    BackIsRecovered(process, other, middle);
    DecimalIsInjective(uid, otherUid);
  }

  // --- The whole prompt ---

  /** The first line of what is said of the requester. */
  function Who(ctx: Context): string {
    if ctx.peer.None? then "unknown"
    else
      var uid := Decimal(ctx.peer.value.uid);
      if ctx.requester.Some? then ctx.requester.value.process + Ids(PidText(ctx), uid)
      else if ctx.peer.value.pid.None? then "uid " + uid
      else "unknown process" + Ids(PidText(ctx), uid)
  }

  function Started(ctx: Context): string {
    if ctx.peer.None? || ctx.requester.None? || ctx.requester.value.origin == [] then ""
    else Labelled("Started from: ", Join(NamesOf(ctx.requester.value.origin), ARROW))
  }

  function Session(chain: Chain): string {
    if chain == [] then ""
    else if AnyForwarding(chain) then WARNING + Labelled("SSH session: ", Join(HopsShown(chain), ARROW))
    else Labelled("SSH session: ", Join(HopsShown(chain), ARROW))
  }

  /** All that follows the requester's own line. */
  function Rest(ctx: Context): string { Started(ctx) + Session(ctx.bindings) }

  function TitleThen(rest: string): string { "SSH signature request\n" + rest }

  /** The prompt as a title, four labelled lines, and the rest. */
  function Told(ctx: Context): string {
    TitleThen(Then("Key: ", DisplayBounded(ctx.keyName),
      Then("Fingerprint: ", Escaped(ctx.fingerprint),
        Then("LastPass item: ", Escaped(ctx.itemId),
          Then("Requested by: ", Who(ctx), Rest(ctx))))))
  }

  lemma RequesterIsTold(ctx: Context)
    ensures RequestedBy(ctx) == Who(ctx) + Started(ctx)
  {
    if ctx.peer.Some? {
      var pid, uid := PidText(ctx), Decimal(ctx.peer.value.uid);
      if ctx.requester.Some? {
        IdsAreWritten(ctx.requester.value.process, pid, uid);
      } else {
        IdsAreWritten("unknown process", pid, uid);
        assert "unknown process (pid " == "unknown process" + " (pid ";
      }
    }
  }

  lemma IdsAreWritten(process: string, pid: string, uid: string)
    ensures process + " (pid " + pid + ", uid " + uid + ")" == process + Ids(pid, uid)
    ensures (process + " (pid ") + pid + ", uid " + uid + ")" == process + Ids(pid, uid)
  {
  }

  lemma SessionIsTold(ctx: Context)
    ensures DescribeRequest(ctx) == Heading(ctx) + Session(ctx.bindings)
  {
    if ctx.bindings != [] && AnyForwarding(ctx.bindings) {
      Regroups(Heading(ctx), WARNING, Labelled("SSH session: ", Join(HopsShown(ctx.bindings), ARROW)));
    }
  }

  lemma Regroups<T>(a: seq<T>, b: seq<T>, c: seq<T>)
    ensures (a + b) + c == a + (b + c)
  {
  }

  lemma LinesRegroup<T>(t: seq<T>, a: seq<T>, b: seq<T>, c: seq<T>, d: seq<T>, rest: seq<T>)
    ensures t + a + b + c + d + rest == t + (a + (b + (c + (d + rest))))
  {
  }

  lemma LabelledRegroups(title: string, text: string, more: string, rest: string)
    ensures Labelled(title, text + more) + rest == Then(title, text, more + rest)
  {
  }

  lemma PromptIsTold(ctx: Context)
    ensures DescribeRequest(ctx) == Told(ctx)
  {
    SessionIsTold(ctx);
    RequesterIsTold(ctx);
    LinesRegroup("SSH signature request\n", Labelled("Key: ", DisplayBounded(ctx.keyName)),
                 Labelled("Fingerprint: ", Escaped(ctx.fingerprint)), Labelled("LastPass item: ", Escaped(ctx.itemId)),
                 Labelled("Requested by: ", RequestedBy(ctx)), Session(ctx.bindings));
    LabelledRegroups("Requested by: ", Who(ctx), Started(ctx), Session(ctx.bindings));
  }

  lemma BoundedIsALine(text: string)
    ensures Without(DisplayBounded(text), '\n')
  {
    BoundedIsInert(text);
    InertIsWithout(DisplayBounded(text), '\n');
  }

  lemma IdsAreALine(process: string, pid: string, uid: nat)
    requires Without(process, '\n') && Without(pid, '\n')
    ensures Without(process + Ids(pid, Decimal(uid)), '\n')
  {
    DecimalIsALine(uid);
  }

  lemma DecimalIsALine(n: nat)
    ensures Without(Decimal(n), '\n')
  {
    DecimalIsInert(n);
    InertIsWithout(Decimal(n), '\n');
  }

  lemma WhoIsALine(ctx: Context)
    requires WellBuilt(ctx)
    ensures Without(Who(ctx), '\n')
  {
    if ctx.peer.Some? {
      var uid := ctx.peer.value.uid;
      if ctx.peer.value.pid.Some? { DecimalIsALine(ctx.peer.value.pid.value); }
      DecimalIsALine(uid);
      if ctx.requester.Some? {
        InertIsWithout(ctx.requester.value.process, '\n');
        IdsAreALine(ctx.requester.value.process, PidText(ctx), uid);
      } else {
        IdsAreALine("unknown process", PidText(ctx), uid);
      }
    }
  }

  lemma RestIsRest(ctx: Context)
    ensures IsRest(Rest(ctx))
  {
  }

  /** Every line of the prompt can be told apart from the next. */
  lemma LinesAreRecovered(a: Context, b: Context)
    requires WellBuilt(a) && WellBuilt(b) && DescribeRequest(a) == DescribeRequest(b)
    ensures DisplayBounded(a.keyName) == DisplayBounded(b.keyName)
    ensures Escaped(a.fingerprint) == Escaped(b.fingerprint) && Escaped(a.itemId) == Escaped(b.itemId)
    ensures Who(a) == Who(b) && Rest(a) == Rest(b)
  {
    PromptIsTold(a);
    PromptIsTold(b);
    WhoIsALine(a);
    WhoIsALine(b);
    BoundedIsALine(a.keyName);
    BoundedIsALine(b.keyName);
    EscapedIsWithout(a.fingerprint, '\n');
    EscapedIsWithout(b.fingerprint, '\n');
    EscapedIsWithout(a.itemId, '\n');
    EscapedIsWithout(b.itemId, '\n');
    RestIsRest(a);
    RestIsRest(b);
    ToldLinesAreRecovered(DisplayBounded(a.keyName), Escaped(a.fingerprint), Escaped(a.itemId), Who(a), Rest(a),
                          DisplayBounded(b.keyName), Escaped(b.fingerprint), Escaped(b.itemId), Who(b), Rest(b));
  }

  lemma ToldLinesAreRecovered(k: string, f: string, i: string, w: string, r: string,
                              k': string, f': string, i': string, w': string, r': string)
    requires Without(k, '\n') && Without(f, '\n') && Without(i, '\n') && Without(w, '\n') && IsRest(r)
    requires Without(k', '\n') && Without(f', '\n') && Without(i', '\n') && Without(w', '\n') && IsRest(r')
    requires TitleThen(Then("Key: ", k, Then("Fingerprint: ", f, Then("LastPass item: ", i, Then("Requested by: ", w, r)))))
          == TitleThen(Then("Key: ", k', Then("Fingerprint: ", f', Then("LastPass item: ", i', Then("Requested by: ", w', r')))))
    ensures k == k' && f == f' && i == i' && w == w' && r == r'
  {
    var who, who' := Then("Requested by: ", w, r), Then("Requested by: ", w', r');
    var item, item' := Then("LastPass item: ", i, who), Then("LastPass item: ", i', who');
    var mark, mark' := Then("Fingerprint: ", f, item), Then("Fingerprint: ", f', item');
    FrontIsRecovered("SSH signature request\n", Then("Key: ", k, mark), Then("Key: ", k', mark'));
    FieldIsRecovered("Key: ", k, mark, k', mark');
    FieldIsRecovered("Fingerprint: ", f, item, f', item');
    FieldIsRecovered("LastPass item: ", i, who, i', who');
    FieldIsRecovered("Requested by: ", w, r, w', r');
  }

  // --- Equal words, and one question or two ---

  /** The words of a request, with the process id they might have had. */
  function WordsOf(ctx: Context, pid: Option<nat>): string {
    DescribeRequest(if ctx.peer.Some? then WithPid(ctx, pid) else ctx)
  }

  /** Two contexts that agree on what a question is about and the words need not show: the ancestors'
      paths, the whole of the key's name, and of each hop the key and whether it is forwarding. */
  predicate SameUnshown(a: Context, b: Context)
    requires a.requester.Some? && b.requester.Some?
  {
    && PathsOf(a.requester.value.origin) == PathsOf(b.requester.value.origin)
    && Escaped(a.keyName) == Escaped(b.keyName)
    && |a.bindings| == |b.bindings|
    && forall i | 0 <= i < |a.bindings| :: SameHopText(a.bindings[i], b.bindings[i])
  }

  /** What the words always show: the item, the key, the requester and its user. */
  lemma ShownFieldsAreRecovered(a: Context, b: Context, pid: Option<nat>)
    requires WellBuilt(a) && WellBuilt(b) && a.peer.Some? && a.requester.Some? && b.peer.Some? && b.requester.Some?
    requires WordsOf(a, pid) == WordsOf(b, pid)
    ensures Escaped(a.itemId) == Escaped(b.itemId) && Escaped(a.fingerprint) == Escaped(b.fingerprint)
    ensures DisplayBounded(a.keyName) == DisplayBounded(b.keyName)
    ensures a.requester.value.process == b.requester.value.process && a.peer.value.uid == b.peer.value.uid
    ensures Rest(a) == Rest(b)
  {
    var x, y := WithPid(a, pid), WithPid(b, pid);
    LinesAreRecovered(x, y);
    IdsAreRecovered(a.requester.value.process, b.requester.value.process, PidText(x), a.peer.value.uid, b.peer.value.uid);
    assert Rest(x) == Rest(a) && Rest(y) == Rest(b);
  }

  /** Over all requests of known requesters that read the same: the question is one exactly when they
      agree on what the words do not show. */
  lemma SameWordsAreOneQuestionExactly(a: Context, b: Context, pid: Option<nat>)
    requires WellBuilt(a) && WellBuilt(b) && a.peer.Some? && a.requester.Some? && b.peer.Some? && b.requester.Some?
    requires WordsOf(a, pid) == WordsOf(b, pid)
    ensures Question(a) == Question(b) <==> SameUnshown(a, b)
  {
    ShownFieldsAreRecovered(a, b, pid);
    QuestionsAreUnambiguous(a, b);
    if SameUnshown(a, b) {
      SamePathsSameOrigin(a.requester.value.origin, b.requester.value.origin);
    }
  }

  // --- When the words settle the question ---

  const UNKNOWN := "unknown process"

  /** Nothing about the request is shown by name, cut short, or ambiguous: no ancestors and no hops, a key
      name within the bound, and a requester that does not pass for an unknown one. */
  predicate ShowsAll(ctx: Context)
    requires ctx.requester.Some?
  {
    && ctx.requester.value.origin == [] && ctx.bindings == []
    && |Escaped(ctx.keyName)| <= MAX_DISPLAY_CHARS
    && ctx.requester.value.process != UNKNOWN
  }

  lemma WholeNamesAreRecovered(a: string, b: string)
    requires |Escaped(a)| <= MAX_DISPLAY_CHARS && DisplayBounded(a) == DisplayBounded(b)
    ensures Escaped(a) == Escaped(b)
  {
  }

  lemma NothingMeansNothing(ctx: Context)
    requires ctx.peer.Some? && ctx.requester.Some? && Rest(ctx) == ""
    ensures ctx.requester.value.origin == [] && ctx.bindings == []
  {
  }

  /** A request whose requester is not known reads like one that is only if that one is called so. */
  lemma UnknownReadsUnknown(a: Context, b: Context, pid: nat)
    requires WellBuilt(a) && WellBuilt(b) && a.peer.Some? && a.requester.Some?
    requires b.peer.None? || b.requester.None?
    requires WordsOf(a, Some(pid)) == WordsOf(b, Some(pid))
    ensures a.requester.value.process == UNKNOWN
  {
    var x, y := WithPid(a, Some(pid)), if b.peer.Some? then WithPid(b, Some(pid)) else b;
    LinesAreRecovered(x, y);
    var line := Who(x);
    assert line[|line| - 1] == ')';
    if b.peer.None? {
      assert false;
    } else {
      IdsAreRecovered(a.requester.value.process, UNKNOWN, PidText(x), a.peer.value.uid, b.peer.value.uid);
    }
  }

  lemma AllShownSettlesIt(a: Context, b: Context, pid: nat)
    requires WellBuilt(a) && WellBuilt(b) && a.peer.Some? && a.requester.Some? && ShowsAll(a)
    requires WordsOf(a, Some(pid)) == WordsOf(b, Some(pid))
    ensures Question(a) == Question(b)
  {
    if b.peer.None? || b.requester.None? {
      UnknownReadsUnknown(a, b, pid);
      assert false;
    } else {
      ShownFieldsAreRecovered(a, b, Some(pid));
      NothingMeansNothing(b);
      WholeNamesAreRecovered(a.keyName, b.keyName);
      SameWordsAreOneQuestionExactly(a, b, Some(pid));
    }
  }

  // --- And when they do not ---

  /** The other request reads the same under every process id, and is another question. */
  predicate ReadsAlikeButDiffers(a: Context, b: Context, pid: nat) {
    WellBuilt(b) && WordsOf(a, Some(pid)) == WordsOf(b, Some(pid)) && Question(a) != Question(b)
  }

  /** A first part too short to be a bundle names nothing. */
  lemma BundleIgnoresAShortPart(part: string, path: string)
    requires |part| <= 1 && part != "/"
    ensures Bundle(part + "/" + path) == Bundle(path)
  {
    var longer := part + "/" + path;
    assert longer[|part|..|part| + 1] == "/" && longer[..|part|] == part;
    assert Find(longer, "/", |part|) == Some(|part|);
    assert part != "" ==> longer[0..1] == part;
    assert longer[|part| + 1..] == path;
  }

  lemma SlashesMoveUp(dir: string, path: string, k: nat)
    ensures OccursAt(dir + path, "/", |dir| + k) <==> OccursAt(path, "/", k)
  {
    if k + 1 <= |path| {
      assert (dir + path)[|dir| + k..|dir| + k + 1] == path[k..k + 1];
    }
  }

  lemma LastSlashMovesUp(dir: string, path: string)
    requires dir != "" && dir[|dir| - 1] == '/'
    ensures var slash := FindLast(path, "/", |path|);
      FindLast(dir + path, "/", |dir + path|) == Some(if slash.Some? then |dir| + slash.value else |dir| - 1)
  {
    var slash := FindLast(path, "/", |path|);
    var last := if slash.Some? then |dir| + slash.value else |dir| - 1;
    if slash.Some? {
      FindLastIsExact(path, "/", |path|, slash.value);
      SlashesMoveUp(dir, path, slash.value);
    } else {
      NoSlashAnywhere(path, |path|);
      assert (dir + path)[last..last + 1] == "/";
    }
    forall k | last < k < |dir + path| ensures !OccursAt(dir + path, "/", k) {
      SlashesMoveUp(dir, path, k - |dir|);
    }
    FindLastIsExact(dir + path, "/", |dir + path|, last);
  }

  lemma FileNameIgnoresTheDirectory(dir: string, path: string)
    requires dir != "" && dir[|dir| - 1] == '/'
    ensures FileName(dir + path) == FileName(path)
  {
    LastSlashMovesUp(dir, path);
    var slash := FindLast(path, "/", |path|);
    if slash.Some? {
      assert (dir + path)[|dir| + slash.value + 1..] == path[slash.value + 1..];
    } else {
      assert (dir + path)[|dir|..] == path;
    }
  }

  lemma {:induction false} NoSlashAnywhere(path: string, end: nat)
    requires FindLast(path, "/", end).None?
    ensures forall k | 0 <= k < end :: !OccursAt(path, "/", k)
  {
    if end > 0 {
      NoSlashAnywhere(path, end - 1);
    }
  }

  lemma NameIgnoresAShortPart(part: string, path: string)
    requires |part| <= 1 && part != "/"
    ensures DisplayName(part + "/" + path) == DisplayName(path)
  {
    BundleIgnoresAShortPart(part, path);
    FileNameIgnoresTheDirectory(part + "/", path);
  }

  predicate IsAbsolute(path: string) { path != "" && path[0] == '/' }

  /** A file of the same name in another directory. */
  function Elsewhere(path: string): string {
    if IsAbsolute(path) then "/a" + path else "/b/" + path
  }

  lemma ElsewhereIsNamedAlike(path: string)
    ensures DisplayName(Elsewhere(path)) == DisplayName(path)
  {
    var part, below := if IsAbsolute(path) then "a" else "b", if IsAbsolute(path) then path[1..] else path;
    assert Elsewhere(path) == "" + "/" + (part + "/" + below);
    NameIgnoresAShortPart("", part + "/" + below);
    NameIgnoresAShortPart(part, below);
    if IsAbsolute(path) {
      assert path == "" + "/" + below;
      NameIgnoresAShortPart("", below);
    }
  }

  lemma ElsewhereIsElsewhere(path: string, other: string)
    requires Elsewhere(path) == Elsewhere(other)
    ensures path == other
  {
    assert Elsewhere(path)[1] == if IsAbsolute(path) then 'a' else 'b';
    assert Elsewhere(other)[1] == if IsAbsolute(other) then 'a' else 'b';
    FrontIsRecovered(if IsAbsolute(path) then "/a" else "/b/", path, other);
  }

  /** Ancestors of the same names, each in another directory. */
  function Moved(origin: seq<Ancestor>): (moved: seq<Ancestor>)
    ensures |moved| == |origin|
    ensures forall i | 0 <= i < |origin| :: moved[i] == Ancestor(origin[i].name, Elsewhere(origin[i].path))
  {
    seq(|origin|, i requires 0 <= i < |origin| => Ancestor(origin[i].name, Elsewhere(origin[i].path)))
  }

  lemma MovedIsWellDescribed(origin: seq<Ancestor>)
    requires WellDescribed(origin)
    ensures WellDescribed(Moved(origin)) && NamesOf(Moved(origin)) == NamesOf(origin)
  {
    forall i | 0 <= i < |origin| ensures WellNamed(Moved(origin)[i]) {
      assert WellNamed(origin[i]);
      ElsewhereIsNamedAlike(origin[i].path);
    }
    forall i | 0 <= i < |origin| - 1 ensures Moved(origin)[i].path != Moved(origin)[i + 1].path {
      if Elsewhere(origin[i].path) == Elsewhere(origin[i + 1].path) {
        ElsewhereIsElsewhere(origin[i].path, origin[i + 1].path);
      }
    }
  }

  /** Ancestors are shown by name: other files of those names read the same. */
  lemma AncestorsMayDiffer(a: Context, pid: nat) returns (b: Context)
    requires WellBuilt(a) && a.peer.Some? && a.requester.Some? && a.requester.value.origin != []
    ensures ReadsAlikeButDiffers(a, b, pid)
  {
    var origin := a.requester.value.origin;
    b := a.(requester := Some(a.requester.value.(origin := Moved(origin))));
    MovedIsWellDescribed(origin);
    SameNamesAreOneQuestionIfTheirFilesAre(a, b);
    SameNamesSameWords(WithPid(a, Some(pid)), WithPid(b, Some(pid)));
    assert |Moved(origin)[0].path| != |origin[0].path|;
  }

  /** Another fingerprint of the same form: its last character stands for whole bits and zeros, as both
      of these do. */
  function OtherKey(fingerprint: string): string
    requires fingerprint != ""
  {
    var last := |fingerprint| - 1;
    fingerprint[last := if fingerprint[last] == 'A' then 'E' else 'A']
  }

  lemma OtherKeyReadsOtherwise(fingerprint: string)
    requires fingerprint != ""
    ensures Escaped(OtherKey(fingerprint)) != Escaped(fingerprint)
  {
    var other, last := OtherKey(fingerprint), |fingerprint| - 1;
    var front := Escaped(fingerprint[..last]);
    assert other[..last] == fingerprint[..last];
    assert Escaped(other) == front + EscapedChar(other[last]) == front + [other[last]];
    assert Escaped(fingerprint) == front + EscapedChar(fingerprint[last]);
    assert EscapedChar(fingerprint[last])[0] != other[last];
    if front + EscapedChar(fingerprint[last]) == front + [other[last]] {
      FrontIsRecovered(front, EscapedChar(fingerprint[last]), [other[last]]);
    }
  }

  /** The first hop with the other of the two things it could have been shown by. */
  function OtherHop(hop: SessionBinding): SessionBinding
    requires hop.fingerprint != ""
  {
    if hop.hostName.Some? then hop.(fingerprint := OtherKey(hop.fingerprint))
    else hop.(hostName := Some(hop.fingerprint))
  }

  lemma OtherHopReadsAlike(hop: SessionBinding)
    requires hop.fingerprint != ""
    ensures HopShown(OtherHop(hop)) == HopShown(hop) && !SameHopText(hop, OtherHop(hop))
  {
    if hop.hostName.Some? {
      OtherKeyReadsOtherwise(hop.fingerprint);
    }
  }

  lemma OneHopReadsAlike(chain: Chain, other: SessionBinding)
    requires chain != [] && HopShown(other) == HopShown(chain[0]) && other.isForwarding == chain[0].isForwarding
    ensures Session(chain[0 := other]) == Session(chain)
  {
    assert HopsShown(chain[0 := other]) == HopsShown(chain);
    forall i | 0 <= i < |chain| ensures chain[0 := other][i].isForwarding == chain[i].isForwarding {
    }
  }

  lemma OneHopSameWords(a: Context, other: SessionBinding, pid: nat)
    requires a.peer.Some? && a.bindings != [] && HopShown(other) == HopShown(a.bindings[0])
    requires other.isForwarding == a.bindings[0].isForwarding
    ensures WordsOf(a.(bindings := a.bindings[0 := other]), Some(pid)) == WordsOf(a, Some(pid))
  {
    var x := WithPid(a, Some(pid));
    var y := WithPid(a.(bindings := a.bindings[0 := other]), Some(pid));
    OneHopReadsAlike(a.bindings, other);
    SessionIsTold(x);
    SessionIsTold(y);
    assert Heading(x) == Heading(y);
  }

  lemma OtherHopAsksOtherwise(a: Context, other: SessionBinding)
    requires WellBuilt(a) && a.peer.Some? && a.requester.Some? && a.bindings != []
    requires other.hostName != Some("") && !SameHopText(a.bindings[0], other)
    ensures var b := a.(bindings := a.bindings[0 := other]);
      WellBuilt(b) && Question(a) != Question(b)
  {
    var b := a.(bindings := a.bindings[0 := other]);
    QuestionsAreUnambiguous(a, b);
    assert !SameHopText(a.bindings[0], b.bindings[0]);
  }

  /** A hop is shown by its name or by its key, never both: another key of that name, or a host named by
      that fingerprint, reads the same. */
  lemma HopsMayDiffer(a: Context, pid: nat) returns (b: Context)
    requires WellBuilt(a) && a.peer.Some? && a.requester.Some? && a.bindings != []
    requires a.bindings[0].fingerprint != ""
    ensures ReadsAlikeButDiffers(a, b, pid)
  {
    var other := OtherHop(a.bindings[0]);
    OtherHopReadsAlike(a.bindings[0]);
    b := a.(bindings := a.bindings[0 := other]);
    OneHopSameWords(a, other, pid);
    OtherHopAsksOtherwise(a, other);
  }

  lemma LongNamesHaveTwins(text: string) returns (other: string)
    requires |Escaped(text)| > MAX_DISPLAY_CHARS
    ensures DisplayBounded(other) == DisplayBounded(text) && Escaped(other) != Escaped(text)
  {
    var name := Escaped(text);
    var last := |name| - 1;
    other := name[last := if name[last] == 'x' then 'y' else 'x'];
    EscapedIsInert(text);
    InertIsUnchanged(other);
    assert name[..MAX_DISPLAY_CHARS] == other[..MAX_DISPLAY_CHARS];
    assert other[last] != name[last];
  }

  lemma OtherNameSameWords(a: Context, name: string, pid: nat)
    requires a.peer.Some? && DisplayBounded(name) == DisplayBounded(a.keyName)
    ensures WordsOf(a.(keyName := name), Some(pid)) == WordsOf(a, Some(pid))
  {
    var x, y := WithPid(a, Some(pid)), WithPid(a.(keyName := name), Some(pid));
    PromptIsTold(x);
    PromptIsTold(y);
    assert Who(x) == Who(y) && Rest(x) == Rest(y);
  }

  /** A name cut at the bound has others that are cut alike. */
  lemma LongNamesMayDiffer(a: Context, pid: nat) returns (b: Context)
    requires WellBuilt(a) && a.peer.Some? && a.requester.Some? && |Escaped(a.keyName)| > MAX_DISPLAY_CHARS
    ensures ReadsAlikeButDiffers(a, b, pid)
  {
    var name := LongNamesHaveTwins(a.keyName);
    b := a.(keyName := name);
    OtherNameSameWords(a, name, pid);
    QuestionsAreUnambiguous(a, b);
  }

  /** An unknown requester has no question at all, and may read like one that is called so. */
  lemma UnknownMayBeAName(a: Context, pid: nat) returns (b: Context)
    requires WellBuilt(a) && a.peer.Some? && a.requester.Some?
    requires a.requester.value.process == UNKNOWN && a.requester.value.origin == []
    ensures ReadsAlikeButDiffers(a, b, pid)
  {
    b := a.(requester := None);
    var x, y := WithPid(a, Some(pid)), WithPid(b, Some(pid));
    PromptIsTold(x);
    PromptIsTold(y);
    assert Who(x) == Who(y) && Rest(x) == Rest(y);
  }

  /** The words of a request settle its question, whatever else might be asking, exactly when they show
      all there is to it: other directories, host keys, key names and requesters would do as well. Host-key
      fingerprints are never empty. */
  lemma WordsSettleTheQuestionExactly(a: Context, pid: nat)
    requires WellBuilt(a) && a.peer.Some? && a.requester.Some?
    requires forall i | 0 <= i < |a.bindings| :: a.bindings[i].fingerprint != ""
    ensures ShowsAll(a) <==> forall b: Context :: !ReadsAlikeButDiffers(a, b, pid)
  {
    if ShowsAll(a) {
      forall b: Context ensures !ReadsAlikeButDiffers(a, b, pid) {
        if WellBuilt(b) && WordsOf(a, Some(pid)) == WordsOf(b, Some(pid)) {
          AllShownSettlesIt(a, b, pid);
        }
      }
    } else if a.requester.value.origin != [] {
      var b := AncestorsMayDiffer(a, pid);
    } else if a.bindings != [] {
      var b := HopsMayDiffer(a, pid);
    } else if |Escaped(a.keyName)| > MAX_DISPLAY_CHARS {
      var b := LongNamesMayDiffer(a, pid);
    } else {
      var b := UnknownMayBeAName(a, pid);
    }
  }
}
