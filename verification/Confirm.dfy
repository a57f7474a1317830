/** The words of a prompt, and the question its answer is remembered under (src/confirm/mod.rs). */
module Confirm {
  import opened Basics
  import opened Strings
  import opened Text
  import opened Requester
  import opened Binding

  datatype PeerInfo = PeerInfo(pid: Option<nat>, uid: nat)

  datatype Context = Context(
    keyName: string,
    fingerprint: string,
    itemId: string,
    peer: Option<PeerInfo>,
    requester: Option<Requester>,
    bindings: Chain)

  /** As contexts are built: the requester's text escaped when it was looked up, paths and recorded
      names non-empty, and a requester only ever found by a pid. */
  predicate WellBuilt(ctx: Context) {
    && (ctx.requester.Some? ==>
          && Inert(ctx.requester.value.process)
          && WellDescribed(ctx.requester.value.origin)
          && forall i | 0 <= i < |ctx.requester.value.origin| :: ctx.requester.value.origin[i].path != "")
    && (forall i | 0 <= i < |ctx.bindings| :: ctx.bindings[i].hostName != Some(""))
  }

  // --- The remembered question ---

  const SEP: char := '\U{001f}'
  const FIELD: char := '\U{001e}'

  function HopText(hop: SessionBinding): string {
    Escaped(hop.fingerprint) + [FIELD]
    + ((if hop.hostName.Some? then Escaped(hop.hostName.value) else "") + [FIELD]
       + (if hop.isForwarding then "forwarding" else ""))
  }

  function HopTexts(chain: Chain): seq<string> {
    seq(|chain|, i requires 0 <= i < |chain| => HopText(chain[i]))
  }

  function PathsOf(origin: seq<Ancestor>): seq<string> {
    seq(|origin|, i requires 0 <= i < |origin| => origin[i].path)
  }

  /** The fields of a question, in the order they are written. */
  function Pieces(ctx: Context): seq<string>
    requires ctx.peer.Some? && ctx.requester.Some?
  {
    [Escaped(ctx.itemId), Escaped(ctx.fingerprint), Escaped(ctx.keyName), ctx.requester.value.process,
     Decimal(ctx.peer.value.uid), Join(PathsOf(ctx.requester.value.origin), [SEP]), Join(HopTexts(ctx.bindings), [SEP])]
  }

  function Lines(pieces: seq<string>): string {
    if pieces == [] then "" else Lines(pieces[..|pieces| - 1]) + pieces[|pieces| - 1] + "\n"
  }

  function Question(ctx: Context): Option<string> {
    if ctx.peer.None? || ctx.requester.None? then None else Some(Lines(Pieces(ctx)))
  }

  method ApprovalQuestion(ctx: Context) returns (question: Option<string>)
    ensures question == Question(ctx)
  {
    if ctx.peer.None? || ctx.requester.None? { return None; }
    var pieces := Pieces(ctx);
    var text := "";
    assert pieces[..0] == [] && pieces[..|pieces|] == pieces;
    for i := 0 to |pieces|
      invariant text == Lines(pieces[..i])
    {
      assert pieces[..i + 1][..i] == pieces[..i];
      text := text + pieces[i] + "\n";
    }
    return Some(text);
  }

  // --- Questions are unambiguous ---

  lemma InertIsWithout(text: string, c: char)
    requires Inert(text) && IsControl(c)
    ensures Without(text, c)
  {
  }

  lemma EscapedIsWithout(text: string, c: char)
    requires IsControl(c)
    ensures Without(Escaped(text), c)
  {
    EscapedIsInert(text);
  }

  lemma {:induction false} LinesAreInjective(a: seq<string>, b: seq<string>)
    requires |a| == |b| && AllWithout(a, '\n') && AllWithout(b, '\n')
    requires Lines(a) == Lines(b)
    ensures a == b
  {
    if a != [] {
      var n := |a| - 1;
      SplitAtLastLine(Lines(a[..n]), a[n], Lines(b[..n]), b[n]);
      LinesAreInjective(a[..n], b[..n]);
      assert a == a[..n] + [a[n]] && b == b[..n] + [b[n]];
    }
  }

  /** Text after the last line break but one is recoverable. */
  lemma SplitAtLastLine(x: string, a: string, y: string, b: string)
    requires Without(a, '\n') && Without(b, '\n')
    requires x == "" || x[|x| - 1] == '\n'
    requires y == "" || y[|y| - 1] == '\n'
    requires x + a + "\n" == y + b + "\n"
    ensures x == y && a == b
  {
    var s, t := x + a + "\n", y + b + "\n";
    assert x != "" ==> s[|x| - 1] == '\n';
    assert y != "" ==> t[|y| - 1] == '\n';
    assert forall k | |x| <= k < |x| + |a| :: s[k] == a[k - |x|];
    assert forall k | |y| <= k < |y| + |b| :: t[k] == b[k - |y|];
    assert |x| == |y|;
    assert x == s[..|x|] && y == t[..|y|];
    assert a == s[|x|..|x| + |a|] && b == t[|y|..|y| + |b|];
  }

  lemma HopTextIsInjective(a: SessionBinding, b: SessionBinding)
    requires a.hostName != Some("") && b.hostName != Some("")
    requires HopText(a) == HopText(b)
    ensures SameHopText(a, b)
  {
    var nameA := if a.hostName.Some? then Escaped(a.hostName.value) else "";
    var nameB := if b.hostName.Some? then Escaped(b.hostName.value) else "";
    var flagA := if a.isForwarding then "forwarding" else "";
    var flagB := if b.isForwarding then "forwarding" else "";
    EscapedIsWithout(a.fingerprint, FIELD);
    EscapedIsWithout(b.fingerprint, FIELD);
    SplitAtSeparator(Escaped(a.fingerprint), nameA + [FIELD] + flagA, Escaped(b.fingerprint), nameB + [FIELD] + flagB, FIELD);
    NameText(a);
    NameText(b);
    SplitAtSeparator(nameA, flagA, nameB, flagB, FIELD);
  }

  /** A recorded name shows as text without separators, and an absent one as nothing. */
  lemma NameText(hop: SessionBinding)
    requires hop.hostName != Some("")
    ensures hop.hostName.Some? ==> Escaped(hop.hostName.value) != "" && Without(Escaped(hop.hostName.value), FIELD)
  {
    if hop.hostName.Some? {
      EscapedIsInert(hop.hostName.value);
      EscapedIsWithout(hop.hostName.value, FIELD);
    }
  }

  /** Two hops that escape to the same fields. */
  predicate SameHopText(a: SessionBinding, b: SessionBinding) {
    && Escaped(a.fingerprint) == Escaped(b.fingerprint)
    && a.hostName.Some? == b.hostName.Some?
    && (a.hostName.Some? ==> Escaped(a.hostName.value) == Escaped(b.hostName.value))
    && a.isForwarding == b.isForwarding
  }

  /** Two contexts that agree on everything a question is about. */
  predicate SameAsked(a: Context, b: Context)
    requires a.peer.Some? && a.requester.Some? && b.peer.Some? && b.requester.Some?
  {
    && Escaped(a.itemId) == Escaped(b.itemId)
    && Escaped(a.fingerprint) == Escaped(b.fingerprint)
    && Escaped(a.keyName) == Escaped(b.keyName)
    && a.requester.value == b.requester.value
    && a.peer.value.uid == b.peer.value.uid
    && |a.bindings| == |b.bindings|
    && forall i | 0 <= i < |a.bindings| :: SameHopText(a.bindings[i], b.bindings[i])
  }

  lemma HopTextIsWithout(hop: SessionBinding, c: char)
    requires c == SEP || c == '\n'
    ensures Without(HopText(hop), c) && HopText(hop) != ""
  {
    EscapedIsWithout(hop.fingerprint, c);
    if hop.hostName.Some? {
      EscapedIsWithout(hop.hostName.value, c);
    }
    FieldsAreWithout(Escaped(hop.fingerprint), if hop.hostName.Some? then Escaped(hop.hostName.value) else "",
                     if hop.isForwarding then "forwarding" else "", c);
  }

  lemma FieldsAreWithout(first: string, second: string, third: string, c: char)
    requires c != FIELD && Without(first, c) && Without(second, c) && Without(third, c)
    ensures Without(first + [FIELD] + (second + [FIELD] + third), c)
  {
    WithoutJoins(first, [FIELD], c);
    WithoutJoins(second, [FIELD], c);
    WithoutJoins(second + [FIELD], third, c);
    WithoutJoins(first + [FIELD], second + [FIELD] + third, c);
  }

  lemma WithoutJoins(a: string, b: string, c: char)
    requires Without(a, c) && Without(b, c)
    ensures Without(a + b, c)
  {
  }

  lemma HopTextsAreWithout(chain: Chain, c: char)
    requires c == SEP || c == '\n'
    ensures AllWithout(HopTexts(chain), c) && forall i | 0 <= i < |chain| :: HopTexts(chain)[i] != ""
  {
    forall i | 0 <= i < |chain| ensures Without(HopTexts(chain)[i], c) && HopTexts(chain)[i] != "" {
      HopTextIsWithout(chain[i], c);
    }
  }

  lemma PathsAreWithout(origin: seq<Ancestor>, c: char)
    requires WellDescribed(origin) && IsControl(c)
    ensures AllWithout(PathsOf(origin), c)
  {
    forall i | 0 <= i < |origin| ensures Without(PathsOf(origin)[i], c) {
      assert WellNamed(origin[i]);
      InertIsWithout(origin[i].path, c);
    }
  }

  lemma PiecesHaveNoBreaks(ctx: Context)
    requires WellBuilt(ctx) && ctx.peer.Some? && ctx.requester.Some?
    ensures AllWithout(Pieces(ctx), '\n')
  {
    EscapedIsWithout(ctx.itemId, '\n');
    EscapedIsWithout(ctx.fingerprint, '\n');
    EscapedIsWithout(ctx.keyName, '\n');
    InertIsWithout(ctx.requester.value.process, '\n');
    DecimalIsInert(ctx.peer.value.uid);
    InertIsWithout(Decimal(ctx.peer.value.uid), '\n');
    PathsAreWithout(ctx.requester.value.origin, '\n');
    JoinStaysWithout(PathsOf(ctx.requester.value.origin), [SEP], '\n');
    HopTextsAreWithout(ctx.bindings, '\n');
    JoinStaysWithout(HopTexts(ctx.bindings), [SEP], '\n');
  }

  lemma SamePathsSameOrigin(a: seq<Ancestor>, b: seq<Ancestor>)
    requires WellDescribed(a) && WellDescribed(b) && PathsOf(a) == PathsOf(b)
    ensures a == b
  {
    assert |a| == |PathsOf(a)| == |PathsOf(b)| == |b|;
    forall i | 0 <= i < |a| ensures a[i] == b[i] {
      assert PathsOf(a)[i] == a[i].path && PathsOf(b)[i] == b[i].path;
      assert WellNamed(a[i]) && WellNamed(b[i]);
    }
  }

  lemma SameHopsSameTexts(a: Chain, b: Chain)
    requires forall i | 0 <= i < |a| :: a[i].hostName != Some("")
    requires forall i | 0 <= i < |b| :: b[i].hostName != Some("")
    ensures HopTexts(a) == HopTexts(b)
       <==> |a| == |b| && forall i | 0 <= i < |a| :: SameHopText(a[i], b[i])
  {
    if HopTexts(a) == HopTexts(b) {
      assert |a| == |HopTexts(a)| == |b|;
      forall i | 0 <= i < |a| ensures SameHopText(a[i], b[i]) {
        assert HopTexts(a)[i] == HopText(a[i]) && HopTexts(b)[i] == HopText(b[i]);
        HopTextIsInjective(a[i], b[i]);
      }
    }
  }

  lemma SamePiecesSameAsked(a: Context, b: Context)
    requires WellBuilt(a) && WellBuilt(b)
    requires a.peer.Some? && a.requester.Some? && b.peer.Some? && b.requester.Some?
    requires Pieces(a) == Pieces(b)
    ensures SameAsked(a, b)
  {
    var p, q := Pieces(a), Pieces(b);
    assert p[0] == q[0] && p[1] == q[1] && p[2] == q[2] && p[3] == q[3] && p[4] == q[4] && p[5] == q[5] && p[6] == q[6];
    DecimalIsInjective(a.peer.value.uid, b.peer.value.uid);
    var one, other := a.requester.value.origin, b.requester.value.origin;
    PathsAreWithout(one, SEP);
    PathsAreWithout(other, SEP);
    JoinIsInjective(PathsOf(one), PathsOf(other), SEP);
    SamePathsSameOrigin(one, other);
    HopTextsAreWithout(a.bindings, SEP);
    HopTextsAreWithout(b.bindings, SEP);
    JoinIsInjective(HopTexts(a.bindings), HopTexts(b.bindings), SEP);
    SameHopsSameTexts(a.bindings, b.bindings);
  }

  lemma SameAskedSamePieces(a: Context, b: Context)
    requires WellBuilt(a) && WellBuilt(b)
    requires a.peer.Some? && a.requester.Some? && b.peer.Some? && b.requester.Some?
    requires SameAsked(a, b)
    ensures Pieces(a) == Pieces(b)
  {
    SameHopsSameTexts(a.bindings, b.bindings);
  }

  /** Two requests ask the same question exactly when every field a question is about is the same:
      key, requester and its uid, the paths it was started from, and every hop. */
  lemma QuestionsAreUnambiguous(a: Context, b: Context)
    requires WellBuilt(a) && WellBuilt(b)
    requires a.peer.Some? && a.requester.Some? && b.peer.Some? && b.requester.Some?
    ensures Question(a) == Question(b) <==> SameAsked(a, b)
  {
    if Question(a) == Question(b) {
      PiecesHaveNoBreaks(a);
      PiecesHaveNoBreaks(b);
      LinesAreInjective(Pieces(a), Pieces(b));
      SamePiecesSameAsked(a, b);
    }
    if SameAsked(a, b) {
      SameAskedSamePieces(a, b);
    }
  }

  // --- What the prompt says ---

  function NamesOf(origin: seq<Ancestor>): seq<string> {
    seq(|origin|, i requires 0 <= i < |origin| => origin[i].name)
  }

  const ARROW := " \U{2192} "

  /** A line of the prompt, from the break that starts it. */
  function Labelled(title: string, text: string): string { "\n" + title + text }

  /** The line naming who asks. With a requester but no pid, 0 is shown. */
  function RequestedBy(ctx: Context): string {
    if ctx.peer.None? then "unknown"
    else
      var uid := Decimal(ctx.peer.value.uid);
      var pid := if ctx.peer.value.pid.Some? then Decimal(ctx.peer.value.pid.value) else "0";
      if ctx.requester.None? then
        if ctx.peer.value.pid.None? then "uid " + uid else "unknown process (pid " + pid + ", uid " + uid + ")"
      else
        ctx.requester.value.process + " (pid " + pid + ", uid " + uid + ")"
        + (if ctx.requester.value.origin == [] then ""
           else Labelled("Started from: ", Join(NamesOf(ctx.requester.value.origin), ARROW)))
  }

  function HopShown(hop: SessionBinding): string {
    DisplayBounded(if hop.hostName.Some? then hop.hostName.value else hop.fingerprint)
    + (if hop.isForwarding then " (forwarding the agent onward)" else "")
  }

  function HopsShown(chain: Chain): seq<string> {
    seq(|chain|, i requires 0 <= i < |chain| => HopShown(chain[i]))
  }

  predicate AnyForwarding(chain: Chain) {
    exists i :: 0 <= i < |chain| && chain[i].isForwarding
  }

  const CAUTION := "the agent is forwarded to a host below " + "\U{2014}"
    + (" this request may have originated there" + " rather than on this machine.")

  /** A blank line, and the warning. */
  const WARNING := "\n" + Labelled("WARNING: ", CAUTION)

  function Heading(ctx: Context): string {
    "SSH signature request\n"
    + Labelled("Key: ", DisplayBounded(ctx.keyName))
    + Labelled("Fingerprint: ", Escaped(ctx.fingerprint))
    + Labelled("LastPass item: ", Escaped(ctx.itemId))
    + Labelled("Requested by: ", RequestedBy(ctx))
  }

  function DescribeRequest(ctx: Context): string {
    if ctx.bindings == [] then Heading(ctx)
    else if AnyForwarding(ctx.bindings) then
      Heading(ctx) + WARNING + Labelled("SSH session: ", Join(HopsShown(ctx.bindings), ARROW))
    else Heading(ctx) + Labelled("SSH session: ", Join(HopsShown(ctx.bindings), ARROW))
  }

  method ShowHop(hop: SessionBinding) returns (shown: string)
    ensures shown == HopShown(hop)
  {
    shown := DisplayBounded(if hop.hostName.Some? then hop.hostName.value else hop.fingerprint);
    if hop.isForwarding {
      shown := shown + " (forwarding the agent onward)";
    }
  }

  method ShowHops(chain: Chain) returns (shown: seq<string>)
    ensures shown == HopsShown(chain)
  {
    shown := [];
    ghost var all := HopsShown(chain);
    TakesGrow(all, 0);
    for i := 0 to |chain|
      invariant shown == all[..i]
    {
      var hop := ShowHop(chain[i]);
      TakesGrow(all, i);
      shown := shown + [hop];
    }
    TakesGrow(all, |chain|);
  }

  lemma TakesGrow<T>(xs: seq<T>, i: nat)
    requires i <= |xs|
    ensures xs[..0] == [] && xs[..|xs|] == xs
    ensures i < |xs| ==> xs[..i + 1] == xs[..i] + [xs[i]]
  {
  }

  /** Writes `DescribeRequest`, the warning ahead of the hops. */
  method Describe(ctx: Context) returns (text: string)
    ensures text == DescribeRequest(ctx)
  {
    text := Heading(ctx);
    if ctx.bindings != [] {
      var chain := ShowHops(ctx.bindings);
      if AnyForwarding(ctx.bindings) {
        text := text + WARNING;
      }
      text := text + Labelled("SSH session: ", Join(chain, ARROW));
    }
  }

  /** The context as it reads with another process id. */
  function WithPid(ctx: Context, pid: Option<nat>): Context
    requires ctx.peer.Some?
  {
    ctx.(peer := Some(PeerInfo(pid, ctx.peer.value.uid)))
  }

  lemma SameHopsShown(a: Chain, b: Chain)
    requires |a| == |b| && forall i | 0 <= i < |a| :: SameHopText(a[i], b[i])
    ensures HopsShown(a) == HopsShown(b) && (AnyForwarding(a) <==> AnyForwarding(b))
  {
    forall i | 0 <= i < |a| ensures HopShown(a[i]) == HopShown(b[i]) && a[i].isForwarding == b[i].isForwarding {
      assert SameHopText(a[i], b[i]);
    }
  }

  /** A remembered answer never stands for words the user has not seen: requests with the same question
      read the same in the prompt but for the process id. */
  lemma SameQuestionSameWords(a: Context, b: Context, pid: Option<nat>)
    requires WellBuilt(a) && WellBuilt(b)
    requires Question(a).Some? && Question(a) == Question(b)
    ensures DescribeRequest(WithPid(a, pid)) == DescribeRequest(WithPid(b, pid))
  {
    QuestionsAreUnambiguous(a, b);
    SameHopsShown(a.bindings, b.bindings);
  }

  /** Origins that name the same programs read the same, wherever the programs are. */
  lemma SameNamesSameWords(a: Context, b: Context)
    requires a.requester.Some? && b.requester.Some? && a.requester.value.process == b.requester.value.process
    requires NamesOf(a.requester.value.origin) == NamesOf(b.requester.value.origin)
    requires b == a.(requester := b.requester)
    ensures DescribeRequest(a) == DescribeRequest(b)
  {
    assert |a.requester.value.origin| == |NamesOf(a.requester.value.origin)|;
    assert |b.requester.value.origin| == |NamesOf(b.requester.value.origin)|;
  }

  lemma NamedAfterSlash(dir: char)
    requires dir == 'a' || dir == 'b'
    ensures DisplayName(['/', dir, '/', 's']) == "s"
  {
    var path := ['/', dir, '/', 's'];
    var rest := path[1..];
    assert path[0..1] == "/" && rest == [dir, '/', 's'];
    assert rest[0..1][0] == dir && rest[1..2] == "/" && rest[2..] == "s";
    assert "s"[0..1][0] == 's' && "/"[0] == '/';
    assert Find("s", "/", 0) == None by { assert Find("s", "/", 1) == None; }
    assert Find(rest, "/", 0) == Some(1) by { assert Find(rest, "/", 1) == Some(1); }
    assert Find(path, "/", 0) == Some(0);
    assert path[3..4][0] == 's' && path[2..3] == "/";
    FindLastIsExact(path, "/", 4, 2);
    assert rest[2..] == "s" && Bundle("s") == None;
    assert Bundle(rest) == None;
    assert Bundle(path) == None;
    assert path[3..] == "s";
  }

  function StartedFrom(ctx: Context, dir: char): Context
    requires ctx.requester.Some?
  {
    ctx.(requester := Some(Requester(ctx.requester.value.process, [Ancestor("s", ['/', dir, '/', 's'])])))
  }

  lemma StartedFromReads(ctx: Context, dir: char)
    requires WellBuilt(ctx) && ctx.requester.Some? && (dir == 'a' || dir == 'b')
    ensures WellBuilt(StartedFrom(ctx, dir))
  {
    NamedAfterSlash(dir);
    assert WellNamed(StartedFrom(ctx, dir).requester.value.origin[0]);
  }

  /** Of two requests that read the same because their ancestors are named alike, the question is one
      exactly when the ancestors are the same files. */
  lemma SameNamesAreOneQuestionIfTheirFilesAre(a: Context, b: Context)
    requires WellBuilt(a) && WellBuilt(b) && a.peer.Some? && a.requester.Some? && b.requester.Some?
    requires a.requester.value.process == b.requester.value.process && b == a.(requester := b.requester)
    requires NamesOf(a.requester.value.origin) == NamesOf(b.requester.value.origin)
    ensures DescribeRequest(a) == DescribeRequest(b)
    ensures Question(a) == Question(b) <==> a.requester.value.origin == b.requester.value.origin
  {
    SameNamesSameWords(a, b);
    QuestionsAreUnambiguous(a, b);
  }

  /** So the same words are not always the same question, whatever the documentation says: started from
      `/a/s` or from `/b/s`, a request reads the same, and is two questions. */
  lemma SameWordsMayBeTwoQuestions(ctx: Context)
    requires WellBuilt(ctx) && ctx.peer.Some? && ctx.requester.Some?
    ensures var a, b := StartedFrom(ctx, 'a'), StartedFrom(ctx, 'b');
      WellBuilt(a) && WellBuilt(b) && DescribeRequest(a) == DescribeRequest(b) && Question(a) != Question(b)
  {
    var a, b := StartedFrom(ctx, 'a'), StartedFrom(ctx, 'b');
    StartedFromReads(ctx, 'a');
    StartedFromReads(ctx, 'b');
    assert a.requester.value.origin[0].path[1] != b.requester.value.origin[0].path[1];
    SameNamesAreOneQuestionIfTheirFilesAre(a, b);
  }
}
