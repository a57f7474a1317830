/** The few text operations the agent takes from its standard library. */
module Strings {
  import opened Basics

  /** Unicode's White_Space property, which is what trimming and field splitting go by. */
  predicate IsWhitespace(c: char) {
    var u := c as int;
    || 0x09 <= u <= 0x0d || u == 0x20 || u == 0x85 || u == 0xa0 || u == 0x1680
    || 0x2000 <= u <= 0x200a || u == 0x2028 || u == 0x2029 || u == 0x202f || u == 0x205f || u == 0x3000
  }

  function TrimStart(s: string): string {
    if s != [] && IsWhitespace(s[0]) then TrimStart(s[1..]) else s
  }

  function TrimEnd(s: string): string {
    if s != [] && IsWhitespace(s[|s| - 1]) then TrimEnd(s[..|s| - 1]) else s
  }

  function Trim(s: string): string { TrimStart(TrimEnd(s)) }

  predicate IsBlank(s: string) { forall i | 0 <= i < |s| :: IsWhitespace(s[i]) }

  lemma {:induction false} TrimStartDropsBlank(blank: string, text: string)
    requires IsBlank(blank)
    ensures TrimStart(blank + text) == TrimStart(text)
    decreases |blank|
  {
    if blank == [] {
      assert blank + text == text;
    } else {
      assert (blank + text)[1..] == blank[1..] + text;
      TrimStartDropsBlank(blank[1..], text);
    }
  }

  lemma {:induction false} TrimEndDropsBlank(text: string, blank: string)
    requires IsBlank(blank)
    ensures TrimEnd(text + blank) == TrimEnd(text)
    decreases |blank|
  {
    if blank == [] {
      assert text + blank == text;
    } else {
      var init := blank[..|blank| - 1];
      assert (text + blank)[..|text + blank| - 1] == text + init;
      TrimEndDropsBlank(text, init);
    }
  }

  predicate OccursAt(s: string, part: string, at: nat) {
    at + |part| <= |s| && s[at..at + |part|] == part
  }

  /** The first place `part` occurs in `s`, no earlier than `from`. */
  function Find(s: string, part: string, from: nat): (at: Option<nat>)
    ensures at.Some? ==> from <= at.value <= |s| - |part|
    decreases |s| - from
  {
    if from + |part| > |s| then None
    else if s[from..from + |part|] == part then Some(from)
    else Find(s, part, from + 1)
  }

  /** The last place `part` occurs in `s`, before `end`. */
  function FindLast(s: string, part: string, end: nat): (at: Option<nat>)
    ensures at.Some? ==> at.value < end && at.value <= |s| - |part|
  {
    if end == 0 then None
    else if OccursAt(s, part, end - 1) then Some(end - 1)
    else FindLast(s, part, end - 1)
  }

  lemma {:induction false} FindLastIsExact(s: string, part: string, end: nat, at: nat)
    ensures FindLast(s, part, end) == Some(at)
       <==> at < end && OccursAt(s, part, at) && forall k | at < k < end :: !OccursAt(s, part, k)
  {
    if end > 0 {
      FindLastIsExact(s, part, end - 1, at);
      assert at < end - 1 && OccursAt(s, part, end - 1) ==> !(forall k | at < k < end :: !OccursAt(s, part, k));
    }
  }

  predicate Contains(s: string, part: string) { Find(s, part, 0).Some? }

  function Join(parts: seq<string>, sep: string): string {
    if parts == [] then ""
    else if |parts| == 1 then parts[0]
    else parts[0] + sep + Join(parts[1..], sep)
  }

  predicate Without(s: string, c: char) {
    forall i | 0 <= i < |s| :: s[i] != c
  }

  /** Text up to the first separator is recoverable, so equal concatenations split equally. */
  lemma SplitAtSeparator(a: string, x: string, b: string, y: string, c: char)
    requires Without(a, c) && Without(b, c)
    requires a + [c] + x == b + [c] + y
    ensures a == b && x == y
  {
    var s, t := a + [c] + x, b + [c] + y;
    assert s[|a|] == c && t[|b|] == c;
    if |a| != |b| {
      assert false;
    }
    assert a == s[..|a|] == t[..|b|] == b;
    assert x == s[|a| + 1..] == t[|b| + 1..] == y;
  }

  predicate AllWithout(parts: seq<string>, c: char) {
    forall i | 0 <= i < |parts| :: Without(parts[i], c)
  }

  lemma JoinShowsItsLength(parts: seq<string>, c: char)
    requires AllWithout(parts, c)
    requires forall i | 0 <= i < |parts| :: parts[i] != ""
    ensures Join(parts, [c]) == "" <==> parts == []
    ensures Without(Join(parts, [c]), c) <==> |parts| <= 1
  {
    if |parts| > 1 {
      assert Join(parts, [c])[|parts[0]|] == c;
    }
  }

  /** Joining non-empty separator-free parts loses nothing. */
  lemma {:induction false} JoinIsInjective(a: seq<string>, b: seq<string>, c: char)
    requires AllWithout(a, c) && AllWithout(b, c)
    requires forall i | 0 <= i < |a| :: a[i] != ""
    requires forall i | 0 <= i < |b| :: b[i] != ""
    requires Join(a, [c]) == Join(b, [c])
    ensures a == b
  {
    JoinShowsItsLength(a, c);
    JoinShowsItsLength(b, c);
    if |a| <= 1 {
      assert |b| == |a|;
    } else {
      SplitAtSeparator(a[0], Join(a[1..], [c]), b[0], Join(b[1..], [c]), c);
      JoinIsInjective(a[1..], b[1..], c);
      assert a == [a[0]] + a[1..] && b == [b[0]] + b[1..];
    }
  }

  lemma {:induction false} JoinStaysWithout(parts: seq<string>, sep: string, c: char)
    requires AllWithout(parts, c) && Without(sep, c)
    ensures Without(Join(parts, sep), c)
  {
    if |parts| > 1 {
      JoinStaysWithout(parts[1..], sep, c);
    }
  }

  // --- Decimal numerals ---

  predicate IsDigit(c: char) { '0' <= c <= '9' }

  function Decimal(n: nat): (s: string)
    ensures s != "" && forall i | 0 <= i < |s| :: IsDigit(s[i])
  {
    if n < 10 then [('0' as int + n) as char]
    else Decimal(n / 10) + [('0' as int + n % 10) as char]
  }

  lemma {:induction false} DecimalIsInjective(m: nat, n: nat)
    requires Decimal(m) == Decimal(n)
    ensures m == n
  {
    var s, t := Decimal(m), Decimal(n);
    assert s[|s| - 1] == ('0' as int + m % 10) as char;
    assert t[|t| - 1] == ('0' as int + n % 10) as char;
    if m >= 10 && n >= 10 {
      assert s[..|s| - 1] == Decimal(m / 10) && t[..|t| - 1] == Decimal(n / 10);
      DecimalIsInjective(m / 10, n / 10);
    } else {
      assert m >= 10 ==> |s| > 1;
      assert n >= 10 ==> |t| > 1;
    }
  }
}
