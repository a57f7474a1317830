/** Rendering untrusted text inert (src/text.rs). */
module Text {
  import opened Strings

  /** The code points Unicode files under Cc. */
  predicate IsControl(c: char) {
    c as int < 0x20 || 0x7f <= c as int < 0xa0
  }

  /** Default_Ignorable_Code_Point less the variation selectors, with interlinear annotation. */
  predicate IsInvisible(c: char) {
    var u := c as int;
    || u == 0x00ad || u == 0x034f || u == 0x061c
    || 0x115f <= u <= 0x1160
    || 0x17b4 <= u <= 0x17b5
    || u == 0x180e
    || 0x200b <= u <= 0x200f
    || 0x202a <= u <= 0x202e
    || 0x2060 <= u <= 0x206f
    || u == 0x3164 || u == 0xfeff || u == 0xffa0
    || 0xfff0 <= u <= 0xfffb
    || 0x1bca0 <= u <= 0x1bca3
    || 0x1d173 <= u <= 0x1d17a
    || 0xe0000 <= u <= 0xe00ff
    || 0xe01f0 <= u <= 0xe0fff
  }

  predicate IsPlain(c: char) { !IsControl(c) && !IsInvisible(c) }

  /** Text a prompt can show as it is. */
  predicate Inert(text: string) {
    forall i | 0 <= i < |text| :: IsPlain(text[i])
  }

  function HexDigit(d: nat): char
    requires d < 16
  {
    if d < 10 then ('0' as int + d) as char else ('a' as int + d - 10) as char
  }

  /** Lower-case hexadecimal, padded with zeros to at least `width` digits. */
  function Hex(n: nat, width: nat): string
    decreases n, width
  {
    if n < 16 && width <= 1 then [HexDigit(n)]
    else Hex(n / 16, if width == 0 then 0 else width - 1) + [HexDigit(n % 16)]
  }

  function EscapedChar(c: char): string {
    if IsPlain(c) then [c]
    else if c as int <= 0xff then "\\x" + Hex(c as int, 2)
    else "\\u{" + Hex(c as int, 4) + "}"
  }

  function Escaped(text: string): string {
    if text == "" then "" else Escaped(text[..|text| - 1]) + EscapedChar(text[|text| - 1])
  }

  lemma InertJoins(a: string, b: string)
    requires Inert(a) && Inert(b)
    ensures Inert(a + b)
  {
  }

  lemma {:induction false} HexIsInert(n: nat, width: nat)
    ensures Inert(Hex(n, width))
    decreases n, width
  {
    if n >= 16 || width > 1 {
      HexIsInert(n / 16, if width == 0 then 0 else width - 1);
    }
  }

  lemma EscapedCharIsInert(c: char)
    ensures EscapedChar(c) != "" && Inert(EscapedChar(c))
  {
    if !IsPlain(c) {
      HexIsInert(c as int, if c as int <= 0xff then 2 else 4);
    }
  }

  lemma {:induction false} EscapedIsInert(text: string)
    ensures Inert(Escaped(text))
    ensures Escaped(text) == "" <==> text == ""
  {
    if text != "" {
      EscapedIsInert(text[..|text| - 1]);
      EscapedCharIsInert(text[|text| - 1]);
      InertJoins(Escaped(text[..|text| - 1]), EscapedChar(text[|text| - 1]));
    }
  }

  lemma {:induction false} InertIsUnchanged(text: string)
    requires Inert(text)
    ensures Escaped(text) == text
  {
    if text != "" {
      InertIsUnchanged(text[..|text| - 1]);
      assert text == text[..|text| - 1] + [text[|text| - 1]];
    }
  }

  /** Escaping again changes nothing: what is escaped once may be stored and escaped when read back. */
  lemma EscapingIsIdempotent(text: string)
    ensures Escaped(Escaped(text)) == Escaped(text)
  {
    EscapedIsInert(text);
    InertIsUnchanged(Escaped(text));
  }

  /** Two texts that escape alike, because one spells out the escape of the other. */
  lemma EscapingIsNotInjective()
    ensures "\U{0007}" != "\\x07" && Escaped("\U{0007}") == Escaped("\\x07")
  {
    assert "\U{0007}"[..0] == "";
    assert Hex(7, 2) == "07";
    InertIsUnchanged("\\x07");
  }

  /** A text with each character replaced, as `Escaped` does with `EscapedChar`. */
  function Mapped(f: char -> string, text: string): string {
    if text == "" then "" else Mapped(f, text[..|text| - 1]) + f(text[|text| - 1])
  }

  lemma {:induction false} EscapedIsMapped(text: string)
    ensures Escaped(text) == Mapped(EscapedChar, text)
  {
    if text != "" {
      EscapedIsMapped(text[..|text| - 1]);
    }
  }

  lemma {:induction false} MappedJoins(f: char -> string, a: string, b: string)
    ensures Mapped(f, a + b) == Mapped(f, a) + Mapped(f, b)
    decreases |b|
  {
    if b == "" {
      assert a + b == a;
    } else {
      MappedJoins(f, a, b[..|b| - 1]);
      assert (a + b)[..|a + b| - 1] == a + b[..|b| - 1];
    }
  }

  /** A mapped text as what is before a character, the character, and what is after it. */
  lemma MappedAround(f: char -> string, before: string, c: char, after: string)
    ensures Mapped(f, before + [c] + after) == Mapped(f, before) + f(c) + Mapped(f, after)
  {
    MappedJoins(f, before + [c], after);
    MappedJoins(f, before, [c]);
    assert [c][..0] == "";
    assert Mapped(f, [c]) == "" + f(c);
  }

  /** Where a text that maps to itself spells out what a character maps to, that character maps to it too. */
  lemma SpelledOutMapsAlike(f: char -> string, text: string, c: char, at: nat) returns (other: string)
    requires OccursAt(text, f(c), at) && |f(c)| > 1
    requires var end := at + |f(c)|; Mapped(f, text[..at]) == text[..at] && Mapped(f, text[end..]) == text[end..]
    ensures other != text && Mapped(f, other) == text
  {
    var end := at + |f(c)|;
    other := text[..at] + [c] + text[end..];
    MappedAround(f, text[..at], c, text[end..]);
    assert text == text[..at] + text[at..end] + text[end..];
    assert |other| < |text|;
  }

  lemma MappedSpellsOut(f: char -> string, text: string, i: nat)
    requires i < |text|
    ensures OccursAt(Mapped(f, text), f(text[i]), |Mapped(f, text[..i])|)
  {
    assert text == text[..i] + [text[i]] + text[i + 1..];
    MappedAround(f, text[..i], text[i], text[i + 1..]);
  }

  /** The text has in it what some character that is not plain is escaped to. */
  ghost predicate SpellsAnEscape(text: string) {
    exists c: char, at: nat :: !IsPlain(c) && OccursAt(text, EscapedChar(c), at)
  }

  lemma EscapesAreLong(c: char)
    requires !IsPlain(c)
    ensures |EscapedChar(c)| > 1
  {
  }

  lemma InertMapsToItself(text: string)
    requires Inert(text)
    ensures Mapped(EscapedChar, text) == text
  {
    InertIsUnchanged(text);
    EscapedIsMapped(text);
  }

  /** A spelled-out escape has another source: the character itself. */
  lemma SpelledEscapesHaveAnotherSource(text: string) returns (other: string)
    requires Inert(text) && SpellsAnEscape(text)
    ensures other != text && Escaped(other) == text
  {
    var c: char, at: nat :| !IsPlain(c) && OccursAt(text, EscapedChar(c), at);
    EscapesAreLong(c);
    InertMapsToItself(text[..at]);
    InertMapsToItself(text[at + |EscapedChar(c)|..]);
    other := SpelledOutMapsAlike(EscapedChar, text, c, at);
    EscapedIsMapped(other);
  }

  /** Anything else that escapes to a text leaves an escape in it. */
  lemma AnotherSourceIsSpelledOut(text: string, other: string)
    requires Escaped(other) == text && other != text
    ensures SpellsAnEscape(text)
  {
    if Inert(other) {
      InertIsUnchanged(other);
      assert false;
    } else {
      var i :| 0 <= i < |other| && !IsPlain(other[i]);
      EscapedIsMapped(other);
      MappedSpellsOut(EscapedChar, other, i);
      assert OccursAt(text, EscapedChar(other[i]), |Mapped(EscapedChar, other[..i])|);
    }
  }

  /** Escaping tells a text from every other exactly when it changes nothing in it and finds none of its
      own escapes there. */
  lemma EscapingLosesNothingExactly(text: string)
    ensures (forall other :: Escaped(other) == Escaped(text) ==> other == text) <==> Inert(text) && !SpellsAnEscape(text)
  {
    EscapingIsIdempotent(text);
    EscapedIsInert(text);
    if Inert(text) {
      InertIsUnchanged(text);
      if SpellsAnEscape(text) {
        var other := SpelledEscapesHaveAnotherSource(text);
      } else {
        forall other | Escaped(other) == Escaped(text) ensures other == text {
          if other != text { AnotherSourceIsSpelledOut(text, other); }
        }
      }
    } else {
      assert Escaped(text) != text;
    }
  }

  method EscapeForDisplay(text: string) returns (out: string)
    ensures out == Escaped(text)
  {
    out := "";
    assert text[..0] == "" && text[..|text|] == text;
    for i := 0 to |text|
      invariant out == Escaped(text[..i])
    {
      assert text[..i + 1][..i] == text[..i];
      var c := text[i];
      if !IsControl(c) && !IsInvisible(c) {
        out := out + [c];
      } else if c as int <= 0xff {
        out := out + ("\\x" + Hex(c as int, 2));
      } else {
        out := out + ("\\u{" + Hex(c as int, 4) + "}");
      }
    }
  }

  const MAX_DISPLAY_CHARS: nat := 200

  /** The text itself up to the bound; past it, a cut and the number of characters gone. */
  function Bounded(escaped: string): string {
    if |escaped| <= MAX_DISPLAY_CHARS then escaped
    else escaped[..MAX_DISPLAY_CHARS] + "\U{2026} [" + Decimal(|escaped| - MAX_DISPLAY_CHARS) + " more]"
  }

  function DisplayBounded(text: string): string { Bounded(Escaped(text)) }

  lemma DecimalIsInert(n: nat)
    ensures Inert(Decimal(n))
  {
    forall i | 0 <= i < |Decimal(n)| ensures IsPlain(Decimal(n)[i]) {
      assert IsDigit(Decimal(n)[i]);
    }
  }

  lemma CutIsInert(escaped: string, kept: nat, omitted: nat)
    requires Inert(escaped) && kept <= |escaped|
    ensures Inert(escaped[..kept] + "\U{2026} [" + Decimal(omitted) + " more]")
  {
    DecimalIsInert(omitted);
    InertJoins(escaped[..kept], "\U{2026} [");
    InertJoins(escaped[..kept] + "\U{2026} [", Decimal(omitted));
    InertJoins(escaped[..kept] + "\U{2026} [" + Decimal(omitted), " more]");
  }

  /** Cutting never brings back what escaping removed. */
  lemma BoundedIsInert(text: string)
    ensures Inert(DisplayBounded(text))
    ensures |Escaped(text)| <= MAX_DISPLAY_CHARS ==> DisplayBounded(text) == Escaped(text)
  {
    EscapedIsInert(text);
    if |Escaped(text)| > MAX_DISPLAY_CHARS {
      CutIsInert(Escaped(text), MAX_DISPLAY_CHARS, |Escaped(text)| - MAX_DISPLAY_CHARS);
    }
  }
}
