/** The two readers of the controlling terminal (src/tty.rs, src/passphrase/tty.rs, src/confirm/tty.rs). */
module Terminal {
  import opened Basics
  import opened Buffers

  const NEWLINE: Byte := 10

  // --- Lines in a byte stream ---

  /** Where the first line ends: at its newline, or where the input does. */
  function LineEnd(input: Bytes): (end: nat)
    ensures end <= |input| && forall i | 0 <= i < end :: input[i] != NEWLINE
    ensures end < |input| ==> input[end] == NEWLINE
  {
    if input == [] || input[0] == NEWLINE then 0 else 1 + LineEnd(input[1..])
  }

  lemma {:induction false} LineEndMovesUp(input: Bytes, read: nat)
    requires read <= LineEnd(input)
    ensures LineEnd(input[read..]) == LineEnd(input) - read
  {
    if read > 0 {
      LineEndMovesUp(input, read - 1);
      assert input[read - 1..][1..] == input[read..];
    } else {
      assert input[0..] == input;
    }
  }

  predicate HasLine(input: Bytes) { LineEnd(input) < |input| }

  function Line(input: Bytes): Bytes { input[..LineEnd(input)] }

  function AfterLine(input: Bytes): Bytes
    requires HasLine(input)
  {
    input[LineEnd(input) + 1..]
  }

  lemma SplitsAtTheFirstNewline(input: Bytes, line: Bytes, rest: Bytes)
    ensures input == line + [NEWLINE] + rest && NEWLINE !in line
       <==> HasLine(input) && line == Line(input) && rest == AfterLine(input)
  {
    var end := LineEnd(input);
    if input == line + [NEWLINE] + rest && NEWLINE !in line {
      assert input[|line|] == NEWLINE && input[..|line|] == line;
    }
    if HasLine(input) && line == Line(input) && rest == AfterLine(input) {
      assert input == input[..end] + [input[end]] + input[end + 1..];
    }
  }

  /** Lines as they are typed, each ended by its newline. */
  function Typed(lines: seq<Bytes>, more: Bytes): Bytes {
    if lines == [] then more else lines[0] + [NEWLINE] + Typed(lines[1..], more)
  }

  /** What is left after `n` reads, each through the first newline. */
  function AfterLines(input: Bytes, n: nat): Option<Bytes> {
    if n == 0 then Some(input)
    else if !HasLine(input) then None
    else AfterLines(AfterLine(input), n - 1)
  }

  /** Reads take the lines in turn: the n-th read finds the n-th line, whatever the others held. */
  lemma {:induction false} ReadsTakeSuccessiveLines(lines: seq<Bytes>, more: Bytes, n: nat)
    requires n < |lines| && forall i | 0 <= i < |lines| :: NEWLINE !in lines[i]
    ensures AfterLines(Typed(lines, more), n) == Some(Typed(lines[n..], more))
    ensures HasLine(Typed(lines[n..], more)) && Line(Typed(lines[n..], more)) == lines[n]
    decreases n
  {
    var input := Typed(lines, more);
    SplitsAtTheFirstNewline(input, lines[0], Typed(lines[1..], more));
    if n > 0 {
      ReadsTakeSuccessiveLines(lines[1..], more, n - 1);
      assert lines[1..][n - 1..] == lines[n..];
    }
  }

  // --- The terminal ---

  datatype Mode = Mode(echo: bool, canonical: bool, returnEndsLine: bool, ignoreReturn: bool)

  /** Whether a read of this queue yields a byte, where input is or is not handed over by the line. */
  predicate Delivers(byLine: bool, queue: Bytes) {
    if byLine then HasLine(queue) else queue != []
  }

  /** What a reader leaves of a queue in which no line ends. */
  function Unfinished(byLine: bool, queue: Bytes): Bytes { if byLine then queue else [] }

  /** Whether the terminal opens, and whether what is written to it comes through. */
  datatype Device = Device(opens: bool, showsPrompt: bool, showsEnd: bool)

  /** What ends a wait for a byte that does not come. */
  datatype Silence = HungUp | DeadlinePassed

  class Terminal {
    const isTerminal: bool
    const silence: Silence
    var queue: Bytes
    var mode: Mode

    constructor (isTerminal: bool, silence: Silence, queue: Bytes, mode: Mode)
      ensures this.isTerminal == isTerminal && this.silence == silence
      ensures this.queue == queue && this.mode == mode
    {
      this.isTerminal, this.silence, this.queue, this.mode := isTerminal, silence, queue, mode;
    }

    /** Only a canonical terminal assembles lines. */
    predicate ByLine()
      reads this
    {
      isTerminal && mode.canonical
    }

    /** Input nobody has read yet, once a terminal has dropped its own. */
    function Pending(): Bytes
      reads this
    {
      if isTerminal then [] else queue
    }

    /** Flushing fails for what is not a terminal, which the code does not mind. */
    method DiscardPendingInput()
      modifies `queue
      ensures queue == old(Pending())
    {
      if isTerminal {
        queue := [];
      }
    }

    /** Bytes arriving while a prompt is on screen. */
    method Type(keys: Bytes)
      modifies `queue
      ensures queue == old(queue) + keys
    {
      queue := queue + keys;
    }

    method ReadOnce() returns (b: Option<Byte>)
      modifies `queue
      ensures b.Some? <==> Delivers(ByLine(), old(queue))
      ensures b.None? ==> queue == old(queue)
      ensures b.Some? ==> old(queue) != [] && b.value == old(queue)[0] && queue == old(queue)[1..]
    {
      if !Delivers(ByLine(), queue) {
        return None;
      }
      b, queue := Some(queue[0]), queue[1..];
    }

    /** Read exactly one line, keeping at most `cap` bytes of it and never growing past them. The rest
        of an over-long line is drained, so it cannot answer the next prompt. */
    method ReadLine(cap: nat) returns (ended: bool, tooLong: bool, line: Buffer)
      modifies `queue
      ensures fresh(line) && fresh(line.data) && line.Valid()
      ensures line.moves == 0 && line.data.Length == cap
      ensures ended <==> HasLine(old(queue))
      ensures queue == if ended then AfterLine(old(queue)) else Unfinished(ByLine(), old(queue))
      ensures ended ==> (tooLong <==> |Line(old(queue))| > cap)
      ensures ended && !tooLong ==> line.Contents() == Line(old(queue))
    {
      ghost var input, read := queue, 0;
      line := new Buffer(cap);
      ended, tooLong := false, false;
      while true
        invariant read <= LineEnd(input) && queue == input[read..]
        invariant ByLine() && !HasLine(input) ==> read == 0
        invariant line.Valid() && fresh(line) && fresh(line.data) && line.moves == 0 && line.data.Length == cap
        invariant line.Contents() == input[..if read < cap then read else cap]
        invariant tooLong <==> read > cap
        decreases |queue|
      {
        LineEndMovesUp(input, read);
        var b := ReadOnce();
        if b.None? {
          return;
        }
        if b.value == NEWLINE {
          ended := true;
          return;
        }
        TakesGrow(input, read);
        read := read + 1;
        if line.len == cap {
          tooLong := true;
        } else {
          line.Extend([b.value]);
        }
      }
    }
  }

  lemma TakesGrow(input: Bytes, n: nat)
    requires n < |input|
    ensures input[..n + 1] == input[..n] + [input[n]] && input[n..][1..] == input[n + 1..]
  {
  }

  // --- Passphrase entry ---

  datatype PromptError = Cancelled | Unavailable | TooLong(max: nat)

  /** Puts the terminal back as it was, and drops what was typed unless entry finished. */
  class TerminalMode {
    const terminal: Terminal
    const original: Mode
    var discardInput: bool

    constructor (terminal: Terminal)
      ensures this.terminal == terminal && original == terminal.mode && discardInput
    {
      this.terminal, original, discardInput := terminal, terminal.mode, true;
    }

    /** Turn echo off, and lines on, for a terminal; anything else has no echo to turn off. */
    static method HideInput(terminal: Terminal) returns (hidden: Option<TerminalMode>)
      modifies terminal`mode
      ensures hidden.Some? <==> terminal.isTerminal
      ensures hidden.None? ==> terminal.mode == old(terminal.mode)
      ensures hidden.Some? ==>
        && fresh(hidden.value) && hidden.value.terminal == terminal && hidden.value.original == old(terminal.mode)
        && hidden.value.discardInput && terminal.mode == Mode(false, true, true, false)
    {
      if !terminal.isTerminal {
        return None;
      }
      var mode := new TerminalMode(terminal);
      terminal.mode := terminal.mode.(echo := false, canonical := true, returnEndsLine := true, ignoreReturn := false);
      hidden := Some(mode);
    }

    method KeepQueuedInput()
      modifies this
      ensures !discardInput
    {
      discardInput := false;
    }

    method Drop()
      modifies terminal
      ensures terminal.mode == original
      ensures terminal.queue == if discardInput then [] else old(terminal.queue)
    {
      if discardInput {
        terminal.queue := [];
      }
      terminal.mode := original;
    }
  }

  /** Ask for a passphrase. Only what is typed while the prompt is up can answer it; input typed after
      the line stays for whatever runs next; and however entry ends, the terminal's mode is as it was and
      no unfinished entry is left in the queue. */
  method ReadPassphrase(terminal: Terminal, max: nat, typed: Bytes, device: Device) returns (r: Result<Bytes, PromptError>)
    modifies terminal
    ensures terminal.mode == old(terminal.mode)
    ensures !device.opens || !terminal.isTerminal ==>
      r == Err(Unavailable) && terminal.queue == old(terminal.queue)
    ensures device.opens && terminal.isTerminal ==>
      if !device.showsPrompt then r == Err(Unavailable) && terminal.queue == []
      else if !HasLine(typed) then
        r == Err(if terminal.silence.HungUp? then Unavailable else Cancelled) && terminal.queue == []
      else if !device.showsEnd then r == Err(Unavailable) && terminal.queue == []
      else
        && r == (if |Line(typed)| <= max then Ok(Line(typed)) else Err(TooLong(max)))
        && terminal.queue == AfterLine(typed)
  {
    if !device.opens {
      return Err(Unavailable);
    }
    terminal.DiscardPendingInput();
    var mode := TerminalMode.HideInput(terminal);
    if mode.None? {
      return Err(Unavailable);
    }
    var hidden := mode.value;
    if !device.showsPrompt {
      hidden.Drop();
      return Err(Unavailable);
    }
    terminal.Type(typed);
    assert terminal.queue == typed;
    var ended, tooLong, secret := terminal.ReadLine(max);
    if !ended {
      hidden.Drop();
      return Err(if terminal.silence.HungUp? then Unavailable else Cancelled);
    }
    if !device.showsEnd {
      hidden.Drop();
      return Err(Unavailable);
    }
    hidden.KeepQueuedInput();
    hidden.Drop();
    r := if tooLong then Err(TooLong(max)) else Ok(secret.data[..secret.len]);
  }

  // --- Confirmation ---

  const MAX_ANSWER_BYTES: nat := 64
  const YES: Bytes := [121, 101, 115]

  predicate IsAsciiWhitespace(b: Byte) { b == 32 || b == 9 || b == 10 || b == 12 || b == 13 }

  predicate IsBlank(s: Bytes) { forall i | 0 <= i < |s| :: IsAsciiWhitespace(s[i]) }

  function TrimStart(s: Bytes): Bytes {
    if s != [] && IsAsciiWhitespace(s[0]) then TrimStart(s[1..]) else s
  }

  function TrimEnd(s: Bytes): Bytes {
    if s != [] && IsAsciiWhitespace(s[|s| - 1]) then TrimEnd(s[..|s| - 1]) else s
  }

  lemma {:induction false} TrimStartDropsBlanks(s: Bytes) returns (blank: Bytes)
    ensures IsBlank(blank) && s == blank + TrimStart(s)
    decreases |s|
  {
    blank := [];
    if s != [] && IsAsciiWhitespace(s[0]) {
      blank := TrimStartDropsBlanks(s[1..]);
      blank := [s[0]] + blank;
    }
  }

  lemma {:induction false} TrimEndDropsBlanks(s: Bytes) returns (blank: Bytes)
    ensures IsBlank(blank) && s == TrimEnd(s) + blank
    decreases |s|
  {
    blank := [];
    if s != [] && IsAsciiWhitespace(s[|s| - 1]) {
      blank := TrimEndDropsBlanks(s[..|s| - 1]);
      blank := blank + [s[|s| - 1]];
    }
  }

  lemma {:induction false} LeadingBlanksGo(blank: Bytes, word: Bytes)
    requires IsBlank(blank) && (word == [] || !IsAsciiWhitespace(word[0]))
    ensures TrimStart(blank + word) == word
    decreases |blank|
  {
    if blank == [] {
      assert blank + word == word;
    } else {
      assert (blank + word)[1..] == blank[1..] + word;
      LeadingBlanksGo(blank[1..], word);
    }
  }

  lemma {:induction false} TrailingBlanksGo(word: Bytes, blank: Bytes)
    requires IsBlank(blank) && (word == [] || !IsAsciiWhitespace(word[|word| - 1]))
    ensures TrimEnd(word + blank) == word
    decreases |blank|
  {
    if blank == [] {
      assert word + blank == word;
    } else {
      var init := blank[..|blank| - 1];
      assert (word + blank)[..|word + blank| - 1] == word + init;
      TrailingBlanksGo(word, init);
    }
  }

  predicate IsYes(line: Bytes) { TrimEnd(TrimStart(line)) == YES }

  ghost predicate IsYesBetween(line: Bytes, before: Bytes, after: Bytes) {
    IsBlank(before) && IsBlank(after) && line == before + (YES + after)
  }

  lemma BlanksAroundYesGo(line: Bytes, before: Bytes, after: Bytes)
    requires IsYesBetween(line, before, after)
    ensures IsYes(line)
  {
    LeadingBlanksGo(before, YES + after);
    TrailingBlanksGo(YES, after);
  }

  lemma OnlyBlanksGo(line: Bytes)
    requires IsYes(line)
    ensures exists before: Bytes, after: Bytes :: IsYesBetween(line, before, after)
  {
    var before := TrimStartDropsBlanks(line);
    var after := TrimEndDropsBlanks(TrimStart(line));
    assert IsYesBetween(line, before, after);
  }

  /** The line is the one word, with nothing around it but blanks. */
  lemma YesIsTheWholeLine(line: Bytes)
    ensures IsYes(line) <==> exists before: Bytes, after: Bytes :: IsYesBetween(line, before, after)
  {
    if IsYes(line) {
      OnlyBlanksGo(line);
    }
    forall before: Bytes, after: Bytes | IsYesBetween(line, before, after)
      ensures IsYes(line)
    {
      BlanksAroundYesGo(line, before, after);
    }
  }

  /** Ask for a yes. Only a whole line within the cap can be one; what a terminal had queued before the
      prompt is no part of it; and the terminal's mode is never touched. */
  method PromptOnTty(terminal: Terminal, typed: Bytes, device: Device) returns (approved: bool)
    modifies terminal`queue
    ensures var input := old(terminal.Pending()) + typed;
      && (approved <==>
            device.opens && device.showsPrompt && HasLine(input) && |Line(input)| <= MAX_ANSWER_BYTES && IsYes(Line(input)))
      && terminal.queue ==
           (if !device.opens then old(terminal.queue)
            else if !device.showsPrompt then old(terminal.Pending())
            else if HasLine(input) then AfterLine(input)
            else Unfinished(terminal.ByLine(), input))
  {
    if !device.opens {
      return false;
    }
    terminal.DiscardPendingInput();
    if !device.showsPrompt {
      return false;
    }
    terminal.Type(typed);
    var ended, tooLong, answer := terminal.ReadLine(MAX_ANSWER_BYTES);
    approved := ended && !tooLong && IsYes(answer.data[..answer.len]);
  }
}
