/** Calls to `lpass`, fed the master password when the vault needs it (src/lpass/cli.rs). */
module LpassCli {
  import opened Basics
  import opened Strings
  import opened Buffers
  import opened Unlock

  datatype LpassError =
    | NotLoggedIn
    | VaultLocked
    | WrongMasterPassword
    | NoMasterPassword(why: string)
    | ItemNotFound(item: string)
    | FieldNotFound(item: string, field: string)
    | Timeout
    | FieldTooLarge(max: nat)
    | Spawn
    | CommandFailed(code: Option<int>, stderr: string)

  /** What a finished `lpass` left behind, and whether a password had gone in. */
  datatype Output = Output(success: bool, code: Option<int>, fed: bool, stdout: Bytes, stderr: string)

  const NO_KEY := "Could not find decryption key"
  const WRONG_PASSWORD := "Incorrect master password"

  predicate Incorrect(out: Output) { Contains(out.stderr, WRONG_PASSWORD) }

  /** A run that failed unfed and named the missing key. */
  predicate LockedOut(out: Output) { !out.success && !out.fed && Contains(out.stderr, NO_KEY) }

  /** The field name `lpass` quotes when it says an item lacks one. */
  function MissingField(stderr: string): Option<string> {
    var intro := "Could not find specified field '";
    var at := Find(stderr, intro, 0);
    if at.None? then None
    else
      var rest := stderr[at.value + |intro|..];
      var quote := Find(rest, "'", 0);
      if quote.None? then None else Some(rest[..quote.value])
  }

  function Classify(item: Option<string>, out: Output): LpassError {
    if Incorrect(out) then WrongMasterPassword
    else if Contains(out.stderr, NO_KEY) then if out.fed then NotLoggedIn else VaultLocked
    else if Contains(out.stderr, "Not logged in") || Contains(out.stderr, "Could not find session") then NotLoggedIn
    else if item.Some? && Contains(out.stderr, "Could not find specified account") then ItemNotFound(item.value)
    else if item.Some? && MissingField(out.stderr).Some? then
      FieldNotFound(item.value, MissingField(out.stderr).value)
    else CommandFailed(out.code, out.stderr)
  }

  /** What `show_field` makes of one finished run. */
  function Verdict(item: string, r: Result<Output, LpassError>): Result<Bytes, LpassError> {
    if r.Err? then Err(r.error)
    else if !r.value.success then Err(Classify(Some(item), r.value))
    else Ok(r.value.stdout)
  }

  // --- The two-attempt protocol ---

  datatype PasswordSource = Nowhere | Fixed(secret: Bytes) | Asking | HeldOnly

  /** What the world answers in the course of one call: each run of `lpass` as a function of what it
      is fed, the store and the prompt should they be asked, and the clock. */
  datatype Answers = Answers(
    first: Option<Bytes> -> Result<Output, LpassError>,
    second: Option<Bytes> -> Result<Output, LpassError>,
    store: Master.StoreReply,
    prompt: Master.PromptReply,
    askedAt: nat,
    doneAt: nat)

  /** Outputs say truly whether a password was fed. */
  ghost predicate Honest(w: Answers) {
    && (forall fed :: w.first(fed).Ok? ==> w.first(fed).value.fed == fed.Some?)
    && (forall fed :: w.second(fed).Ok? ==> w.second(fed).value.fed == fed.Some?)
  }

  function HeldBy(source: PasswordSource, v: Vault): Option<Bytes> {
    match source
    case Nowhere => None
    case Fixed(secret) => Some(secret)
    case Asking => HeldSecret(v)
    case HeldOnly => HeldSecret(v)
  }

  /** What follows the last run of a call: the password dropped if it was refused, else noted as used. */
  function Finished(s: Settings, source: PasswordSource, v: Vault, out: Output, now: nat): Vault {
    var v := if Incorrect(out) && (source.Asking? || source.HeldOnly?) then Do(s, v, Reject) else v;
    if source.Asking? then Do(s, v, Touch(now)) else v
  }

  function Call(s: Settings, source: PasswordSource, v: Vault, w: Answers): (Vault, Result<Output, LpassError>) {
    var first := w.first(HeldBy(source, v));
    if first.Err? then (v, first)
    else if !LockedOut(first.value) || !source.Asking? then
      (Finished(s, source, v, first.value, w.doneAt), first)
    else
      var op := Op.Password(true, w.store, w.prompt, w.askedAt);
      var asked := Do(s, v, op);
      if HeldSecret(asked).None? then
        (asked, Err(NoMasterPassword(if Outcome(s, v, op).Err? then Outcome(s, v, op).error else "")))
      else
        var second := w.second(HeldSecret(asked));
        if second.Err? then (asked, second)
        else (Finished(s, source, asked, second.value, w.doneAt), second)
  }

  /** Only `Asking` asks, and it asks exactly when the first run found the vault locked. Then no run is
      reported as a locked vault: the call was fed, or failed for want of an answer. */
  lemma OnlyALockedVaultIsAskedFor(s: Settings, source: PasswordSource, v: Vault, w: Answers, item: string)
    requires Honest(w)
    ensures var (after, r) := Call(s, source, v, w);
      var first := w.first(HeldBy(source, v));
      && (after.epoch.unlocks == v.epoch.unlocks + 1 <==>
            source.Asking? && v.held.None? && first.Ok? && LockedOut(first.value))
      && (after.epoch.unlocks != v.epoch.unlocks ==> after.epoch.unlocks == v.epoch.unlocks + 1)
      && (source.Asking? && r.Ok? && !r.value.success ==> Classify(Some(item), r.value) != VaultLocked)
  {
  }

  /** A call fed only what is held changes nothing but to drop a refused password: it never asks, and
      never renews the idle time. */
  lemma HeldOnlyIsQuiet(s: Settings, v: Vault, w: Answers)
    ensures var (after, r) := Call(s, HeldOnly, v, w);
      && after == (if r.Ok? && Incorrect(r.value) then Rejected(v) else v)
      && r == w.first(HeldSecret(v))
  {
  }

  /** A password `lpass` refused is never held after the call that was fed it, and that counts as one lock. */
  lemma RefusedPasswordIsDropped(s: Settings, v: Vault, w: Answers)
    requires Honest(w)
    ensures var (after, r) := Call(s, Asking, v, w);
      r.Ok? && Incorrect(r.value) && r.value.fed ==>
        after.held.None? && after.epoch.locks == v.epoch.locks + 1
  {
  }

  method RunLpass(source: PasswordSource, unlock: Unlock, w: Answers) returns (r: Result<Output, LpassError>)
    modifies unlock, unlock.epoch
    ensures (unlock.View(), r) == Call(unlock.settings, source, old(unlock.View()), w)
  {
    var held := None;
    match source {
      case Nowhere =>
      case Fixed(secret) => held := Some(secret);
      case Asking =>
        var got := unlock.Password(false, w.store, w.prompt, w.askedAt);
        held := got.value;
      case HeldOnly =>
        var got := unlock.Password(false, w.store, w.prompt, w.askedAt);
        held := got.value;
    }
    r := w.first(held);
    if r.Err? { return; }
    if LockedOut(r.value) && source.Asking? {
      var password := unlock.Password(true, w.store, w.prompt, w.askedAt);
      if password.Err? { return Err(NoMasterPassword(password.error)); }
      r := w.second(password.value);
      if r.Err? { return; }
    }
    if Incorrect(r.value) && (source.Asking? || source.HeldOnly?) {
      unlock.RejectHeld();
    }
    if source.Asking? {
      unlock.TouchNow(w.doneAt);
    }
  }

  // --- Reading what `lpass` prints ---

  const MAX_FIELD_BYTES: nat := 65536

  function Concat(chunks: seq<Bytes>): Bytes {
    if chunks == [] then [] else Concat(chunks[..|chunks| - 1]) + chunks[|chunks| - 1]
  }

  lemma {:induction false} ConcatGrows(chunks: seq<Bytes>, i: nat, j: nat)
    requires i <= j <= |chunks|
    ensures |Concat(chunks[..i])| <= |Concat(chunks[..j])|
    decreases j
  {
    if i < j {
      ConcatGrows(chunks, i, j - 1);
      assert chunks[..j][..j - 1] == chunks[..j - 1];
    }
  }

  /** Read a pipe to its end, or to where it breaks, refusing more than `max` bytes. However the bytes
      are split into reads, the outcome is that of the whole; and a field-sized read never moves its
      buffer. */
  method ReadOutput(chunks: seq<Bytes>, breaks: bool, max: nat) returns (r: Result<Bytes, LpassError>, out: Buffer)
    requires forall i | 0 <= i < |chunks| :: chunks[i] != []
    ensures r == if |Concat(chunks)| > max then Err(FieldTooLarge(max)) else if breaks then Err(Spawn) else Ok(Concat(chunks))
    ensures out.Valid() && |out.Contents()| <= max
    ensures max <= MAX_FIELD_BYTES ==> out.moves == 0
  {
    var capacity := if max < MAX_FIELD_BYTES then max else MAX_FIELD_BYTES;
    out := new Buffer(capacity);
    assert chunks[..0] == [] && chunks[..|chunks|] == chunks;
    for i := 0 to |chunks|
      invariant out.Valid() && fresh(out) && fresh(out.data)
      invariant out.Contents() == Concat(chunks[..i]) && |out.Contents()| <= max
      invariant max <= MAX_FIELD_BYTES ==> out.moves == 0 && out.data.Length == max
    {
      assert chunks[..i + 1][..i] == chunks[..i];
      ConcatGrows(chunks, i + 1, |chunks|);
      if out.len + |chunks[i]| > max {
        return Err(FieldTooLarge(max)), out;
      }
      out.Extend(chunks[i]);
    }
    r := if breaks then Err(Spawn) else Ok(out.data[..out.len]);
  }

  // --- Listing lines ---

  datatype ItemSummary = ItemSummary(id: string, name: string)

  const MARKER := " [id: "

  predicate IsItemId(id: string) {
    id != "" && forall i | 0 <= i < |id| :: IsDigit(id[i])
  }

  /** One line of `lpass ls`, as it is printed. */
  function ListingLine(item: ItemSummary): string {
    item.name + MARKER + item.id + "]"
  }

  function ParseLsLine(line: string): Option<ItemSummary> {
    var line := TrimEnd(line);
    if line == "" || line[|line| - 1] != ']' then None
    else
      var rest := line[..|line| - 1];
      var at := FindLast(rest, MARKER, |rest|);
      if at.None? then None
      else
        var name, id := rest[..at.value], rest[at.value + |MARKER|..];
        if IsItemId(id) then Some(ItemSummary(id, name)) else None
  }

  /** The last marker in a printed line is the one before the id, whatever the name contains. */
  lemma LastMarkerEndsTheName(name: string, id: string)
    requires IsItemId(id)
    ensures FindLast(name + MARKER + id, MARKER, |name + MARKER + id|) == Some(|name|)
  {
    var rest := name + MARKER + id;
    assert OccursAt(rest, MARKER, |name|);
    assert forall i | |name| + 1 < i < |rest| :: rest[i] != '[';
    forall k | |name| < k < |rest| ensures !OccursAt(rest, MARKER, k) {
      assert MARKER[1] == '[';
      if k + |MARKER| <= |rest| {
        assert rest[k + 1] != '[';
        assert rest[k..k + |MARKER|][1] == rest[k + 1];
      }
    }
    FindLastIsExact(rest, MARKER, |rest|, |name|);
  }

  lemma PrintedLinesParse(item: ItemSummary)
    requires IsItemId(item.id)
    ensures ParseLsLine(ListingLine(item)) == Some(item)
  {
    var rest := item.name + MARKER + item.id;
    assert ListingLine(item)[..|ListingLine(item)| - 1] == rest;
    LastMarkerEndsTheName(item.name, item.id);
    assert rest[..|item.name|] == item.name && rest[|item.name| + |MARKER|..] == item.id;
  }

  lemma ParsedLinesArePrinted(line: string)
    requires ParseLsLine(line).Some?
    ensures IsItemId(ParseLsLine(line).value.id) && TrimEnd(line) == ListingLine(ParseLsLine(line).value)
  {
    var trimmed := TrimEnd(line);
    var rest := trimmed[..|trimmed| - 1];
    var at := FindLast(rest, MARKER, |rest|).value;
    FindLastIsExact(rest, MARKER, |rest|, at);
    assert rest == rest[..at] + rest[at..at + |MARKER|] + rest[at + |MARKER|..];
    assert trimmed == rest + "]";
  }

  /** Parsing undoes printing, and accepts nothing but printed lines with trailing blanks. */
  lemma ParseInvertsListing(line: string, item: ItemSummary)
    ensures ParseLsLine(line) == Some(item) <==> IsItemId(item.id) && TrimEnd(line) == ListingLine(item)
  {
    if IsItemId(item.id) && TrimEnd(line) == ListingLine(item) {
      PrintedLinesParse(item);
      assert TrimEnd(ListingLine(item)) == ListingLine(item);
    }
    if ParseLsLine(line) == Some(item) {
      ParsedLinesArePrinted(line);
    }
  }
}
