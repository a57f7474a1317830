/** Unlocking an encrypted key: sources of a passphrase in order, and what is saved of them
    (src/passphrase.rs). */
module Passphrase {
  import opened Basics
  import opened Buffers
  import opened Signing
  import opened LpassCli
  import opened KeyStore
  import Terminal

  // --- Reading what a helper prints ---

  type PromptError = Terminal.PromptError

  /** The whole of a helper's answer, in one allocation, unless it is past the cap or the pipe breaks. */
  method ReadSecret(chunks: seq<Bytes>, breaks: bool) returns (r: Result<Bytes, PromptError>, out: Buffer)
    requires forall i | 0 <= i < |chunks| :: chunks[i] != []
    ensures r == if |Concat(chunks)| > MAX_PASSPHRASE_BYTES then Err(Terminal.TooLong(MAX_PASSPHRASE_BYTES))
                 else if breaks then Err(Terminal.Unavailable) else Ok(Concat(chunks))
    ensures out.Valid() && |out.Contents()| <= MAX_PASSPHRASE_BYTES
    ensures out.moves == 0 && out.data.Length == MAX_PASSPHRASE_BYTES
  {
    out := new Buffer(MAX_PASSPHRASE_BYTES);
    assert chunks[..0] == [] && chunks[..|chunks|] == chunks;
    for i := 0 to |chunks|
      invariant out.Valid() && fresh(out) && fresh(out.data)
      invariant out.Contents() == Concat(chunks[..i]) && |out.Contents()| <= MAX_PASSPHRASE_BYTES
      invariant out.moves == 0 && out.data.Length == MAX_PASSPHRASE_BYTES
    {
      assert chunks[..i + 1][..i] == chunks[..i];
      ConcatGrows(chunks, i + 1, |chunks|);
      if out.len + |chunks[i]| > MAX_PASSPHRASE_BYTES {
        return Err(Terminal.TooLong(MAX_PASSPHRASE_BYTES)), out;
      }
      out.Extend(chunks[i]);
    }
    r := if breaks then Err(Terminal.Unavailable) else Ok(out.data[..out.len]);
  }

  const LF: Byte := 10
  const CR: Byte := 13

  predicate EndsWith(s: Bytes, b: Byte) { s != [] && s[|s| - 1] == b }

  function Stripped(s: Bytes): Bytes {
    if !EndsWith(s, LF) then s
    else if EndsWith(s[..|s| - 1], CR) then s[..|s| - 2]
    else s[..|s| - 1]
  }

  /** At most one line ending goes, and a passphrase that ends in anything else is left alone. */
  lemma OneLineEndingIsStripped(s: Bytes, kept: Bytes)
    ensures Stripped(s) == kept
       <==> || s == kept + [CR, LF]
            || (s == kept + [LF] && !EndsWith(kept, CR))
            || (s == kept && !EndsWith(s, LF))
  {
    if Stripped(s) == kept && EndsWith(s, LF) {
      if EndsWith(s[..|s| - 1], CR) {
        assert s == kept + [CR, LF];
      } else {
        assert s == kept + [LF];
      }
    }
    if s == kept + [CR, LF] {
      assert s[..|s| - 1] == kept + [CR] && s[..|s| - 2] == kept;
    }
    if s == kept + [LF] {
      assert s[..|s| - 1] == kept;
    }
  }

  method StripLineEnding(secret: Buffer)
    requires secret.Valid()
    modifies secret`len
    ensures secret.Valid() && secret.Contents() == Stripped(old(secret.Contents()))
  {
    ghost var before := secret.Contents();
    if secret.len > 0 && secret.data[secret.len - 1] == LF {
      secret.Truncate(secret.len - 1);
      if secret.len > 0 && secret.data[secret.len - 1] == CR {
        secret.Truncate(secret.len - 1);
        assert secret.Contents() == before[..|before| - 2];
      }
    }
  }

  // --- Unlocking a key ---

  /** A private key as the vault holds it: an OpenSSH key shows its public half even while encrypted. */
  datatype PrivateKey = PrivateKey(half: KeyData, encrypted: bool, material: Bytes)

  /** Reading, decrypting and signing with private keys, which this model takes as given. */
  datatype Ciphers = Ciphers(
    parse: Bytes -> Option<PrivateKey>,
    decrypt: (PrivateKey, Bytes) -> Option<PrivateKey>,
    sign: (PrivateKey, Bytes, nat) -> Option<Bytes>,
    fingerprint: KeyData -> string)

  datatype Failure = Fetching(error: LpassError) | EmptyItem | Unparsable | KeyChanged
                   | FieldIsEmpty | PromptFailed(why: PromptError) | NothingTyped | WrongPassphrase | CannotSign

  datatype Write = Write(fingerprint: string, secret: Bytes)

  /** How the vault and the user answer during one request, whether the store can be read and written, and
      what other programs write to it while the user types. */
  datatype Answers = Answers(
    pem: Result<Bytes, LpassError>,
    field: Result<Bytes, LpassError>,
    readable: bool,
    typed: Result<Bytes, PromptError>,
    meanwhile: seq<Write>,
    keeps: bool)

  /** What a passphrase store holds, by fingerprint. */
  type Entries = map<string, Bytes>

  /** The store once others have written to it, and what of `own` they have not replaced. */
  function Overwritten(store: Entries, writes: seq<Write>): Entries {
    if writes == [] then store
    else
      var last := writes[|writes| - 1];
      Overwritten(store, writes[..|writes| - 1])[last.fingerprint := last.secret]
  }

  function Untouched(own: Entries, writes: seq<Write>): Entries {
    if writes == [] then own
    else Untouched(own, writes[..|writes| - 1]) - {writes[|writes| - 1].fingerprint}
  }

  /** What reaches the user or the passphrase store, and the gate that guards both. */
  datatype Touch = EnteredGate | ReadStore | Prompted | Wrote(fingerprint: string, secret: Bytes)

  function Decrypted(c: Ciphers, key: PrivateKey, secret: Bytes): Result<PrivateKey, Failure> {
    match c.decrypt(key, secret)
    case Some(unlocked) => Ok(unlocked)
    case None => Err(WrongPassphrase)
  }

  function Entered(typed: Result<Bytes, PromptError>): Result<Bytes, Failure> {
    match typed
    case Err(e) => Err(PromptFailed(e))
    case Ok(secret) => if secret == [] then Err(NothingTyped) else Ok(secret)
  }

  /** The passphrase saved for a fingerprint, if the store has one and lets it be read. */
  function Saved(store: Entries, fingerprint: string, readable: bool): Option<Bytes> {
    if readable && fingerprint in store then Some(store[fingerprint]) else None
  }

  /** What was saved opens the key, and is no longer than anything this agent saves. */
  predicate SavedOpens(c: Ciphers, key: PrivateKey, saved: Option<Bytes>) {
    saved.Some? && |saved.value| <= MAX_PASSPHRASE_BYTES && c.decrypt(key, saved.value).Some?
  }

  function SavedFor(c: Ciphers, entry: KeyEntry, store: Entries, a: Answers): Option<Bytes> {
    Saved(store, c.fingerprint(entry.key.data), a.readable)
  }

  /** The passphrase the request ends up trying last, and why there is none. */
  function Chosen(c: Ciphers, entry: KeyEntry, key: PrivateKey, store: Entries, a: Answers): Result<Bytes, Failure> {
    if a.field.Err? then Err(Fetching(a.field.error))
    else if a.field.value != [] then Ok(a.field.value)
    else if entry.fallback.Fail? then Err(FieldIsEmpty)
    else if entry.fallback.Store? && SavedOpens(c, key, SavedFor(c, entry, store, a)) then
      Ok(SavedFor(c, entry, store, a).value)
    else Entered(a.typed)
  }

  /** Entering the gate is a touch the first time only. */
  function Claim(held: bool): seq<Touch> { if held then [] else [EnteredGate] }

  /** The touches of one unlock, in order, by a request that does or does not hold the gate already. */
  function Touches(c: Ciphers, entry: KeyEntry, key: PrivateKey, store: Entries, a: Answers, held: bool): seq<Touch> {
    if a.field.Err? || a.field.value != [] || entry.fallback.Fail? then []
    else if entry.fallback.Prompt? then Claim(held) + [Prompted]
    else if SavedOpens(c, key, SavedFor(c, entry, store, a)) then Claim(held) + [ReadStore]
    else if Entered(a.typed).Ok? && c.decrypt(key, a.typed.value).Some? && a.keeps then
      Claim(held) + [ReadStore, Prompted, Wrote(c.fingerprint(entry.key.data), a.typed.value)]
    else Claim(held) + [ReadStore, Prompted]
  }

  function Unlocked(c: Ciphers, entry: KeyEntry, key: PrivateKey, store: Entries, a: Answers): Result<PrivateKey, Failure> {
    match Chosen(c, entry, key, store, a)
    case Err(e) => Err(e)
    case Ok(secret) => Decrypted(c, key, secret)
  }

  function Kept(store: Entries, touches: seq<Touch>): Entries {
    if touches != [] && touches[|touches| - 1].Wrote? then
      store[touches[|touches| - 1].fingerprint := touches[|touches| - 1].secret]
    else store
  }

  /** The store after one request: what others wrote during its prompt, and then its own write, which
      can only be its last touch. Nothing of a request before the store is read depends on the store, so
      what others write until then may be taken as written before the request. */
  function StoreAfter(store: Entries, touches: seq<Touch>, meanwhile: seq<Write>): Entries {
    Kept(if Prompted in touches then Overwritten(store, meanwhile) else store, touches)
  }

  function OwnAfter(own: Entries, touches: seq<Touch>, meanwhile: seq<Write>): Entries {
    Kept(if Prompted in touches then Untouched(own, meanwhile) else own, touches)
  }

  /** A passphrase in the vault decides by itself, right or wrong: whatever is saved or typed, the
      outcome is the same, and neither the store nor the user is reached. */
  lemma TheVaultDecidesAlone(c: Ciphers, entry: KeyEntry, key: PrivateKey, store: Entries, a: Answers,
                             other: Entries, b: Answers, held: bool)
    requires a.field == b.field && a.field.Ok? && a.field.value != []
    ensures Unlocked(c, entry, key, store, a) == Unlocked(c, entry, key, other, b) == Decrypted(c, key, a.field.value)
    ensures Touches(c, entry, key, store, a, held) == Touches(c, entry, key, other, b, held) == []
  {
  }

  /** The gate is held before anything else is touched; the user is asked at most once; and what is
      written opens the key, under the fingerprint the key is advertised by. */
  lemma TouchesAreGuarded(c: Ciphers, entry: KeyEntry, key: PrivateKey, store: Entries, a: Answers, held: bool)
    ensures var touches := Touches(c, entry, key, store, a, held);
      && (touches != [] && !held ==> touches[0] == EnteredGate)
      && (held ==> EnteredGate !in touches)
      && (forall i, j | 0 <= i < j < |touches| :: touches[i] != touches[j])
      && (forall fingerprint, secret | Wrote(fingerprint, secret) in touches ::
            && touches[|touches| - 1] == Wrote(fingerprint, secret)
            && fingerprint == c.fingerprint(entry.key.data)
            && secret != [] && c.decrypt(key, secret).Some?
            && Unlocked(c, entry, key, store, a) == Decrypted(c, key, secret))
  {
  }

  /** A saved passphrase that stopped working never locks the key: one that is typed unlocks and replaces it. */
  lemma AStaleSaveIsNotFinal(c: Ciphers, entry: KeyEntry, key: PrivateKey, store: Entries, a: Answers, held: bool)
    requires a.field == Ok([]) && entry.fallback.Store? && !SavedOpens(c, key, SavedFor(c, entry, store, a))
    requires a.typed.Ok? && a.typed.value != [] && c.decrypt(key, a.typed.value).Some?
    ensures Unlocked(c, entry, key, store, a).Ok?
    ensures a.keeps ==> Wrote(c.fingerprint(entry.key.data), a.typed.value) in Touches(c, entry, key, store, a, held)
  {
    var touches := Touches(c, entry, key, store, a, held);
    assert a.keeps ==> touches[|touches| - 1] == Wrote(c.fingerprint(entry.key.data), a.typed.value);
  }

  lemma {:induction false} OthersWriteElsewhere(store: Entries, writes: seq<Write>, fingerprint: string)
    requires fingerprint in store && forall i | 0 <= i < |writes| :: writes[i].fingerprint != fingerprint
    ensures fingerprint in Overwritten(store, writes) && Overwritten(store, writes)[fingerprint] == store[fingerprint]
  {
    if writes != [] {
      OthersWriteElsewhere(store, writes[..|writes| - 1], fingerprint);
    }
  }

  /** Once a typed passphrase was kept, the same key is unlocked without asking again, until another
      program replaces what was kept. */
  lemma {:induction false} TheSecondSignatureNeedNotAsk(
      c: Ciphers, entry: KeyEntry, key: PrivateKey, store: Entries,
      a: Answers, since: seq<Write>, b: Answers, held: bool, again: bool)
    requires a.typed.Ok? && |a.typed.value| <= MAX_PASSPHRASE_BYTES
    requires Wrote(c.fingerprint(entry.key.data), a.typed.value) in Touches(c, entry, key, store, a, held)
    requires forall i | 0 <= i < |since| :: since[i].fingerprint != c.fingerprint(entry.key.data)
    requires b.field == Ok([]) && b.readable
    ensures var after := Overwritten(StoreAfter(store, Touches(c, entry, key, store, a, held), a.meanwhile), since);
      Unlocked(c, entry, key, after, b).Ok? && Prompted !in Touches(c, entry, key, after, b, again)
  {
    TouchesAreGuarded(c, entry, key, store, a, held);
    var kept := StoreAfter(store, Touches(c, entry, key, store, a, held), a.meanwhile);
    OthersWriteElsewhere(kept, since, c.fingerprint(entry.key.data));
    assert SavedFor(c, entry, Overwritten(kept, since), b) == Some(a.typed.value);
  }

  // --- Over a whole run ---

  /** The key a fetched item holds, if it is the one advertised. */
  function KeyIn(c: Ciphers, entry: KeyEntry, pem: Result<Bytes, LpassError>): Result<PrivateKey, Failure> {
    if pem.Err? then Err(Fetching(pem.error))
    else if pem.value == [] then Err(EmptyItem)
    else
      match c.parse(pem.value)
      case None => Err(Unparsable)
      case Some(key) => if key.half != entry.key.data then Err(KeyChanged) else Ok(key)
  }

  function Ready(c: Ciphers, entry: KeyEntry, store: Entries, a: Answers): Result<PrivateKey, Failure> {
    match KeyIn(c, entry, a.pem)
    case Err(e) => Err(e)
    case Ok(key) => if key.encrypted then Unlocked(c, entry, key, store, a) else Ok(key)
  }

  function SignatureOf(c: Ciphers, ready: Result<PrivateKey, Failure>, data: Bytes, flags: nat): Result<Bytes, Failure> {
    match ready
    case Err(e) => Err(e)
    case Ok(key) =>
      match c.sign(key, data, flags)
      case Some(signature) => Ok(signature)
      case None => Err(CannotSign)
  }

  /** The vault has no such item or field, or holds another key: what was remembered is wrong. */
  predicate Contradicts(c: Ciphers, entry: KeyEntry, pem: Result<Bytes, LpassError>) {
    || (pem.Err? && (pem.error.ItemNotFound? || pem.error.FieldNotFound?))
    || KeyIn(c, entry, pem) == Err(KeyChanged)
  }

  /** Only a key that is both encrypted and the advertised one costs the user or the store anything: a
      replacement is refused before it is asked about, and cannot overwrite what is saved. */
  function TouchesFor(c: Ciphers, entry: KeyEntry, store: Entries, a: Answers, held: bool): seq<Touch> {
    match KeyIn(c, entry, a.pem)
    case Err(_) => []
    case Ok(key) => if key.encrypted then Touches(c, entry, key, store, a, held) else []
  }

  /** One of these items, as the vault returned them, holds an encrypted key with this fingerprint, and
      the passphrase opens it. */
  ghost predicate OpensAKey(c: Ciphers, fetched: set<Bytes>, fingerprint: string, secret: Bytes) {
    exists pem | pem in fetched ::
      && c.parse(pem).Some? && c.parse(pem).value.encrypted
      && c.fingerprint(c.parse(pem).value.half) == fingerprint
      && c.decrypt(c.parse(pem).value, secret).Some?
  }

  /** A passphrase is written only for the key the request has just fetched, which it opens, and which
      is the one advertised. */
  lemma WritesAreVerified(c: Ciphers, entry: KeyEntry, store: Entries, a: Answers, held: bool, fingerprint: string, secret: Bytes)
    requires Wrote(fingerprint, secret) in TouchesFor(c, entry, store, a, held)
    ensures a.pem.Ok? && OpensAKey(c, {a.pem.value}, fingerprint, secret)
    ensures c.parse(a.pem.value).value.half == entry.key.data && fingerprint == c.fingerprint(entry.key.data)
    ensures StoreAfter(store, TouchesFor(c, entry, store, a, held), a.meanwhile)
         == Overwritten(store, a.meanwhile)[fingerprint := secret]
  {
    TouchesAreGuarded(c, entry, KeyIn(c, entry, a.pem).value, store, a, held);
    assert a.pem.value in {a.pem.value};
  }

  /** The store all requests share with whatever else writes to it. `own` is what this agent wrote last,
      where nobody has written since. */
  class PassphraseStore {
    var entries: Entries
    ghost var own: Entries

    constructor (entries: Entries)
      ensures this.entries == entries && own == map[]
    {
      this.entries, own := entries, map[];
    }

    method Set(fingerprint: string, secret: Bytes)
      modifies this
      ensures entries == old(entries)[fingerprint := secret] && own == old(own)[fingerprint := secret]
    {
      entries, own := entries[fingerprint := secret], own[fingerprint := secret];
    }

    /** Another program writes. */
    method SetByOthers(fingerprint: string, secret: Bytes)
      modifies this
      ensures entries == old(entries)[fingerprint := secret] && own == old(own) - {fingerprint}
    {
      entries, own := entries[fingerprint := secret], own - {fingerprint};
    }

    method SetAllByOthers(writes: seq<Write>)
      modifies this
      ensures entries == Overwritten(old(entries), writes) && own == Untouched(old(own), writes)
    {
      assert writes[..0] == [] && writes[..|writes|] == writes;
      for i := 0 to |writes|
        invariant entries == Overwritten(old(entries), writes[..i]) && own == Untouched(old(own), writes[..i])
      {
        assert writes[..i + 1][..i] == writes[..i];
        SetByOthers(writes[i].fingerprint, writes[i].secret);
      }
    }
  }

  /** What is this agent's own in the store is still there, and opens a key the vault returned. */
  ghost predicate OwnOpens(c: Ciphers, fetched: set<Bytes>, entries: Entries, own: Entries) {
    forall fingerprint | fingerprint in own ::
      && fingerprint in entries && entries[fingerprint] == own[fingerprint]
      && OpensAKey(c, fetched, fingerprint, own[fingerprint])
  }

  lemma OwnStaysOpen(c: Ciphers, fetched: set<Bytes>, entries: Entries, own: Entries, pem: Bytes)
    requires OwnOpens(c, fetched, entries, own)
    ensures OwnOpens(c, fetched + {pem}, entries, own)
  {
    forall fingerprint | fingerprint in own
      ensures OpensAKey(c, fetched + {pem}, fingerprint, own[fingerprint])
    {
      OpensStill(c, fetched, fetched + {pem}, fingerprint, own[fingerprint]);
    }
  }

  lemma OpensStill(c: Ciphers, fetched: set<Bytes>, more: set<Bytes>, fingerprint: string, secret: Bytes)
    requires OpensAKey(c, fetched, fingerprint, secret) && fetched <= more
    ensures OpensAKey(c, more, fingerprint, secret)
  {
    var pem :| pem in fetched && c.parse(pem).Some? && c.parse(pem).value.encrypted
      && c.fingerprint(c.parse(pem).value.half) == fingerprint && c.decrypt(c.parse(pem).value, secret).Some?;
    assert pem in more;
  }

  /** What others write takes its own entries out of this agent's, and leaves the rest as they were. */
  lemma {:induction false} OthersKeepOwn(c: Ciphers, fetched: set<Bytes>, entries: Entries, own: Entries, writes: seq<Write>)
    requires OwnOpens(c, fetched, entries, own)
    ensures OwnOpens(c, fetched, Overwritten(entries, writes), Untouched(own, writes))
  {
    if writes != [] {
      OthersKeepOwn(c, fetched, entries, own, writes[..|writes| - 1]);
    }
  }

  class Unlocker {
    const c: Ciphers
    const store: PassphraseStore
    var touches: seq<Touch>
    ghost var fetched: set<Bytes>

    /** Everything in the store that this agent put there opens a key, filed under its own fingerprint,
        that the vault has returned to this agent. */
    ghost predicate Valid()
      reads this, store
    {
      OwnOpens(c, fetched, store.entries, store.own)
    }

    constructor (c: Ciphers, store: PassphraseStore)
      requires store.own == map[]
      ensures this.c == c && this.store == store && touches == [] && Valid()
    {
      this.c, this.store, touches, fetched := c, store, [], {};
    }

    method Ask(a: Answers, held: bool) returns (typed: Result<Bytes, Failure>)
      modifies `touches, store
      ensures typed == Entered(a.typed)
      ensures touches == old(touches) + Claim(held) + [Prompted]
      ensures store.entries == Overwritten(old(store.entries), a.meanwhile)
      ensures store.own == Untouched(old(store.own), a.meanwhile)
    {
      touches := touches + Claim(held) + [Prompted];
      store.SetAllByOthers(a.meanwhile);
      if a.typed.Err? {
        return Err(PromptFailed(a.typed.error));
      }
      if a.typed.value == [] {
        return Err(NothingTyped);
      }
      typed := Ok(a.typed.value);
    }

    /** The store half of `Unlock`: the gate, what is saved, and failing that what is typed. */
    method UnlockFromStore(entry: KeyEntry, key: PrivateKey, a: Answers, held: bool) returns (r: Result<PrivateKey, Failure>)
      requires a.field == Ok([]) && entry.fallback.Store?
      modifies `touches, store
      ensures r == Unlocked(c, entry, key, old(store.entries), a)
      ensures touches == old(touches) + Touches(c, entry, key, old(store.entries), a, held)
      ensures store.entries == StoreAfter(old(store.entries), Touches(c, entry, key, old(store.entries), a, held), a.meanwhile)
      ensures store.own == OwnAfter(old(store.own), Touches(c, entry, key, old(store.entries), a, held), a.meanwhile)
    {
      touches := touches + Claim(held) + [ReadStore];
      var fingerprint := c.fingerprint(entry.key.data);
      var saved := Saved(store.entries, fingerprint, a.readable);
      if saved.Some? && |saved.value| <= MAX_PASSPHRASE_BYTES {
        var unlocked := c.decrypt(key, saved.value);
        if unlocked.Some? {
          return Ok(unlocked.value);
        }
      }
      var typed := Ask(a, true);
      if typed.Err? {
        return Err(typed.error);
      }
      r := Decrypted(c, key, typed.value);
      if r.Ok? && a.keeps {
        store.Set(fingerprint, typed.value);
        touches := touches + [Wrote(fingerprint, typed.value)];
      }
    }

    /** Carries out `Unlocked` and its touches: the vault's field first, the fallback only for an empty one. */
    method Unlock(entry: KeyEntry, key: PrivateKey, a: Answers, held: bool) returns (r: Result<PrivateKey, Failure>)
      modifies `touches, store
      ensures r == Unlocked(c, entry, key, old(store.entries), a)
      ensures touches == old(touches) + Touches(c, entry, key, old(store.entries), a, held)
      ensures store.entries == StoreAfter(old(store.entries), Touches(c, entry, key, old(store.entries), a, held), a.meanwhile)
      ensures store.own == OwnAfter(old(store.own), Touches(c, entry, key, old(store.entries), a, held), a.meanwhile)
    {
      if a.field.Err? {
        return Err(Fetching(a.field.error));
      }
      if a.field.value != [] {
        return Decrypted(c, key, a.field.value);
      }
      match entry.fallback
      case Fail => return Err(FieldIsEmpty);
      case Prompt =>
        var typed := Ask(a, held);
        if typed.Err? {
          return Err(typed.error);
        }
        return Decrypted(c, key, typed.value);
      case Store =>
        r := UnlockFromStore(entry, key, a, held);
    }

    /** From what the vault holds to a signature, refusing any key but the advertised one. `discards` says
        that the remembered identities are given up, because the vault contradicts them. */
    method SignWith(entry: KeyEntry, a: Answers, data: Bytes, flags: nat, held: bool)
      returns (r: Result<Bytes, Failure>, discards: bool)
      requires Valid()
      modifies this, store
      ensures Valid()
      ensures r == SignatureOf(c, Ready(c, entry, old(store.entries), a), data, flags)
      ensures discards <==> Contradicts(c, entry, a.pem)
      ensures touches == old(touches) + TouchesFor(c, entry, old(store.entries), a, held)
      ensures store.entries == StoreAfter(old(store.entries), TouchesFor(c, entry, old(store.entries), a, held), a.meanwhile)
      ensures fetched == old(fetched) + if a.pem.Ok? then {a.pem.value} else {}
    {
      if a.pem.Err? {
        return Err(Fetching(a.pem.error)), a.pem.error.ItemNotFound? || a.pem.error.FieldNotFound?;
      }
      OwnStaysOpen(c, fetched, store.entries, store.own, a.pem.value);
      fetched := fetched + {a.pem.value};
      if a.pem.value == [] {
        return Err(EmptyItem), false;
      }
      var parsed := c.parse(a.pem.value);
      if parsed.None? {
        return Err(Unparsable), false;
      }
      if parsed.value.half != entry.key.data {
        return Err(KeyChanged), true;
      }
      var ready := Ok(parsed.value);
      if parsed.value.encrypted {
        ready := UnlockFetched(entry, parsed.value, a, held);
      }
      r, discards := SignatureOf(c, ready, data, flags), false;
    }

    /** Unlock the key the vault has just returned, which keeps the store as it should be. */
    method UnlockFetched(entry: KeyEntry, key: PrivateKey, a: Answers, held: bool) returns (r: Result<PrivateKey, Failure>)
      requires Valid() && a.pem.Ok? && a.pem.value in fetched && KeyIn(c, entry, a.pem) == Ok(key) && key.encrypted
      modifies `touches, store
      ensures Valid()
      ensures r == Unlocked(c, entry, key, old(store.entries), a)
      ensures touches == old(touches) + Touches(c, entry, key, old(store.entries), a, held)
      ensures store.entries == StoreAfter(old(store.entries), Touches(c, entry, key, old(store.entries), a, held), a.meanwhile)
    {
      ghost var entries, own, made := store.entries, store.own, Touches(c, entry, key, store.entries, a, held);
      OthersKeepOwn(c, fetched, entries, own, a.meanwhile);
      r := Unlock(entry, key, a, held);
      if made != [] && made[|made| - 1].Wrote? {
        var last := made[|made| - 1];
        WritesAreVerified(c, entry, entries, a, held, last.fingerprint, last.secret);
        OpensStill(c, {a.pem.value}, fetched, last.fingerprint, last.secret);
      }
    }

    /** Whatever another program writes takes its entry out of this agent's own, and keeps the rest. */
    method OthersWrite(fingerprint: string, secret: Bytes)
      requires Valid()
      modifies store
      ensures Valid() && store.entries == old(store.entries)[fingerprint := secret]
    {
      store.SetByOthers(fingerprint, secret);
    }
  }
}
