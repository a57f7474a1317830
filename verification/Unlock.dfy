/** The state machine around one held password, and its runs (src/unlock.rs).

    `Vault` is the abstract state every operation is specified over. The class keeps
    it in fields and shares its `LockEpoch` with the approvals. */
module Unlock {
  import opened Basics
  import opened Approvals
  import opened Master

  datatype Held = Held(secret: Bytes, from: Source, lastUsed: nat)

  datatype Vault = Vault(epoch: Epoch, held: Option<Held>, storeRejected: bool)

  datatype Settings = Settings(touchId: bool, idle: Option<nat>)

  // --- What each operation does ---

  function HeldSecret(v: Vault): Option<Bytes> {
    if v.held.Some? then Some(v.held.value.secret) else None
  }

  /** Having to ask is counted before anything is asked. */
  function BeginAsk(v: Vault): Vault {
    v.(epoch := v.epoch.(unlocks := v.epoch.unlocks + 1))
  }

  function EndAsk(v: Vault, r: Resolution, now: nat): Vault {
    if r.Err? then v else v.(held := Some(Held(r.value.0, r.value.1, now)))
  }

  function Locked(v: Vault): Vault {
    v.(held := None, epoch := v.epoch.(locks := v.epoch.locks + 1))
  }

  function Touched(v: Vault, now: nat): Vault {
    if v.held.None? then v else v.(held := Some(v.held.value.(lastUsed := now)))
  }

  function Rejected(v: Vault): Vault {
    if v.held.None? then v
    else Locked(v).(storeRejected := v.storeRejected || v.held.value.from == Store)
  }

  predicate IdleFor(v: Vault, idle: nat, now: nat) {
    v.held.Some? && now - v.held.value.lastUsed >= idle
  }

  function Expired(v: Vault, idle: Option<nat>, now: nat): Vault {
    if idle.Some? && IdleFor(v, idle.value, now) then Locked(v) else v
  }

  // --- Runs of operations ---

  /** One operation, with what the world answered if it had to ask. */
  datatype Op =
    | Password(ask: bool, store: StoreReply, prompt: PromptReply, at: nat)
    | Touch(at: nat)
    | Reject
    | Forget
    | Expire(at: nat)

  predicate Asks(v: Vault, op: Op) {
    op.Password? && op.ask && v.held.None?
  }

  function Outcome(s: Settings, v: Vault, op: Op): Resolution
    requires op.Password?
  {
    Resolve(s.touchId, v.storeRejected, op.store, op.prompt)
  }

  predicate Takes(s: Settings, v: Vault, op: Op) {
    Asks(v, op) && Outcome(s, v, op).Ok?
  }

  predicate Drops(s: Settings, v: Vault, op: Op) {
    v.held.Some? && Do(s, v, op).held.None?
  }

  predicate ReadsStoreNow(s: Settings, v: Vault, op: Op) {
    Asks(v, op) && ReadsStore(s.touchId, v.storeRejected)
  }

  function Do(s: Settings, v: Vault, op: Op): Vault {
    match op
    case Password(_, _, _, at) => if Asks(v, op) then EndAsk(BeginAsk(v), Outcome(s, v, op), at) else v
    case Touch(at) => Touched(v, at)
    case Reject => Rejected(v)
    case Forget => Locked(v)
    case Expire(at) => Expired(v, s.idle, at)
  }

  function Run(s: Settings, v: Vault, ops: seq<Op>): Vault {
    if ops == [] then v else Do(s, Run(s, v, ops[..|ops| - 1]), ops[|ops| - 1])
  }

  function One(b: bool): nat { if b then 1 else 0 }

  datatype Tally = Tally(asks: nat, takes: nat, drops: nat, idleForgets: nat)

  /** How often each kind of thing happened over a run. */
  function Count(s: Settings, v: Vault, ops: seq<Op>): Tally {
    if ops == [] then Tally(0, 0, 0, 0)
    else
      var before, op := ops[..|ops| - 1], ops[|ops| - 1];
      var at, t := Run(s, v, before), Count(s, v, before);
      Tally(t.asks + One(Asks(at, op)), t.takes + One(Takes(s, at, op)), t.drops + One(Drops(s, at, op)),
            t.idleForgets + One(op.Forget? && at.held.None?))
  }

  /** Conservation over every run. Each drop of a held password, and each `forget` with nothing held,
      is one lock and nothing else is; each ask is counted once; and every password taken is either
      dropped or still held. */
  lemma {:induction false} LedgerBalances(s: Settings, v: Vault, ops: seq<Op>)
    ensures var end, t := Run(s, v, ops), Count(s, v, ops);
      && end.epoch.locks == v.epoch.locks + t.drops + t.idleForgets
      && end.epoch.unlocks == v.epoch.unlocks + t.asks
      && One(v.held.Some?) + t.takes == t.drops + One(end.held.Some?)
  {
    if ops != [] {
      LedgerBalances(s, v, ops[..|ops| - 1]);
    }
  }

  /** The state a run is in after its first `k` operations. */
  function After(s: Settings, v: Vault, ops: seq<Op>, k: nat): Vault
    requires k <= |ops|
  {
    Run(s, v, ops[..k])
  }

  lemma AfterStep(s: Settings, v: Vault, ops: seq<Op>, k: nat)
    requires k < |ops|
    ensures After(s, v, ops, k + 1) == Do(s, After(s, v, ops, k), ops[k])
  {
    assert ops[..k + 1][..k] == ops[..k];
  }

  /** Without a drop, a held password stays held: the same secret from the same source, and as last
      used as the touches in between say. */
  lemma {:induction false} HeldUntilDropped(s: Settings, v: Vault, ops: seq<Op>, i: nat, j: nat)
    requires i <= j <= |ops|
    requires After(s, v, ops, i).held.Some?
    requires forall k | i <= k < j :: !Drops(s, After(s, v, ops, k), ops[k])
    ensures var was, now := After(s, v, ops, i).held.value, After(s, v, ops, j).held;
      && now.Some? && now.value.secret == was.secret && now.value.from == was.from
      && ((forall k | i <= k < j :: !ops[k].Touch?) ==> now.value.lastUsed == was.lastUsed)
    decreases j - i
  {
    if i < j {
      HeldUntilDropped(s, v, ops, i, j - 1);
      AfterStep(s, v, ops, j - 1);
      assert !Drops(s, After(s, v, ops, j - 1), ops[j - 1]);
    }
  }

  /** At most one prompt per hold: once an ask is answered, nothing asks again until a drop. */
  lemma OneAskPerHold(s: Settings, v: Vault, ops: seq<Op>, i: nat, j: nat)
    requires i < j < |ops|
    requires Takes(s, After(s, v, ops, i), ops[i])
    requires Asks(After(s, v, ops, j), ops[j])
    ensures exists k :: i < k < j && Drops(s, After(s, v, ops, k), ops[k])
  {
    AfterStep(s, v, ops, i);
    if forall k | i < k < j :: !Drops(s, After(s, v, ops, k), ops[k]) {
      HeldUntilDropped(s, v, ops, i + 1, j);
    }
  }

  /** An operation that puts the idle clock of a held password at its own time. */
  predicate Stamps(s: Settings, v: Vault, op: Op) {
    Takes(s, v, op) || (op.Touch? && v.held.Some?)
  }

  /** The idle rule: after a password was taken or touched, and with neither a drop nor a touch since, a
      sweep drops it exactly when the idle time has passed since then. */
  lemma IdleTimeRunsFromTheLastTouch(s: Settings, v: Vault, ops: seq<Op>, i: nat, j: nat)
    requires i < j < |ops|
    requires Stamps(s, After(s, v, ops, i), ops[i]) && ops[j].Expire?
    requires forall k | i < k < j :: !Drops(s, After(s, v, ops, k), ops[k]) && !ops[k].Touch?
    ensures Drops(s, After(s, v, ops, j), ops[j]) <==> s.idle.Some? && ops[j].at - ops[i].at >= s.idle.value
  {
    AfterStep(s, v, ops, i);
    HeldUntilDropped(s, v, ops, i + 1, j);
  }

  /** A rejected store password bars the store for good: no later ask reads it. */
  lemma {:induction false} RejectedStoreIsNeverReadAgain(s: Settings, v: Vault, ops: seq<Op>, later: Op)
    requires v.held.Some? && v.held.value.from == Store
    ensures var after := Run(s, Do(s, v, Reject), ops);
      && after.storeRejected
      && !ReadsStoreNow(s, after, later)
      && (Takes(s, after, later) ==> Outcome(s, after, later).value.1 == Prompt)
  {
    if ops != [] {
      RejectedStoreIsNeverReadAgain(s, v, ops[..|ops| - 1], later);
    }
  }

  class Unlock {
    const settings: Settings
    const epoch: LockEpoch
    var held: Option<Held>
    var storeRejected: bool

    ghost function View(): Vault
      reads this, epoch
    {
      Vault(epoch.View(), held, storeRejected)
    }

    constructor (settings: Settings)
      ensures this.settings == settings && fresh(epoch)
      ensures View() == Vault(Epoch(0, 0), None, false)
    {
      this.settings := settings;
      epoch := new LockEpoch();
      held, storeRejected := None, false;
    }

    /** Carries out `Op.Password`: what is held, else nothing or what asking brings. */
    method Password(ask: bool, store: StoreReply, prompt: PromptReply, now: nat)
      returns (r: Result<Option<Bytes>, string>)
      modifies this, epoch
      ensures View() == Do(settings, old(View()), Op.Password(ask, store, prompt, now))
      ensures r == if old(held).Some? then Ok(Some(old(held).value.secret))
                   else if !ask then Ok(None)
                   else
                     var got := Resolve(settings.touchId, old(storeRejected), store, prompt);
                     if got.Err? then Err(got.error) else Ok(Some(got.value.0))
    {
      if held.Some? {
        return Ok(Some(held.value.secret));
      }
      if !ask {
        return Ok(None);
      }
      epoch.Unlocked();
      var resolved := Resolve(settings.touchId, storeRejected, store, prompt);
      if resolved.Err? {
        return Err(resolved.error);
      }
      var (secret, from) := resolved.value;
      held := Some(Held(secret, from, now));
      return Ok(Some(secret));
    }

    method TouchNow(now: nat)
      modifies this
      ensures View() == Do(settings, old(View()), Touch(now))
    {
      if held.Some? {
        held := Some(held.value.(lastUsed := now));
      }
    }

    /** Carries out `Reject`: nothing is held afterwards, and a store source is barred. */
    method RejectHeld()
      modifies this, epoch
      ensures View() == Do(settings, old(View()), Reject)
    {
      if held.None? {
        return;
      }
      var was := held.value;
      held := None;
      epoch.Bump();
      if was.from == Store {
        storeRejected := true;
      }
    }

    method ForgetNow()
      modifies this, epoch
      ensures View() == Do(settings, old(View()), Forget)
    {
      held := None;
      epoch.Bump();
    }

    method ExpireIfIdle(now: nat)
      modifies this, epoch
      ensures View() == Do(settings, old(View()), Expire(now))
    {
      if settings.idle.None? {
        return;
      }
      if held.Some? && now - held.value.lastUsed >= settings.idle.value {
        held := None;
        epoch.Bump();
      }
    }
  }
}
