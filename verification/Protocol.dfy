/** `sign` as a step system (src/agent.rs, with src/approvals.rs, src/unlock.rs, src/interaction.rs,
    src/lpass/cli.rs and src/passphrase.rs).

    The runtime is single-threaded, so a request runs from one await to the next in one step.
    Every await is a step boundary here; some boundaries the code does not have are added (before a
    finished call is looked at, before the final settlement), so every interleaving of the code is
    among these. A step is named by an `Action`, which carries whatever the world answered. */
module Protocol {
  import opened Basics
  import opened Approvals
  import opened Unlock
  import opened Master
  import opened LpassCli
  import Interaction

  // --- State ---

  datatype Use = PrivateKey | PassphraseField | Probe

  /** What a request at the gate will do once it is in. */
  datatype Why = ToConfirm | ToAsk | ToPrompt | ToStore

  /** Where one call to the vault stands. `Want...` waits for the held password's mutex, which
      `Resolving` keeps while the store and the prompt are asked. */
  datatype Call =
    | WantHeld
    | Running(fed: bool)
    | WantAsk
    | Resolving
    | Retrying
    | WantReject(out: Output)
    | WantTouch(out: Output)

  datatype Phase =
    | Naming
    | AtGate(why: Why)
    | Confirming
    | Calling(use: Use, asking: bool, call: Call)
    | Returned(use: Use, asking: bool, reply: Result<Bytes, LpassError>)
    | ReadingStore
    | Typing(save: bool)
    | Saving
    | Signing(ready: bool)
    | Done

  datatype Request = Request(
    confirm: bool,
    probe: bool,
    phase: Phase,
    entered: bool,
    question: Option<string>,
    answer: Answer,
    before: nat,
    asked: bool)

  /** What a request puts in front of the user. */
  datatype Screen = Confirmation(question: Option<string>) | MasterPassword | StoreDialog | PassphraseBox

  datatype Cause = ScreenLocked | IdleTime | Refused

  datatype Event =
    | Nothing
    | Began(r: nat, confirm: bool)
    | Moved(r: nat)
    | Shown(r: nat, screen: Screen)
    | Approved(r: nat, question: Option<string>, epoch: nat)
    | Denied(r: nat)
    | Settled(r: nat, confirm: bool, answer: Answer, question: Option<string>, asked: bool, signed: bool,
              released: bool, epoch: nat)
    | LockSeen(cause: Cause)

  datatype World = World(
    enabled: bool,
    settings: Settings,
    vault: Vault,
    remembered: map<string, nat>,
    gate: Option<nat>,
    holder: Option<nat>,
    requests: map<nat, Request>,
    now: nat,
    log: seq<Event>)

  /** How the agent comes to listen: its configuration, the time, and the vault as its start left it. A
      start that had to scan may hold a password by then, and have counted asks and locks. */
  datatype Setup = Setup(enabled: bool, settings: Settings, vault: Vault, now: nat)

  /** The locks counted before the agent listened, so that the log has every lock there was. */
  function LocksBefore(n: nat): (log: seq<Event>)
    ensures |log| == n && forall i | 0 <= i < n :: log[i] == LockSeen(Refused)
  {
    seq(n, _ => LockSeen(Refused))
  }

  function Start(setup: Setup): World {
    World(setup.enabled, setup.settings, setup.vault, map[], None, None, map[], setup.now,
          LocksBefore(setup.vault.epoch.locks))
  }

  function MemoryOf(w: World): Memory {
    Memory(w.enabled, w.vault.epoch.locks, w.remembered)
  }

  // --- Steps ---

  /** How a request goes on from a finished vault call: the fetched key is unusable, or signs as it
      is, or is encrypted; an empty passphrase field hands over to one of the fallbacks. */
  datatype Choice = Fail | Sign | Decrypt | UsePrompt | UseStore

  datatype Action =
    | Begin(r: nat, confirm: bool)
    | BeginProbe(r: nat)
    | Named(r: nat, question: Option<string>)
    | Enter(r: nat, question: Option<string>)
    | Decide(r: nat, approve: bool)
    | TakeHeld(r: nat)
    | Reply(r: nat, reply: Result<Output, LpassError>)
    | Ask(r: nat)
    | Resolved(r: nat, store: StoreReply, prompt: PromptReply)
    | RejectNow(r: nat)
    | TouchNow(r: nat)
    | Continue(r: nat, choice: Choice)
    | StoreRead(r: nat, decrypts: bool)
    | Typed(r: nat, decrypts: bool)
    | Saved(r: nat)
    | Finish(r: nat, signs: bool)
    | ScreenLocks
    | Sweep
    | Tick

  predicate ByRequest(a: Action) {
    !a.Begin? && !a.BeginProbe? && !a.ScreenLocks? && !a.Sweep? && !a.Tick?
  }

  /** Steps within one call to the vault. */
  predicate InCall(a: Action) {
    a.TakeHeld? || a.Reply? || a.Ask? || a.Resolved? || a.RejectNow? || a.TouchNow?
  }

  /** Choices the code can make from a reply. */
  predicate Allowed(use: Use, reply: Result<Bytes, LpassError>, choice: Choice) {
    match use
    case Probe => choice == Fail
    case PrivateKey => if reply.Err? then choice == Fail else choice in {Fail, Sign, Decrypt}
    case PassphraseField =>
      if reply.Err? then choice == Fail
      else if reply.value != [] then choice in {Fail, Sign}
      else choice in {Fail, UsePrompt, UseStore}
  }

  /** Whether a request in state `q` can take this step now. */
  predicate Ready(w: World, q: Request, a: Action)
    requires ByRequest(a)
  {
    var p := q.phase;
    match a
    case Named(_, _) => p.Naming?
    case Enter(_, _) => p.AtGate? && Interaction.Grants(w.gate, q.entered)
    case Decide(_, _) => p.Confirming?
    case TakeHeld(_) => p.Calling? && p.call.WantHeld? && w.holder.None?
    case Reply(_, reply) =>
      && p.Calling? && (p.call.Running? || p.call.Retrying?)
      && (reply.Ok? ==> reply.value.fed == (p.call.Retrying? || p.call.fed))
    case Ask(_) => p.Calling? && p.call.WantAsk? && w.holder.None?
    case Resolved(_, _, _) => p.Calling? && p.call.Resolving?
    case RejectNow(_) => p.Calling? && p.call.WantReject? && w.holder.None?
    case TouchNow(_) => p.Calling? && p.call.WantTouch? && w.holder.None?
    case Continue(_, choice) => p.Returned? && Allowed(p.use, p.reply, choice)
    case StoreRead(_, _) => p.ReadingStore?
    case Typed(_, _) => p.Typing?
    case Saved(_) => p.Saving?
    case Finish(_, signs) => p.Signing? && (signs ==> p.ready)
  }

  predicate Enabled(w: World, a: Action) {
    match a
    case Begin(r, _) => r !in w.requests
    case BeginProbe(r) => r !in w.requests
    case ScreenLocks => w.holder.None?
    case Sweep => w.holder.None?
    case Tick => true
    case _ => a.r in w.requests && Ready(w, w.requests[a.r], a)
  }

  /** What one step of a request comes to: its own new state, the shared state, and what is logged. */
  datatype Effect = Effect(
    q: Request,
    vault: Vault,
    remembered: map<string, nat>,
    gate: Option<nat>,
    holder: Option<nat>,
    event: Event)

  function Goes(w: World, q: Request, e: Event): Effect {
    Effect(q, w.vault, w.remembered, w.gate, w.holder, e)
  }

  /** The fetch every request makes first: through the client fed only what is held. */
  const FETCH := Calling(PrivateKey, false, WantHeld)

  function Recalled(w: World, question: Option<string>): Option<nat> {
    if question.Some? then Honoured(MemoryOf(w), question.value) else None
  }

  function WhenNamed(w: World, q: Request, r: nat, question: Option<string>): Effect {
    var answered := Recalled(w, question);
    if answered.Some? then
      Goes(w, q.(phase := FETCH, question := question, answer := Remembered(answered.value)), Moved(r))
    else Goes(w, q.(phase := AtGate(ToConfirm)), Moved(r))
  }

  function WhenEntered(w: World, q: Request, r: nat, question: Option<string>): Effect
    requires q.phase.AtGate?
  {
    var q := q.(entered := true);
    var w := w.(gate := Some(r));
    match q.phase.why
    case ToConfirm =>
      var answered := Recalled(w, question);
      if answered.Some? then
        Goes(w, q.(phase := FETCH, question := question, answer := Remembered(answered.value)), Moved(r))
      else
        Goes(w, q.(phase := Confirming, question := question), Shown(r, Confirmation(question)))
    case ToAsk =>
      Goes(w, q.(phase := Calling(PrivateKey, true, WantHeld), before := w.vault.epoch.unlocks), Moved(r))
    case ToPrompt => Goes(w, q.(phase := Typing(false)), Shown(r, PassphraseBox))
    case ToStore => Goes(w, q.(phase := ReadingStore), Shown(r, StoreDialog))
  }

  /** The end of a request, which is what releases the gate. */
  function Leaves(w: World, q: Request, e: Event): Effect {
    Goes(w.(gate := Interaction.Released(w.gate, q.entered)), q.(phase := Done, entered := false), e)
  }

  function WhenDecided(w: World, q: Request, r: nat, approve: bool): Effect {
    var epoch := w.vault.epoch.locks;
    if approve then
      Goes(w, q.(phase := FETCH, answer := Given(q.question, epoch)), Approved(r, q.question, epoch))
    else Leaves(w, q, Denied(r))
  }

  /** What a call does once a run of `lpass` has finished without having to ask. */
  function AfterRun(use: Use, asking: bool, out: Output): Phase {
    if Incorrect(out) then Calling(use, asking, WantReject(out))
    else if asking then Calling(use, asking, WantTouch(out))
    else Returned(use, asking, Verdict("", Ok(out)))
  }

  function WhenReplied(w: World, q: Request, r: nat, reply: Result<Output, LpassError>): Effect
    requires q.phase.Calling?
  {
    var p := q.phase;
    var next :=
      if reply.Err? then Returned(p.use, p.asking, Err(reply.error))
      else if LockedOut(reply.value) && p.asking && p.call.Running? then Calling(p.use, true, WantAsk)
      else AfterRun(p.use, p.asking, reply.value);
    Goes(w, q.(phase := next), Moved(r))
  }

  function WhenAsked(w: World, q: Request, r: nat): Effect
    requires q.phase.Calling?
  {
    var p := q.phase;
    if w.vault.held.Some? then Goes(w, q.(phase := Calling(p.use, p.asking, Retrying)), Moved(r))
    else
      Goes(w.(vault := BeginAsk(w.vault), holder := Some(r)), q.(phase := Calling(p.use, p.asking, Resolving)),
           Shown(r, MasterPassword))
  }

  /** The store and the prompt have answered, as far as they were asked. */
  function WhenResolved(w: World, q: Request, r: nat, store: StoreReply, prompt: PromptReply): Effect
    requires q.phase.Calling?
  {
    var p := q.phase;
    var resolution := Resolve(w.settings.touchId, w.vault.storeRejected, store, prompt);
    var next := if resolution.Ok? then Calling(p.use, p.asking, Retrying)
                else Returned(p.use, p.asking, Err(NoMasterPassword(resolution.error)));
    Goes(w.(vault := EndAsk(w.vault, resolution, w.now), holder := None), q.(phase := next), Moved(r))
  }

  function WhenRejected(w: World, q: Request, r: nat): Effect
    requires q.phase.Calling? && q.phase.call.WantReject?
  {
    var p := q.phase;
    var next := if p.asking then Calling(p.use, true, WantTouch(p.call.out))
                else Returned(p.use, false, Verdict("", Ok(p.call.out)));
    Goes(w.(vault := Rejected(w.vault)), q.(phase := next),
         if w.vault.held.Some? then LockSeen(Refused) else Moved(r))
  }

  function WhenTouched(w: World, q: Request, r: nat): Effect
    requires q.phase.Calling? && q.phase.call.WantTouch?
  {
    var p := q.phase;
    Goes(w.(vault := Touched(w.vault, w.now)),
         q.(phase := Returned(p.use, p.asking, Verdict("", Ok(p.call.out)))), Moved(r))
  }

  function AfterChoice(choice: Choice): Phase {
    match choice
    case Fail => Signing(false)
    case Sign => Signing(true)
    case Decrypt => Calling(PassphraseField, false, WantHeld)
    case UsePrompt => AtGate(ToPrompt)
    case UseStore => AtGate(ToStore)
  }

  function WhenContinued(w: World, q: Request, r: nat, choice: Choice): Effect
    requires q.phase.Returned?
  {
    var p := q.phase;
    if p.use == Probe then Goes(w, q.(phase := Done), Moved(r))
    else if p.use == PrivateKey && !p.asking && p.reply == Err(VaultLocked) then
      Goes(w, q.(phase := AtGate(ToAsk)), Moved(r))
    else
      var asked := if p.asking then w.vault.epoch.unlocks != q.before else q.asked;
      Goes(w, q.(phase := AfterChoice(choice), asked := asked), Moved(r))
  }

  function WhenStoreRead(w: World, q: Request, r: nat, decrypts: bool): Effect {
    if decrypts then Goes(w, q.(phase := Signing(true)), Moved(r))
    else Goes(w, q.(phase := Typing(true)), Shown(r, PassphraseBox))
  }

  function WhenTyped(w: World, q: Request, r: nat, decrypts: bool): Effect
    requires q.phase.Typing?
  {
    if decrypts && q.phase.save then Goes(w, q.(phase := Saving), Shown(r, StoreDialog))
    else Goes(w, q.(phase := Signing(decrypts)), Moved(r))
  }

  function WhenFinished(w: World, q: Request, r: nat, signed: bool): Effect {
    var (memory, covered) := Settlement(MemoryOf(w), q.answer, q.asked, signed);
    var e := Settled(r, q.confirm, q.answer, q.question, q.asked, signed, signed && covered, w.vault.epoch.locks);
    var vault := w.vault.(epoch := w.vault.epoch.(locks := memory.locks));
    Leaves(w.(vault := vault, remembered := memory.remembered), q, e)
  }

  function EffectOf(w: World, q: Request, a: Action): Effect
    requires ByRequest(a) && Ready(w, q, a)
  {
    match a
    case Named(r, question) => WhenNamed(w, q, r, question)
    case Enter(r, question) => WhenEntered(w, q, r, question)
    case Decide(r, approve) => WhenDecided(w, q, r, approve)
    case TakeHeld(r) =>
      Goes(w, q.(phase := Calling(q.phase.use, q.phase.asking, Running(w.vault.held.Some?))), Moved(r))
    case Reply(r, reply) => WhenReplied(w, q, r, reply)
    case Ask(r) => WhenAsked(w, q, r)
    case Resolved(r, store, prompt) => WhenResolved(w, q, r, store, prompt)
    case RejectNow(r) => WhenRejected(w, q, r)
    case TouchNow(r) => WhenTouched(w, q, r)
    case Continue(r, choice) => WhenContinued(w, q, r, choice)
    case StoreRead(r, decrypts) => WhenStoreRead(w, q, r, decrypts)
    case Typed(r, decrypts) => WhenTyped(w, q, r, decrypts)
    case Saved(r) => Goes(w, q.(phase := Signing(true)), Moved(r))
    case Finish(r, signs) => WhenFinished(w, q, r, signs)
  }

  function Applied(w: World, r: nat, e: Effect): World {
    w.(requests := w.requests[r := e.q], vault := e.vault, remembered := e.remembered, gate := e.gate,
       holder := e.holder, log := w.log + [e.event])
  }

  /** A request as it arrives: a signature for a key that does or does not need confirming. */
  function Fresh(confirm: bool): Request {
    Request(confirm, false, if confirm then Naming else FETCH, false, None, NotNeeded, 0, false)
  }

  /** A vault call of the refresher's, which signs nothing. */
  const FRESH_PROBE := Request(false, true, Calling(Probe, false, WantHeld), false, None, NotNeeded, 0, false)

  function Step(w: World, a: Action): World
    requires Enabled(w, a)
  {
    match a
    case Begin(r, confirm) => Applied(w, r, Goes(w, Fresh(confirm), Began(r, confirm)))
    case BeginProbe(r) => Applied(w, r, Goes(w, FRESH_PROBE, Began(r, false)))
    case ScreenLocks => w.(vault := Locked(w.vault), log := w.log + [LockSeen(ScreenLocked)])
    case Sweep =>
      var vault := Expired(w.vault, w.settings.idle, w.now);
      w.(vault := vault, log := w.log + [if vault == w.vault then Nothing else LockSeen(IdleTime)])
    case Tick => w.(now := w.now + 1, log := w.log + [Nothing])
    case _ => Applied(w, a.r, EffectOf(w, w.requests[a.r], a))
  }

  // --- Runs ---

  ghost predicate IsRun(w: World, acts: seq<Action>)
    decreases |acts|, 0
  {
    acts == [] || (IsRun(w, acts[..|acts| - 1]) && Enabled(Reached(w, acts[..|acts| - 1]), acts[|acts| - 1]))
  }

  ghost function Reached(w: World, acts: seq<Action>): World
    requires IsRun(w, acts)
    decreases |acts|, 1
  {
    if acts == [] then w else Step(Reached(w, acts[..|acts| - 1]), acts[|acts| - 1])
  }
}
