/** What every reachable state of the signing protocol satisfies.

    The log is the history of a run. `Sound` says of each event what its past had to be; the
    state predicates tie the current state to the log. */
module ProtocolInvariant {
  import opened Basics
  import opened Approvals
  import opened Unlock
  import opened Protocol

  // --- Reading the log ---

  function ActorOf(e: Event): Option<nat> {
    if e.Nothing? || e.LockSeen? then None else Some(e.r)
  }

  predicate Ends(e: Event, r: nat) {
    (e.Denied? || e.Settled?) && e.r == r
  }

  predicate HasEnded(log: seq<Event>, r: nat) {
    exists i :: 0 <= i < |log| && Ends(log[i], r)
  }

  predicate HasShown(log: seq<Event>, r: nat) {
    exists i :: 0 <= i < |log| && log[i].Shown? && log[i].r == r
  }

  /** The vault locked: seen as it happened, or learned of by a request that had to ask. */
  predicate IsLock(e: Event) {
    e.LockSeen? || (e.Settled? && e.asked)
  }

  function Locks(log: seq<Event>): nat {
    if log == [] then 0 else Locks(log[..|log| - 1]) + One(IsLock(log[|log| - 1]))
  }

  /** A settlement that files its answer: the user's yes to a question, signed, in the epoch it was given. */
  predicate Files(e: Event, question: string, epoch: nat) {
    && e.Settled? && e.signed
    && e.answer == Given(Some(question), e.epoch)
    && epoch == FilingEpoch(e.epoch, e.asked)
  }

  predicate HasFiled(log: seq<Event>, question: string, epoch: nat) {
    exists i :: 0 <= i < |log| && Files(log[i], question, epoch)
  }

  lemma LocksGrow(log: seq<Event>, e: Event)
    ensures Locks(log + [e]) == Locks(log) + One(IsLock(e))
  {
    assert (log + [e])[..|log|] == log;
  }

  lemma LogGrows(log: seq<Event>, e: Event)
    ensures Locks(log + [e]) == Locks(log) + One(IsLock(e))
    ensures forall k | 0 <= k <= |log| :: (log + [e])[..k] == log[..k]
    ensures forall r :: HasEnded(log + [e], r) <==> HasEnded(log, r) || Ends(e, r)
    ensures forall r :: HasShown(log + [e], r) <==> HasShown(log, r) || (e.Shown? && e.r == r)
    ensures forall q, n: nat :: HasFiled(log + [e], q, n) <==> HasFiled(log, q, n) || Files(e, q, n)
    ensures forall x :: x in log + [e] <==> x in log || x == e
  {
    var longer := log + [e];
    assert longer[..|log|] == log && longer[|log|] == e;
    forall r ensures HasEnded(longer, r) <==> HasEnded(log, r) || Ends(e, r) {
      if HasEnded(log, r) {
        var i :| 0 <= i < |log| && Ends(log[i], r);
        assert Ends(longer[i], r);
      }
    }
    forall r ensures HasShown(longer, r) <==> HasShown(log, r) || (e.Shown? && e.r == r) {
      if HasShown(log, r) {
        var i :| 0 <= i < |log| && log[i].Shown? && log[i].r == r;
        assert longer[i].Shown?;
      }
    }
    forall q, n: nat ensures HasFiled(longer, q, n) <==> HasFiled(log, q, n) || Files(e, q, n) {
      if HasFiled(log, q, n) {
        var i :| 0 <= i < |log| && Files(log[i], q, n);
        assert Files(longer[i], q, n);
      }
    }
  }

  /** What the past of an event had to be. */
  ghost predicate Justified(enabled: bool, past: seq<Event>, e: Event) {
    && (ActorOf(e).Some? ==> !HasEnded(past, ActorOf(e).value))
    && match e
       case Nothing => true
       case Began(r, _) => true
       case Moved(r) => true
       case LockSeen(_) => true
       case Denied(r) => HasShown(past, r)
       case Shown(r, screen) =>
         && (forall other | HasShown(past, other) && other != r :: HasEnded(past, other))
         && (enabled && screen.Confirmation? && screen.question.Some? ==>
               forall n: nat | HasFiled(past, screen.question.value, n) :: n < Locks(past))
       case Approved(r, question, epoch) =>
         Shown(r, Confirmation(question)) in past && epoch == Locks(past)
       case Settled(r, confirm, answer, question, asked, signed, released, epoch) =>
         && epoch == Locks(past)
         && (asked <==> Shown(r, MasterPassword) in past)
         && (answer.Given? ==> answer.question == question && Approved(r, question, answer.epoch) in past)
         && (answer.Remembered? ==> enabled && question.Some? && HasFiled(past, question.value, answer.epoch))
         && AnsweredAs(past, r, answer)
         && (confirm ==> !answer.NotNeeded?)
         && (released <==> signed && (answer.Remembered? ==> !asked && answer.epoch == epoch))
  }

  ghost predicate Sound(enabled: bool, log: seq<Event>) {
    forall k | 0 <= k < |log| :: Justified(enabled, log[..k], log[k])
  }

  lemma SoundGrows(enabled: bool, log: seq<Event>, e: Event)
    requires Sound(enabled, log) && Justified(enabled, log, e)
    ensures Sound(enabled, log + [e])
  {
    LogGrows(log, e);
    forall k | 0 <= k < |log + [e]| ensures Justified(enabled, (log + [e])[..k], (log + [e])[k]) {
      assert (log + [e])[k] == if k < |log| then log[k] else e;
    }
  }

  // --- The state ---

  predicate Interacting(p: Phase) {
    p.Confirming? || p.ReadingStore? || p.Typing? || p.Saving? || ((p.Calling? || p.Returned?) && p.asking)
  }

  /** A call that may not ask never gets to where one would. */
  predicate WellFormedCall(p: Phase) {
    && (p.Calling? && p.asking ==> p.use == PrivateKey)
    && (p.Returned? && p.asking ==> p.use == PrivateKey)
    && (p.Calling? && !p.asking ==> p.call.WantHeld? || p.call.Running? || p.call.WantReject?)
  }

  predicate BeforeAnswer(p: Phase) {
    p.Naming? || p == AtGate(ToConfirm) || p.Confirming?
  }

  predicate IsProbe(p: Phase) {
    || p.Done?
    || (p.Calling? && p.use == Probe && !p.asking)
    || (p.Returned? && p.use == Probe && !p.asking)
  }

  /** What a request's state says of the gate (`mine`) and the held password's mutex (`holding`). */
  predicate GateHeld(q: Request, mine: bool, holding: bool) {
    && (q.entered <==> mine)
    && (holding <==> q.phase.Calling? && q.phase.call.Resolving?)
    && WellFormedCall(q.phase)
    && (Interacting(q.phase) ==> q.entered)
    && (q.answer.Given? && !q.phase.Done? ==> q.entered)
    && (q.phase.Done? ==> !q.entered)
    && (q.probe ==> IsProbe(q.phase) && !q.entered)
    && (!q.probe && q.phase.Calling? ==> q.phase.use != Probe)
    && (!q.probe && q.phase.Returned? ==> q.phase.use != Probe)
    && (BeforeAnswer(q.phase) ==> q.answer.NotNeeded?)
    && (q.confirm && !q.phase.Done? ==> BeforeAnswer(q.phase) || !q.answer.NotNeeded?)
  }

  predicate GateSound(w: World) {
    && (w.gate.Some? ==> w.gate.value in w.requests)
    && (w.holder.Some? ==> w.holder.value in w.requests)
    && forall r | r in w.requests :: GateHeld(w.requests[r], w.gate == Some(r), w.holder == Some(r))
  }

  /** Whether a request has asked for the master password, as its own fields tell. */
  predicate AskedSoFar(q: Request, unlocks: nat) {
    if (q.phase.Calling? || q.phase.Returned?) && q.phase.asking then unlocks != q.before else q.asked
  }

  /** Before the ask that may come, none has. */
  predicate NotYetAsked(p: Phase) {
    || p.Naming? || p == AtGate(ToConfirm) || p == AtGate(ToAsk) || p.Confirming?
    || ((p.Calling? || p.Returned?) && p.use == PrivateKey && !p.asking)
    || (p.Calling? && p.asking && (p.call.WantHeld? || p.call.Running? || p.call.WantAsk?))
  }

  /** A request's answer is the yes it got, if it got one. */
  predicate AnsweredAs(log: seq<Event>, r: nat, answer: Answer) {
    forall i | 0 <= i < |log| :: log[i].Approved? && log[i].r == r ==> answer == Given(log[i].question, log[i].epoch)
  }

  /** What a request's state says of the log. */
  ghost predicate Recorded(enabled: bool, log: seq<Event>, unlocks: nat, r: nat, q: Request) {
    && (!q.probe ==> (q.phase.Done? <==> HasEnded(log, r)))
    && (q.probe ==> !HasShown(log, r) && !HasEnded(log, r))
    && (HasShown(log, r) && !q.phase.Done? ==> q.entered)
    && (q.phase.Confirming? ==> Shown(r, Confirmation(q.question)) in log && HasShown(log, r))
    && (!q.phase.Done? ==>
          && (AskedSoFar(q, unlocks) <==> Shown(r, MasterPassword) in log)
          && (NotYetAsked(q.phase) ==> !AskedSoFar(q, unlocks))
          && ((q.phase.Calling? || q.phase.Returned?) && q.phase.asking ==> q.before <= unlocks)
          && AnsweredAs(log, r, q.answer)
          && (q.answer.Given? ==> q.answer.question == q.question && Approved(r, q.question, q.answer.epoch) in log)
          && (q.answer.Remembered? ==>
                enabled && q.question.Some? && HasFiled(log, q.question.value, q.answer.epoch)))
  }

  ghost predicate ActorsKnown(log: seq<Event>, requests: map<nat, Request>) {
    forall i | 0 <= i < |log| :: ActorOf(log[i]).Some? ==> ActorOf(log[i]).value in requests
  }

  ghost predicate LogSound(w: World) {
    && Sound(w.enabled, w.log)
    && w.vault.epoch.locks == Locks(w.log)
    && ActorsKnown(w.log, w.requests)
    && forall r | r in w.requests :: Recorded(w.enabled, w.log, w.vault.epoch.unlocks, r, w.requests[r])
  }

  /** The remembered answers are those filed; one filed in the current epoch is there. */
  ghost predicate Remembers(m: Memory, log: seq<Event>) {
    && (forall q | q in m.remembered :: m.enabled && m.remembered[q] <= m.locks && HasFiled(log, q, m.remembered[q]))
    && (m.enabled ==> forall q, n: nat | HasFiled(log, q, n) ::
          n < m.locks || (n == m.locks && q in m.remembered && m.remembered[q] == n))
  }

  ghost predicate MemorySound(w: World) {
    Remembers(MemoryOf(w), w.log)
  }

  ghost predicate Inv(w: World) {
    GateSound(w) && LogSound(w) && MemorySound(w)
  }

  lemma {:induction false} LocksBeforeAreCounted(n: nat)
    ensures Locks(LocksBefore(n)) == n
  {
    if n > 0 {
      LocksBeforeAreCounted(n - 1);
      assert LocksBefore(n)[..n - 1] == LocksBefore(n - 1);
    }
  }

  lemma StartIsSound(setup: Setup)
    ensures Inv(Start(setup))
  {
    LocksBeforeAreCounted(setup.vault.epoch.locks);
  }

  // --- Every step keeps it ---

  /** A step of one request takes the gate or the mutex only when free, and gives up only its own. */
  predicate TakesTurns(was: Option<nat>, now: Option<nat>, r: nat) {
    was == now || (was == None && now == Some(r)) || (was == Some(r) && now == None)
  }

  predicate KeepsTurn(w: World, r: nat, e: Effect) {
    && TakesTurns(w.gate, e.gate, r) && TakesTurns(w.holder, e.holder, r)
    && GateHeld(e.q, e.gate == Some(r), e.holder == Some(r))
  }

  lemma MutexKeepsTurn(w: World, q: Request, a: Action)
    requires (a.TakeHeld? || a.Ask? || a.Resolved?) && Ready(w, q, a)
    requires GateHeld(q, w.gate == Some(a.r), w.holder == Some(a.r))
    ensures KeepsTurn(w, a.r, EffectOf(w, q, a))
  {
  }

  lemma CallKeepsTurn(w: World, q: Request, a: Action)
    requires (a.Reply? || a.RejectNow? || a.TouchNow?) && Ready(w, q, a)
    requires GateHeld(q, w.gate == Some(a.r), w.holder == Some(a.r))
    ensures KeepsTurn(w, a.r, EffectOf(w, q, a))
  {
  }

  lemma ConfirmKeepsTurn(w: World, q: Request, a: Action)
    requires a.Enter? && Ready(w, q, a) && q.phase.why == ToConfirm
    requires GateHeld(q, w.gate == Some(a.r), w.holder == Some(a.r))
    ensures KeepsTurn(w, a.r, EffectOf(w, q, a))
  {
  }

  lemma EnterKeepsTurn(w: World, q: Request, a: Action)
    requires a.Enter? && Ready(w, q, a) && q.phase.why != ToConfirm
    requires GateHeld(q, w.gate == Some(a.r), w.holder == Some(a.r))
    ensures KeepsTurn(w, a.r, EffectOf(w, q, a))
  {
  }

  lemma EndKeepsTurn(w: World, q: Request, a: Action)
    requires (a.Decide? || a.Finish?) && Ready(w, q, a)
    requires GateHeld(q, w.gate == Some(a.r), w.holder == Some(a.r))
    ensures KeepsTurn(w, a.r, EffectOf(w, q, a))
  {
  }

  lemma ContinueKeepsTurn(w: World, q: Request, r: nat, choice: Choice)
    requires q.phase.Returned? && Allowed(q.phase.use, q.phase.reply, choice)
    requires GateHeld(q, w.gate == Some(r), w.holder == Some(r))
    ensures KeepsTurn(w, r, WhenContinued(w, q, r, choice))
  {
  }

  lemma NamedKeepsTurn(w: World, q: Request, r: nat, question: Option<string>)
    requires q.phase.Naming?
    requires GateHeld(q, w.gate == Some(r), w.holder == Some(r))
    ensures KeepsTurn(w, r, WhenNamed(w, q, r, question))
  {
  }

  lemma PassphraseKeepsTurn(w: World, q: Request, r: nat, decrypts: bool)
    requires q.phase.ReadingStore? || q.phase.Typing? || q.phase.Saving?
    requires GateHeld(q, w.gate == Some(r), w.holder == Some(r))
    ensures q.phase.ReadingStore? ==> KeepsTurn(w, r, WhenStoreRead(w, q, r, decrypts))
    ensures q.phase.Typing? ==> KeepsTurn(w, r, WhenTyped(w, q, r, decrypts))
    ensures q.phase.Saving? ==> KeepsTurn(w, r, Goes(w, q.(phase := Signing(true)), Moved(r)))
  {
  }

  lemma EffectKeepsTurn(w: World, q: Request, a: Action)
    requires ByRequest(a) && Ready(w, q, a)
    requires GateHeld(q, w.gate == Some(a.r), w.holder == Some(a.r))
    ensures KeepsTurn(w, a.r, EffectOf(w, q, a))
  {
    if a.TakeHeld? || a.Ask? || a.Resolved? { MutexKeepsTurn(w, q, a); }
    else if InCall(a) { CallKeepsTurn(w, q, a); }
    else if a.Enter? && q.phase.why == ToConfirm { ConfirmKeepsTurn(w, q, a); }
    else if a.Enter? { EnterKeepsTurn(w, q, a); }
    else if a.Decide? || a.Finish? { EndKeepsTurn(w, q, a); }
    else if a.Continue? { ContinueKeepsTurn(w, q, a.r, a.choice); }
    else if a.Named? { NamedKeepsTurn(w, q, a.r, a.question); }
    else if a.Saved? { PassphraseKeepsTurn(w, q, a.r, true); }
    else { PassphraseKeepsTurn(w, q, a.r, a.decrypts); }
  }

  lemma AppliedKeepsGate(w: World, r: nat, e: Effect)
    requires GateSound(w)
    requires KeepsTurn(w, r, e)
    ensures GateSound(Applied(w, r, e))
  {
  }

  lemma EffectKeepsGate(w: World, a: Action)
    requires GateSound(w) && ByRequest(a) && Enabled(w, a)
    ensures GateSound(Applied(w, a.r, EffectOf(w, w.requests[a.r], a)))
  {
    EffectKeepsTurn(w, w.requests[a.r], a);
    AppliedKeepsGate(w, a.r, EffectOf(w, w.requests[a.r], a));
  }

  /** What makes an effect of one request fit the log it extends. */
  ghost predicate Fits(w: World, r: nat, e: Effect) {
    && Justified(w.enabled, w.log, e.event)
    && (ActorOf(e.event) == Some(r) || ActorOf(e.event) == None)
    && e.vault.epoch.locks == w.vault.epoch.locks + One(IsLock(e.event))
    && w.vault.epoch.unlocks <= e.vault.epoch.unlocks
    && (e.vault.epoch.unlocks != w.vault.epoch.unlocks ==> w.gate == Some(r))
    && Recorded(w.enabled, w.log + [e.event], e.vault.epoch.unlocks, r, e.q)
  }

  /** A request's record outlives steps of others: only the holder of the gate counts asks. */
  lemma RecordOutlives(enabled: bool, log: seq<Event>, was: nat, now: nat, r: nat, q: Request, e: Event)
    requires Recorded(enabled, log, was, r, q)
    requires GateHeld(q, q.entered, q.phase.Calling? && q.phase.call.Resolving?)
    requires ActorOf(e) != Some(r)
    requires was <= now && (was != now ==> !q.entered)
    ensures Recorded(enabled, log + [e], now, r, q)
  {
    LogGrows(log, e);
  }

  /** The records of all requests outlive an effect of one. */
  lemma RecordsOutlive(w: World, r: nat, e: Effect, other: nat)
    requires Inv(w) && other in w.requests && other != r
    requires ActorOf(e.event) == Some(r) || ActorOf(e.event) == None
    requires w.vault.epoch.unlocks <= e.vault.epoch.unlocks
    requires e.vault.epoch.unlocks != w.vault.epoch.unlocks ==> w.gate == Some(r)
    ensures Recorded(w.enabled, w.log + [e.event], e.vault.epoch.unlocks, other, w.requests[other])
  {
    var q := w.requests[other];
    assert GateHeld(q, w.gate == Some(other), w.holder == Some(other));
    assert Recorded(w.enabled, w.log, w.vault.epoch.unlocks, other, q);
    RecordOutlives(w.enabled, w.log, w.vault.epoch.unlocks, e.vault.epoch.unlocks, other, q, e.event);
  }

  lemma ActorsStayKnown(log: seq<Event>, requests: map<nat, Request>, e: Event, r: nat, q: Request)
    requires ActorsKnown(log, requests)
    requires ActorOf(e) == Some(r) || ActorOf(e) == None
    ensures ActorsKnown(log + [e], requests[r := q])
  {
    var longer := log + [e];
    forall i | 0 <= i < |longer| && ActorOf(longer[i]).Some?
      ensures ActorOf(longer[i]).value in requests[r := q]
    {
      assert longer[i] == if i < |log| then log[i] else e;
    }
  }

  lemma RecordsStay(w: World, r: nat, e: Effect)
    requires Inv(w) && Fits(w, r, e)
    ensures var log, unlocks := w.log + [e.event], e.vault.epoch.unlocks;
      forall other | other in w.requests && other != r :: Recorded(w.enabled, log, unlocks, other, w.requests[other])
  {
    forall other | other in w.requests && other != r
      ensures Recorded(w.enabled, w.log + [e.event], e.vault.epoch.unlocks, other, w.requests[other])
    {
      RecordsOutlive(w, r, e, other);
    }
  }

  lemma HistoryStaysSound(w: World, r: nat, e: Effect)
    requires Inv(w) && Fits(w, r, e)
    ensures Sound(w.enabled, w.log + [e.event])
    ensures e.vault.epoch.locks == Locks(w.log + [e.event])
    ensures ActorsKnown(w.log + [e.event], w.requests[r := e.q])
  {
    LocksGrow(w.log, e.event);
    SoundGrows(w.enabled, w.log, e.event);
    ActorsStayKnown(w.log, w.requests, e.event, r, e.q);
  }

  lemma AppliedKeepsLog(w: World, r: nat, e: Effect)
    requires Inv(w) && Fits(w, r, e)
    ensures LogSound(Applied(w, r, e))
  {
    HistoryStaysSound(w, r, e);
    RecordsStay(w, r, e);
  }

  /** With the gate free or its own, a request finds every other that has shown anything ended. */
  lemma OthersHaveEnded(w: World, r: nat, other: nat)
    requires Inv(w) && (w.gate == None || w.gate == Some(r))
    requires HasShown(w.log, other) && other != r
    ensures HasEnded(w.log, other)
  {
    var i :| 0 <= i < |w.log| && w.log[i].Shown? && w.log[i].r == other;
    assert ActorOf(w.log[i]) == Some(other);
    var q := w.requests[other];
    assert GateHeld(q, w.gate == Some(other), w.holder == Some(other));
    assert Recorded(w.enabled, w.log, w.vault.epoch.unlocks, other, q);
  }

  lemma ScreenIsJustified(w: World, r: nat, screen: Screen)
    requires Inv(w) && (w.gate == None || w.gate == Some(r)) && !HasEnded(w.log, r)
    requires screen.Confirmation? ==> Recalled(w, screen.question).None?
    ensures Justified(w.enabled, w.log, Shown(r, screen))
  {
    forall other | HasShown(w.log, other) && other != r ensures HasEnded(w.log, other) {
      OthersHaveEnded(w, r, other);
    }
  }

  predicate AskingCall(p: Phase) {
    (p.Calling? || p.Returned?) && p.asking
  }

  /** A step that changes neither what a request was answered nor whether it has asked. */
  predicate Continues(q: Request, was: nat, next: Request, now: nat) {
    && !q.phase.Done? && (next.phase.Done? ==> q.probe) && !next.phase.Confirming?
    && next.probe == q.probe && next.answer == q.answer && next.question == q.question
    && (q.entered ==> next.entered)
    && was <= now
    && (!next.phase.Done? ==>
          && AskedSoFar(next, now) == AskedSoFar(q, was)
          && (NotYetAsked(next.phase) ==> NotYetAsked(q.phase))
          && (AskingCall(next.phase) ==> next.before <= now))
  }

  predicate ShowsAtMost(e: Event, r: nat, next: Request) {
    || e == Moved(r)
    || e.LockSeen?
    || (e.Shown? && e.r == r && !e.screen.MasterPassword? && !next.probe && next.entered)
  }

  lemma ContinuingIsRecorded(enabled: bool, log: seq<Event>, was: nat, r: nat, q: Request, e: Event, now: nat,
                             next: Request)
    requires Recorded(enabled, log, was, r, q)
    requires Continues(q, was, next, now) && ShowsAtMost(e, r, next)
    ensures Recorded(enabled, log + [e], now, r, next)
  {
    LogGrows(log, e);
  }

  /** What a step that goes on without asking comes to. */
  predicate GoesOn(w: World, q: Request, r: nat, e: Effect) {
    && Continues(q, w.vault.epoch.unlocks, e.q, e.vault.epoch.unlocks)
    && ShowsAtMost(e.event, r, e.q)
    && (e.event.Shown? ==> !e.event.screen.Confirmation? && q.entered)
    && e.vault.epoch == w.vault.epoch.(locks := w.vault.epoch.locks + One(IsLock(e.event)))
  }

  lemma ReplyContinues(w: World, q: Request, a: Action)
    requires a.Reply? && Ready(w, q, a)
    requires GateHeld(q, w.gate == Some(a.r), w.holder == Some(a.r))
    requires AskingCall(q.phase) ==> q.before <= w.vault.epoch.unlocks
    ensures GoesOn(w, q, a.r, EffectOf(w, q, a))
  {
  }

  lemma MutexContinues(w: World, q: Request, a: Action)
    requires (a.TakeHeld? || a.Ask? || a.Resolved?) && Ready(w, q, a) && !(a.Ask? && w.vault.held.None?)
    requires GateHeld(q, w.gate == Some(a.r), w.holder == Some(a.r))
    requires AskingCall(q.phase) ==> q.before <= w.vault.epoch.unlocks
    ensures GoesOn(w, q, a.r, EffectOf(w, q, a))
  {
  }

  lemma CallEndContinues(w: World, q: Request, a: Action)
    requires (a.RejectNow? || a.TouchNow?) && Ready(w, q, a)
    requires GateHeld(q, w.gate == Some(a.r), w.holder == Some(a.r))
    requires AskingCall(q.phase) ==> q.before <= w.vault.epoch.unlocks
    ensures GoesOn(w, q, a.r, EffectOf(w, q, a))
  {
  }

  lemma ReturnContinues(w: World, q: Request, r: nat, choice: Choice)
    requires q.phase.Returned? && Allowed(q.phase.use, q.phase.reply, choice)
    requires GateHeld(q, w.gate == Some(r), w.holder == Some(r))
    requires AskingCall(q.phase) ==> q.before <= w.vault.epoch.unlocks
    ensures GoesOn(w, q, r, WhenContinued(w, q, r, choice))
  {
  }

  lemma PassphraseContinues(w: World, q: Request, r: nat, decrypts: bool)
    requires q.phase.ReadingStore? || q.phase.Typing? || q.phase.Saving?
    requires GateHeld(q, w.gate == Some(r), w.holder == Some(r))
    ensures q.phase.ReadingStore? ==> GoesOn(w, q, r, WhenStoreRead(w, q, r, decrypts))
    ensures q.phase.Typing? ==> GoesOn(w, q, r, WhenTyped(w, q, r, decrypts))
    ensures q.phase.Saving? ==> GoesOn(w, q, r, Goes(w, q.(phase := Signing(true)), Moved(r)))
  {
  }

  /** Every step but an ask, an answer and an end goes on as before. */
  lemma StepContinues(w: World, q: Request, a: Action)
    requires ByRequest(a) && Ready(w, q, a) && !(a.Ask? && w.vault.held.None?)
    requires InCall(a) || a.Continue? || a.StoreRead? || a.Typed? || a.Saved?
    requires GateHeld(q, w.gate == Some(a.r), w.holder == Some(a.r))
    requires AskingCall(q.phase) ==> q.before <= w.vault.epoch.unlocks
    ensures GoesOn(w, q, a.r, EffectOf(w, q, a))
  {
    if a.Reply? { ReplyContinues(w, q, a); }
    else if a.TakeHeld? || a.Ask? || a.Resolved? { MutexContinues(w, q, a); }
    else if InCall(a) { CallEndContinues(w, q, a); }
    else if a.Continue? { ReturnContinues(w, q, a.r, a.choice); }
    else if a.Saved? { PassphraseContinues(w, q, a.r, true); }
    else { PassphraseContinues(w, q, a.r, a.decrypts); }
  }

  /** What the invariant says of one request, gathered. */
  lemma RequestIsKnown(w: World, r: nat)
    requires Inv(w) && r in w.requests
    ensures GateHeld(w.requests[r], w.gate == Some(r), w.holder == Some(r))
    ensures Recorded(w.enabled, w.log, w.vault.epoch.unlocks, r, w.requests[r])
    ensures !w.requests[r].phase.Done? ==> !HasEnded(w.log, r)
  {
  }

  lemma ContinuingFits(w: World, r: nat, e: Effect)
    requires Inv(w) && r in w.requests
    requires Continues(w.requests[r], w.vault.epoch.unlocks, e.q, e.vault.epoch.unlocks)
    requires ShowsAtMost(e.event, r, e.q) && (e.event.Shown? ==> !e.event.screen.Confirmation?)
    requires e.event.Shown? ==> w.gate == None || w.gate == Some(r)
    requires e.vault.epoch == w.vault.epoch.(locks := w.vault.epoch.locks + One(IsLock(e.event)))
    ensures Fits(w, r, e)
  {
    RequestIsKnown(w, r);
    ContinuingIsRecorded(w.enabled, w.log, w.vault.epoch.unlocks, r, w.requests[r], e.event,
                         e.vault.epoch.unlocks, e.q);
    if e.event.Shown? {
      ScreenIsJustified(w, r, e.event.screen);
    }
  }

  lemma AskingIsRecorded(enabled: bool, log: seq<Event>, unlocks: nat, r: nat, q: Request)
    requires Recorded(enabled, log, unlocks, r, q) && !q.probe && q.entered
    requires q.phase.Calling? && q.phase.asking && q.phase.call.WantAsk?
    ensures Recorded(enabled, log + [Shown(r, MasterPassword)], unlocks + 1, r,
                     q.(phase := Calling(q.phase.use, true, Resolving)))
  {
    LogGrows(log, Shown(r, MasterPassword));
  }

  /** The one step that counts an ask is taken under the gate, and shows it. */
  lemma AskFits(w: World, a: Action)
    requires Inv(w) && a.Ask? && Enabled(w, a) && w.vault.held.None?
    ensures Fits(w, a.r, WhenAsked(w, w.requests[a.r], a.r))
  {
    RequestIsKnown(w, a.r);
    AskingIsRecorded(w.enabled, w.log, w.vault.epoch.unlocks, a.r, w.requests[a.r]);
    ScreenIsJustified(w, a.r, MasterPassword);
  }

  lemma StepFits(w: World, a: Action)
    requires Inv(w) && ByRequest(a) && Enabled(w, a)
    requires InCall(a) || a.Continue? || a.StoreRead? || a.Typed? || a.Saved?
    ensures Fits(w, a.r, EffectOf(w, w.requests[a.r], a))
  {
    if a.Ask? && w.vault.held.None? {
      AskFits(w, a);
    } else {
      RequestIsKnown(w, a.r);
      StepContinues(w, w.requests[a.r], a);
      ContinuingFits(w, a.r, EffectOf(w, w.requests[a.r], a));
    }
  }

  lemma RecallIsRecorded(enabled: bool, log: seq<Event>, unlocks: nat, r: nat, q: Request, question: string,
                         epoch: nat, entered: bool)
    requires Recorded(enabled, log, unlocks, r, q) && BeforeAnswer(q.phase) && !q.probe && q.answer.NotNeeded?
    requires enabled && HasFiled(log, question, epoch) && (q.entered ==> entered)
    ensures Recorded(enabled, log + [Moved(r)], unlocks, r,
                     q.(phase := FETCH, question := Some(question), entered := entered, answer := Remembered(epoch)))
  {
    LogGrows(log, Moved(r));
  }

  lemma RecalledWasFiled(m: Memory, log: seq<Event>, question: string)
    requires Remembers(m, log) && Honoured(m, question).Some?
    ensures m.enabled && HasFiled(log, question, m.locks)
  {
  }

  /** What a request recalls was filed, so recalling fits. */
  lemma RecallFits(w: World, r: nat, e: Effect, question: string)
    requires Remembers(MemoryOf(w), w.log) && Honoured(MemoryOf(w), question).Some?
    requires r in w.requests && BeforeAnswer(w.requests[r].phase)
    requires GateHeld(w.requests[r], w.gate == Some(r), w.holder == Some(r))
    requires Recorded(w.enabled, w.log, w.vault.epoch.unlocks, r, w.requests[r])
    requires w.vault.epoch.locks == Locks(w.log)
    requires e.q == w.requests[r].(phase := FETCH, question := Some(question), entered := e.q.entered,
                                   answer := Remembered(w.vault.epoch.locks))
    requires w.requests[r].entered ==> e.q.entered
    requires e.event == Moved(r) && e.vault == w.vault
    ensures Fits(w, r, e)
  {
    RecalledWasFiled(MemoryOf(w), w.log, question);
    RecallIsRecorded(w.enabled, w.log, w.vault.epoch.unlocks, r, w.requests[r], question,
                     w.vault.epoch.locks, e.q.entered);
  }

  lemma ConfirmationFits(w: World, r: nat, e: Effect, question: Option<string>)
    requires Inv(w) && r in w.requests && w.requests[r].phase == AtGate(ToConfirm)
    requires w.gate == None || w.gate == Some(r)
    requires Recalled(w, question).None?
    requires e.q == w.requests[r].(phase := Confirming, question := question, entered := true)
    requires e.event == Shown(r, Confirmation(question)) && e.vault == w.vault
    ensures Fits(w, r, e)
  {
    RequestIsKnown(w, r);
    LogGrows(w.log, e.event);
    ScreenIsJustified(w, r, Confirmation(question));
  }

  lemma NamedFits(w: World, a: Action)
    requires Inv(w) && a.Named? && Enabled(w, a)
    ensures Fits(w, a.r, EffectOf(w, w.requests[a.r], a))
  {
    RequestIsKnown(w, a.r);
    var e := EffectOf(w, w.requests[a.r], a);
    if Recalled(w, a.question).Some? {
      RecallFits(w, a.r, e, a.question.value);
    } else {
      ContinuingFits(w, a.r, e);
    }
  }

  lemma EnteringContinues(w: World, q: Request, a: Action)
    requires a.Enter? && Ready(w, q, a) && q.phase.why != ToConfirm
    requires GateHeld(q, w.gate == Some(a.r), w.holder == Some(a.r))
    requires q.phase.why == ToAsk ==> !q.asked
    ensures var e := EffectOf(w, q, a);
      && Continues(q, w.vault.epoch.unlocks, e.q, e.vault.epoch.unlocks)
      && ShowsAtMost(e.event, a.r, e.q) && (e.event.Shown? ==> !e.event.screen.Confirmation?)
      && !IsLock(e.event) && e.vault == w.vault
  {
  }

  lemma EnterToConfirmFits(w: World, r: nat, question: Option<string>)
    requires Inv(w) && r in w.requests && w.requests[r].phase == AtGate(ToConfirm)
    requires w.gate == None || w.gate == Some(r)
    ensures Fits(w, r, WhenEntered(w, w.requests[r], r, question))
  {
    RequestIsKnown(w, r);
    var e := WhenEntered(w, w.requests[r], r, question);
    if Recalled(w, question).Some? {
      RecallFits(w, r, e, question.value);
    } else {
      ConfirmationFits(w, r, e, question);
    }
  }

  lemma EnterFits(w: World, a: Action)
    requires Inv(w) && a.Enter? && Enabled(w, a)
    ensures Fits(w, a.r, EffectOf(w, w.requests[a.r], a))
  {
    RequestIsKnown(w, a.r);
    if w.requests[a.r].phase.why == ToConfirm {
      EnterToConfirmFits(w, a.r, a.question);
    } else {
      EnteringContinues(w, w.requests[a.r], a);
      ContinuingFits(w, a.r, EffectOf(w, w.requests[a.r], a));
    }
  }

  lemma ApprovalFits(w: World, r: nat)
    requires Inv(w) && r in w.requests && w.requests[r].phase.Confirming?
    ensures Fits(w, r, WhenDecided(w, w.requests[r], r, true))
  {
    RequestIsKnown(w, r);
    LogGrows(w.log, Approved(r, w.requests[r].question, w.vault.epoch.locks));
  }

  lemma LeavingIsRecorded(enabled: bool, log: seq<Event>, was: nat, r: nat, q: Request, e: Event, now: nat)
    requires Recorded(enabled, log, was, r, q) && !q.probe && Ends(e, r)
    ensures Recorded(enabled, log + [e], now, r, q.(phase := Done, entered := false))
  {
    LogGrows(log, e);
  }

  lemma DenialFits(w: World, r: nat)
    requires Inv(w) && r in w.requests && w.requests[r].phase.Confirming?
    ensures Fits(w, r, WhenDecided(w, w.requests[r], r, false))
  {
    RequestIsKnown(w, r);
    LeavingIsRecorded(w.enabled, w.log, w.vault.epoch.unlocks, r, w.requests[r], Denied(r), w.vault.epoch.unlocks);
  }

  lemma SettlementFits(w: World, r: nat, signed: bool)
    requires Inv(w) && r in w.requests && w.requests[r].phase.Signing?
    ensures Fits(w, r, WhenFinished(w, w.requests[r], r, signed))
  {
    RequestIsKnown(w, r);
    var e := WhenFinished(w, w.requests[r], r, signed);
    LeavingIsRecorded(w.enabled, w.log, w.vault.epoch.unlocks, r, w.requests[r], e.event, w.vault.epoch.unlocks);
  }

  lemma EffectFits(w: World, a: Action)
    requires Inv(w) && ByRequest(a) && Enabled(w, a)
    ensures Fits(w, a.r, EffectOf(w, w.requests[a.r], a))
  {
    if a.Enter? { EnterFits(w, a); }
    else if a.Named? { NamedFits(w, a); }
    else if a.Decide? && a.approve { ApprovalFits(w, a.r); }
    else if a.Decide? { DenialFits(w, a.r); }
    else if a.Finish? { SettlementFits(w, a.r, a.signs); }
    else { StepFits(w, a); }
  }

  // --- The remembered answers ---

  lemma UnfiledKeepsMemory(m: Memory, log: seq<Event>, e: Event, locks: nat)
    requires Remembers(m, log) && locks >= m.locks
    requires forall q, n: nat :: m.enabled ==> !Files(e, q, n)
    ensures Remembers(m.(locks := locks), log + [e])
  {
    LogGrows(log, e);
  }

  lemma FilingKeepsMemory(m: Memory, log: seq<Event>, e: Event, question: string, asked: bool)
    requires Remembers(m, log) && m.enabled
    requires Files(e, question, FilingEpoch(m.locks, asked))
    ensures Remembers(Settlement(m, Given(Some(question), m.locks), asked, true).0, log + [e])
  {
    LogGrows(log, e);
    var after := Settlement(m, Given(Some(question), m.locks), asked, true).0;
    assert after.locks == FilingEpoch(m.locks, asked);
    assert forall q | q in after.remembered :: after.remembered[q] == after.locks;
  }

  lemma OnlyFinishingFiles(w: World, q: Request, a: Action)
    requires ByRequest(a) && Ready(w, q, a) && !a.Finish?
    ensures var e := EffectOf(w, q, a); e.remembered == w.remembered && !e.event.Settled?
  {
  }

  lemma SettlingKeepsMemory(m: Memory, log: seq<Event>, e: Event)
    requires Remembers(m, log) && e.Settled? && e.epoch == m.locks
    requires e.answer.Given? ==> e.answer.epoch <= m.locks
    ensures Remembers(Settlement(m, e.answer, e.asked, e.signed).0, log + [e])
  {
    if e.answer.Given? && e.answer.question.Some? && e.signed && e.answer.epoch == m.locks && m.enabled {
      FilingKeepsMemory(m, log, e, e.answer.question.value, e.asked);
    } else {
      UnfiledKeepsMemory(m, log, e, if e.asked then m.locks + 1 else m.locks);
    }
  }

  lemma FinishKeepsMemory(w: World, r: nat, signs: bool)
    requires Inv(w) && r in w.requests && w.requests[r].phase.Signing?
    ensures MemorySound(Applied(w, r, WhenFinished(w, w.requests[r], r, signs)))
  {
    var q := w.requests[r];
    RequestIsKnown(w, r);
    if q.answer.Given? {
      ApprovalsAreNoLater(w, r, q.answer.epoch);
    }
    SettlingKeepsMemory(MemoryOf(w), w.log, WhenFinished(w, q, r, signs).event);
  }

  lemma {:induction false} LocksOnlyRise(log: seq<Event>, i: nat)
    requires i <= |log|
    ensures Locks(log[..i]) <= Locks(log)
  {
    if i < |log| {
      LocksOnlyRise(log[..|log| - 1], i);
      assert log[..|log| - 1][..i] == log[..i];
    } else {
      assert log[..i] == log;
    }
  }

  lemma ApprovalsAreNoLater(w: World, r: nat, epoch: nat)
    requires Inv(w) && r in w.requests && Approved(r, w.requests[r].question, epoch) in w.log
    ensures epoch <= w.vault.epoch.locks
  {
    var i :| 0 <= i < |w.log| && w.log[i] == Approved(r, w.requests[r].question, epoch);
    assert Justified(w.enabled, w.log[..i], w.log[i]);
    LocksOnlyRise(w.log, i);
  }

  lemma EffectKeepsMemory(w: World, a: Action)
    requires Inv(w) && ByRequest(a) && Enabled(w, a)
    ensures MemorySound(Applied(w, a.r, EffectOf(w, w.requests[a.r], a)))
  {
    if a.Finish? {
      FinishKeepsMemory(w, a.r, a.signs);
    } else {
      var e := EffectOf(w, w.requests[a.r], a);
      OnlyFinishingFiles(w, w.requests[a.r], a);
      EffectFits(w, a);
      UnfiledKeepsMemory(MemoryOf(w), w.log, e.event, e.vault.epoch.locks);
    }
  }

  // --- Steps of the world around the requests ---

  lemma NewcomerIsRecorded(w: World, r: nat, q: Request, confirm: bool)
    requires Inv(w) && r !in w.requests
    requires q == Fresh(confirm) || q == FRESH_PROBE
    ensures Fits(w, r, Goes(w, q, Began(r, confirm)))
  {
    LogGrows(w.log, Began(r, confirm));
    forall i | 0 <= i < |w.log| ensures ActorOf(w.log[i]) != Some(r) {
      assert ActorOf(w.log[i]).Some? ==> ActorOf(w.log[i]).value in w.requests;
    }
    assert !HasEnded(w.log, r) && !HasShown(w.log, r);
    assert Shown(r, MasterPassword) !in w.log;
  }

  lemma ArrivalKeepsInv(w: World, r: nat, q: Request, confirm: bool)
    requires Inv(w) && r !in w.requests
    requires q == Fresh(confirm) || q == FRESH_PROBE
    ensures Inv(Applied(w, r, Goes(w, q, Began(r, confirm))))
  {
    var e := Began(r, confirm);
    NewcomerIsRecorded(w, r, q, confirm);
    AppliedKeepsGate(w, r, Goes(w, q, e));
    AppliedKeepsLog(w, r, Goes(w, q, e));
    UnfiledKeepsMemory(MemoryOf(w), w.log, e, w.vault.epoch.locks);
  }

  lemma AroundKeepsInv(w: World, next: World, e: Event)
    requires Inv(w) && (e.Nothing? || e.LockSeen?)
    requires next == w.(vault := next.vault, now := next.now, log := w.log + [e])
    requires next.vault.epoch == w.vault.epoch.(locks := w.vault.epoch.locks + One(IsLock(e)))
    ensures Inv(next)
  {
    LogGrows(w.log, e);
    SoundGrows(w.enabled, w.log, e);
    forall r | r in next.requests
      ensures Recorded(next.enabled, next.log, next.vault.epoch.unlocks, r, next.requests[r])
    {
      RequestIsKnown(w, r);
      RecordOutlives(w.enabled, w.log, w.vault.epoch.unlocks, w.vault.epoch.unlocks, r, w.requests[r], e);
    }
    UnfiledKeepsMemory(MemoryOf(w), w.log, e, next.vault.epoch.locks);
  }

  lemma StepLogsOne(w: World, a: Action)
    requires Enabled(w, a)
    ensures Step(w, a).enabled == w.enabled
    ensures w.log <= Step(w, a).log && |Step(w, a).log| == |w.log| + 1
  {
  }

  lemma EffectKeepsInv(w: World, a: Action)
    requires Inv(w) && ByRequest(a) && Enabled(w, a)
    ensures Inv(Applied(w, a.r, EffectOf(w, w.requests[a.r], a)))
  {
    EffectKeepsGate(w, a);
    EffectFits(w, a);
    AppliedKeepsLog(w, a.r, EffectOf(w, w.requests[a.r], a));
    EffectKeepsMemory(w, a);
  }

  lemma StepKeepsInv(w: World, a: Action)
    requires Inv(w) && Enabled(w, a)
    ensures Inv(Step(w, a))
  {
    if ByRequest(a) {
      EffectKeepsInv(w, a);
    } else if a.Begin? {
      ArrivalKeepsInv(w, a.r, Fresh(a.confirm), a.confirm);
    } else if a.BeginProbe? {
      ArrivalKeepsInv(w, a.r, FRESH_PROBE, false);
    } else {
      var next := Step(w, a);
      AroundKeepsInv(w, next, next.log[|w.log|]);
    }
  }

  /** Every state of every run is sound, and its log extends those before it. */
  lemma {:induction false} RunsAreSound(setup: Setup, acts: seq<Action>)
    requires IsRun(Start(setup), acts)
    ensures var w := Reached(Start(setup), acts);
      Inv(w) && w.enabled == setup.enabled && |w.log| == setup.vault.epoch.locks + |acts|
    decreases |acts|
  {
    if acts == [] {
      StartIsSound(setup);
    } else {
      RunsAreSound(setup, acts[..|acts| - 1]);
      StepLogsOne(Reached(Start(setup), acts[..|acts| - 1]), acts[|acts| - 1]);
      StepKeepsInv(Reached(Start(setup), acts[..|acts| - 1]), acts[|acts| - 1]);
    }
  }
}
