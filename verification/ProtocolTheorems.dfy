/** What the signing protocol promises, over every run of any number of connections, screen locks,
    idle sweeps, refused passwords and refreshes. */
module ProtocolTheorems {
  import opened Basics
  import opened Approvals
  import opened Unlock
  import opened Master
  import opened LpassCli
  import opened Protocol
  import opened ProtocolInvariant

  ghost function LogOf(setup: Setup, acts: seq<Action>): seq<Event>
    requires IsRun(Start(setup), acts)
  {
    Reached(Start(setup), acts).log
  }

  // --- Counting locks ---

  lemma {:induction false} LocksBetween(log: seq<Event>, i: nat, j: nat)
    requires i <= j <= |log|
    ensures Locks(log[..i]) <= Locks(log[..j])
    ensures Locks(log[..i]) == Locks(log[..j]) <==> forall k | i <= k < j :: !IsLock(log[k])
    decreases j
  {
    if i < j {
      LocksBetween(log, i, j - 1);
      assert log[..j][..j - 1] == log[..j - 1];
    }
  }

  lemma LockBetween(log: seq<Event>, i: nat, j: nat) returns (k: nat)
    requires i <= j <= |log| && Locks(log[..i]) < Locks(log[..j])
    ensures i <= k < j && IsLock(log[k])
  {
    LocksBetween(log, i, j);
    k :| i <= k < j && IsLock(log[k]);
  }

  lemma LocksAfter(log: seq<Event>, k: nat)
    requires k < |log|
    ensures Locks(log[..k + 1]) == Locks(log[..k]) + One(IsLock(log[k]))
  {
    assert log[..k + 1][..k] == log[..k];
  }

  // --- A remembered answer ---

  /** At `i` the user said yes to the question of the signature at `k`, for a request that signed at `m`;
      and from the yes to the signature nothing locked the vault, save that request's own ask. */
  predicate Covers(log: seq<Event>, i: nat, m: nat, k: nat)
    requires i < m < k < |log|
  {
    && log[i].Approved? && log[m].Settled? && log[k].Settled?
    && log[m].r == log[i].r && log[m].released
    && log[k].question.Some? && log[i].question == log[m].question == log[k].question
    && forall j | i <= j <= k && IsLock(log[j]) :: j == m
  }

  lemma FilingFollowsApproval(enabled: bool, log: seq<Event>, m: nat, question: string, epoch: nat) returns (i: nat)
    requires Sound(enabled, log) && m < |log| && Files(log[m], question, epoch)
    ensures i < m && log[i] == Approved(log[m].r, Some(question), log[m].epoch)
    ensures Locks(log[..i]) == Locks(log[..m]) == log[m].epoch
    ensures Locks(log[..m + 1]) == epoch
    ensures log[m].released
  {
    assert Justified(enabled, log[..m], log[m]);
    assert Approved(log[m].r, Some(question), log[m].epoch) in log[..m];
    i :| 0 <= i < m && log[i] == Approved(log[m].r, Some(question), log[m].epoch);
    assert Justified(enabled, log[..i], log[i]);
    LocksAfter(log, m);
  }

  lemma CountsCover(log: seq<Event>, i: nat, m: nat, k: nat)
    requires i < m < k < |log|
    requires log[i].Approved? && log[m].Settled? && log[k].Settled? && !log[k].asked
    requires Locks(log[..i]) == Locks(log[..m]) && Locks(log[..m + 1]) == Locks(log[..k])
    ensures forall j | i <= j <= k && IsLock(log[j]) :: j == m
  {
    LocksBetween(log, i, m);
    LocksBetween(log, m + 1, k);
  }

  lemma FiledAnswerCovers(enabled: bool, log: seq<Event>, m: nat, k: nat) returns (i: nat)
    requires Sound(enabled, log) && m < k < |log|
    requires log[k].Settled? && log[k].question.Some? && !log[k].asked
    requires Files(log[m], log[k].question.value, Locks(log[..k]))
    ensures i < m && Covers(log, i, m, k)
  {
    i := FilingFollowsApproval(enabled, log, m, log[k].question.value, Locks(log[..k]));
    CountsCover(log, i, m, k);
  }

  lemma RememberedIsCovered(enabled: bool, log: seq<Event>, k: nat)
    requires Sound(enabled, log) && k < |log|
    requires log[k].Settled? && log[k].released && log[k].answer.Remembered?
    ensures enabled && exists i, m | 0 <= i < m < k :: Covers(log, i, m, k)
  {
    assert Justified(enabled, log[..k], log[k]);
    var m :| 0 <= m < k && Files(log[..k][m], log[k].question.value, log[k].answer.epoch);
    var i := FiledAnswerCovers(enabled, log, m, k);
  }

  /** A signature released on a remembered answer was covered by a yes of the user's to the same
      question, with no lock since but the one the approving request itself learned of. */
  lemma RememberedSignatureIsCovered(setup: Setup, acts: seq<Action>, k: nat)
    requires IsRun(Start(setup), acts)
    requires var log := LogOf(setup, acts);
      k < |log| && log[k].Settled? && log[k].released && log[k].answer.Remembered?
    ensures var log := LogOf(setup, acts);
      setup.enabled && exists i, m | 0 <= i < m < k :: Covers(log, i, m, k)
  {
    RunsAreSound(setup, acts);
    var log := LogOf(setup, acts);
    RememberedIsCovered(setup.enabled, log, k);
  }

  /** Every signature released for a key that needs confirming was approved: by the user in answer to
      this very request, or by a remembered answer that covers it. */
  lemma EverySignatureIsApproved(setup: Setup, acts: seq<Action>, k: nat)
    requires IsRun(Start(setup), acts)
    requires var log := LogOf(setup, acts);
      k < |log| && log[k].Settled? && log[k].released && log[k].confirm
    ensures var log := LogOf(setup, acts);
      || (exists i | 0 <= i < k :: log[i].Approved? && log[i].r == log[k].r && log[i].question == log[k].question)
      || (exists i, m | 0 <= i < m < k :: Covers(log, i, m, k))
  {
    RunsAreSound(setup, acts);
    var log := LogOf(setup, acts);
    assert Justified(setup.enabled, log[..k], log[k]);
    if log[k].answer.Remembered? {
      RememberedIsCovered(setup.enabled, log, k);
    } else {
      assert Approved(log[k].r, log[k].question, log[k].answer.epoch) in log[..k];
    }
  }

  // --- Interactions ---

  lemma NothingFollowsAnEnd(enabled: bool, log: seq<Event>, m: nat, i: nat)
    requires Sound(enabled, log) && m < i < |log| && ActorOf(log[i]).Some?
    ensures !Ends(log[m], ActorOf(log[i]).value)
  {
    assert Justified(enabled, log[..i], log[i]);
    assert log[..i][m] == log[m];
  }

  lemma ShownMeansOthersEnded(enabled: bool, log: seq<Event>, i: nat, j: nat) returns (m: nat)
    requires Sound(enabled, log) && i < j < |log|
    requires log[i].Shown? && log[j].Shown? && log[i].r != log[j].r
    ensures i < m < j && Ends(log[m], log[i].r)
  {
    assert Justified(enabled, log[..i], log[i]) && Justified(enabled, log[..j], log[j]);
    assert log[..j][i].Shown?;
    assert HasShown(log[..j], log[i].r);
    m :| 0 <= m < j && Ends(log[..j][m], log[i].r);
    assert m != i;
    if m < i {
      NothingFollowsAnEnd(enabled, log, m, i);
    }
  }

  /** All that one request puts in front of the user is one block: another's screen comes only once
      the first request has ended. */
  lemma InteractionsFormBlocks(setup: Setup, acts: seq<Action>, i: nat, j: nat)
    requires IsRun(Start(setup), acts)
    requires var log := LogOf(setup, acts);
      i < j < |log| && log[i].Shown? && log[j].Shown? && log[i].r != log[j].r
    ensures var log := LogOf(setup, acts);
      exists m :: i < m < j && Ends(log[m], log[i].r)
  {
    RunsAreSound(setup, acts);
    var m := ShownMeansOthersEnded(setup.enabled, LogOf(setup, acts), i, j);
  }

  /** A request's reading of the ask counter tells exactly whether it asked itself: no other request,
      and no call fed only what is held, can have moved it. */
  lemma AskedMeansAskedByItself(setup: Setup, acts: seq<Action>, k: nat)
    requires IsRun(Start(setup), acts)
    requires k < |LogOf(setup, acts)| && LogOf(setup, acts)[k].Settled?
    ensures var log := LogOf(setup, acts);
      log[k].asked <==> exists i | 0 <= i < k :: log[i] == Shown(log[k].r, MasterPassword)
  {
    RunsAreSound(setup, acts);
    var log := LogOf(setup, acts);
    assert Justified(setup.enabled, log[..k], log[k]);
  }

  /** At `i` a request got a yes to a question, and at `m` it signed. */
  predicate ApprovedAndSigned(log: seq<Event>, i: nat, m: nat, question: string)
    requires i < m < |log|
  {
    && log[i].Approved? && log[i].question == Some(question)
    && log[m].Settled? && log[m].r == log[i].r && log[m].signed
  }

  predicate ShownToAnother(log: seq<Event>, i: nat, k: nat, question: string)
    requires i < k < |log|
  {
    log[i].Approved? && log[k].Shown? && log[k].r != log[i].r && log[k].screen == Confirmation(Some(question))
  }

  /** The approving request has ended before another's confirmation can be up. */
  lemma ApprovalEndsFirst(enabled: bool, log: seq<Event>, i: nat, m: nat, k: nat, question: string)
    requires Sound(enabled, log) && i < m < |log| && i < k < |log|
    requires ApprovedAndSigned(log, i, m, question) && ShownToAnother(log, i, k, question)
    ensures m < k
  {
    assert Justified(enabled, log[..i], log[i]);
    assert Shown(log[i].r, Confirmation(log[i].question)) in log[..i];
    var s :| 0 <= s < i && log[s] == Shown(log[i].r, Confirmation(log[i].question));
    var end := ShownMeansOthersEnded(enabled, log, s, k);
    if end < m {
      NothingFollowsAnEnd(enabled, log, end, m);
    }
  }

  lemma UnfiledOrOutlived(log: seq<Event>, i: nat, m: nat, k: nat, question: string)
    requires Sound(true, log) && i < m < k < |log|
    requires ApprovedAndSigned(log, i, m, question) && ShownToAnother(log, i, k, question)
    ensures Locks(log[..i]) < Locks(log[..m]) || Locks(log[..m + 1]) < Locks(log[..k])
  {
    assert Justified(true, log[..i], log[i]) && Justified(true, log[..m], log[m]) && Justified(true, log[..k], log[k]);
    assert log[..m][i] == log[i];
    assert log[m].answer == Given(Some(question), log[i].epoch);
    LocksBetween(log, i, m);
    LocksAfter(log, m);
    if log[m].epoch == log[i].epoch {
      assert Files(log[..k][m], question, FilingEpoch(log[m].epoch, log[m].asked));
      assert HasFiled(log[..k], question, FilingEpoch(log[m].epoch, log[m].asked));
    }
  }

  lemma SecondPromptFollowsALock(log: seq<Event>, i: nat, m: nat, k: nat, question: string) returns (j: nat)
    requires Sound(true, log) && i < m < k < |log|
    requires ApprovedAndSigned(log, i, m, question) && ShownToAnother(log, i, k, question)
    ensures i <= j < k && j != m && IsLock(log[j])
  {
    UnfiledOrOutlived(log, i, m, k, question);
    if Locks(log[..i]) < Locks(log[..m]) {
      j := LockBetween(log, i, m);
    } else {
      j := LockBetween(log, m + 1, k);
    }
  }

  /** The converse of coverage. Once a yes has signed, the same question is put to the user for
      another request only after a lock that is not the approving request's own ask. */
  lemma NoSecondPromptWithoutALock(setup: Setup, acts: seq<Action>, i: nat, m: nat, k: nat, question: string)
    requires setup.enabled && IsRun(Start(setup), acts)
    requires var log := LogOf(setup, acts);
      && i < m < |log| && i < k < |log|
      && ApprovedAndSigned(log, i, m, question) && ShownToAnother(log, i, k, question)
    ensures var log := LogOf(setup, acts);
      m < k && exists j :: i < j < k && j != m && IsLock(log[j])
  {
    RunsAreSound(setup, acts);
    ApprovalEndsFirst(true, LogOf(setup, acts), i, m, k, question);
    var j := SecondPromptFollowsALock(LogOf(setup, acts), i, m, k, question);
  }

  // --- No request waits for ever on another ---

  /** The request another waits for, at the gate or at the held password's mutex. */
  function BlockedBy(w: World, r: nat): Option<nat>
    requires r in w.requests
  {
    var q := w.requests[r];
    if q.phase.AtGate? && !q.entered then w.gate
    else if q.phase.Calling? && !q.phase.call.Running? && !q.phase.call.Resolving? && !q.phase.call.Retrying?
    then w.holder
    else None
  }

  /** A step an unblocked request can take, whatever the world answers. */
  function NextStep(w: World, r: nat): Action
    requires r in w.requests && !w.requests[r].phase.Done?
  {
    match w.requests[r].phase
    case Naming => Named(r, None)
    case AtGate(_) => Enter(r, None)
    case Confirming => Decide(r, false)
    case Calling(_, _, WantHeld) => TakeHeld(r)
    case Calling(_, _, Running(_)) => Reply(r, Err(Timeout))
    case Calling(_, _, WantAsk) => Ask(r)
    case Calling(_, _, Resolving) => Resolved(r, Ok(None), Err("dismissed"))
    case Calling(_, _, Retrying) => Reply(r, Err(Timeout))
    case Calling(_, _, WantReject(_)) => RejectNow(r)
    case Calling(_, _, WantTouch(_)) => TouchNow(r)
    case Returned(_, _, _) => Continue(r, Fail)
    case ReadingStore => StoreRead(r, false)
    case Typing(_) => Typed(r, false)
    case Saving => Saved(r)
    case Signing(_) => Finish(r, false)
  }

  lemma UnblockedCanStep(w: World, r: nat)
    requires r in w.requests && !w.requests[r].phase.Done? && BlockedBy(w, r).None?
    ensures Enabled(w, NextStep(w, r))
  {
  }

  /** Whoever holds the mutex holds the gate: only a request that may ask gets there. */
  lemma MutexNeedsTheGate(w: World)
    requires Inv(w) && w.holder.Some?
    ensures w.gate == w.holder
  {
    RequestIsKnown(w, w.holder.value);
  }

  lemma NobodyBlocksTheGate(w: World, s: nat)
    requires Inv(w) && w.gate == Some(s)
    ensures s in w.requests && !w.requests[s].phase.Done? && BlockedBy(w, s).None?
  {
    RequestIsKnown(w, s);
    if w.holder.Some? {
      MutexNeedsTheGate(w);
    }
  }

  /** Deadlock freedom, over every run: an unfinished request can step, or it waits for the one holder
      of the gate, who can. Waiting goes gate first and mutex second, never in a circle. */
  lemma SomeoneCanAlwaysStep(setup: Setup, acts: seq<Action>, r: nat) returns (s: nat)
    requires IsRun(Start(setup), acts)
    requires var w := Reached(Start(setup), acts); r in w.requests && !w.requests[r].phase.Done?
    ensures var w := Reached(Start(setup), acts);
      && (s == r || (w.gate == Some(s) && BlockedBy(w, r) == Some(s)))
      && s in w.requests && !w.requests[s].phase.Done?
      && Enabled(w, NextStep(w, s))
  {
    RunsAreSound(setup, acts);
    var w := Reached(Start(setup), acts);
    s := r;
    if BlockedBy(w, r).Some? {
      s := BlockedBy(w, r).value;
      if w.holder.Some? {
        MutexNeedsTheGate(w);
      }
      NobodyBlocksTheGate(w, s);
    }
    UnblockedCanStep(w, s);
  }

  /** A prompt of the user's is up: the confirmer's and the passphrase prompt's own mutexes are held here,
      and nowhere else. */
  predicate AtPrompt(p: Phase) {
    p.Confirming? || p.Typing? || (p.Calling? && p.call.Resolving?)
  }

  /** The prompts' own mutexes are never waited for: two requests are never at a prompt at once. */
  lemma PromptsAreNeverContended(setup: Setup, acts: seq<Action>, r: nat, s: nat)
    requires IsRun(Start(setup), acts)
    requires var w := Reached(Start(setup), acts);
      r in w.requests && AtPrompt(w.requests[r].phase) && s in w.requests && AtPrompt(w.requests[s].phase)
    ensures r == s
  {
    RunsAreSound(setup, acts);
    RequestIsKnown(Reached(Start(setup), acts), r);
    RequestIsKnown(Reached(Start(setup), acts), s);
  }

  // --- A request takes boundedly many steps ---

  function CallRank(c: Call): nat {
    match c
    case WantHeld => 7
    case Running(_) => 6
    case WantAsk => 5
    case Resolving => 4
    case Retrying => 3
    case WantReject(_) => 2
    case WantTouch(_) => 1
  }

  /** How many steps a request can still take. */
  function Rank(p: Phase): nat {
    match p
    case Done => 0
    case Signing(_) => 1
    case Saving => 2
    case Typing(_) => 3
    case ReadingStore => 4
    case AtGate(ToPrompt) => 5
    case AtGate(ToStore) => 5
    case Returned(PrivateKey, asking, _) => if asking then 14 else 23
    case Returned(_, _, _) => 6
    case Calling(PrivateKey, asking, c) => (if asking then 14 else 23) + CallRank(c)
    case Calling(_, _, c) => 6 + CallRank(c)
    case AtGate(ToAsk) => 22
    case Confirming => 31
    case AtGate(ToConfirm) => 32
    case Naming => 33
  }

  /** The effect leaves the request fewer steps to take. */
  predicate Falls(q: Request, e: Effect) { Rank(e.q.phase) < Rank(q.phase) }

  lemma ReplyFalls(w: World, q: Request, r: nat, reply: Result<Output, LpassError>)
    requires q.phase.Calling? && (q.phase.call.Running? || q.phase.call.Retrying?) && WellFormedCall(q.phase)
    ensures Falls(q, WhenReplied(w, q, r, reply))
  {
  }

  lemma TakeFalls(w: World, q: Request, r: nat)
    requires q.phase.Calling? && q.phase.call.WantHeld?
    ensures Falls(q, EffectOf(w.(holder := None), q, TakeHeld(r)))
  {
  }

  lemma AskFalls(w: World, q: Request, r: nat, store: StoreReply, prompt: PromptReply)
    requires q.phase.Calling? && WellFormedCall(q.phase)
    ensures q.phase.call.WantAsk? ==> Falls(q, WhenAsked(w, q, r))
    ensures q.phase.call.Resolving? ==> Falls(q, WhenResolved(w, q, r, store, prompt))
  {
  }

  lemma CallEndFalls(w: World, q: Request, r: nat)
    requires q.phase.Calling? && WellFormedCall(q.phase)
    ensures q.phase.call.WantReject? ==> Falls(q, WhenRejected(w, q, r))
    ensures q.phase.call.WantTouch? ==> Falls(q, WhenTouched(w, q, r))
  {
  }

  lemma ConfirmFalls(w: World, q: Request, r: nat, question: Option<string>)
    requires q.phase == AtGate(ToConfirm)
    ensures Falls(q, WhenEntered(w, q, r, question))
  {
  }

  lemma EnterFalls(w: World, q: Request, r: nat, question: Option<string>)
    requires q.phase.AtGate? && q.phase.why != ToConfirm
    ensures Falls(q, WhenEntered(w, q, r, question))
  {
  }

  lemma ContinueFalls(w: World, q: Request, r: nat, choice: Choice)
    requires q.phase.Returned? && Allowed(q.phase.use, q.phase.reply, choice) && WellFormedCall(q.phase)
    ensures Falls(q, WhenContinued(w, q, r, choice))
  {
  }

  lemma PassphraseFalls(w: World, q: Request, r: nat, decrypts: bool)
    ensures q.phase.ReadingStore? ==> Falls(q, WhenStoreRead(w, q, r, decrypts))
    ensures q.phase.Typing? ==> Falls(q, WhenTyped(w, q, r, decrypts))
    ensures q.phase.Saving? ==> Falls(q, Goes(w, q.(phase := Signing(true)), Moved(r)))
  {
  }

  lemma NamedFalls(w: World, q: Request, r: nat, question: Option<string>)
    requires q.phase.Naming?
    ensures Falls(q, WhenNamed(w, q, r, question))
  {
  }

  lemma EndFalls(w: World, q: Request, r: nat, yes: bool)
    ensures q.phase.Confirming? ==> Falls(q, WhenDecided(w, q, r, yes))
    ensures q.phase.Signing? ==> Falls(q, WhenFinished(w, q, r, yes))
  {
  }

  lemma EffectFalls(w: World, q: Request, a: Action)
    requires ByRequest(a) && Ready(w, q, a) && WellFormedCall(q.phase)
    ensures Falls(q, EffectOf(w, q, a))
  {
    match a
    case Named(r, question) => NamedFalls(w, q, r, question);
    case Enter(r, question) =>
      if q.phase.why == ToConfirm { ConfirmFalls(w, q, r, question); } else { EnterFalls(w, q, r, question); }
    case Decide(r, approve) => EndFalls(w, q, r, approve);
    case TakeHeld(r) => TakeFalls(w, q, r);
    case Reply(r, reply) => ReplyFalls(w, q, r, reply);
    case Ask(r) => AskFalls(w, q, r, Ok(None), Err(""));
    case Resolved(r, store, prompt) => AskFalls(w, q, r, store, prompt);
    case RejectNow(r) => CallEndFalls(w, q, r);
    case TouchNow(r) => CallEndFalls(w, q, r);
    case Continue(r, choice) => ContinueFalls(w, q, r, choice);
    case StoreRead(r, decrypts) => PassphraseFalls(w, q, r, decrypts);
    case Typed(r, decrypts) => PassphraseFalls(w, q, r, decrypts);
    case Saved(r) => PassphraseFalls(w, q, r, true);
    case Finish(r, signs) => EndFalls(w, q, r, signs);
  }

  function StepsOf(acts: seq<Action>, r: nat): nat {
    if acts == [] then 0
    else
      var last := acts[|acts| - 1];
      StepsOf(acts[..|acts| - 1], r) + One(ByRequest(last) && last.r == r)
  }

  const MOST_STEPS: nat := 33

  function StepsLeft(w: World, r: nat): nat {
    if r in w.requests then Rank(w.requests[r].phase) else MOST_STEPS
  }

  lemma OwnStepFalls(w: World, a: Action)
    requires Inv(w) && ByRequest(a) && Enabled(w, a)
    ensures StepsLeft(Step(w, a), a.r) < StepsLeft(w, a.r)
  {
    var q := w.requests[a.r];
    RequestIsKnown(w, a.r);
    EffectFalls(w, q, a);
    assert Step(w, a) == Applied(w, a.r, EffectOf(w, q, a));
  }

  lemma OtherStepsLeaveIt(w: World, a: Action, r: nat)
    requires Enabled(w, a) && (ByRequest(a) ==> a.r != r)
    ensures StepsLeft(Step(w, a), r) <= StepsLeft(w, r)
  {
    if ByRequest(a) {
      assert Step(w, a) == Applied(w, a.r, EffectOf(w, w.requests[a.r], a));
    }
  }

  /** In any run, no request takes more than `MOST_STEPS` steps of its own: with `SomeoneCanAlwaysStep`,
      requests can neither stall nor run on for ever. */
  lemma {:induction false} RequestsEnd(setup: Setup, acts: seq<Action>, r: nat)
    requires IsRun(Start(setup), acts)
    ensures StepsOf(acts, r) + StepsLeft(Reached(Start(setup), acts), r) <= MOST_STEPS
    decreases |acts|
  {
    if acts != [] {
      var before, a := acts[..|acts| - 1], acts[|acts| - 1];
      RequestsEnd(setup, before, r);
      RunsAreSound(setup, before);
      if ByRequest(a) && a.r == r {
        OwnStepFalls(Reached(Start(setup), before), a);
      } else {
        OtherStepsLeaveIt(Reached(Start(setup), before), a, r);
      }
    }
  }
}
