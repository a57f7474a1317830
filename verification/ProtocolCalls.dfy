/** The vault calls of the step system against those of src/lpass/cli.rs, which it takes apart at their
    awaits: left to itself, a call of the one is a call of the other, both ways. */
module ProtocolCalls {
  import opened Basics
  import opened Unlock
  import opened Master
  import opened LpassCli
  import opened Protocol

  /** Nothing happens but the call of request `r`, and time passing. */
  ghost predicate Undisturbed(acts: seq<Action>, r: nat) {
    forall i | 0 <= i < |acts| :: acts[i].Tick? || (InCall(acts[i]) && acts[i].r == r)
  }

  function SourceOf(asking: bool): PasswordSource { if asking then Asking else HeldOnly }

  // --- Every call has a run ---

  /** The run so far has brought the call of request `r` here, at this time. */
  ghost predicate Got(w: World, acts: seq<Action>, r: nat, phase: Phase, vault: Vault, holder: Option<nat>, at: nat) {
    && IsRun(w, acts) && Undisturbed(acts, r)
    && (var e := Reached(w, acts);
        && r in e.requests && e.requests[r].phase == phase && e.vault == vault && e.holder == holder
        && e.now == at && e.settings == w.settings)
  }

  /** One more step of the call. */
  lemma Then(w: World, acts: seq<Action>, r: nat, a: Action)
    requires IsRun(w, acts) && Undisturbed(acts, r) && InCall(a) && a.r == r
    requires r in Reached(w, acts).requests && Ready(Reached(w, acts), Reached(w, acts).requests[r], a)
    ensures IsRun(w, acts + [a]) && Undisturbed(acts + [a], r)
    ensures var before := Reached(w, acts); var e := EffectOf(before, before.requests[r], a);
      Reached(w, acts + [a]) == Applied(before, r, e)
  {
    assert (acts + [a])[..|acts|] == acts;
  }

  lemma {:induction false} Waits(w: World, before: seq<Action>, r: nat, phase: Phase, vault: Vault, holder: Option<nat>,
                                 from: nat, until: nat) returns (acts: seq<Action>)
    requires Got(w, before, r, phase, vault, holder, from) && from <= until
    ensures Got(w, acts, r, phase, vault, holder, until)
    decreases until - from
  {
    acts := before;
    if from < until {
      assert (before + [Tick])[..|before|] == before;
      acts := Waits(w, before + [Tick], r, phase, vault, holder, from + 1, until);
    }
  }

  lemma FirstRun(w: World, r: nat, use: Use, asking: bool, answers: Answers) returns (acts: seq<Action>)
    requires Got(w, [], r, Calling(use, asking, WantHeld), w.vault, None, w.now) && Honest(answers)
    ensures var first := answers.first(HeldSecret(w.vault));
      Got(w, acts, r,
          if first.Err? then Returned(use, asking, Err(first.error))
          else if LockedOut(first.value) && asking then Calling(use, true, WantAsk)
          else AfterRun(use, asking, first.value), w.vault, None, w.now)
  {
    var first := answers.first(HeldSecret(w.vault));
    Then(w, [], r, TakeHeld(r));
    assert Got(w, [] + [TakeHeld(r)], r, Calling(use, asking, Running(w.vault.held.Some?)), w.vault, None, w.now);
    Then(w, [TakeHeld(r)], r, Reply(r, first));
    acts := [TakeHeld(r)] + [Reply(r, first)];
  }

  lemma AsksAndIsAnswered(w: World, before: seq<Action>, r: nat, use: Use, vault: Vault, answers: Answers)
    returns (acts: seq<Action>)
    requires Got(w, before, r, Calling(use, true, WantAsk), vault, None, answers.askedAt)
    requires vault.held.None?
    ensures var op := Op.Password(true, answers.store, answers.prompt, answers.askedAt);
      var outcome := Outcome(w.settings, vault, op);
      Got(w, acts, r,
          if outcome.Ok? then Calling(use, true, Retrying) else Returned(use, true, Err(NoMasterPassword(outcome.error))),
          Do(w.settings, vault, op), None, answers.askedAt)
  {
    Then(w, before, r, Ask(r));
    var asked := before + [Ask(r)];
    assert Got(w, asked, r, Calling(use, true, Resolving), BeginAsk(vault), Some(r), answers.askedAt);
    Then(w, asked, r, Resolved(r, answers.store, answers.prompt));
    acts := asked + [Resolved(r, answers.store, answers.prompt)];
  }

  lemma Retried(w: World, before: seq<Action>, r: nat, use: Use, vault: Vault, answers: Answers, at: nat)
    returns (acts: seq<Action>)
    requires Got(w, before, r, Calling(use, true, Retrying), vault, None, at)
    requires vault.held.Some? && Honest(answers)
    ensures var second := answers.second(HeldSecret(vault));
      Got(w, acts, r, if second.Err? then Returned(use, true, Err(second.error)) else AfterRun(use, true, second.value),
          vault, None, at)
  {
    var second := answers.second(HeldSecret(vault));
    Then(w, before, r, Reply(r, second));
    acts := before + [Reply(r, second)];
  }

  lemma Finishes(w: World, before: seq<Action>, r: nat, use: Use, asking: bool, out: Output, vault: Vault, at: nat)
    returns (acts: seq<Action>)
    requires Got(w, before, r, AfterRun(use, asking, out), vault, None, at)
    ensures Got(w, acts, r, Returned(use, asking, Verdict("", Ok(out))),
                Finished(w.settings, SourceOf(asking), vault, out, at), None, at)
  {
    acts := before;
    var now := vault;
    if Incorrect(out) {
      Then(w, acts, r, RejectNow(r));
      acts, now := acts + [RejectNow(r)], Rejected(now);
      var next := if asking then Calling(use, true, WantTouch(out)) else Returned(use, false, Verdict("", Ok(out)));
      assert Got(w, acts, r, next, now, None, at);
    }
    if asking {
      Then(w, acts, r, TouchNow(r));
      acts := acts + [TouchNow(r)];
    }
  }

  /** Whatever the world may answer in one call, and however long it takes over it, an undisturbed run
      ends as the call does: with its verdict, and with the password, locks and asks it leaves. */
  lemma EveryCallHasARun(w: World, r: nat, use: Use, asking: bool, answers: Answers) returns (acts: seq<Action>)
    requires Got(w, [], r, Calling(use, asking, WantHeld), w.vault, None, w.now)
    requires Honest(answers) && w.now <= answers.askedAt <= answers.doneAt
    ensures var (vault, result) := LpassCli.Call(w.settings, SourceOf(asking), w.vault, answers);
      Got(w, acts, r, Returned(use, asking, Verdict("", result)), vault, None, answers.doneAt)
  {
    acts := FirstRun(w, r, use, asking, answers);
    var first := answers.first(HeldSecret(w.vault));
    if first.Err? {
      acts := Waits(w, acts, r, Returned(use, asking, Err(first.error)), w.vault, None, w.now, answers.doneAt);
    } else if !LockedOut(first.value) || !asking {
      acts := Waits(w, acts, r, AfterRun(use, asking, first.value), w.vault, None, w.now, answers.doneAt);
      acts := Finishes(w, acts, r, use, asking, first.value, w.vault, answers.doneAt);
    } else {
      acts := Waits(w, acts, r, Calling(use, true, WantAsk), w.vault, None, w.now, answers.askedAt);
      acts := AskedRun(w, acts, r, use, answers);
    }
  }

  lemma AskedRun(w: World, before: seq<Action>, r: nat, use: Use, answers: Answers) returns (acts: seq<Action>)
    requires Got(w, before, r, Calling(use, true, WantAsk), w.vault, None, answers.askedAt)
    requires Honest(answers) && answers.askedAt <= answers.doneAt
    requires var first := answers.first(HeldSecret(w.vault)); first.Ok? && LockedOut(first.value)
    ensures var (vault, result) := LpassCli.Call(w.settings, Asking, w.vault, answers);
      Got(w, acts, r, Returned(use, true, Verdict("", result)), vault, None, answers.doneAt)
  {
    acts := AsksAndIsAnswered(w, before, r, use, w.vault, answers);
    var op := Op.Password(true, answers.store, answers.prompt, answers.askedAt);
    var outcome, asked := Outcome(w.settings, w.vault, op), Do(w.settings, w.vault, op);
    if outcome.Err? {
      acts := Waits(w, acts, r, Returned(use, true, Err(NoMasterPassword(outcome.error))), asked, None,
                    answers.askedAt, answers.doneAt);
    } else {
      acts := Waits(w, acts, r, Calling(use, true, Retrying), asked, None, answers.askedAt, answers.doneAt);
      acts := Retried(w, acts, r, use, asked, answers, answers.doneAt);
      var second := answers.second(HeldSecret(asked));
      if second.Ok? {
        acts := Finishes(w, acts, r, use, true, second.value, asked, answers.doneAt);
      }
    }
  }

  // --- Every undisturbed run is a call ---

  /** What a run has heard from the world so far, and when. */
  datatype Heard = Heard(first: Result<Output, LpassError>, store: StoreReply, prompt: PromptReply, askedAt: nat,
                         second: Result<Output, LpassError>, doneAt: nat)

  /** A reply, kept to what it says of having been fed. */
  function Truthful(reply: Result<Output, LpassError>, fed: Option<Bytes>): Result<Output, LpassError> {
    if reply.Ok? && reply.value.fed != fed.Some? then Err(Timeout) else reply
  }

  /** A world that answers as was heard. */
  function AnswersOf(h: Heard): Answers {
    Answers(fed => Truthful(h.first, fed), fed => Truthful(h.second, fed), h.store, h.prompt, h.askedAt, h.doneAt)
  }

  predicate AskedFor(asking: bool, h: Heard) { asking && h.first.Ok? && LockedOut(h.first.value) }

  function AskOf(h: Heard): Op { Op.Password(true, h.store, h.prompt, h.askedAt) }

  /** The vault when the last run of `lpass` began, and what that run said. */
  function LastRun(s: Settings, v: Vault, asking: bool, h: Heard): (Vault, Result<Output, LpassError>) {
    if AskedFor(asking, h) then (Do(s, v, AskOf(h)), h.second) else (v, h.first)
  }

  /** The last run is over, with this output, and it was fed what was held. */
  predicate RanTo(s: Settings, v: Vault, asking: bool, h: Heard, out: Output) {
    && (h.first.Ok? ==> h.first.value.fed == v.held.Some?)
    && LastRun(s, v, asking, h).1 == Ok(out)
    && out.fed == LastRun(s, v, asking, h).0.held.Some?
    && (AskedFor(asking, h) ==> v.held.None? && Outcome(s, v, AskOf(h)).Ok?)
  }

  /** Where a call that began at vault `v` stands, going by what it has heard. */
  ghost predicate Stands(s: Settings, v: Vault, r: nat, asking: bool, call: Call, h: Heard, vault: Vault, holder: Option<nat>) {
    match call
    case WantHeld => vault == v && holder.None?
    case Running(fed) => vault == v && holder.None? && fed == v.held.Some?
    case WantAsk => vault == v && holder.None? && AskedFor(asking, h) && v.held.None?
    case Resolving => vault == BeginAsk(v) && holder == Some(r) && AskedFor(asking, h) && v.held.None?
    case Retrying =>
      && vault == Do(s, v, AskOf(h)) && holder.None? && AskedFor(asking, h)
      && v.held.None? && Outcome(s, v, AskOf(h)).Ok?
    case WantReject(out) =>
      holder.None? && RanTo(s, v, asking, h, out) && Incorrect(out) && vault == LastRun(s, v, asking, h).0
    case WantTouch(out) =>
      && holder.None? && RanTo(s, v, asking, h, out) && asking
      && vault == if Incorrect(out) then Rejected(LastRun(s, v, asking, h).0) else LastRun(s, v, asking, h).0
  }

  ghost predicate Matches(w: World, r: nat, use: Use, asking: bool, e: World, h: Heard) {
    && r in e.requests && e.settings == w.settings && w.now <= h.askedAt <= h.doneAt <= e.now
    && match e.requests[r].phase
       case Calling(u, a, call) => u == use && a == asking && Stands(w.settings, w.vault, r, asking, call, h, e.vault, e.holder)
       case Returned(u, a, reply) =>
         && u == use && a == asking && e.holder.None?
         && (var (vault, result) := LpassCli.Call(w.settings, SourceOf(asking), w.vault, AnswersOf(h));
             e.vault == vault && reply == Verdict("", result))
       case _ => false
  }

  lemma TakeMatches(w: World, r: nat, use: Use, asking: bool, e: World, h: Heard)
    requires Matches(w, r, use, asking, e, h) && Enabled(e, TakeHeld(r))
    ensures Matches(w, r, use, asking, Step(e, TakeHeld(r)), h)
  {
  }

  /** The first run of `lpass` is over. */
  lemma FirstReplyMatches(w: World, r: nat, use: Use, asking: bool, e: World, h: Heard, reply: Result<Output, LpassError>)
    returns (next: Heard)
    requires Matches(w, r, use, asking, e, h) && Enabled(e, Reply(r, reply))
    requires e.requests[r].phase.call.Running?
    ensures Matches(w, r, use, asking, Step(e, Reply(r, reply)), next)
  {
    next := h.(first := reply);
    assert AnswersOf(next).first(HeldSecret(w.vault)) == reply;
  }

  lemma SecondReplyMatches(w: World, r: nat, use: Use, asking: bool, e: World, h: Heard, reply: Result<Output, LpassError>)
    returns (next: Heard)
    requires Matches(w, r, use, asking, e, h) && Enabled(e, Reply(r, reply))
    requires e.requests[r].phase.call.Retrying?
    ensures Matches(w, r, use, asking, Step(e, Reply(r, reply)), next)
  {
    next := h.(second := reply);
    assert AnswersOf(next).first(HeldSecret(w.vault)) == h.first;
    assert AnswersOf(next).second(HeldSecret(e.vault)) == reply;
  }

  lemma AskMatches(w: World, r: nat, use: Use, asking: bool, e: World, h: Heard)
    requires Matches(w, r, use, asking, e, h) && Enabled(e, Ask(r))
    ensures Matches(w, r, use, asking, Step(e, Ask(r)), h)
  {
  }

  lemma ResolvedMatches(w: World, r: nat, use: Use, asking: bool, e: World, h: Heard, store: StoreReply, prompt: PromptReply)
    returns (next: Heard)
    requires Matches(w, r, use, asking, e, h) && Enabled(e, Resolved(r, store, prompt))
    ensures Matches(w, r, use, asking, Step(e, Resolved(r, store, prompt)), next)
  {
    next := h.(store := store, prompt := prompt, askedAt := e.now, doneAt := e.now);
    assert AnswersOf(next).first(HeldSecret(w.vault)) == h.first;
  }

  /** A finished last run makes the call what `Finished` says of it. */
  lemma LastRunDecides(s: Settings, v: Vault, asking: bool, h: Heard, out: Output)
    requires RanTo(s, v, asking, h, out)
    ensures LpassCli.Call(s, SourceOf(asking), v, AnswersOf(h))
         == (Finished(s, SourceOf(asking), LastRun(s, v, asking, h).0, out, h.doneAt), Ok(out))
  {
    assert AnswersOf(h).first(HeldSecret(v)) == h.first;
    if AskedFor(asking, h) {
      assert AnswersOf(h).second(HeldSecret(Do(s, v, AskOf(h)))) == h.second;
    }
  }

  lemma RejectMatches(w: World, r: nat, use: Use, asking: bool, e: World, h: Heard)
    requires Matches(w, r, use, asking, e, h) && Enabled(e, RejectNow(r))
    ensures Matches(w, r, use, asking, Step(e, RejectNow(r)), h)
  {
    LastRunDecides(w.settings, w.vault, asking, h, e.requests[r].phase.call.out);
  }

  lemma TouchMatches(w: World, r: nat, use: Use, asking: bool, e: World, h: Heard) returns (next: Heard)
    requires Matches(w, r, use, asking, e, h) && Enabled(e, TouchNow(r))
    ensures Matches(w, r, use, asking, Step(e, TouchNow(r)), next)
  {
    next := h.(doneAt := e.now);
    LastRunDecides(w.settings, w.vault, asking, next, e.requests[r].phase.call.out);
  }

  lemma StepMatches(w: World, r: nat, use: Use, asking: bool, e: World, h: Heard, a: Action) returns (next: Heard)
    requires Matches(w, r, use, asking, e, h) && Enabled(e, a)
    requires a.Tick? || (InCall(a) && a.r == r)
    ensures Matches(w, r, use, asking, Step(e, a), next)
  {
    next := h;
    match a
    case TakeHeld(_) => TakeMatches(w, r, use, asking, e, h);
    case Reply(_, reply) =>
      if e.requests[r].phase.call.Running? { next := FirstReplyMatches(w, r, use, asking, e, h, reply); }
      else { next := SecondReplyMatches(w, r, use, asking, e, h, reply); }
    case Ask(_) => AskMatches(w, r, use, asking, e, h);
    case Resolved(_, store, prompt) => next := ResolvedMatches(w, r, use, asking, e, h, store, prompt);
    case RejectNow(_) => RejectMatches(w, r, use, asking, e, h);
    case TouchNow(_) => next := TouchMatches(w, r, use, asking, e, h);
    case Tick =>
  }

  lemma {:induction false} UndisturbedRunsMatch(w: World, acts: seq<Action>, r: nat, use: Use, asking: bool) returns (h: Heard)
    requires Got(w, [], r, Calling(use, asking, WantHeld), w.vault, None, w.now)
    requires IsRun(w, acts) && Undisturbed(acts, r)
    ensures Matches(w, r, use, asking, Reached(w, acts), h)
    decreases |acts|
  {
    if acts == [] {
      h := Heard(Err(Timeout), Ok(None), Err(""), w.now, Err(Timeout), w.now);
    } else {
      var before := acts[..|acts| - 1];
      h := UndisturbedRunsMatch(w, before, r, use, asking);
      h := StepMatches(w, r, use, asking, Reached(w, before), h, acts[|acts| - 1]);
    }
  }

  /** Every undisturbed run from the start of a call to its return is a call: some honest world answers
      it, within the time the run took, with the verdict and the vault the run ended with. */
  lemma AnUndisturbedCallIsACall(w: World, acts: seq<Action>, r: nat, use: Use, asking: bool) returns (answers: Answers)
    requires Got(w, [], r, Calling(use, asking, WantHeld), w.vault, None, w.now)
    requires IsRun(w, acts) && Undisturbed(acts, r)
    requires r in Reached(w, acts).requests && Reached(w, acts).requests[r].phase.Returned?
    ensures Honest(answers) && w.now <= answers.askedAt <= answers.doneAt <= Reached(w, acts).now
    ensures var (vault, result) := LpassCli.Call(w.settings, SourceOf(asking), w.vault, answers);
      Got(w, acts, r, Returned(use, asking, Verdict("", result)), vault, None, Reached(w, acts).now)
  {
    var h := UndisturbedRunsMatch(w, acts, r, use, asking);
    answers := AnswersOf(h);
  }
}
