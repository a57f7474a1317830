/** The memory of approvals, and the epochs that end it (src/approvals.rs).

    The value-level functions say what each operation does to the memory; the
    classes carry the same operations out on fields, one `LockEpoch` object being
    shared with the holder of the master password. */
module Approvals {
  import opened Basics

  /** How often the vault has locked, and how often the password was asked for. */
  datatype Epoch = Epoch(locks: nat, unlocks: nat)

  /** A request's standing with the user: no yes was needed, an old one answers, or a new one was given. */
  datatype Answer =
    | NotNeeded
    | Remembered(epoch: nat)
    | Given(question: Option<string>, epoch: nat)

  datatype Memory = Memory(enabled: bool, locks: nat, remembered: map<string, nat>)

  function Honoured(m: Memory, question: string): Option<nat> {
    if question in m.remembered && m.remembered[question] == m.locks then Some(m.locks) else None
  }

  function Filed(m: Memory, question: string, epoch: nat): Memory {
    if !m.enabled || epoch != m.locks then m
    else
      var kept := map k | k in m.remembered && m.remembered[k] == epoch :: m.remembered[k];
      m.(remembered := kept[question := epoch])
  }

  /** The epoch an answer given in `epoch` is filed under by a request that did or did not ask. */
  function FilingEpoch(epoch: nat, asked: bool): nat {
    if asked then epoch + 1 else epoch
  }

  /** The memory once a request has settled, and whether its answer still covers it. */
  function Settlement(m: Memory, answer: Answer, asked: bool, signed: bool): (Memory, bool) {
    var m := if asked then m.(locks := m.locks + 1) else m;
    match answer
    case NotNeeded => (m, true)
    case Remembered(epoch) => (m, !asked && epoch == m.locks)
    case Given(question, epoch) =>
      (if question.Some? && signed then Filed(m, question.value, FilingEpoch(epoch, asked)) else m, true)
  }

  /** A question answered in the current epoch stays answered through any settlement that is no lock. */
  lemma SettlementKeepsWhatStands(m: Memory, answer: Answer, signed: bool, question: string)
    requires Honoured(m, question).Some?
    ensures Honoured(Settlement(m, answer, false, signed).0, question) == Honoured(m, question)
  {
  }

  /** After settling an answer its question stands exactly when the answer was filed (remembering is on,
      the request signed, and no lock but its own ask came in between) or when it stood before and the
      request did not ask. */
  lemma GivenAnswerStandsExactly(m: Memory, question: string, epoch: nat, asked: bool, signed: bool)
    requires forall k | k in m.remembered :: m.remembered[k] <= m.locks
    ensures Honoured(Settlement(m, Given(Some(question), epoch), asked, signed).0, question).Some?
       <==> (m.enabled && signed && epoch == m.locks) || (!asked && Honoured(m, question).Some?)
  {
  }

  class LockEpoch {
    var locks: nat
    var unlocks: nat

    ghost function View(): Epoch
      reads this
    {
      Epoch(locks, unlocks)
    }

    constructor ()
      ensures View() == Epoch(0, 0)
    {
      locks, unlocks := 0, 0;
    }

    method Bump()
      modifies this
      ensures View() == Epoch(old(locks) + 1, old(unlocks))
    {
      locks := locks + 1;
    }

    method Unlocked()
      modifies this
      ensures View() == Epoch(old(locks), old(unlocks) + 1)
    {
      unlocks := unlocks + 1;
    }
  }

  class Approvals {
    const enabled: bool
    const epoch: LockEpoch
    var remembered: map<string, nat>

    ghost function View(): Memory
      reads this, epoch
    {
      Memory(enabled, epoch.locks, remembered)
    }

    constructor (enabled: bool, epoch: LockEpoch)
      ensures this.epoch == epoch && View() == Memory(enabled, epoch.locks, map[])
    {
      this.enabled, this.epoch := enabled, epoch;
      remembered := map[];
    }

    /** The answer to a question, as `Honoured` finds it. */
    method RememberedIn(question: string) returns (answeredIn: Option<nat>)
      ensures answeredIn == Honoured(View(), question)
    {
      var now := epoch.locks;
      answeredIn := None;
      if question in remembered {
        var stored := remembered[question];
        if stored == now {
          answeredIn := Some(stored);
        }
      }
    }

    /** File an approval, unless remembering is off or a lock has since ended its epoch. */
    method RememberIn(question: string, answeredIn: nat)
      modifies this
      ensures View() == Filed(old(View()), question, answeredIn)
    {
      if !enabled || answeredIn != epoch.locks {
        return;
      }
      remembered := map k | k in remembered && remembered[k] == answeredIn :: remembered[k];
      remembered := remembered[question := answeredIn];
    }

    /** Carries out `Settlement` on the map and the shared counter. */
    method Settle(answer: Answer, asked: bool, signed: bool) returns (covered: bool)
      modifies this, epoch
      ensures (View(), covered) == Settlement(old(View()), answer, asked, signed)
      ensures epoch.unlocks == old(epoch.unlocks)
    {
      if asked {
        epoch.Bump();
      }
      match answer
      case NotNeeded =>
        covered := true;
      case Remembered(answeredIn) =>
        covered := !(asked || answeredIn != epoch.locks);
      case Given(question, answeredIn) =>
        covered := true;
        if question.Some? && signed {
          RememberIn(question.value, if asked then answeredIn + 1 else answeredIn);
        }
    }
  }
}
