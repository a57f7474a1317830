/** The mutex behind everything a request shows its user (src/interaction.rs). */
module Interaction {
  import opened Basics

  /** Whether a claim is granted now: to the request that has the mutex already, or to any if none has. */
  predicate Grants(owner: Option<nat>, held: bool) { held || owner.None? }

  /** Who has the mutex once a request that did or did not hold it has ended. */
  function Released(owner: Option<nat>, held: bool): Option<nat> { if held then None else owner }

  /** The mutex every connection shares, and the request that has it, if any. */
  class InteractionLock {
    var owner: Option<nat>

    constructor ()
      ensures owner == None
    {
      owner := None;
    }
  }

  /** The claim of one request, identified by its number: taken late, kept to the end. */
  class InteractionGate {
    const lock: InteractionLock
    const request: nat
    var held: bool

    ghost predicate Valid()
      reads this, lock
    {
      held <==> lock.owner == Some(request)
    }

    constructor (lock: InteractionLock, request: nat)
      requires lock.owner != Some(request)
      ensures this.lock == lock && this.request == request && !held && Valid()
      ensures lock.owner == old(lock.owner)
    {
      this.lock, this.request, held := lock, request, false;
    }

    /** One poll of the wait: in at once if the claim is granted, and else still outside, with nothing
        changed. Polling again from inside stays inside. */
    method Enter() returns (entered: bool)
      requires Valid()
      modifies this, lock
      ensures Valid() && held == entered
      ensures entered == Grants(old(lock.owner), old(held))
      ensures lock.owner == if entered then Some(request) else old(lock.owner)
    {
      if !held {
        if lock.owner.Some? {
          return false;
        }
        lock.owner, held := Some(request), true;
      }
      entered := true;
    }

    /** The request ends, and leaves the mutex free if it had it. */
    method Drop()
      requires Valid()
      modifies this, lock
      ensures Valid() && !held
      ensures lock.owner == Released(old(lock.owner), old(held))
    {
      if held {
        lock.owner, held := None, false;
      }
    }
  }
}
