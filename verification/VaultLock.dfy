/** The edge detector over samples of the screen (src/vaultlock.rs). */
module VaultLock {
  import opened Basics

  const MAX_UNREADABLE_IN_A_ROW: nat := 3

  /** A sample of the screen: locked, unlocked, or unreadable. */
  type Reading = Option<bool>

  /** What the last readable sample before `i` said; a screen nobody has looked at counts as unlocked. */
  function LockedBefore(readings: seq<Reading>, i: nat): bool
    requires i <= |readings|
  {
    if i == 0 then false
    else if readings[i - 1].Some? then readings[i - 1].value
    else LockedBefore(readings, i - 1)
  }

  predicate LocksAt(readings: seq<Reading>, i: nat)
    requires i < |readings|
  {
    readings[i] == Some(true) && !LockedBefore(readings, i)
  }

  /** Every place among the first `n` samples where the screen went from unlocked to locked. */
  function Locks(readings: seq<Reading>, n: nat): seq<nat>
    requires n <= |readings|
  {
    if n == 0 then []
    else if LocksAt(readings, n - 1) then Locks(readings, n - 1) + [n - 1]
    else Locks(readings, n - 1)
  }

  /** Each lock is listed once, in the order they happened. */
  lemma {:induction false} LocksIsExact(readings: seq<Reading>, n: nat)
    requires n <= |readings|
    ensures forall i: nat :: i in Locks(readings, n) <==> i < n && LocksAt(readings, i)
    ensures forall i, j | 0 <= i < j < |Locks(readings, n)| :: Locks(readings, n)[i] < Locks(readings, n)[j]
  {
    if n > 0 {
      LocksIsExact(readings, n - 1);
      var before := Locks(readings, n - 1);
      assert forall i | 0 <= i < |before| :: before[i] in before;
    }
  }

  /** How many samples in a row could not be read, up to `n`. */
  function UnreadableRun(readings: seq<Reading>, n: nat): (run: nat)
    requires n <= |readings|
  {
    if n == 0 || readings[n - 1].Some? then 0 else 1 + UnreadableRun(readings, n - 1)
  }

  /** The n-th sample ends the watch: the very first one failed, or this is the third in a row. */
  predicate GivesUpAt(readings: seq<Reading>, n: nat)
    requires n <= |readings|
  {
    (n == 1 && readings[0].None?) || UnreadableRun(readings, n) >= MAX_UNREADABLE_IN_A_ROW
  }

  /** The receiver of the watch's calls, recording at which sample each was made. */
  class VaultKey {
    var told: seq<nat>

    constructor ()
      ensures told == []
    {
      told := [];
    }

    method Forget(at: nat)
      modifies this
      ensures told == old(told) + [at]
    {
      told := told + [at];
    }
  }

  predicate LockingNow(previous: bool, current: bool) { current && !previous }

  /** Watch until the samples run out with the process, or the screen cannot be read any more. The key
      is told exactly once for each time the screen locks, and `taken` samples are looked at. */
  method Watch(enabled: bool, readings: seq<Reading>, vault: VaultKey) returns (taken: nat)
    modifies vault
    ensures taken <= |readings|
    ensures vault.told == old(vault.told) + Locks(readings, taken)
    ensures !enabled ==> taken == 0
    ensures enabled ==> taken == |readings| || GivesUpAt(readings, taken)
    ensures forall n: nat | n < taken :: !GivesUpAt(readings, n)
  {
    if !enabled || readings == [] {
      return 0;
    }
    if readings[0].None? {
      return 1;
    }
    var previous := false;
    var current := readings[0].value;
    var unreadableInARow := 0;
    taken := 1;
    ghost var handled: nat := 0;
    while true
      invariant 1 <= taken <= |readings|
      invariant handled == if readings[taken - 1].Some? then taken - 1 else taken
      invariant unreadableInARow == UnreadableRun(readings, taken) < MAX_UNREADABLE_IN_A_ROW
      invariant previous == LockedBefore(readings, handled) && current == LockedBefore(readings, taken)
      invariant vault.told == old(vault.told) + Locks(readings, handled)
      invariant forall n: nat | n <= taken :: !GivesUpAt(readings, n)
      decreases |readings| - taken
    {
      if LockingNow(previous, current) {
        vault.Forget(taken - 1);
      }
      previous := current;
      assert vault.told == old(vault.told) + Locks(readings, taken);
      if taken == |readings| {
        return;
      }
      handled, taken := taken, taken + 1;
      if readings[taken - 1].Some? {
        unreadableInARow := 0;
        current := readings[taken - 1].value;
      } else {
        handled := taken;
        unreadableInARow := unreadableInARow + 1;
        if unreadableInARow >= MAX_UNREADABLE_IN_A_ROW {
          return;
        }
      }
    }
  }

  /** A screen found locked has been acted on: some sample locked it, and none since saw it unlocked. */
  lemma {:induction false} EveryLockIsCaught(readings: seq<Reading>, i: nat) returns (at: nat)
    requires i < |readings| && readings[i] == Some(true)
    ensures at <= i && LocksAt(readings, at) && forall k | at <= k <= i :: readings[k] != Some(false)
    decreases i
  {
    if !LockedBefore(readings, i) {
      return i;
    }
    at := LastReadable(readings, i);
    at := EveryLockIsCaught(readings, at);
  }

  lemma {:induction false} LastReadable(readings: seq<Reading>, i: nat) returns (k: nat)
    requires i <= |readings| && LockedBefore(readings, i)
    ensures k < i && readings[k] == Some(true) && forall j | k < j < i :: readings[j].None?
  {
    if readings[i - 1].Some? {
      return i - 1;
    }
    k := LastReadable(readings, i - 1);
  }

  /** A screen that stays locked is forgotten for once: between two locks it was seen unlocked. */
  lemma {:induction false} OneForgetPerLock(readings: seq<Reading>, i: nat, j: nat)
    requires i < j < |readings| && LocksAt(readings, i) && LocksAt(readings, j)
    ensures exists k | i < k < j :: readings[k] == Some(false)
  {
    if forall k | i < k < j :: readings[k] != Some(false) {
      StaysLocked(readings, i, j);
      assert false;
    }
  }

  lemma {:induction false} StaysLocked(readings: seq<Reading>, i: nat, j: nat)
    requires i < j <= |readings| && readings[i] == Some(true) && forall k | i < k < j :: readings[k] != Some(false)
    ensures LockedBefore(readings, j)
    decreases j
  {
    if i + 1 < j {
      StaysLocked(readings, i, j - 1);
    }
  }
}
