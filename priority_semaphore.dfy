/**
 * The counting semaphore with strict priority of src/utils/threadutils.h
 * (`sstl::priority_semaphore<kMaxPriority, kDefaultPriority>`).
 *
 * The state is the available count and one pending counter per priority
 * level, 0 being the highest priority. All of it is guarded by one mutex in
 * the source; here every method is one critical section. Blocking on a
 * condition variable is not modelled: `wait` is split into `Wait`, which runs
 * up to the point where the caller would block (taking at once on the fast
 * path, registering as pending otherwise), and `Wake`, which is one re-test of
 * the wait predicate by a registered waiter after a notify on its level.
 */
module PrioritySemaphore {
  import opened Wrappers

  class PrioritySemaphore {
    /** kMaxPriority: the number of priority levels. */
    const maxPriority: nat
    /** kDefaultPriority: the level callers use when they give none. */
    const defaultPriority: nat
    /** m_pending: the number of registered waiters per level. */
    const pending: array<nat>
    /** m_count: the units available. */
    var count: nat

    ghost predicate Valid()
      reads this
    {
      0 < maxPriority && defaultPriority < maxPriority && pending.Length == maxPriority
    }

    /** The template parameters must satisfy the two static assertions; every level starts with no waiter. */
    constructor (maxPriority: nat, defaultPriority: nat, init: nat)
      requires 0 < maxPriority && defaultPriority < maxPriority
      ensures Valid() && fresh(pending)
      ensures this.maxPriority == maxPriority && this.defaultPriority == defaultPriority
      ensures count == init
      ensures forall i :: 0 <= i < maxPriority ==> pending[i] == 0
    {
      this.maxPriority := maxPriority;
      this.defaultPriority := defaultPriority;
      count := init;
      pending := new nat[maxPriority](_ => 0);
    }

    /** The admission rule: no waiter at a strictly higher priority, and enough units.
        Waiters at level `p` itself do not block a request at `p`. */
    predicate Admits(c: nat, p: nat)
      reads this, pending
      requires Valid() && p < maxPriority
    {
      (forall i :: 0 <= i < p ==> pending[i] == 0) && c <= count
    }

    /** can_take: scans the levels above `p` for a waiter, then compares the count. */
    method CanTake(c: nat, p: nat) returns (ok: bool)
      requires Valid() && p < maxPriority
      ensures ok <==> Admits(c, p)
    {
      var i := 0;
      while i != p
        invariant 0 <= i <= p
        invariant forall j :: 0 <= j < i ==> pending[j] == 0
      {
        if pending[i] > 0 {
          return false;
        }
        i := i + 1;
      }
      return count >= c;
    }

    /** post: credits `c` units and notifies the highest-priority level that has a waiter, if any. */
    method Post(c: nat) returns (woken: Option<nat>)
      requires Valid()
      modifies this`count
      ensures count == old(count) + c
      ensures woken.Some? ==> woken.value < maxPriority && pending[woken.value] > 0 &&
                              forall i :: 0 <= i < woken.value ==> pending[i] == 0
      ensures woken.None? ==> forall i :: 0 <= i < maxPriority ==> pending[i] == 0
    {
      count := count + c;
      woken := None;
      var p := 0;
      while p != maxPriority
        invariant 0 <= p <= maxPriority
        invariant woken.None?
        invariant forall i :: 0 <= i < p ==> pending[i] == 0
      {
        if pending[p] > 0 {
          woken := Some(p);
          break;
        }
        p := p + 1;
      }
    }

    /** try_wait: takes `c` units exactly when the admission rule holds; never registers as pending. */
    method TryWait(c: nat, p: nat) returns (taken: bool)
      requires Valid() && p < maxPriority
      modifies this`count
      ensures taken == old(Admits(c, p))
      ensures count == if taken then old(count) - c else old(count)
      ensures pending[..] == old(pending[..])
    {
      taken := CanTake(c, p);
      if taken {
        count := count - c;
      }
    }

    /** wait up to the point where it blocks. On the fast path the units are taken at once and
        nothing is registered; otherwise the caller registers at level `p`, and the first test of
        the wait predicate fails as well, so the caller blocks. */
    method Wait(c: nat, p: nat) returns (taken: bool)
      requires Valid() && p < maxPriority
      modifies this`count, pending
      ensures taken == old(Admits(c, p))
      ensures taken ==> count == old(count) - c && pending[..] == old(pending[..])
      ensures !taken ==> count == old(count) && pending[..] == old(pending[..])[p := old(pending[p]) + 1]
      ensures !taken ==> !Admits(c, p)
    {
      taken := CanTake(c, p);
      if taken {
        count := count - c;
        return;
      }
      pending[p] := pending[p] + 1;
      assert forall i :: 0 <= i < p ==> pending[i] == old(pending[i]);
    }

    /** A waiter registered at level `p` re-tests the wait predicate after a notify. When it
        holds, the waiter deregisters and takes the units; otherwise it goes back to sleep. */
    method Wake(c: nat, p: nat) returns (taken: bool)
      requires Valid() && p < maxPriority && pending[p] > 0
      modifies this`count, pending
      ensures taken == old(Admits(c, p))
      ensures taken ==> count == old(count) - c && pending[..] == old(pending[..])[p := old(pending[p]) - 1]
      ensures !taken ==> count == old(count) && pending[..] == old(pending[..])
    {
      taken := CanTake(c, p);
      if taken {
        pending[p] := pending[p] - 1;
        count := count - c;
      }
    }
  }

  /** A blocked waiter that is later admitted leaves the pending counters as they were and is
      debited exactly `c`, whatever was posted while it slept. */
  method SlowPathNetEffect(sem: PrioritySemaphore, c: nat, p: nat, posted: nat) returns (taken: bool)
    requires sem.Valid() && p < sem.maxPriority
    requires !sem.Admits(c, p)
    modifies sem, sem.pending
    ensures taken ==> sem.count == old(sem.count) + posted - c && sem.pending[..] == old(sem.pending[..])
    ensures !taken ==> sem.count == old(sem.count) + posted &&
                       sem.pending[..] == old(sem.pending[..])[p := old(sem.pending[p]) + 1]
  {
    var fast := sem.Wait(c, p);
    assert !fast;
    var woken := sem.Post(posted);
    taken := sem.Wake(c, p);
  }

  /** Three waiters at levels 2, 1 and 0 contend for one unit; posting one unit notifies level 0
      only, and its waiter is admitted while the other two stay pending. */
  method ThreeLevelsContend() returns (woken: Option<nat>, admitted: bool, left: seq<nat>)
    ensures woken == Some(0) && admitted
    ensures left == [0, 1, 1]
  {
    var sem := new PrioritySemaphore(3, 0, 0);
    var a := sem.Wait(1, 2);
    var b := sem.Wait(1, 1);
    var c := sem.Wait(1, 0);
    woken := sem.Post(1);
    assert sem.pending[..] == [1, 1, 1];
    admitted := sem.Wake(1, 0);
    left := sem.pending[..];
  }
}
