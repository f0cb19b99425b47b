/**
 Futex wait queues (core/src/futex.rs) and the wake and requeue loops (api/src/imp/futex.rs) on the
 kernel's wait queue, each run without interference.
 */
module Futex {
  import opened Common

  /** How many of the tasks in `q` a requeue moves after waking `value`: none unless all were woken. */
  function Moved(q: seq<nat>, value: nat, limit: nat): nat {
    if |q| < value then 0 else Min(limit, |q| - value)
  }

  class WaitQueue {
    var queue: seq<nat>

    constructor ()
      ensures queue == []
    {
      queue := [];
    }

    method NotifyOne() returns (woken: bool, task: nat)
      modifies this
      ensures woken <==> old(queue) != []
      ensures woken ==> task == old(queue)[0] && queue == old(queue)[1..]
      ensures !woken ==> queue == old(queue)
    {
      if queue == [] {
        return false, 0;
      }
      woken, task, queue := true, queue[0], queue[1..];
    }

    /** `WaitQueue::requeue`: the target may be this queue. */
    method Requeue(limit: nat, target: WaitQueue) returns (count: nat)
      modifies this, target
      ensures count == Min(limit, |old(queue)|)
      ensures target != this ==> queue == old(queue)[count..] && target.queue == old(target.queue) + old(queue)[..count]
      ensures target == this ==> queue == old(queue)[count..] + old(queue)[..count]
    {
      count := Min(limit, |queue|);
      var tasks := queue[..count];
      queue := queue[count..];
      if tasks != [] {
        target.queue := target.queue + tasks;
      }
    }
  }

  /** FUTEX_WAKE on a queue that exists: the oldest waiters, in order, and as many as asked for. */
  method Wake(wq: WaitQueue, value: nat) returns (count: nat, woken: seq<nat>)
    modifies wq
    ensures count == |woken| == Min(value, |old(wq.queue)|)
    ensures woken + wq.queue == old(wq.queue)
  {
    count, woken := 0, [];
    while count < value
      invariant count == |woken| <= value
      invariant woken + wq.queue == old(wq.queue)
    {
      var ok, task := wq.NotifyOne();
      if !ok {
        break;
      }
      assert woken + ([task] + wq.queue) == (woken + [task]) + wq.queue;
      woken := woken + [task];
      count := count + 1;
    }
  }

  /** FUTEX_REQUEUE: waiters are moved only after the full quota was woken, and none is lost. */
  method WakeAndRequeue(wq: WaitQueue, wq2: WaitQueue, value: nat, limit: nat)
    returns (count: nat, woken: seq<nat>)
    modifies wq, wq2
    ensures |woken| == Min(value, |old(wq.queue)|) && woken == old(wq.queue)[..|woken|]
    ensures count == |woken| + Moved(old(wq.queue), value, limit)
    // With the full quota woken, as many waiters move as allowed, or all that are left; otherwise none.
    ensures |woken| == value ==> count - |woken| <= limit && (count - |woken| == limit || count == |old(wq.queue)|)
    ensures |woken| < value ==> count == |woken| == |old(wq.queue)|
    ensures wq != wq2 ==> wq.queue == old(wq.queue)[count..]
                          && wq2.queue == old(wq2.queue) + old(wq.queue)[|woken|..count]
    ensures wq == wq2 ==> wq.queue == old(wq.queue)[count..] + old(wq.queue)[|woken|..count]
    ensures wq != wq2 ==> multiset(woken) + multiset(wq.queue) + multiset(wq2.queue)
                          == multiset(old(wq.queue)) + multiset(old(wq2.queue))
  {
    ghost var q, q2 := wq.queue, wq2.queue;
    count, woken := Wake(wq, value);
    assert woken == q[..|woken|] && wq.queue == q[|woken|..];
    if count == value {
      var moved := wq.Requeue(limit, wq2);
      ghost var rest := q[count..];
      assert rest[moved..] == q[count + moved..] && rest[..moved] == q[count..count + moved];
      assert q == q[..count] + q[count..count + moved] + q[count + moved..];
      count := count + moved;
    } else {
      assert q == q[..|woken|] + q[|woken|..] && q[|woken|..count] == [];
    }
  }
}
