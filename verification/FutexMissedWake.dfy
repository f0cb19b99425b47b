/**
 A run in which a wake finds nobody although a waiter sleeps: the waiter is being moved by a requeue, and
 between the two sections of the requeue it is in no queue.
 */
module FutexMissedWake {
  import opened Common
  import opened FutexSystem
  import opened FutexTheorems

  lemma SnocTail(steps: seq<Step>, step: Step)
    ensures steps == [] ==> (steps + [step])[1..] == []
    ensures steps != [] ==> (steps + [step])[0] == steps[0] && (steps + [step])[1..] == steps[1..] + [step]
  {
  }

  lemma {:induction false} RunsSnoc(s: State, steps: seq<Step>, s': State, step: Step)
    requires Ok(s) && Runs(s, steps, s') && Ok(s') && Enabled(s', step)
    ensures Runs(s, steps + [step], Apply(s', step))
    decreases |steps|
  {
    SnocTail(steps, step);
    if steps != [] {
      RunsSnoc(Apply(s, steps[0]), steps[1..], s', step);
    }
  }

  /** One more step of a run from the start. */
  lemma Then(steps: seq<Step>, s: State, step: Step) returns (s': State)
    requires Reached(steps, s) && Ok(s) && Enabled(s, step)
    ensures s' == Apply(s, step) && Reached(steps + [step], s') && Ok(s')
  {
    StartOk();
    s' := Apply(s, step);
    RunsSnoc(START, steps, s, step);
  }

  // ------------------------------------------------------------ the first task

  /** Task 0 waits on `a`, alone. */
  ghost predicate OneWaits(s: State, a: nat) {
    && s.tasks.Keys == {0} && a in s.table.queueOf && s.table.queueOf[a] < |s.table.queues|
    && s.tasks[0] == Asleep(a, a, InQueue(s.table.queueOf[a])) && s.table.queues[s.table.queueOf[a]] == [0]
  }

  /** With every sleeper on its way to another queue, or none at all, every queue is empty. */
  lemma QueuesAreEmpty(s: State, q: nat)
    requires Ok(s) && q < |s.table.queues|
    requires forall t :: t in s.tasks && s.tasks[t].Asleep? ==> s.tasks[t].at.InTransit?
    ensures s.table.queues[q] == []
  {
    var queue := s.table.queues[q];
    forall t ensures t !in queue {
      assert t in s.table.queues[q] <==> SleepsAt(s.tasks, t, InQueue(q));
    }
    SomeMember(queue);
  }

  lemma SomeMember(queue: seq<nat>)
    ensures queue != [] ==> exists t :: t in queue
  {
    if queue != [] {
      assert queue[0] in queue;
    }
  }

  lemma SleepsAlone(s: State, a: nat)
    requires Ok(s) && s.tasks == map[0 := Entering(a)]
    ensures Enabled(s, Sleep(0)) && OneWaits(DoSleep(s, 0), a)
  {
    var s' := DoSleep(s, 0);
    assert TaskOk(s.table.guards, 0, s.tasks[0]);
    QueuesAreEmpty(s, s.table.queueOf[a]);
    assert [] + [0] == [0];
  }

  lemma EntersAlone(a: nat)
    ensures Ok(START) && Enabled(START, WaitStart(0, a)) && Apply(START, WaitStart(0, a)).tasks == map[0 := Entering(a)]
  {
    StartOk();
  }

  function Sleeping(a: nat): seq<Step> {
    [] + [WaitStart(0, a)] + [Sleep(0)]
  }

  lemma OneTaskSleeps(a: nat) returns (s: State)
    ensures Reached(Sleeping(a), s) && Ok(s) && OneWaits(s, a)
  {
    EntersAlone(a);
    var s1 := Then([], START, WaitStart(0, a));
    SleepsAlone(s1, a);
    s := Then([] + [WaitStart(0, a)], s1, Sleep(0));
  }

  // --------------------------------------------------------------- the requeue

  /** Task 0 is being moved by call 1 and is in no queue. */
  ghost predicate BeingMoved(s: State, a: nat, b: nat) {
    && s.tasks.Keys == {0, 1} && a in s.table.queueOf && b in s.table.queueOf
    && s.tasks[0] == Asleep(a, a, InTransit(1)) && s.tasks[1] == Moving(a, b, 0, 0, [0])
  }

  lemma RequeueStarts(s: State, a: nat, b: nat)
    requires Ok(s) && OneWaits(s, a)
    ensures Enabled(s, RequeueGet(1, a, b, 0, 1))
    ensures var s' := Apply(s, RequeueGet(1, a, b, 0, 1));
            && s'.tasks == s.tasks[1 := Pairing(a, b, 0, 1)] && GuardId(1, 0) in s'.table.guards
            && s'.table.queues == s.table.queues && s'.table.queueOf == s.table.queueOf
  {
  }

  lemma RequeuePairs(s: State, s1: State, a: nat, b: nat)
    requires Ok(s1) && OneWaits(s, a) && s1.tasks == s.tasks[1 := Pairing(a, b, 0, 1)]
    requires GuardId(1, 0) in s1.table.guards
    requires s1.table.queues == s.table.queues && s1.table.queueOf == s.table.queueOf
    ensures Enabled(s1, RequeueGet2(1))
    ensures var s' := Apply(s1, RequeueGet2(1));
            && s'.tasks == s.tasks[1 := Requeuing(a, b, 0, 1, 0, true)]
            && a in s'.table.queueOf && b in s'.table.queueOf && s'.table.queueOf[a] < |s'.table.queues|
            && s'.table.queues[s'.table.queueOf[a]] == [0]
  {
    assert TaskOk(s1.table.guards, 1, s1.tasks[1]);
    var f := Acquire(s1, 1, 1, b);
    QueueStays(s1.table, f, 1, a);
    PairsUp(s1, f, a, b);
    SetAgain(s.tasks, 1, Pairing(a, b, 0, 1), Requeuing(a, b, 0, 1, 0, true));
  }

  lemma SetAgain(tasks: map<nat, Task>, t: nat, first: Task, second: Task)
    ensures tasks[t := first][t := second] == tasks[t := second]
  {
  }

  lemma QueueStays(f: Table, f': Table, t: nat, a: nat)
    requires TableGrows(f, f', t) && a in f.queueOf && f.queueOf[a] < |f.queues|
    ensures a in f'.queueOf && f'.queueOf[a] == f.queueOf[a] < |f'.queues|
    ensures f'.queues[f'.queueOf[a]] == f.queues[f.queueOf[a]]
  {
    assert f'.queues[f.queueOf[a]] == f'.queues[..|f.queues|][f.queueOf[a]];
  }

  lemma PairsUp(s: State, f: Table, a: nat, b: nat)
    requires Ok(s) && 1 in s.tasks && s.tasks[1] == Pairing(a, b, 0, 1) && GuardId(1, 0) in s.table.guards
    requires GuardId(1, 1) !in s.table.guards && f == Acquire(s, 1, 1, b)
    ensures Apply(s, RequeueGet2(1)).tasks == s.tasks[1 := Requeuing(a, b, 0, 1, 0, true)]
    ensures Apply(s, RequeueGet2(1)).table == f && b in f.queueOf
  {
    assert f.guards[GuardId(1, 1)].key == b;
  }

  lemma RequeueDrains(s: State, s2: State, a: nat, b: nat)
    requires Ok(s2) && OneWaits(s, a) && s2.tasks == s.tasks[1 := Requeuing(a, b, 0, 1, 0, true)]
    requires a in s2.table.queueOf && b in s2.table.queueOf && s2.table.queueOf[a] < |s2.table.queues|
    requires s2.table.queues[s2.table.queueOf[a]] == [0]
    ensures Enabled(s2, Drain(1)) && BeingMoved(Apply(s2, Drain(1)), a, b)
  {
    var s' := DoDrainAll(s2, 1);
    var q := s2.table.queueOf[a];
    assert [0][..1] == [0];
    assert s'.tasks[1].tasks == [0];
  }

  function Draining(a: nat, b: nat): seq<Step> {
    Sleeping(a) + [RequeueGet(1, a, b, 0, 1)] + [RequeueGet2(1)] + [Drain(1)]
  }

  /** The moved task is for a moment in no queue. */
  lemma TaskInNoQueue(a: nat, b: nat) returns (s: State)
    ensures Reached(Draining(a, b), s) && Ok(s) && BeingMoved(s, a, b) && Occurrences(s.table.queues, 0) == 0
  {
    var s0 := OneTaskSleeps(a);
    RequeueStarts(s0, a, b);
    var s1 := Then(Sleeping(a), s0, RequeueGet(1, a, b, 0, 1));
    RequeuePairs(s0, s1, a, b);
    var s2 := Then(Sleeping(a) + [RequeueGet(1, a, b, 0, 1)], s1, RequeueGet2(1));
    RequeueDrains(s0, s2, a, b);
    s := Then(Sleeping(a) + [RequeueGet(1, a, b, 0, 1)] + [RequeueGet2(1)], s2, Drain(1));
    SleeperIsInOneQueue(Draining(a, b), s, 0);
  }

  // ------------------------------------------------------------ the missed wake


  lemma WakeLooks(s: State, a: nat, b: nat, w: nat)
    requires Ok(s) && BeingMoved(s, a, b) && (w == a || w == b)
    ensures Enabled(s, WakeStart(2, w, 1))
    ensures var s' := Apply(s, WakeStart(2, w, 1));
            s'.tasks == s.tasks[2 := Waking(w, 1, 0, true)] && s'.table.queueOf == s.table.queueOf
  {
  }

  lemma WakeFindsNobody(s: State, s1: State, a: nat, b: nat, w: nat)
    requires BeingMoved(s, a, b) && Ok(s1) && s1.tasks == s.tasks[2 := Waking(w, 1, 0, true)]
    requires w in s1.table.queueOf
    ensures Enabled(s1, WakeOne(2)) && Apply(s1, WakeOne(2)).tasks == s.tasks[2 := Waking(w, 1, 0, false)]
  {
    QueuesAreEmpty(s1, s1.table.queueOf[w]);
    SetAgain(s.tasks, 2, Waking(w, 1, 0, true), Waking(w, 1, 0, false));
  }

  /**
   A wake for one task, on the address that task 0 waited on or on the one it is being moved to, returns
   having woken nobody while task 0 goes on sleeping.
   */
  lemma WakeIsMissed(a: nat, b: nat, w: nat) returns (s: State)
    requires w == a || w == b
    ensures Reached(Draining(a, b) + [WakeStart(2, w, 1)] + [WakeOne(2)] + [WakeEnd(2)], s)
    ensures s.tasks.Keys == {0, 1, 2} && s.tasks[2] == Returned(0, 1) && s.tasks[0] == Asleep(a, a, InTransit(1))
  {
    var s0 := TaskInNoQueue(a, b);
    WakeLooks(s0, a, b, w);
    var s1 := Then(Draining(a, b), s0, WakeStart(2, w, 1));
    WakeFindsNobody(s0, s1, a, b, w);
    var s2 := Then(Draining(a, b) + [WakeStart(2, w, 1)], s1, WakeOne(2));
    WakeReturns(s0, s2, a, b, w);
    s := Then(Draining(a, b) + [WakeStart(2, w, 1)] + [WakeOne(2)], s2, WakeEnd(2));
  }

  lemma WakeReturns(s: State, s2: State, a: nat, b: nat, w: nat)
    requires BeingMoved(s, a, b) && Ok(s2) && s2.tasks == s.tasks[2 := Waking(w, 1, 0, false)]
    ensures Enabled(s2, WakeEnd(2))
    ensures var s' := Apply(s2, WakeEnd(2));
            s'.tasks.Keys == {0, 1, 2} && s'.tasks[2] == Returned(0, 1) && s'.tasks[0] == s.tasks[0]
  {
  }
}
