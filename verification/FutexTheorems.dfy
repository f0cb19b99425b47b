/**
 What holds in every state that any interleaving of futex calls can reach.
 */
module FutexTheorems {
  import opened FutexSystem
  import opened FutexHistory

  ghost predicate Runs(s: State, steps: seq<Step>, s': State)
    requires Ok(s)
    decreases |steps|
  {
    if steps == [] then s == s'
    else Enabled(s, steps[0]) && Runs(Apply(s, steps[0]), steps[1..], s')
  }

  ghost predicate Reached(steps: seq<Step>, s: State) {
    StartOk();
    Runs(START, steps, s)
  }

  lemma {:induction false} RunsKeepOk(s: State, steps: seq<Step>, s': State)
    requires Ok(s) && Runs(s, steps, s')
    ensures Ok(s') && MapGrows(s.table, s'.table) && (HistoryOk(s) ==> HistoryOk(s'))
    decreases |steps|
  {
    if steps != [] {
      if HistoryOk(s) {
        StepKeepsHistory(s, steps[0]);
      }
      RunsKeepOk(Apply(s, steps[0]), steps[1..], s');
    }
  }

  lemma ReachedKeepsAll(steps: seq<Step>, s: State)
    requires Reached(steps, s)
    ensures Ok(s) && HistoryOk(s)
  {
    StartOk();
    StartHistoryOk();
    RunsKeepOk(START, steps, s);
  }

  /**
   A guard's queue is the one the table maps its address to, and its strong count is at least two,
   so the clean-up in the guard's drop is never reached.
   */
  lemma GuardsAgreeWithTable(steps: seq<Step>, s: State, g: GuardId)
    requires Reached(steps, s) && g in s.table.guards
    ensures var guard := s.table.guards[g];
            && guard.key in s.table.queueOf && s.table.queueOf[guard.key] == guard.queue
            && guard.queue < |s.table.strong| && s.table.strong[guard.queue] >= 2
  {
    ReachedKeepsAll(steps, s);
    assert g in GuardsOf(s.table.guards, s.table.guards[g].queue);
  }

  /** Different addresses never share a queue, and an address keeps its queue for good. */
  lemma QueuesAreDistinct(steps: seq<Step>, s: State, more: seq<Step>, s': State, a: nat, b: nat)
    requires Reached(steps, s) && Ok(s) && Runs(s, more, s')
    requires a in s.table.queueOf && b in s.table.queueOf && a != b
    ensures s.table.queueOf[a] != s.table.queueOf[b]
    ensures a in s'.table.queueOf && s'.table.queueOf[a] == s.table.queueOf[a]
  {
    RunsKeepOk(s, more, s');
  }

  /** How often `t` occurs in the queues `queues[..n]`. */
  ghost function Occurrences(queues: seq<seq<nat>>, t: nat): nat {
    if queues == [] then 0
    else Occurrences(queues[..|queues| - 1], t) + multiset(queues[|queues| - 1])[t]
  }

  lemma {:induction false} NoDupCount(q: seq<nat>, t: nat)
    requires NoDup(q)
    ensures multiset(q)[t] == if t in q then 1 else 0
    decreases |q|
  {
    if q != [] {
      var front, last := q[..|q| - 1], q[|q| - 1];
      assert q == front + [last];
      NoDupCount(front, t);
    }
  }

  lemma {:induction false} CountWhereAsleep(queues: seq<seq<nat>>, t: nat, at: int)
    requires forall q :: 0 <= q < |queues| ==> NoDup(queues[q]) && (t in queues[q] <==> q == at)
    ensures Occurrences(queues, t) == if 0 <= at < |queues| then 1 else 0
    decreases |queues|
  {
    if queues != [] {
      var n := |queues| - 1;
      CountWhereAsleep(queues[..n], t, at);
      NoDupCount(queues[n], t);
    }
  }

  /**
   A sleeping task is in exactly one queue, exactly once, and that is the queue of the address it is
   filed under: the one it was last moved to, or the one it waited on.  While a requeue is moving it,
   it is in none, and in that requeue's list alone.
   */
  lemma SleeperIsInOneQueue(steps: seq<Step>, s: State, t: nat)
    requires Reached(steps, s) && t in s.tasks && s.tasks[t].Asleep?
    ensures s.tasks[t].filed == Destination(s.moved, t, s.tasks[t].addr)
    ensures s.tasks[t].at.InQueue? ==>
              && s.tasks[t].filed in s.table.queueOf && s.table.queueOf[s.tasks[t].filed] < |s.table.queues|
              && t in s.table.queues[s.table.queueOf[s.tasks[t].filed]]
              && Occurrences(s.table.queues, t) == 1
    ensures s.tasks[t].at.InTransit? ==>
              && Occurrences(s.table.queues, t) == 0
              && s.tasks[t].at.mover in s.tasks && s.tasks[s.tasks[t].at.mover].Moving?
              && t in s.tasks[s.tasks[t].at.mover].tasks
    ensures forall c :: c in s.tasks && s.tasks[c].Moving? && t in s.tasks[c].tasks ==> s.tasks[t].at == InTransit(c)
  {
    ReachedKeepsAll(steps, s);
    var at := s.tasks[t].at;
    assert SleepsAt(s.tasks, t, at);
    forall q | 0 <= q < |s.table.queues|
      ensures t in s.table.queues[q] <==> at == InQueue(q)
    {
      assert t in s.table.queues[q] <==> SleepsAt(s.tasks, t, InQueue(q));
    }
    CountWhereAsleep(s.table.queues, t, if at.InQueue? then at.q else -1);
    forall c | c in s.tasks && s.tasks[c].Moving?
      ensures t in s.tasks[c].tasks <==> at == InTransit(c)
    {
      assert t in s.tasks[c].tasks <==> SleepsAt(s.tasks, t, InTransit(c));
    }
  }

  // ---------------------------------------------------------- conservation

  /** The sum over `calls` of what each of them woke or moved. */
  ghost function SumOver(log: seq<Act>, calls: set<nat>): nat
    decreases calls
  {
    if calls == {} then 0
    else
      var c :| c in calls;
      |ActsOf(log, c)| + SumOver(log, calls - {c})
  }

  /** The number of acts in `log` that are the work of `calls`. */
  ghost function Among(log: seq<Act>, calls: set<nat>): nat {
    if log == [] then 0
    else Among(log[..|log| - 1], calls) + if log[|log| - 1].caller in calls then 1 else 0
  }

  lemma {:induction false} AmongSplits(log: seq<Act>, calls: set<nat>, c: nat)
    requires c in calls
    ensures Among(log, calls) == |ActsOf(log, c)| + Among(log, calls - {c})
    decreases |log|
  {
    if log != [] {
      AmongSplits(log[..|log| - 1], calls, c);
    }
  }

  lemma {:induction false} AmongNone(log: seq<Act>)
    ensures Among(log, {}) == 0
    decreases |log|
  {
    if log != [] {
      AmongNone(log[..|log| - 1]);
    }
  }

  lemma {:induction false} SumIsAmong(log: seq<Act>, calls: set<nat>)
    ensures SumOver(log, calls) == Among(log, calls)
    decreases calls
  {
    if calls == {} {
      AmongNone(log);
    } else {
      var c :| c in calls && SumOver(log, calls) == |ActsOf(log, c)| + SumOver(log, calls - {c});
      AmongSplits(log, calls, c);
      SumIsAmong(log, calls - {c});
    }
  }

  /** When only `calls` acted, all acts are among theirs. */
  lemma {:induction false} AllAmong(log: seq<Act>, calls: set<nat>)
    requires forall c :: c !in calls ==> ActsOf(log, c) == []
    ensures Among(log, calls) == |log|
    decreases |log|
  {
    if log != [] {
      var front, c := log[..|log| - 1], log[|log| - 1].caller;
      assert ActsOf(log, c) != [];
      forall d | d !in calls
        ensures ActsOf(front, d) == []
      {
        assert ActsOf(log, d) == [];
      }
      AllAmong(front, calls);
    }
  }

  lemma {:induction false} OnceEachCounts(log: seq<Act>)
    requires OnceEach(log)
    ensures |TasksOf(log)| == |log|
    ensures forall i, j :: 0 <= i < j < |log| ==> log[i].task != log[j].task
    ensures forall i :: 0 <= i < |log| ==> log[i].task in TasksOf(log)
    decreases |log|
  {
    if log != [] {
      OnceEachCounts(log[..|log| - 1]);
    }
  }

  /**
   The sleepers are exactly the tasks that went to sleep less those woken; no task is woken twice or
   without having slept; and the wakes are those of the calls, taken together.
   */
  lemma WaitersAreConserved(steps: seq<Step>, s: State)
    requires Reached(steps, s)
    ensures Sleepers(s.tasks) == s.slept - TasksOf(s.woken) && TasksOf(s.woken) <= s.slept
    ensures forall i, j :: 0 <= i < j < |s.woken| ==> s.woken[i].task != s.woken[j].task
    ensures |Sleepers(s.tasks)| + |s.woken| == |s.slept|
    ensures |s.woken| == SumOver(s.woken, s.tasks.Keys)
  {
    ReachedKeepsAll(steps, s);
    OnceEachCounts(s.woken);
    assert s.slept == Sleepers(s.tasks) + TasksOf(s.woken);
    SumIsAmong(s.woken, s.tasks.Keys);
    forall c | c !in s.tasks.Keys
      ensures ActsOf(s.woken, c) == []
    {
      assert CallOk(s.tasks, s.woken, s.moved, c);
    }
    AllAmong(s.woken, s.tasks.Keys);
  }

  // --------------------------------------------------------------- results

  /**
   A returned call reports the number of its wakes plus the number of its moves in the histories, woke
   no more than asked, and moved anyone only after its full quota.
   */
  lemma ResultIsExact(steps: seq<Step>, s: State, c: nat)
    requires Reached(steps, s) && c in s.tasks && s.tasks[c].Returned?
    ensures var woken, moved := ActsOf(s.woken, c), ActsOf(s.moved, c);
            && s.tasks[c].count == |woken| + |moved| && |woken| <= s.tasks[c].value
            && (moved != [] ==> |woken| == s.tasks[c].value)
  {
    ReachedKeepsAll(steps, s);
    assert CallOk(s.tasks, s.woken, s.moved, c);
  }

  /** The waking loop of call `t` is over, or never began, with `n` tasks woken and more asked for. */
  predicate EndedShort(s: State, t: nat, n: nat) {
    t in s.tasks &&
    match s.tasks[t]
    case Waking(_, value, count, open) => !open && count == n < value
    case Requeuing(_, _, value, _, count, open) => !open && count == n < value
    case Pairing(_, _, value, _) => GuardId(t, 0) !in s.table.guards && n == 0 < value
    case Returned(count, value) => count == n < value
    case _ => false
  }

  /** In this step call `t`, having woken `n` tasks, finds its queue empty, or its address without one. */
  ghost predicate FindsNothing(s: State, step: Step, t: nat, n: nat) {
    match step
    case WakeOne(c) => c == t && QueueIsEmpty(s, t, n)
    case RequeueWake(c) => c == t && QueueIsEmpty(s, t, n)
    case WakeStart(c, addr, _) => c == t && n == 0 && addr !in s.table.queueOf
    case RequeueGet(c, addr, _, _, _) => c == t && n == 0 && addr !in s.table.queueOf
    case _ => false
  }

  ghost predicate QueueIsEmpty(s: State, t: nat, n: nat) {
    && t in s.tasks && (s.tasks[t].Waking? || s.tasks[t].Requeuing?) && s.tasks[t].count == n
    && s.tasks[t].addr in s.table.queueOf && s.table.queueOf[s.tasks[t].addr] < |s.table.queues|
    && s.table.queues[s.table.queueOf[s.tasks[t].addr]] == []
  }

  /** The call that takes the step. */
  function Actor(step: Step): nat {
    if step.DropGuard? then step.g.task else step.t
  }

  /** Going from `s` to `s'` leaves alone what decides whether `t` has ended short. */
  predicate LeavesAlone(s: State, s': State, t: nat) {
    && (t in s'.tasks ==> s'.tasks[t].Asleep? || s'.tasks[t].Woken? || (t in s.tasks && s'.tasks[t] == s.tasks[t]))
    && (GuardId(t, 0) in s.table.guards ==> GuardId(t, 0) in s'.table.guards)
  }

  lemma GoLeavesAlone(s: State, s': State, c: nat, t: nat)
    requires t != c && c in s'.tasks && s'.tasks == s.tasks[c := s'.tasks[c]]
    requires GuardId(t, 0) in s.table.guards ==> GuardId(t, 0) in s'.table.guards
    ensures LeavesAlone(s, s', t)
  {
  }

  lemma RoundLeavesAlone(s: State, s': State, c: nat, addr: nat, t: nat)
    requires t != c && WakesFirst(s, s', c, addr) && s'.table.guards == s.table.guards
    ensures LeavesAlone(s, s', t)
  {
  }

  lemma WaitStepLeavesAlone(s: State, step: Step, t: nat)
    requires Ok(s) && Enabled(s, step) && OfWait(step) && t != step.t
    ensures LeavesAlone(s, ApplyWait(s, step), t)
  {
    if step.WakeOne? {
      RoundLeavesAlone(s, DoWakeOne(s, step.t), step.t, s.tasks[step.t].addr, t);
    } else if step.Sleep? {
      assert DoSleep(s, step.t).tasks == s.tasks[step.t := DoSleep(s, step.t).tasks[step.t]];
    } else {
      GoLeavesAlone(s, ApplyWait(s, step), step.t, t);
    }
  }

  lemma RequeueStepLeavesAlone(s: State, step: Step, t: nat)
    requires Ok(s) && Enabled(s, step) && !OfWait(step) && t != Actor(step)
    ensures LeavesAlone(s, ApplyRequeue(s, step), t)
  {
    if step.RequeueWake? {
      RoundLeavesAlone(s, DoRequeueWake(s, step.t), step.t, s.tasks[step.t].addr, t);
    } else if step.Drain? {
      DrainLeavesAlone(s, step.t, t);
    } else if step.Extend? {
      ExtendLeavesAlone(s, step.t, t);
    } else {
      GoLeavesAlone(s, ApplyRequeue(s, step), Actor(step), t);
    }
  }

  lemma DrainLeavesAlone(s: State, c: nat, t: nat)
    requires Ok(s) && Enabled(s, Drain(c)) && t != c
    ensures LeavesAlone(s, DoDrainAll(s, c), t)
  {
    assert TaskOk(s.table.guards, c, s.tasks[c]);
  }

  lemma ExtendLeavesAlone(s: State, c: nat, t: nat)
    requires Ok(s) && Enabled(s, Extend(c)) && t != c
    ensures LeavesAlone(s, DoExtend(s, c), t)
  {
  }

  lemma WaitStepEndsShort(s: State, step: Step, n: nat)
    requires Ok(s) && Enabled(s, step) && OfWait(step)
    requires !EndedShort(s, step.t, n) && EndedShort(ApplyWait(s, step), step.t, n)
    ensures FindsNothing(s, step, step.t, n)
  {
    assert step.t in s.tasks ==> TaskOk(s.table.guards, step.t, s.tasks[step.t]);
  }

  lemma RequeueStepEndsShort(s: State, step: Step, n: nat)
    requires Ok(s) && Enabled(s, step) && !OfWait(step)
    requires !EndedShort(s, Actor(step), n) && EndedShort(ApplyRequeue(s, step), Actor(step), n)
    ensures FindsNothing(s, step, Actor(step), n)
  {
    var t := Actor(step);
    assert t in s.tasks ==> TaskOk(s.table.guards, t, s.tasks[t]);
  }

  lemma StepEndsShort(s: State, step: Step, t: nat, n: nat)
    requires Ok(s) && Enabled(s, step) && !EndedShort(s, t, n) && EndedShort(Apply(s, step), t, n)
    ensures FindsNothing(s, step, t, n)
  {
    if OfWait(step) {
      if t == step.t {
        WaitStepEndsShort(s, step, n);
      } else {
        WaitStepLeavesAlone(s, step, t);
      }
    } else {
      if t == Actor(step) {
        RequeueStepEndsShort(s, step, n);
      } else {
        RequeueStepLeavesAlone(s, step, t);
      }
    }
  }

  lemma RunsFrom(s: State, steps: seq<Step>, i: nat, mid: State)
    requires Ok(s) && i < |steps| && Enabled(s, steps[0]) && Runs(Apply(s, steps[0]), steps[1..][..i], mid)
    ensures Runs(s, steps[..i + 1], mid)
  {
    DropFirst(steps, i);
  }

  lemma DropFirst(steps: seq<Step>, i: nat)
    requires i < |steps|
    ensures steps[..i + 1][1..] == steps[1..][..i]
  {
  }

  lemma {:induction false} EndsShortSomewhere(s: State, steps: seq<Step>, s': State, t: nat, n: nat)
    returns (k: nat, mid: State)
    requires Ok(s) && Runs(s, steps, s') && !EndedShort(s, t, n) && EndedShort(s', t, n)
    ensures k < |steps| && Runs(s, steps[..k], mid) && Ok(mid) && Enabled(mid, steps[k])
    ensures FindsNothing(mid, steps[k], t, n)
    decreases |steps|
  {
    var s1 := Apply(s, steps[0]);
    if EndedShort(s1, t, n) {
      StepEndsShort(s, steps[0], t, n);
      k, mid := 0, s;
    } else {
      var i: nat;
      i, mid := EndsShortSomewhere(s1, steps[1..], s', t, n);
      k := i + 1;
      RunsFrom(s, steps, i, mid);
    }
  }

  /**
   A call that returned having woken fewer tasks than asked for found its queue empty in a round of the
   run, with as many woken as it reports, or found no queue when it looked its address up.
   */
  lemma ShortCallFoundNothing(steps: seq<Step>, s: State, t: nat) returns (k: nat, mid: State)
    requires Reached(steps, s) && t in s.tasks && s.tasks[t].Returned? && s.tasks[t].count < s.tasks[t].value
    ensures k < |steps| && Reached(steps[..k], mid) && Ok(mid) && Enabled(mid, steps[k])
    ensures FindsNothing(mid, steps[k], t, s.tasks[t].count)
  {
    StartOk();
    k, mid := EndsShortSomewhere(START, steps, s, t, s.tasks[t].count);
  }

  // ----------------------------------------------------------- who is woken

  /** Call `c` looks at a queue whose first task is `t`. */
  ghost predicate LooksAt(s: State, c: nat, t: nat) {
    && c in s.tasks && (s.tasks[c].Waking? || s.tasks[c].Requeuing?)
    && s.tasks[c].addr in s.table.queueOf && s.table.queueOf[s.tasks[c].addr] < |s.table.queues|
    && var queue := s.table.queues[s.table.queueOf[s.tasks[c].addr]];
       queue != [] && queue[0] == t
  }

  /** A step ends the sleep of `t` exactly when it is a wake round of a call that finds `t` first in its queue. */
  lemma StepWakesFirstOnly(s: State, step: Step, t: nat)
    requires Ok(s) && Enabled(s, step) && t in Sleepers(s.tasks)
    ensures t !in Sleepers(Apply(s, step).tasks) <==> (step.WakeOne? || step.RequeueWake?) && LooksAt(s, step.t, t)
  {
  }

  /** A wake round misses a task that a requeue is moving, whatever address it looks at. */
  lemma MovingTaskIsMissed(s: State, step: Step, t: nat)
    requires Ok(s) && Enabled(s, step) && (step.WakeOne? || step.RequeueWake?)
    requires t in s.tasks && s.tasks[t].Asleep? && s.tasks[t].at.InTransit?
    ensures t in Apply(s, step).tasks && Apply(s, step).tasks[t] == s.tasks[t]
  {
    assert TaskOk(s.table.guards, step.t, s.tasks[step.t]);
    var q := s.table.queueOf[s.tasks[step.t].addr];
    assert t !in s.table.queues[q] by {
      assert t in s.table.queues[q] <==> SleepsAt(s.tasks, t, InQueue(q));
    }
    RoundSpares(s, Apply(s, step), step.t, s.tasks[step.t].addr, t);
  }

  lemma RoundSpares(s: State, s': State, c: nat, addr: nat, t: nat)
    requires WakesFirst(s, s', c, addr) && t in s.tasks && t != c && t !in s.table.queues[s.table.queueOf[addr]]
    ensures t in s'.tasks && s'.tasks[t] == s.tasks[t]
  {
  }

  /** `n` steps `WakeOne(c)` in a row lead from `s` to `s'`. */
  ghost predicate WakeRounds(s: State, c: nat, n: nat, s': State)
    requires Ok(s)
    decreases n
  {
    if n == 0 then s == s' else Enabled(s, WakeOne(c)) && WakeRounds(DoWakeOne(s, c), c, n - 1, s')
  }

  lemma RoundFirst(s: State, c: nat, s1: State, n: nat, s': State)
    requires Ok(s) && Enabled(s, WakeOne(c)) && s1 == DoWakeOne(s, c) && WakeRounds(s1, c, n, s')
    ensures WakeRounds(s, c, n + 1, s')
  {
  }

  /**
   A wake on the address that a sleeper is filed under, allowed to wake enough tasks, reaches it:
   the sleeper with place `n` in the queue, counted from one, is woken by the n-th uninterrupted round.
   */
  lemma {:induction false} WakeReachesSleeper(s: State, c: nat, q: nat, n: nat, t: nat) returns (s': State)
    requires Ok(s) && WakesFrom(s, c, q, n, t)
    ensures WakeRounds(s, c, n, s') && IsWoken(s', t)
    decreases n
  {
    var s1 := OneWake(s, c, q, n, t);
    if n == 1 {
      s' := s1;
    } else {
      s' := WakeReachesSleeper(s1, c, q, n - 1, t);
    }
    RoundFirst(s, c, s1, n - 1, s');
  }

  predicate IsWoken(s: State, t: nat) {
    t in s.tasks && s.tasks[t].Woken?
  }

  /** Call `c` is waking tasks of queue `q`, in which `t` is the n-th, and may wake that many. */
  ghost predicate WakesFrom(s: State, c: nat, q: nat, n: nat, t: nat) {
    && c in s.tasks && s.tasks[c].Waking? && s.tasks[c].open
    && s.tasks[c].addr in s.table.queueOf && s.table.queueOf[s.tasks[c].addr] == q < |s.table.queues|
    && 0 < n <= |s.table.queues[q]| && s.table.queues[q][n - 1] == t && s.tasks[c].count + n <= s.tasks[c].value
  }

  lemma OneWake(s: State, c: nat, q: nat, n: nat, t: nat) returns (s1: State)
    requires Ok(s) && WakesFrom(s, c, q, n, t)
    ensures Enabled(s, WakeOne(c)) && s1 == DoWakeOne(s, c) && Ok(s1)
    ensures n > 1 ==> WakesFrom(s1, c, q, n - 1, t)
    ensures n == 1 ==> IsWoken(s1, t)
  {
    s1 := DoWakeOne(s, c);
    assert WakesFirst(s, s1, c, s.tasks[c].addr);
    assert s1.table.queues[q] == s.table.queues[q][1..];
  }
}
