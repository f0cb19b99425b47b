/**
 What the histories of sleeps, wakes and moves say about a state of the futex machine: which tasks
 sleep, under which address they are filed, and what each call has counted.
 */
module FutexHistory {
  import opened FutexSystem

  /** The tasks that `c` woke or moved, in order. */
  function ActsOf(log: seq<Act>, c: nat): seq<nat> {
    if log == [] then []
    else ActsOf(log[..|log| - 1], c) + if log[|log| - 1].caller == c then [log[|log| - 1].task] else []
  }

  function TasksOf(log: seq<Act>): set<nat> {
    if log == [] then {} else TasksOf(log[..|log| - 1]) + {log[|log| - 1].task}
  }

  /** No task occurs twice. */
  predicate OnceEach(log: seq<Act>) {
    log == [] || (OnceEach(log[..|log| - 1]) && log[|log| - 1].task !in TasksOf(log[..|log| - 1]))
  }

  /** The address that `t`, which waited on `addr`, was last moved to, or `addr` if it never was. */
  function Destination(moved: seq<Act>, t: nat, addr: nat): nat {
    if moved == [] then addr
    else if moved[|moved| - 1].task == t then moved[|moved| - 1].addr
    else Destination(moved[..|moved| - 1], t, addr)
  }

  // -------------------------------------------------------- growing histories

  lemma OneMoreAct(log: seq<Act>, a: Act)
    ensures TasksOf(log + [a]) == TasksOf(log) + {a.task}
    ensures OnceEach(log) && a.task !in TasksOf(log) ==> OnceEach(log + [a])
    ensures forall c :: ActsOf(log + [a], c) == ActsOf(log, c) + if a.caller == c then [a.task] else []
    ensures forall t, addr ::
              Destination(log + [a], t, addr) == if a.task == t then a.addr else Destination(log, t, addr)
  {
    assert (log + [a])[..|log|] == log;
  }

  lemma {:induction false} ManyMoreActs(log: seq<Act>, caller: nat, list: seq<nat>, to: nat)
    ensures forall x :: x in TasksOf(log + Tag(caller, list, to)) <==> x in TasksOf(log) || x in list
    ensures forall c :: ActsOf(log + Tag(caller, list, to), c) == ActsOf(log, c) + if caller == c then list else []
    ensures forall t, addr ::
              Destination(log + Tag(caller, list, to), t, addr) == if t in list then to else Destination(log, t, addr)
    decreases |list|
  {
    if list == [] {
      assert log + Tag(caller, list, to) == log;
      assert forall c :: ActsOf(log, c) + [] == ActsOf(log, c);
    } else {
      var front, last := list[..|list| - 1], list[|list| - 1];
      assert list == front + [last];
      ManyMoreActs(log, caller, front, to);
      assert log + Tag(caller, list, to) == (log + Tag(caller, front, to)) + [Act(caller, last, to)];
      OneMoreAct(log + Tag(caller, front, to), Act(caller, last, to));
      forall c ensures ActsOf(log + Tag(caller, list, to), c) == ActsOf(log, c) + if caller == c then list else [] {
      }
    }
  }

  // ------------------------------------------------------------- the invariant

  /** The sleepers are the tasks that went to sleep and were not woken; each is woken at most once. */
  ghost predicate SleepOk(tasks: map<nat, Task>, slept: set<nat>, woken: seq<Act>) {
    && OnceEach(woken) && TasksOf(woken) <= slept
    && (forall x :: x in slept ==> x in tasks && (tasks[x].Asleep? || tasks[x].Woken? || tasks[x].Returned?))
    && Sleepers(tasks) == slept - TasksOf(woken)
  }

  /** A call's count is the number of its wakes, and of its moves once it has returned. */
  ghost predicate CallOk(tasks: map<nat, Task>, woken: seq<Act>, moved: seq<Act>, c: nat) {
    var w, m := ActsOf(woken, c), ActsOf(moved, c);
    if c !in tasks then w == [] && m == []
    else
      match tasks[c]
      case Waking(_, _, count, _) => count == |w| && m == []
      case Requeuing(_, _, _, _, count, _) => count == |w| && m == []
      case Moving(_, _, _, count, _) => count == |w| && m == []
      case Returned(count, value) => count == |w| + |m| && |w| <= value && (m != [] ==> |w| == value)
      case _ => w == [] && m == []
  }

  ghost predicate CallsOk(tasks: map<nat, Task>, woken: seq<Act>, moved: seq<Act>) {
    forall c :: CallOk(tasks, woken, moved, c)
  }

  /** Only sleepers are moved, and a sleeper is filed where the last move put it. */
  ghost predicate MovesOk(tasks: map<nat, Task>, slept: set<nat>, moved: seq<Act>) {
    && TasksOf(moved) <= slept
    && (forall x :: x in tasks && tasks[x].Asleep? ==> tasks[x].filed == Destination(moved, x, tasks[x].addr))
  }

  ghost predicate HistoryOk(s: State) {
    && SleepOk(s.tasks, s.slept, s.woken)
    && CallsOk(s.tasks, s.woken, s.moved)
    && MovesOk(s.tasks, s.slept, s.moved)
  }

  lemma StartHistoryOk()
    ensures HistoryOk(START)
  {
  }

  // ---------------------------------------------------------- what steps keep

  lemma OneCallChanges(tasks: map<nat, Task>, woken: seq<Act>, moved: seq<Act>, t: nat, task: Task)
    requires CallsOk(tasks, woken, moved) && CallOk(tasks[t := task], woken, moved, t)
    ensures CallsOk(tasks[t := task], woken, moved)
  {
    var tasks' := tasks[t := task];
    forall c ensures CallOk(tasks', woken, moved, c) {
      assert CallOk(tasks, woken, moved, c);
    }
  }

  /** A call that is not asleep goes on without waking or moving anyone. */
  lemma GoKeepsHistory(s: State, s': State, t: nat)
    requires HistoryOk(s) && t in s'.tasks && s' == s.(table := s'.table, tasks := s.tasks[t := s'.tasks[t]])
    requires !s'.tasks[t].Asleep? && (t in s.tasks ==> !s.tasks[t].Asleep?)
    requires t in s.slept ==> s'.tasks[t].Woken? || s'.tasks[t].Returned?
    requires CallOk(s'.tasks, s.woken, s.moved, t)
    ensures HistoryOk(s')
  {
    OneCallChanges(s.tasks, s.woken, s.moved, t, s'.tasks[t]);
    assert Sleepers(s'.tasks) == Sleepers(s.tasks);
  }

  lemma {:induction false} NeverMoved(moved: seq<Act>, t: nat, addr: nat)
    requires t !in TasksOf(moved)
    ensures Destination(moved, t, addr) == addr
  {
    if moved != [] {
      NeverMoved(moved[..|moved| - 1], t, addr);
    }
  }

  lemma SleepKeepsHistory(s: State, t: nat)
    requires Ok(s) && HistoryOk(s) && Enabled(s, Sleep(t))
    ensures HistoryOk(DoSleep(s, t))
  {
    var s' := DoSleep(s, t);
    assert CallOk(s.tasks, s.woken, s.moved, t);
    OneCallChanges(s.tasks, s.woken, s.moved, t, s'.tasks[t]);
    NeverMoved(s.moved, t, s.tasks[t].addr);
  }

  /** One more wake, of `h` by `t`, and the call that woke it counts it. */
  lemma WokenCalls(tasks: map<nat, Task>, woken: seq<Act>, moved: seq<Act>, t: nat, task: Task, h: nat, addr: nat)
    requires CallsOk(tasks, woken, moved) && h in tasks && tasks[h].Asleep? && t in tasks && t != h
    requires tasks[t].Waking? || tasks[t].Requeuing?
    requires task == AfterRound(tasks[t], true)
    ensures CallsOk(tasks[h := Woken(tasks[h].addr)][t := task], woken + [Act(t, h, addr)], moved)
  {
    OneMoreAct(woken, Act(t, h, addr));
    var tasks', woken' := tasks[h := Woken(tasks[h].addr)][t := task], woken + [Act(t, h, addr)];
    forall c ensures CallOk(tasks', woken', moved, c) {
      assert CallOk(tasks, woken, moved, c);
      assert c != t ==> ActsOf(woken', c) == ActsOf(woken, c) + [];
    }
  }

  lemma WokenSleep(tasks: map<nat, Task>, slept: set<nat>, woken: seq<Act>, t: nat, task: Task, h: nat, addr: nat)
    requires SleepOk(tasks, slept, woken) && h in tasks && tasks[h].Asleep? && t in tasks && t != h
    requires (tasks[t].Waking? || tasks[t].Requeuing?) && (task.Waking? || task.Requeuing?)
    ensures SleepOk(tasks[h := Woken(tasks[h].addr)][t := task], slept, woken + [Act(t, h, addr)])
  {
    var tasks' := tasks[h := Woken(tasks[h].addr)][t := task];
    assert Sleepers(tasks') == Sleepers(tasks) - {h};
    assert h in Sleepers(tasks);
    OneMoreAct(woken, Act(t, h, addr));
  }

  lemma WokenMoves(tasks: map<nat, Task>, slept: set<nat>, moved: seq<Act>, t: nat, task: Task, h: nat)
    requires MovesOk(tasks, slept, moved) && h in tasks && tasks[h].Asleep? && !task.Asleep?
    ensures MovesOk(tasks[h := Woken(tasks[h].addr)][t := task], slept, moved)
  {
  }

  lemma RoundKeepsHistory(s: State, s': State, t: nat)
    requires HistoryOk(s) && t in s.tasks && (s.tasks[t].Waking? || s.tasks[t].Requeuing?)
    requires WakesFirst(s, s', t, s.tasks[t].addr)
    requires var queue := s.table.queues[s.table.queueOf[s.tasks[t].addr]];
             s'.tasks[t] == AfterRound(s.tasks[t], queue != [])
    ensures HistoryOk(s')
  {
    var addr := s.tasks[t].addr;
    var queue := s.table.queues[s.table.queueOf[addr]];
    if queue == [] {
      assert CallOk(s.tasks, s.woken, s.moved, t);
      GoKeepsHistory(s, s', t);
    } else {
      WokenCalls(s.tasks, s.woken, s.moved, t, s'.tasks[t], queue[0], addr);
      WokenSleep(s.tasks, s.slept, s.woken, t, s'.tasks[t], queue[0], addr);
      WokenMoves(s.tasks, s.slept, s.moved, t, s'.tasks[t], queue[0]);
    }
  }

  /** Sleepers that are moved stay asleep, and calls other than `t` keep their counts. */
  ghost predicate Relocated(tasks: map<nat, Task>, tasks': map<nat, Task>, t: nat) {
    && tasks'.Keys == tasks.Keys && t in tasks && !tasks[t].Asleep? && !tasks'[t].Asleep?
    && (forall x :: x in tasks && x != t && tasks'[x] != tasks[x] ==> tasks[x].Asleep? && tasks'[x].Asleep?)
  }

  lemma RelocationKeepsSleep(tasks: map<nat, Task>, tasks': map<nat, Task>, t: nat, slept: set<nat>, woken: seq<Act>)
    requires SleepOk(tasks, slept, woken) && Relocated(tasks, tasks', t)
    requires t in slept ==> tasks'[t].Returned?
    ensures SleepOk(tasks', slept, woken)
  {
    SameAsleep(tasks, tasks');
  }

  lemma RelocationKeepsCalls(tasks: map<nat, Task>, tasks': map<nat, Task>, t: nat, woken: seq<Act>,
                             moved: seq<Act>, moved': seq<Act>)
    requires CallsOk(tasks, woken, moved) && Relocated(tasks, tasks', t) && CallOk(tasks', woken, moved', t)
    requires forall c :: c != t ==> ActsOf(moved', c) == ActsOf(moved, c)
    ensures CallsOk(tasks', woken, moved')
  {
    forall c ensures CallOk(tasks', woken, moved', c) {
      assert CallOk(tasks, woken, moved, c);
    }
  }

  lemma DrainKeepsHistory(s: State, t: nat)
    requires Ok(s) && HistoryOk(s) && Enabled(s, Drain(t))
    ensures HistoryOk(DoDrainAll(s, t))
  {
    var s' := DoDrainAll(s, t);
    assert TaskOk(s.table.guards, t, s.tasks[t]);
    assert Relocated(s.tasks, s'.tasks, t);
    RelocationKeepsSleep(s.tasks, s'.tasks, t, s.slept, s.woken);
    assert CallOk(s.tasks, s.woken, s.moved, t);
    RelocationKeepsCalls(s.tasks, s'.tasks, t, s.woken, s.moved, s.moved);
  }

  /** Tasks put into another queue are filed under its address, and the history says so. */
  lemma MovesAfterExtend(f: Table, tasks: map<nat, Task>, tasks': map<nat, Task>, t: nat, q: nat,
                         slept: set<nat>, moved: seq<Act>)
    requires MovesOk(tasks, slept, moved) && Extended(f, tasks, tasks', t, q)
    requires forall x :: x in tasks[t].tasks ==> x in slept
    ensures MovesOk(tasks', slept, moved + Tag(t, tasks[t].tasks, tasks[t].addr2))
  {
    ManyMoreActs(moved, t, tasks[t].tasks, tasks[t].addr2);
  }

  /** The call that moved them counts them on top of those it woke. */
  lemma CallsAfterExtend(tasks: map<nat, Task>, tasks': map<nat, Task>, t: nat, woken: seq<Act>, moved: seq<Act>)
    requires CallsOk(tasks, woken, moved) && Relocated(tasks, tasks', t)
    requires tasks[t].Moving? && tasks[t].count == tasks[t].value
    requires tasks'[t] == Returned(tasks[t].count + |tasks[t].tasks|, tasks[t].value)
    ensures CallsOk(tasks', woken, moved + Tag(t, tasks[t].tasks, tasks[t].addr2))
  {
    var moved' := moved + Tag(t, tasks[t].tasks, tasks[t].addr2);
    ManyMoreActs(moved, t, tasks[t].tasks, tasks[t].addr2);
    assert CallOk(tasks, woken, moved, t);
    assert forall c :: c != t ==> ActsOf(moved', c) == ActsOf(moved, c) + [];
    RelocationKeepsCalls(tasks, tasks', t, woken, moved, moved');
  }

  lemma ExtendRelocates(f: Table, tasks: map<nat, Task>, tasks': map<nat, Task>, t: nat, q: nat)
    requires Extended(f, tasks, tasks', t, q)
    ensures Relocated(tasks, tasks', t)
    ensures forall x :: x in tasks[t].tasks ==> x in Sleepers(tasks)
  {
  }

  lemma ExtendKeepsHistory(s: State, t: nat)
    requires Ok(s) && HistoryOk(s) && Enabled(s, Extend(t))
    ensures HistoryOk(DoExtend(s, t))
  {
    var s', q := DoExtend(s, t), s.table.queueOf[s.tasks[t].addr2];
    assert TaskOk(s.table.guards, t, s.tasks[t]);
    ExtendRelocates(s.table, s.tasks, s'.tasks, t, q);
    RelocationKeepsSleep(s.tasks, s'.tasks, t, s.slept, s.woken);
    CallsAfterExtend(s.tasks, s'.tasks, t, s.woken, s.moved);
    MovesAfterExtend(s.table, s.tasks, s'.tasks, t, q, s.slept, s.moved);
  }

  lemma WaitStepKeepsHistory(s: State, step: Step)
    requires Ok(s) && HistoryOk(s) && Enabled(s, step) && OfWait(step)
    ensures HistoryOk(ApplyWait(s, step))
  {
    assert CallOk(s.tasks, s.woken, s.moved, step.t);
    assert step.t in s.tasks ==> TaskOk(s.table.guards, step.t, s.tasks[step.t]);
    if step.Sleep? {
      SleepKeepsHistory(s, step.t);
    } else if step.WakeOne? {
      RoundKeepsHistory(s, DoWakeOne(s, step.t), step.t);
    } else {
      GoKeepsHistory(s, ApplyWait(s, step), step.t);
    }
  }

  lemma RequeueStepKeepsHistory(s: State, step: Step)
    requires Ok(s) && HistoryOk(s) && Enabled(s, step) && !OfWait(step)
    ensures HistoryOk(ApplyRequeue(s, step))
  {
    var t := if step.DropGuard? then step.g.task else step.t;
    assert CallOk(s.tasks, s.woken, s.moved, t);
    assert t in s.tasks ==> TaskOk(s.table.guards, t, s.tasks[t]);
    if step.RequeueWake? {
      RoundKeepsHistory(s, DoRequeueWake(s, t), t);
    } else if step.Drain? {
      DrainKeepsHistory(s, t);
    } else if step.Extend? {
      ExtendKeepsHistory(s, t);
    } else {
      GoKeepsHistory(s, ApplyRequeue(s, step), t);
    }
  }

  lemma StepKeepsHistory(s: State, step: Step)
    requires Ok(s) && HistoryOk(s) && Enabled(s, step)
    ensures HistoryOk(Apply(s, step))
  {
    if OfWait(step) {
      WaitStepKeepsHistory(s, step);
    } else {
      RequeueStepKeepsHistory(s, step);
    }
  }
}
