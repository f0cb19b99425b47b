/**
 From futex call to result: what the first steps of a call do with its arguments, that every later step
 and every wake and move it makes follow these arguments, and that no call but a sleeper is ever stuck.
 */
module FutexCalls {
  import opened Common
  import opened FutexSystem
  import opened FutexHistory
  import opened FutexTheorems

  // ---------------------------------------------------------------- first steps

  ghost predicate SameHistory(s: State, s': State) {
    s'.slept == s.slept && s'.woken == s.woken && s'.moved == s.moved
  }

  /** FUTEX_WAIT gets a guard on the queue of its address. */
  lemma WaitStarts(s: State, t: nat, addr: nat)
    requires Ok(s) && Enabled(s, WaitStart(t, addr))
    ensures var s' := Apply(s, WaitStart(t, addr));
            && s'.tasks == s.tasks[t := Entering(addr)] && SameHistory(s, s')
            && GuardId(t, 0) in s'.table.guards && s'.table.guards[GuardId(t, 0)].key == addr
  {
  }

  /** FUTEX_WAKE asks for as many tasks as it was told to, of its address, or finds no queue there. */
  lemma WakeStarts(s: State, t: nat, addr: nat, value: nat)
    requires Ok(s) && Enabled(s, WakeStart(t, addr, value))
    ensures var s' := Apply(s, WakeStart(t, addr, value));
            && SameHistory(s, s') && s'.table.queues == s.table.queues && s'.table.queueOf == s.table.queueOf
            && s'.tasks == s.tasks[t := if addr in s.table.queueOf then Waking(addr, value, 0, true)
                                        else Returned(0, value)]
  {
  }

  /** FUTEX_REQUEUE looks its first address up and then gets or makes a queue for the second. */
  lemma RequeueStarts(s: State, t: nat, addr: nat, addr2: nat, value: nat, limit: nat)
    requires Ok(s) && Enabled(s, RequeueGet(t, addr, addr2, value, limit))
    ensures var s' := Apply(s, RequeueGet(t, addr, addr2, value, limit));
            && SameHistory(s, s') && s'.tasks == s.tasks[t := Pairing(addr, addr2, value, limit)]
            && (GuardId(t, 0) in s'.table.guards <==> addr in s.table.queueOf)
  {
  }

  lemma RequeuePairs(s: State, t: nat)
    requires Ok(s) && Enabled(s, RequeueGet2(t))
    ensures var Pairing(addr, addr2, value, limit) := s.tasks[t];
            var s' := Apply(s, RequeueGet2(t));
            && SameHistory(s, s')
            && s'.tasks == s.tasks[t := if GuardId(t, 0) in s.table.guards
                                        then Requeuing(addr, addr2, value, limit, 0, true) else Returned(0, value)]
            && GuardId(t, 1) in s'.table.guards && s'.table.guards[GuardId(t, 1)].key == addr2
  {
    assert TaskOk(s.table.guards, t, s.tasks[t]);
  }

  /** A call can begin in any state, with any arguments. */
  lemma AnyCallCanStart(s: State, t: nat, addr: nat, addr2: nat, value: nat, limit: nat)
    requires t !in s.tasks
    ensures Enabled(s, WaitStart(t, addr)) && Enabled(s, WakeStart(t, addr, value))
    ensures Enabled(s, RequeueGet(t, addr, addr2, value, limit))
  {
  }

  // ----------------------------------------------------- arguments over a run

  predicate IsStart(step: Step) {
    step.WaitStart? || step.WakeStart? || step.RequeueGet?
  }

  /** `task` is a stage of the call that `start` began. */
  predicate Follows(start: Step, task: Task) {
    match start
    case WaitStart(_, addr) =>
      task == Entering(addr) || (task.Asleep? && task.addr == addr) || task == Woken(addr) || task == Returned(0, 0)
    case WakeStart(_, addr, value) =>
      (task.Waking? && task.addr == addr && task.value == value) || (task.Returned? && task.value == value)
    case RequeueGet(_, addr, addr2, value, limit) =>
      || task == Pairing(addr, addr2, value, limit)
      || (task.Requeuing? && (task.addr, task.addr2, task.value, task.limit) == (addr, addr2, value, limit))
      || (task.Moving? && (task.addr, task.addr2, task.value) == (addr, addr2, value) && |task.tasks| <= limit)
      || (task.Returned? && task.value == value)
    case _ => false
  }

  /** All that `c` did in `log` concerns the queue of `addr`. */
  ghost predicate ActsAt(log: seq<Act>, c: nat, addr: nat) {
    forall i :: 0 <= i < |log| && log[i].caller == c ==> log[i].addr == addr
  }

  /** What call `t` has done follows its arguments. */
  ghost predicate DoneAsAsked(s: State, start: Step, t: nat) {
    match start
    case WaitStart(_, _) =>
      t in s.tasks && (s.tasks[t].Woken? || s.tasks[t].Returned?) ==> t in TasksOf(s.woken)
    case WakeStart(_, addr, _) => ActsAt(s.woken, t, addr) && ActsOf(s.moved, t) == []
    case RequeueGet(_, addr, addr2, _, limit) =>
      ActsAt(s.woken, t, addr) && ActsAt(s.moved, t, addr2) && |ActsOf(s.moved, t)| <= limit
    case _ => false
  }

  ghost predicate OnCourse(s: State, start: Step) {
    && IsStart(start) && start.t in s.tasks && Follows(start, s.tasks[start.t]) && DoneAsAsked(s, start, start.t)
  }

  /** A call that has not acted has done nothing wrong. */
  lemma {:induction false} NoActs(log: seq<Act>, c: nat, addr: nat)
    requires ActsOf(log, c) == []
    ensures ActsAt(log, c, addr)
    decreases |log|
  {
    if log != [] {
      NoActs(log[..|log| - 1], c, addr);
    }
  }

  lemma StartIsOnCourse(s: State, start: Step)
    requires Ok(s) && HistoryOk(s) && Enabled(s, start) && IsStart(start)
    ensures OnCourse(Apply(s, start), start)
  {
    assert CallOk(s.tasks, s.woken, s.moved, start.t);
    match start
    case WaitStart(t, addr) => WaitStarts(s, t, addr);
    case WakeStart(t, addr, value) =>
      WakeStarts(s, t, addr, value);
      NoActs(s.woken, t, addr);
    case RequeueGet(t, addr, addr2, value, limit) =>
      RequeueStarts(s, t, addr, addr2, value, limit);
      NoActs(s.woken, t, addr);
      NoActs(s.moved, t, addr2);
  }

  // ------------------------------------------------------------ one more step

  /** A step of a call that wakes and moves no one, on its way from `task` to `task'`. */
  predicate Proceeds(task: Task, task': Task) {
    match task
    case Woken(_) => task' == Returned(0, 0)
    case Waking(_, value, _, _) => task'.Returned? && task'.value == value
    case Pairing(a, b, value, limit) =>
      task' == Requeuing(a, b, value, limit, 0, true) || (task'.Returned? && task'.value == value)
    case Requeuing(_, _, value, _, _, _) => task'.Returned? && task'.value == value
    case Returned(_, _) => task' == task
    case _ => false
  }

  lemma ProceedKeepsCourse(s: State, s': State, start: Step, t: nat)
    requires OnCourse(s, start) && SameHistory(s, s') && t in s'.tasks && s'.tasks == s.tasks[t := s'.tasks[t]]
    requires t == start.t ==> Proceeds(s.tasks[t], s'.tasks[t])
    ensures OnCourse(s', start)
  {
  }

  lemma WaitStepProceeds(s: State, step: Step)
    requires Ok(s) && Enabled(s, step) && (step.WaitReturn? || step.WakeEnd?)
    ensures var s' := ApplyWait(s, step);
            && SameHistory(s, s') && step.t in s'.tasks && s'.tasks == s.tasks[step.t := s'.tasks[step.t]]
            && Proceeds(s.tasks[step.t], s'.tasks[step.t])
  {
  }

  lemma RequeueStepProceeds(s: State, step: Step)
    requires Ok(s) && Enabled(s, step) && (step.RequeueEnd? || step.DropGuard?)
    ensures var s', t := ApplyRequeue(s, step), Actor(step);
            && SameHistory(s, s') && t in s'.tasks && s'.tasks == s.tasks[t := s'.tasks[t]]
            && Proceeds(s.tasks[t], s'.tasks[t])
  {
  }

  lemma SleepKeepsCourse(s: State, start: Step, t: nat)
    requires Ok(s) && OnCourse(s, start) && Enabled(s, Sleep(t))
    ensures OnCourse(DoSleep(s, t), start)
  {
  }

  lemma OneMoreActAt(log: seq<Act>, a: Act, c: nat, addr: nat)
    requires ActsAt(log, c, addr) && (a.caller == c ==> a.addr == addr)
    ensures ActsAt(log + [a], c, addr)
  {
  }

  lemma RoundKeepsCourse(s: State, s': State, start: Step, c: nat)
    requires OnCourse(s, start) && c in s.tasks && (s.tasks[c].Waking? || s.tasks[c].Requeuing?)
    requires WakesFirst(s, s', c, s.tasks[c].addr)
    requires var queue := s.table.queues[s.table.queueOf[s.tasks[c].addr]];
             s'.tasks[c] == AfterRound(s.tasks[c], queue != [])
    ensures OnCourse(s', start)
  {
    var queue := s.table.queues[s.table.queueOf[s.tasks[c].addr]];
    if queue != [] {
      var a := Act(c, queue[0], s.tasks[c].addr);
      OneMoreAct(s.woken, a);
      if !start.WaitStart? {
        OneMoreActAt(s.woken, a, start.t, start.addr);
      }
    }
  }

  lemma DrainKeepsCourse(s: State, start: Step, c: nat)
    requires Ok(s) && OnCourse(s, start) && Enabled(s, Drain(c))
    ensures OnCourse(DoDrainAll(s, c), start)
  {
    assert TaskOk(s.table.guards, c, s.tasks[c]);
  }

  lemma TagActsAt(log: seq<Act>, caller: nat, list: seq<nat>, dest: nat, c: nat, addr: nat)
    requires ActsAt(log, c, addr) && (caller == c ==> dest == addr)
    ensures ActsAt(log + Tag(caller, list, dest), c, addr)
  {
  }

  lemma ExtendKeepsCourse(s: State, start: Step, c: nat)
    requires Ok(s) && HistoryOk(s) && OnCourse(s, start) && Enabled(s, Extend(c))
    ensures OnCourse(DoExtend(s, c), start)
  {
    var task := s.tasks[c];
    assert CallOk(s.tasks, s.woken, s.moved, c);
    ManyMoreActs(s.moved, c, task.tasks, task.addr2);
    if start.RequeueGet? {
      TagActsAt(s.moved, c, task.tasks, task.addr2, start.t, start.addr2);
    }
    if start.t != c {
      assert ActsOf(DoExtend(s, c).moved, start.t) == ActsOf(s.moved, start.t) + [];
    }
  }

  lemma WaitStepKeepsCourse(s: State, step: Step, start: Step)
    requires Ok(s) && HistoryOk(s) && OnCourse(s, start) && Enabled(s, step) && OfWait(step)
    ensures OnCourse(ApplyWait(s, step), start)
  {
    match step
    case WaitStart(t, addr) =>
      WaitStarts(s, t, addr);
      ProceedKeepsCourse(s, ApplyWait(s, step), start, t);
    case WakeStart(t, addr, value) =>
      WakeStarts(s, t, addr, value);
      ProceedKeepsCourse(s, ApplyWait(s, step), start, t);
    case Sleep(t) => SleepKeepsCourse(s, start, t);
    case WakeOne(t) => RoundKeepsCourse(s, DoWakeOne(s, t), start, t);
    case WaitReturn(t) =>
      WaitStepProceeds(s, step);
      ProceedKeepsCourse(s, ApplyWait(s, step), start, t);
    case WakeEnd(t) =>
      WaitStepProceeds(s, step);
      ProceedKeepsCourse(s, ApplyWait(s, step), start, t);
  }

  lemma RequeueStepKeepsCourse(s: State, step: Step, start: Step)
    requires Ok(s) && HistoryOk(s) && OnCourse(s, start) && Enabled(s, step) && !OfWait(step)
    ensures OnCourse(ApplyRequeue(s, step), start)
  {
    match step
    case RequeueGet(t, addr, addr2, value, limit) =>
      RequeueStarts(s, t, addr, addr2, value, limit);
      ProceedKeepsCourse(s, ApplyRequeue(s, step), start, t);
    case RequeueGet2(t) =>
      RequeuePairs(s, t);
      ProceedKeepsCourse(s, ApplyRequeue(s, step), start, t);
    case RequeueWake(t) => RoundKeepsCourse(s, DoRequeueWake(s, t), start, t);
    case Drain(t) => DrainKeepsCourse(s, start, t);
    case Extend(t) => ExtendKeepsCourse(s, start, t);
    case RequeueEnd(t) =>
      RequeueStepProceeds(s, step);
      ProceedKeepsCourse(s, ApplyRequeue(s, step), start, t);
    case DropGuard(g) =>
      RequeueStepProceeds(s, step);
      ProceedKeepsCourse(s, ApplyRequeue(s, step), start, g.task);
  }

  lemma {:induction false} RunKeepsCourse(s: State, steps: seq<Step>, s': State, start: Step)
    requires Ok(s) && HistoryOk(s) && Runs(s, steps, s') && OnCourse(s, start)
    ensures OnCourse(s', start)
    decreases |steps|
  {
    if steps != [] {
      if OfWait(steps[0]) {
        WaitStepKeepsCourse(s, steps[0], start);
      } else {
        RequeueStepKeepsCourse(s, steps[0], start);
      }
      StepKeepsHistory(s, steps[0]);
      RunKeepsCourse(Apply(s, steps[0]), steps[1..], s', start);
    }
  }

  // ---------------------------------------------------------------- whole runs

  lemma {:induction false} SplitRun(s: State, steps: seq<Step>, s': State, k: nat) returns (mid: State)
    requires Ok(s) && Runs(s, steps, s') && k <= |steps|
    ensures Runs(s, steps[..k], mid) && Ok(mid) && Runs(mid, steps[k..], s')
    ensures HistoryOk(s) ==> HistoryOk(mid)
    decreases k
  {
    if k == 0 {
      mid := s;
      WholeTail(steps);
    } else {
      if HistoryOk(s) {
        StepKeepsHistory(s, steps[0]);
      }
      mid := SplitRun(Apply(s, steps[0]), steps[1..], s', k - 1);
      TailOfTail(steps, k);
      RunsFrom(s, steps, k - 1, mid);
    }
  }

  lemma WholeTail(steps: seq<Step>)
    ensures steps[..0] == [] && steps[0..] == steps
  {
  }

  lemma TailOfTail(steps: seq<Step>, k: nat)
    requires 0 < k <= |steps|
    ensures steps[1..][k - 1..] == steps[k..]
  {
  }

  lemma {:induction false} JoinRuns(s: State, front: seq<Step>, mid: State, back: seq<Step>, s': State)
    requires Ok(s) && Runs(s, front, mid) && Ok(mid) && Runs(mid, back, s')
    ensures Runs(s, front + back, s')
    decreases |front|
  {
    ConcatTail(front, back);
    if front != [] {
      JoinRuns(Apply(s, front[0]), front[1..], mid, back, s');
    }
  }

  lemma ConcatTail(front: seq<Step>, back: seq<Step>)
    ensures front == [] ==> front + back == back
    ensures front != [] ==> (front + back)[0] == front[0] && (front + back)[1..] == front[1..] + back
  {
  }

  /** The run up to the first step of a call, and its state then. */
  lemma RunBefore(steps: seq<Step>, s: State, k: nat) returns (mid: State)
    requires Reached(steps, s) && k < |steps|
    ensures Reached(steps[..k], mid) && Ok(mid) && HistoryOk(mid) && Runs(mid, steps[k..], s)
    ensures Enabled(mid, steps[k]) && Runs(Apply(mid, steps[k]), steps[k..][1..], s)
  {
    StartOk();
    StartHistoryOk();
    mid := SplitRun(START, steps, s, k);
    assert steps[k..][0] == steps[k];
  }

  /** Whatever a call has come to, it follows the arguments of its first step. */
  lemma CallIsOnCourse(steps: seq<Step>, s: State, k: nat)
    requires Reached(steps, s) && k < |steps| && IsStart(steps[k])
    ensures OnCourse(s, steps[k])
  {
    var mid := RunBefore(steps, s, k);
    StartIsOnCourse(mid, steps[k]);
    StepKeepsHistory(mid, steps[k]);
    RunKeepsCourse(Apply(mid, steps[k]), steps[k..][1..], s, steps[k]);
  }

  /** The step in which call `t` finds nothing is one on the address `addr`. */
  ghost predicate FindsNothingAt(s: State, step: Step, t: nat, n: nat, addr: nat) {
    && FindsNothing(s, step, t, n)
    && if step.WakeOne? || step.RequeueWake? then t in s.tasks && Waits(s.tasks[t], addr)
       else (step.WakeStart? || step.RequeueGet?) && step.addr == addr
  }

  predicate Waits(task: Task, addr: nat) {
    (task.Waking? || task.Requeuing?) && task.addr == addr
  }

  /** A step in which a call on its course finds nothing looks at the address that the call was given. */
  lemma NothingOnCourse(s: State, step: Step, start: Step, n: nat)
    requires Enabled(s, step) && OnCourse(s, start) && !start.WaitStart? && FindsNothing(s, step, start.t, n)
    ensures FindsNothingAt(s, step, start.t, n, start.addr)
  {
  }

  lemma FoundNothingLater(steps: seq<Step>, s: State, k: nat, t: nat, n: nat) returns (j: nat, mid: State)
    requires Reached(steps, s) && k < |steps| && IsStart(steps[k]) && steps[k].t == t && EndedShort(s, t, n)
    ensures k <= j < |steps| && Reached(steps[..j], mid) && Enabled(mid, steps[j])
    ensures FindsNothing(mid, steps[j], t, n)
  {
    var before := RunBefore(steps, s, k);
    var i: nat;
    i, mid := EndsShortSomewhere(before, steps[k..], s, t, n);
    j := k + i;
    ReachedLater(steps, k, before, i, j, mid);
  }

  /** A call that ends with fewer wakes than asked for found nothing at the address it was given. */
  lemma ShortCallFoundNothingAt(steps: seq<Step>, s: State, k: nat) returns (j: nat, mid: State)
    requires Reached(steps, s) && k < |steps| && (steps[k].WakeStart? || steps[k].RequeueGet?)
    requires steps[k].t in s.tasks && s.tasks[steps[k].t].Returned?
    requires s.tasks[steps[k].t].count < s.tasks[steps[k].t].value
    ensures k <= j < |steps| && Reached(steps[..j], mid)
    ensures FindsNothingAt(mid, steps[j], steps[k].t, s.tasks[steps[k].t].count, steps[k].addr)
  {
    j, mid := FoundNothingLater(steps, s, k, steps[k].t, s.tasks[steps[k].t].count);
    if k < j {
      CallIsOnCourse(steps[..j], mid, k);
      NothingOnCourse(mid, steps[j], steps[k], s.tasks[steps[k].t].count);
    }
  }

  lemma ReachedLater(steps: seq<Step>, k: nat, before: State, i: nat, j: nat, mid: State)
    requires j == k + i < |steps| && Reached(steps[..k], before) && Ok(before) && Runs(before, steps[k..][..i], mid)
    ensures Reached(steps[..j], mid) && steps[k..][i] == steps[j]
  {
    StartOk();
    JoinRuns(START, steps[..k], before, steps[k..][..i], mid);
    TwoSlices(steps, k, i, j);
  }

  lemma TwoSlices(steps: seq<Step>, k: nat, i: nat, j: nat)
    requires j == k + i < |steps|
    ensures steps[..k] + steps[k..][..i] == steps[..j] && steps[k..][i] == steps[j]
  {
  }

  /**
   FUTEX_WAKE(addr, value): it reports the tasks it woke, all of them waiters of `addr`, and no more than
   `value`; fewer only if it found the queue of `addr` empty, or none there.
   */
  lemma WakeResultIsExact(steps: seq<Step>, s: State, k: nat) returns (j: nat, mid: State)
    requires Reached(steps, s) && k < |steps| && steps[k].WakeStart?
    requires steps[k].t in s.tasks && s.tasks[steps[k].t].Returned?
    ensures var WakeStart(t, addr, value) := steps[k];
            var count := s.tasks[t].count;
            && count == |ActsOf(s.woken, t)| <= value && ActsAt(s.woken, t, addr) && ActsOf(s.moved, t) == []
            && (count < value ==>
                  k <= j < |steps| && Reached(steps[..j], mid) && FindsNothingAt(mid, steps[j], t, count, addr))
  {
    j, mid := 0, s;
    CallIsOnCourse(steps, s, k);
    ResultIsExact(steps, s, steps[k].t);
    if s.tasks[steps[k].t].count < s.tasks[steps[k].t].value {
      j, mid := ShortCallFoundNothingAt(steps, s, k);
    }
  }

  /**
   FUTEX_REQUEUE(addr, addr2, value, limit): it reports the waiters of `addr` it woke, at most `value`, plus
   the tasks it moved, at most `limit`, all of them to `addr2`, and none before the full quota was woken;
   fewer than `value` in all only if it found the queue of `addr` empty, or none there.
   */
  lemma RequeueResultIsExact(steps: seq<Step>, s: State, k: nat) returns (j: nat, mid: State)
    requires Reached(steps, s) && k < |steps| && steps[k].RequeueGet?
    requires steps[k].t in s.tasks && s.tasks[steps[k].t].Returned?
    ensures var RequeueGet(t, addr, addr2, value, limit) := steps[k];
            var count, woken, moved := s.tasks[t].count, ActsOf(s.woken, t), ActsOf(s.moved, t);
            && count == |woken| + |moved| && |woken| <= value && |moved| <= limit
            && (moved != [] ==> |woken| == value)
            && ActsAt(s.woken, t, addr) && ActsAt(s.moved, t, addr2)
            && (count < value ==>
                  k <= j < |steps| && Reached(steps[..j], mid) && FindsNothingAt(mid, steps[j], t, count, addr))
  {
    j, mid := 0, s;
    CallIsOnCourse(steps, s, k);
    ResultIsExact(steps, s, steps[k].t);
    if s.tasks[steps[k].t].count < s.tasks[steps[k].t].value {
      j, mid := ShortCallFoundNothingAt(steps, s, k);
    }
  }

  /** FUTEX_WAIT that has returned reports 0, and only after some call woke it. */
  lemma WaitResultIsExact(steps: seq<Step>, s: State, k: nat)
    requires Reached(steps, s) && k < |steps| && steps[k].WaitStart?
    requires steps[k].t in s.tasks && s.tasks[steps[k].t].Returned?
    ensures s.tasks[steps[k].t].count == 0 && steps[k].t in s.slept && steps[k].t in TasksOf(s.woken)
  {
    CallIsOnCourse(steps, s, k);
    ReachedKeepsAll(steps, s);
  }

  // ------------------------------------------------------------------- progress

  /** The step a call takes next; a sleeper waits for others, and a returned call has none but dropping guards. */
  lemma CallGoesOn(s: State, t: nat) returns (step: Step)
    requires Ok(s) && t in s.tasks && !s.tasks[t].Asleep? && !s.tasks[t].Returned?
    ensures Enabled(s, step) && !step.DropGuard? && step.t == t
    ensures forall other :: Enabled(s, other) && Actor(other) == t ==> other == step
  {
    assert TaskOk(s.table.guards, t, s.tasks[t]);
    match s.tasks[t]
    case Entering(_) => step := Sleep(t);
    case Woken(_) => step := WaitReturn(t);
    case Waking(_, value, count, open) => step := if open && count < value then WakeOne(t) else WakeEnd(t);
    case Pairing(_, _, _, _) => step := RequeueGet2(t);
    case Requeuing(_, _, value, _, count, open) =>
      step := if count == value then Drain(t) else if open then RequeueWake(t) else RequeueEnd(t);
    case Moving(_, _, _, _, _) => step := Extend(t);
  }
}
