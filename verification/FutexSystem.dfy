/**
 All interleavings of untimed futex waits, wakes and requeues in one process.  A step is one locked
 section: of the table, or of one wait queue.  A requeue is two such sections, so tasks being moved
 are for a moment in neither queue.  A task is named by the futex call it is in.
 */
module FutexSystem {
  import opened Common

  /** A `WaitQueueGuard`, held by a task as its first or second. */
  datatype GuardId = GuardId(task: nat, index: nat)
  datatype Guard = Guard(key: nat, queue: nat)

  /** The table, the queues behind it, their Arc strong counts, and the guards alive. */
  datatype Table = Table(
    queueOf: map<nat, nat>,
    queues: seq<seq<nat>>,
    strong: seq<nat>,
    guards: map<GuardId, Guard>)

  // ------------------------------------------------------------- the table

  ghost function GuardsOf(guards: map<GuardId, Guard>, q: nat): set<GuardId> {
    set g | g in guards && guards[g].queue == q
  }

  /**
   Distinct addresses have distinct queues; a guard's queue is the one the table maps its address
   to; a queue's strong count is one for the table and one for each guard.
   */
  ghost predicate TableOk(f: Table) {
    && |f.strong| == |f.queues|
    && (forall a :: a in f.queueOf ==> f.queueOf[a] < |f.queues|)
    && (forall a, b :: a in f.queueOf && b in f.queueOf && f.queueOf[a] == f.queueOf[b] ==> a == b)
    && (forall g :: g in f.guards ==> f.guards[g].key in f.queueOf && f.queueOf[f.guards[g].key] == f.guards[g].queue)
    && (forall q :: 0 <= q < |f.strong| ==> f.strong[q] == 1 + |GuardsOf(f.guards, q)|)
  }

  /** `get_or_insert` without the guard. */
  function Insert(f: Table, a: nat): (f': Table)
    requires TableOk(f)
    ensures TableOk(f') && a in f'.queueOf && f'.guards == f.guards
    ensures forall b :: b in f.queueOf ==> b in f'.queueOf && f'.queueOf[b] == f.queueOf[b]
    ensures |f.queues| <= |f'.queues| && f'.queues[..|f.queues|] == f.queues
    ensures forall q :: |f.queues| <= q < |f'.queues| ==> f'.queues[q] == []
  {
    if a in f.queueOf then f
    else
      NewQueueOk(f, a);
      f.(queueOf := f.queueOf[a := |f.queues|], queues := f.queues + [[]], strong := f.strong + [1])
  }

  lemma NewQueueOk(f: Table, a: nat)
    requires TableOk(f) && a !in f.queueOf
    ensures TableOk(f.(queueOf := f.queueOf[a := |f.queues|], queues := f.queues + [[]], strong := f.strong + [1]))
  {
    var f' := f.(queueOf := f.queueOf[a := |f.queues|], queues := f.queues + [[]], strong := f.strong + [1]);
    assert GuardsOf(f.guards, |f.queues|) == {} by {
      assert forall g :: g in f.guards ==> f.guards[g].queue < |f.queues|;
    }
    forall q | 0 <= q < |f'.strong|
      ensures f'.strong[q] == 1 + |GuardsOf(f'.guards, q)|
    {
      assert q < |f.strong| ==> f'.strong[q] == f.strong[q];
    }
  }

  lemma GuardAdded(guards: map<GuardId, Guard>, g: GuardId, guard: Guard)
    requires g !in guards
    ensures GuardsOf(guards[g := guard], guard.queue) == GuardsOf(guards, guard.queue) + {g}
    ensures |GuardsOf(guards[g := guard], guard.queue)| == |GuardsOf(guards, guard.queue)| + 1
    ensures forall p :: p != guard.queue ==> GuardsOf(guards[g := guard], p) == GuardsOf(guards, p)
  {
    assert GuardsOf(guards[g := guard], guard.queue) == GuardsOf(guards, guard.queue) + {g};
  }

  lemma GuardRemoved(guards: map<GuardId, Guard>, g: GuardId)
    requires g in guards
    ensures |GuardsOf(guards, guards[g].queue)| > 0
    ensures |GuardsOf(guards - {g}, guards[g].queue)| == |GuardsOf(guards, guards[g].queue)| - 1
    ensures forall p :: p != guards[g].queue ==> GuardsOf(guards - {g}, p) == GuardsOf(guards, p)
  {
    assert g in GuardsOf(guards, guards[g].queue);
    assert GuardsOf(guards - {g}, guards[g].queue) == GuardsOf(guards, guards[g].queue) - {g};
  }

  lemma OneQueueChanges(f: Table, q: nat, queue: seq<nat>)
    requires TableOk(f) && q < |f.queues|
    ensures TableOk(f.(queues := f.queues[q := queue]))
  {
  }

  /** A guard on the queue of address `a`, which has one. */
  function Hold(f: Table, g: GuardId, a: nat): (f': Table)
    requires TableOk(f) && a in f.queueOf && g !in f.guards
    ensures TableOk(f')
    ensures f'.queueOf == f.queueOf && f'.queues == f.queues && f'.guards == f.guards[g := Guard(a, f.queueOf[a])]
  {
    var q := f.queueOf[a];
    GuardAdded(f.guards, g, Guard(a, q));
    f.(guards := f.guards[g := Guard(a, q)], strong := f.strong[q := f.strong[q] + 1])
  }

  /**
   Dropping a guard: the entry is removed from the table if this is the last Arc and the queue is
   empty.  The table's own Arc keeps that from ever happening, so the table is left as it is.
   */
  function Release(f: Table, g: GuardId): (f': Table)
    requires TableOk(f) && g in f.guards
    ensures TableOk(f')
    ensures f'.queueOf == f.queueOf && f'.queues == f.queues && f'.guards == f.guards - {g}
  {
    var Guard(key, q) := f.guards[g];
    GuardRemoved(f.guards, g);
    var empty := f.queues[q] == [];
    var queueOf' := if f.strong[q] == 1 && empty then f.queueOf - {key} else f.queueOf;
    f.(queueOf := queueOf', guards := f.guards - {g}, strong := f.strong[q := f.strong[q] - 1])
  }

  // ------------------------------------------------------------- the tasks

  /** Where a sleeping task is: in a queue, or being moved by a requeue that another task runs. */
  datatype Where = InQueue(q: nat) | InTransit(mover: nat)

  datatype Task =
    | Entering(addr: nat)                                  // FUTEX_WAIT with its guard, not yet asleep
    | Asleep(addr: nat, filed: nat, at: Where)             // waited on `addr`, now filed under `filed`
    | Woken(addr: nat)
    | Waking(addr: nat, value: nat, count: nat, open: bool)
    | Pairing(addr: nat, addr2: nat, value: nat, limit: nat)
    | Requeuing(addr: nat, addr2: nat, value: nat, limit: nat, count: nat, open: bool)
    | Moving(addr: nat, addr2: nat, value: nat, count: nat, tasks: seq<nat>)
    | Returned(count: nat, value: nat)

  /** Call `caller` woke `task`, a waiter of `addr`, or moved it to the queue of `addr`. */
  datatype Act = Act(caller: nat, task: nat, addr: nat)

  /** Besides the table and the tasks: which tasks went to sleep, and every wake and every move so far. */
  datatype State = State(table: Table, tasks: map<nat, Task>, slept: set<nat>, woken: seq<Act>, moved: seq<Act>)

  const START: State := State(Table(map[], [], [], map[]), map[], {}, [], [])

  predicate NoDup(s: seq<nat>) {
    forall i, j :: 0 <= i < j < |s| ==> s[i] != s[j]
  }

  predicate SleepsAt(tasks: map<nat, Task>, t: nat, at: Where) {
    t in tasks && tasks[t].Asleep? && tasks[t].at == at
  }

  /** Each queue holds exactly the tasks that sleep in it, each once. */
  ghost predicate QueuesOk(queues: seq<seq<nat>>, tasks: map<nat, Task>) {
    && (forall q :: 0 <= q < |queues| ==> NoDup(queues[q]))
    && (forall q, t :: 0 <= q < |queues| ==> (t in queues[q] <==> SleepsAt(tasks, t, InQueue(q))))
  }

  /** A requeue between its two sections holds exactly the tasks it is moving. */
  ghost predicate TransitOk(tasks: map<nat, Task>) {
    && (forall c :: c in tasks && tasks[c].Moving? ==> NoDup(tasks[c].tasks))
    && (forall c, t :: c in tasks && tasks[c].Moving? ==> (t in tasks[c].tasks <==> SleepsAt(tasks, t, InTransit(c))))
  }

  /** A sleeping task is filed under the address whose queue it is in. */
  ghost predicate FiledOk(queueOf: map<nat, nat>, tasks: map<nat, Task>) {
    && (forall t, q :: SleepsAt(tasks, t, InQueue(q)) ==> tasks[t].filed in queueOf && queueOf[tasks[t].filed] == q)
    && (forall t, c :: SleepsAt(tasks, t, InTransit(c)) ==> c in tasks && tasks[c].Moving?)
  }

  /** The guards that a task holds, and the bound on what it has woken. */
  ghost predicate TaskOk(guards: map<GuardId, Guard>, t: nat, task: Task) {
    var first, second := GuardId(t, 0), GuardId(t, 1);
    match task
    case Entering(a) => first in guards && guards[first].key == a
    case Asleep(a, _, _) => first in guards && guards[first].key == a
    case Woken(a) => first in guards && guards[first].key == a
    case Waking(a, value, count, _) => first in guards && guards[first].key == a && count <= value
    case Pairing(a, _, _, _) => second !in guards && (first in guards ==> guards[first].key == a)
    case Requeuing(a, b, value, _, count, _) =>
      && second in guards && guards[second].key == b && count <= value
      && first in guards && guards[first].key == a
    case Moving(a, b, value, count, _) =>
      && first in guards && guards[first].key == a && second in guards && guards[second].key == b
      && count == value
    case Returned(_, _) => true
  }

  ghost predicate TasksOk(f: Table, tasks: map<nat, Task>) {
    && (forall g :: g in f.guards ==> g.task in tasks)
    && (forall t :: t in tasks ==> TaskOk(f.guards, t, tasks[t]))
  }

  ghost function Sleepers(tasks: map<nat, Task>): set<nat> {
    set t | t in tasks && tasks[t].Asleep?
  }

  ghost predicate Ok(s: State) {
    && TableOk(s.table)
    && QueuesOk(s.table.queues, s.tasks)
    && TransitOk(s.tasks)
    && FiledOk(s.table.queueOf, s.tasks)
    && TasksOk(s.table, s.tasks)
  }

  lemma StartOk()
    ensures Ok(START)
  {
  }

  // ------------------------------------------------------------- the steps

  predicate Still(task: Task) {
    !task.Asleep? && !task.Moving?
  }

  /** `f'` differs from `f` only by new empty queues and by the guards of `t`. */
  ghost predicate TableGrows(f: Table, f': Table, t: nat) {
    && (forall a :: a in f.queueOf ==> a in f'.queueOf && f'.queueOf[a] == f.queueOf[a])
    && |f.queues| <= |f'.queues| && f'.queues[..|f.queues|] == f.queues
    && (forall q :: |f.queues| <= q < |f'.queues| ==> f'.queues[q] == [])
    && (forall g: GuardId :: g.task != t ==> (g in f.guards <==> g in f'.guards))
    && (forall g: GuardId :: g.task != t && g in f.guards ==> f'.guards[g] == f.guards[g])
  }

  /** A task that is neither asleep nor moving others goes on, with the table at `f'`. */
  function Go(s: State, f': Table, t: nat, task: Task): (s': State)
    requires Ok(s) && TableOk(f') && TableGrows(s.table, f', t)
    requires Still(task) && (t in s.tasks ==> Still(s.tasks[t])) && TaskOk(f'.guards, t, task)
    ensures Ok(s')
    ensures s' == s.(table := f', tasks := s.tasks[t := task])
    ensures Sleepers(s'.tasks) == Sleepers(s.tasks)
  {
    var s' := s.(table := f', tasks := s.tasks[t := task]);
    GoKeepsSleepers(s, s', t, task);
    s'
  }

  /** The same tasks are asleep, in the same places, and the same ones are moving others. */
  ghost predicate SameSleep(tasks: map<nat, Task>, tasks': map<nat, Task>) {
    && (forall x :: x in tasks && !Still(tasks[x]) ==> x in tasks' && tasks'[x] == tasks[x])
    && (forall x :: x in tasks' && !Still(tasks'[x]) ==> x in tasks && tasks'[x] == tasks[x])
  }

  lemma SameSleepKeepsTransit(queueOf: map<nat, nat>, queueOf': map<nat, nat>,
                              tasks: map<nat, Task>, tasks': map<nat, Task>)
    requires SameSleep(tasks, tasks') && TransitOk(tasks) && FiledOk(queueOf, tasks)
    requires forall a :: a in queueOf ==> a in queueOf' && queueOf'[a] == queueOf[a]
    ensures TransitOk(tasks') && FiledOk(queueOf', tasks') && Sleepers(tasks') == Sleepers(tasks)
  {
    forall t, at ensures SleepsAt(tasks', t, at) <==> SleepsAt(tasks, t, at) {
    }
  }

  lemma SameSleepKeepsQueues(queues: seq<seq<nat>>, queues': seq<seq<nat>>, queueOf: map<nat, nat>,
                             tasks: map<nat, Task>, tasks': map<nat, Task>)
    requires SameSleep(tasks, tasks') && QueuesOk(queues, tasks) && FiledOk(queueOf, tasks)
    requires forall a :: a in queueOf ==> queueOf[a] < |queues|
    requires |queues| <= |queues'| && queues'[..|queues|] == queues
    requires forall q :: |queues| <= q < |queues'| ==> queues'[q] == []
    ensures QueuesOk(queues', tasks')
  {
    forall q | 0 <= q < |queues'|
      ensures NoDup(queues'[q])
      ensures forall t :: t in queues'[q] <==> SleepsAt(tasks', t, InQueue(q))
    {
      if q < |queues| {
        assert queues'[q] == queues'[..|queues|][q];
      }
    }
  }

  lemma GoKeepsSleepers(s: State, s': State, t: nat, task: Task)
    requires Ok(s) && TableOk(s'.table) && TableGrows(s.table, s'.table, t)
    requires Still(task) && (t in s.tasks ==> Still(s.tasks[t])) && TaskOk(s'.table.guards, t, task)
    requires s' == s.(table := s'.table, tasks := s.tasks[t := task])
    ensures Ok(s') && Sleepers(s'.tasks) == Sleepers(s.tasks)
  {
    SameSleepKeepsTransit(s.table.queueOf, s'.table.queueOf, s.tasks, s'.tasks);
    SameSleepKeepsQueues(s.table.queues, s'.table.queues, s.table.queueOf, s.tasks, s'.tasks);
    forall x | x in s'.tasks
      ensures TaskOk(s'.table.guards, x, s'.tasks[x])
    {
      if x != t {
        assert TaskOk(s.table.guards, x, s.tasks[x]);
      }
    }
  }

  /** `wait`: a waiter goes to the end of the queue it has a guard on. */
  function DoSleep(s: State, t: nat): (s': State)
    requires Ok(s) && t in s.tasks && s.tasks[t].Entering?
    ensures Ok(s') && Sleepers(s'.tasks) == Sleepers(s.tasks) + {t} && s'.table.queueOf == s.table.queueOf
    ensures s.tasks[t].addr in s.table.queueOf && s.table.queueOf[s.tasks[t].addr] < |s.table.queues|
    ensures var q := s.table.queueOf[s.tasks[t].addr];
            s'.table.queues == s.table.queues[q := s.table.queues[q] + [t]]
  {
    var a := s.tasks[t].addr;
    assert TaskOk(s.table.guards, t, s.tasks[t]);
    var q := s.table.queueOf[a];
    var f := s.table;
    var s' := s.(table := f.(queues := f.queues[q := f.queues[q] + [t]]),
                 tasks := s.tasks[t := Asleep(a, a, InQueue(q))],
                 slept := s.slept + {t});
    SleepKeepsPlaces(s, s', t, q);
    s'
  }

  lemma SleepKeepsPlaces(s: State, s': State, t: nat, q: nat)
    requires Ok(s) && t in s.tasks && s.tasks[t].Entering? && q < |s.table.queues|
    requires s.tasks[t].addr in s.table.queueOf && s.table.queueOf[s.tasks[t].addr] == q
    requires s'.tasks == s.tasks[t := Asleep(s.tasks[t].addr, s.tasks[t].addr, InQueue(q))]
    requires s'.table == s.table.(queues := s.table.queues[q := s.table.queues[q] + [t]])
    ensures Ok(s') && Sleepers(s'.tasks) == Sleepers(s.tasks) + {t}
  {
    JoinQueue(s.table.queues, s.tasks, t, q, s'.tasks[t]);
    OneTaskKeepsTransit(s.table.queueOf, s.tasks, t, s'.tasks[t]);
    OneTaskKeepsOthers(s.table, s'.table, s.tasks, t, s'.tasks[t]);
    assert Sleepers(s'.tasks) == Sleepers(s.tasks) + {t};
  }

  lemma JoinQueue(queues: seq<seq<nat>>, tasks: map<nat, Task>, t: nat, q: nat, task: Task)
    requires QueuesOk(queues, tasks) && q < |queues| && t in tasks && !tasks[t].Asleep?
    requires task.Asleep? && task.at == InQueue(q)
    ensures QueuesOk(queues[q := queues[q] + [t]], tasks[t := task])
  {
    assert !SleepsAt(tasks, t, InQueue(q));
    var queues', tasks' := queues[q := queues[q] + [t]], tasks[t := task];
    forall p, x | 0 <= p < |queues'|
      ensures x in queues'[p] <==> SleepsAt(tasks', x, InQueue(p))
    {
      assert x in queues[p] <==> SleepsAt(tasks, x, InQueue(p));
    }
  }

  lemma LeaveQueue(queues: seq<seq<nat>>, tasks: map<nat, Task>, q: nat, task: Task)
    requires QueuesOk(queues, tasks) && q < |queues| && queues[q] != [] && !task.Asleep?
    ensures var h := queues[q][0];
            SleepsAt(tasks, h, InQueue(q)) && QueuesOk(queues[q := queues[q][1..]], tasks[h := task])
  {
    var h, rest := queues[q][0], queues[q][1..];
    assert h in queues[q] && SleepsAt(tasks, h, InQueue(q));
    assert queues[q] == [h] + rest && h !in rest;
    var queues', tasks' := queues[q := rest], tasks[h := task];
    forall p, x | 0 <= p < |queues'|
      ensures x in queues'[p] <==> SleepsAt(tasks', x, InQueue(p))
    {
      assert x in queues[p] <==> SleepsAt(tasks, x, InQueue(p));
    }
  }

  /** A change of one task that neither moves others nor is being moved. */
  lemma OneTaskKeepsTransit(queueOf: map<nat, nat>, tasks: map<nat, Task>, t: nat, task: Task)
    requires TransitOk(tasks) && FiledOk(queueOf, tasks) && t in tasks
    requires !tasks[t].Moving? && (tasks[t].Asleep? ==> tasks[t].at.InQueue?)
    requires !task.Moving?
    requires task.Asleep? ==> task.at.InQueue? && task.filed in queueOf && queueOf[task.filed] == task.at.q
    ensures TransitOk(tasks[t := task]) && FiledOk(queueOf, tasks[t := task])
  {
    var tasks' := tasks[t := task];
    forall c, x | c in tasks' && tasks'[c].Moving?
      ensures x in tasks'[c].tasks <==> SleepsAt(tasks', x, InTransit(c))
    {
      assert x in tasks[c].tasks <==> SleepsAt(tasks, x, InTransit(c));
    }
    forall x, at | x != t ensures SleepsAt(tasks', x, at) <==> SleepsAt(tasks, x, at) {
    }
  }

  lemma OneTaskKeepsOthers(f: Table, f': Table, tasks: map<nat, Task>, t: nat, task: Task)
    requires TasksOk(f, tasks) && f'.guards == f.guards && t in tasks
    requires TaskOk(f.guards, t, tasks[t]) ==> TaskOk(f.guards, t, task)
    ensures TasksOk(f', tasks[t := task])
  {
  }

  /** `notify_one` on a queue that is not empty: its first task is woken. */
  function Pop(s: State, q: nat, caller: nat, addr: nat): (s': State)
    requires Ok(s) && q < |s.table.queues| && s.table.queues[q] != []
    ensures Ok(s') && Sleepers(s'.tasks) == Sleepers(s.tasks) - {s.table.queues[q][0]}
    ensures s'.tasks.Keys == s.tasks.Keys
    ensures s.table.queues[q][0] in Sleepers(s.tasks) && s'.tasks[s.table.queues[q][0]].Woken?
    ensures s'.table.queues == s.table.queues[q := s.table.queues[q][1..]]
    ensures s'.woken == s.woken + [Act(caller, s.table.queues[q][0], addr)]
    ensures s'.slept == s.slept && s'.moved == s.moved && s'.table.guards == s.table.guards
    ensures s'.table.queueOf == s.table.queueOf && |s'.table.queues| == |s.table.queues|
    ensures forall x :: x in s.tasks && x != s.table.queues[q][0] ==> s'.tasks[x] == s.tasks[x]
  {
    var f, h := s.table, s.table.queues[q][0];
    assert h in s.table.queues[q];
    var s' := s.(table := f.(queues := f.queues[q := f.queues[q][1..]]),
                 tasks := s.tasks[h := Woken(s.tasks[h].addr)],
                 woken := s.woken + [Act(caller, h, addr)]);
    PopKeepsPlaces(s, s', q, h);
    s'
  }

  lemma PopKeepsPlaces(s: State, s': State, q: nat, h: nat)
    requires Ok(s) && q < |s.table.queues| && s.table.queues[q] != [] && h == s.table.queues[q][0]
    requires h in s.tasks && s.tasks[h].Asleep?
    requires s'.tasks == s.tasks[h := Woken(s.tasks[h].addr)]
    requires s'.table == s.table.(queues := s.table.queues[q := s.table.queues[q][1..]])
    ensures Ok(s') && Sleepers(s'.tasks) == Sleepers(s.tasks) - {h}
  {
    OneQueueChanges(s.table, q, s.table.queues[q][1..]);
    LeaveQueue(s.table.queues, s.tasks, q, s'.tasks[h]);
    OneTaskKeepsTransit(s.table.queueOf, s.tasks, h, s'.tasks[h]);
    OneTaskKeepsOthers(s.table, s'.table, s.tasks, h, s'.tasks[h]);
    assert Sleepers(s'.tasks) == Sleepers(s.tasks) - {h};
  }

  /** The tasks of `list` on their way, moved by `t`. */
  function Lifted(tasks: map<nat, Task>, list: seq<nat>, t: nat): map<nat, Task>
    requires forall x :: x in list ==> x in tasks && tasks[x].Asleep?
  {
    map x | x in tasks :: if x in list then Asleep(tasks[x].addr, tasks[x].filed, InTransit(t)) else tasks[x]
  }

  /** The tasks of `list` in queue `q`, which is that of address `b`. */
  function Landed(tasks: map<nat, Task>, list: seq<nat>, b: nat, q: nat): map<nat, Task>
    requires forall x :: x in list ==> x in tasks && tasks[x].Asleep?
  {
    map x | x in tasks :: if x in list then Asleep(tasks[x].addr, b, InQueue(q)) else tasks[x]
  }

  /** The first section of `requeue`: the first `n` tasks of the queue leave it. */
  function DoDrain(s: State, t: nat, n: nat): (s': State)
    requires Ok(s) && t in s.tasks && s.tasks[t].Requeuing? && s.tasks[t].count == s.tasks[t].value
    requires s.tasks[t].addr in s.table.queueOf && n <= |s.table.queues[s.table.queueOf[s.tasks[t].addr]]|
    ensures Ok(s') && Sleepers(s'.tasks) == Sleepers(s.tasks) && s'.table.queueOf == s.table.queueOf
    ensures var q, task := s.table.queueOf[s.tasks[t].addr], s.tasks[t];
            && t in s'.tasks
            && s'.tasks[t] == Moving(task.addr, task.addr2, task.value, task.count, s.table.queues[q][..n])
            && s'.table.queues == s.table.queues[q := s.table.queues[q][n..]]
            && Drained(s.table.queues, s.tasks, s'.tasks, t, q, n)
    ensures s'.slept == s.slept && s'.woken == s.woken && s'.moved == s.moved
  {
    var task, f := s.tasks[t], s.table;
    var q := f.queueOf[task.addr];
    var list := f.queues[q][..n];
    FrontSleeps(f.queues, s.tasks, q, n);
    var s' := s.(table := f.(queues := f.queues[q := f.queues[q][n..]]),
                 tasks := Lifted(s.tasks, list, t)[t := Moving(task.addr, task.addr2, task.value, task.count, list)]);
    assert TaskOk(f.guards, t, task);
    DrainKeepsPlaces(s, s', t, q, n);
    s'
  }

  lemma FrontSleeps(queues: seq<seq<nat>>, tasks: map<nat, Task>, q: nat, n: nat)
    requires QueuesOk(queues, tasks) && q < |queues| && n <= |queues[q]|
    ensures NoDup(queues[q][..n]) && NoDup(queues[q][n..])
    ensures forall x :: x in queues[q][..n] ==> SleepsAt(tasks, x, InQueue(q))
    ensures forall x :: x in queues[q] <==> x in queues[q][..n] || x in queues[q][n..]
    ensures forall x :: x in queues[q][..n] ==> x !in queues[q][n..]
  {
    assert queues[q] == queues[q][..n] + queues[q][n..];
    forall x | x in queues[q][..n]
      ensures SleepsAt(tasks, x, InQueue(q))
    {
      assert x in queues[q];
    }
  }

  lemma DrainKeepsPlaces(s: State, s': State, t: nat, q: nat, n: nat)
    requires Ok(s) && q < |s.table.queues| && n <= |s.table.queues[q]|
    requires Drained(s.table.queues, s.tasks, s'.tasks, t, q, n)
    requires TaskOk(s.table.guards, t, s'.tasks[t])
    requires s'.table == s.table.(queues := s.table.queues[q := s.table.queues[q][n..]])
    ensures Ok(s') && Sleepers(s'.tasks) == Sleepers(s.tasks) && s'.table.queueOf == s.table.queueOf
  {
    OneQueueChanges(s.table, q, s.table.queues[q][n..]);
    DrainQueues(s.table.queues, s.tasks, s'.tasks, t, q, n);
    DrainTransit(s.table, s.tasks, s'.tasks, t, q, n);
    RefiledTasksOk(s.table, s'.table, s.tasks, s'.tasks, t);
    SameAsleep(s.tasks, s'.tasks);
  }

  /** Refiling sleeping tasks changes nothing about the guards they hold. */
  lemma RefiledTasksOk(f: Table, f': Table, tasks: map<nat, Task>, tasks': map<nat, Task>, t: nat)
    requires TasksOk(f, tasks) && f'.guards == f.guards && tasks'.Keys == tasks.Keys
    requires t in tasks && TaskOk(f.guards, t, tasks'[t])
    requires forall x :: x in tasks && x != t && tasks'[x] != tasks[x] ==>
               tasks[x].Asleep? && tasks'[x].Asleep? && tasks'[x].addr == tasks[x].addr
    ensures TasksOk(f', tasks')
  {
    forall x | x in tasks'
      ensures TaskOk(f'.guards, x, tasks'[x])
    {
      assert TaskOk(f.guards, x, tasks[x]);
    }
  }

  /** `tasks'` files the first `n` tasks of queue `q` as moved by `t`, and `t` as moving them. */
  ghost predicate Drained(queues: seq<seq<nat>>, tasks: map<nat, Task>, tasks': map<nat, Task>,
                          t: nat, q: nat, n: nat)
    requires q < |queues| && n <= |queues[q]|
  {
    && tasks'.Keys == tasks.Keys && t in tasks && !tasks[t].Asleep? && !tasks[t].Moving?
    && tasks'[t].Moving? && tasks'[t].tasks == queues[q][..n]
    && (forall x :: x in tasks && x != t && x !in queues[q][..n] ==> tasks'[x] == tasks[x])
    && (forall x :: x in queues[q][..n] ==>
          x in tasks && tasks[x].Asleep? && tasks'[x] == Asleep(tasks[x].addr, tasks[x].filed, InTransit(t)))
  }

  lemma DrainQueues(queues: seq<seq<nat>>, tasks: map<nat, Task>, tasks': map<nat, Task>, t: nat, q: nat, n: nat)
    requires QueuesOk(queues, tasks) && q < |queues| && n <= |queues[q]| && Drained(queues, tasks, tasks', t, q, n)
    ensures QueuesOk(queues[q := queues[q][n..]], tasks')
  {
    FrontSleeps(queues, tasks, q, n);
    var queues' := queues[q := queues[q][n..]];
    forall p, x | 0 <= p < |queues'|
      ensures x in queues'[p] <==> SleepsAt(tasks', x, InQueue(p))
    {
      assert x in queues[p] <==> SleepsAt(tasks, x, InQueue(p));
    }
  }

  lemma DrainTransit(f: Table, tasks: map<nat, Task>, tasks': map<nat, Task>, t: nat, q: nat, n: nat)
    requires QueuesOk(f.queues, tasks) && TransitOk(tasks) && FiledOk(f.queueOf, tasks)
    requires q < |f.queues| && n <= |f.queues[q]| && Drained(f.queues, tasks, tasks', t, q, n)
    ensures TransitOk(tasks') && FiledOk(f.queueOf, tasks')
  {
    FrontSleeps(f.queues, tasks, q, n);
    forall c, x | c in tasks' && tasks'[c].Moving?
      ensures x in tasks'[c].tasks <==> SleepsAt(tasks', x, InTransit(c))
    {
      if c != t {
        assert x in tasks[c].tasks <==> SleepsAt(tasks, x, InTransit(c));
      } else {
        assert !SleepsAt(tasks, x, InTransit(t));
      }
    }
    forall x, at | x !in f.queues[q][..n] ensures SleepsAt(tasks', x, at) <==> SleepsAt(tasks, x, at) {
    }
  }

  /** The moves of the tasks of `list`, in order, by one call. */
  function Tag(caller: nat, list: seq<nat>, addr: nat): seq<Act> {
    seq(|list|, i requires 0 <= i < |list| => Act(caller, list[i], addr))
  }

  /** The second section of `requeue`: the moved tasks join the other queue, and the call returns. */
  function DoExtend(s: State, t: nat): (s': State)
    requires Ok(s) && t in s.tasks && s.tasks[t].Moving?
    ensures Ok(s') && Sleepers(s'.tasks) == Sleepers(s.tasks) && s'.table.queueOf == s.table.queueOf
    ensures s.tasks[t].addr2 in s.table.queueOf && s.table.queueOf[s.tasks[t].addr2] < |s.table.queues|
    ensures var q := s.table.queueOf[s.tasks[t].addr2];
            && s'.table.queues == s.table.queues[q := s.table.queues[q] + s.tasks[t].tasks]
            && Extended(s.table, s.tasks, s'.tasks, t, q)
    ensures t in s'.tasks && s'.tasks[t] == Returned(s.tasks[t].count + |s.tasks[t].tasks|, s.tasks[t].value)
    ensures s'.slept == s.slept && s'.woken == s.woken
    ensures s'.moved == s.moved + Tag(t, s.tasks[t].tasks, s.tasks[t].addr2)
  {
    var task, f := s.tasks[t], s.table;
    assert TaskOk(f.guards, t, task);
    var q := f.queueOf[task.addr2];
    assert forall x :: x in task.tasks ==> SleepsAt(s.tasks, x, InTransit(t));
    var landed := Landed(s.tasks, task.tasks, task.addr2, q);
    var s' := s.(table := f.(queues := f.queues[q := f.queues[q] + task.tasks]),
                 tasks := landed[t := Returned(task.count + |task.tasks|, task.value)],
                 moved := s.moved + Tag(t, task.tasks, task.addr2));
    ExtendKeepsPlaces(s, s', t, q);
    s'
  }

  lemma ExtendKeepsPlaces(s: State, s': State, t: nat, q: nat)
    requires Ok(s) && Extended(s.table, s.tasks, s'.tasks, t, q) && TaskOk(s.table.guards, t, s'.tasks[t])
    requires s'.table == s.table.(queues := s.table.queues[q := s.table.queues[q] + s.tasks[t].tasks])
    ensures Ok(s') && Sleepers(s'.tasks) == Sleepers(s.tasks)
  {
    OneQueueChanges(s.table, q, s.table.queues[q] + s.tasks[t].tasks);
    ExtendQueues(s.table, s.tasks, s'.tasks, t, q);
    ExtendTransit(s.table, s.tasks, s'.tasks, t, q);
    RefiledTasksOk(s.table, s'.table, s.tasks, s'.tasks, t);
    SameAsleep(s.tasks, s'.tasks);
  }

  /** `tasks'` files the tasks moved by `t` in queue `q`, that of the address they were moved to. */
  ghost predicate Extended(f: Table, tasks: map<nat, Task>, tasks': map<nat, Task>, t: nat, q: nat) {
    && tasks'.Keys == tasks.Keys && t in tasks && tasks[t].Moving? && q < |f.queues|
    && tasks[t].addr2 in f.queueOf && f.queueOf[tasks[t].addr2] == q
    && tasks'[t].Returned?
    && (forall x :: x in tasks && x != t && x !in tasks[t].tasks ==> tasks'[x] == tasks[x])
    && (forall x :: x in tasks[t].tasks ==>
          x in tasks && tasks[x].Asleep? && tasks'[x] == Asleep(tasks[x].addr, tasks[t].addr2, InQueue(q)))
  }

  lemma SameAsleep(tasks: map<nat, Task>, tasks': map<nat, Task>)
    requires forall t :: t in tasks && tasks[t].Asleep? <==> t in tasks' && tasks'[t].Asleep?
    ensures Sleepers(tasks') == Sleepers(tasks)
  {
  }

  lemma NoDupAppend(a: seq<nat>, b: seq<nat>)
    requires NoDup(a) && NoDup(b) && forall x :: x in b ==> x !in a
    ensures NoDup(a + b)
  {
    forall i, j | 0 <= i < |a| && 0 <= j < |b|
      ensures a[i] != b[j]
    {
      assert b[j] in b;
    }
  }

  lemma ExtendQueues(f: Table, tasks: map<nat, Task>, tasks': map<nat, Task>, t: nat, q: nat)
    requires QueuesOk(f.queues, tasks) && TransitOk(tasks) && Extended(f, tasks, tasks', t, q)
    ensures QueuesOk(f.queues[q := f.queues[q] + tasks[t].tasks], tasks')
  {
    var list := tasks[t].tasks;
    forall x | x in list
      ensures x !in f.queues[q]
    {
      assert SleepsAt(tasks, x, InTransit(t));
    }
    NoDupAppend(f.queues[q], list);
    var queues' := f.queues[q := f.queues[q] + list];
    forall p, x | 0 <= p < |queues'|
      ensures x in queues'[p] <==> SleepsAt(tasks', x, InQueue(p))
    {
      assert x in f.queues[p] <==> SleepsAt(tasks, x, InQueue(p));
      assert x in list <==> SleepsAt(tasks, x, InTransit(t));
    }
  }

  lemma ExtendTransit(f: Table, tasks: map<nat, Task>, tasks': map<nat, Task>, t: nat, q: nat)
    requires TransitOk(tasks) && FiledOk(f.queueOf, tasks) && Extended(f, tasks, tasks', t, q)
    ensures TransitOk(tasks') && FiledOk(f.queueOf, tasks')
  {
    forall c, x | c in tasks' && tasks'[c].Moving?
      ensures x in tasks'[c].tasks <==> SleepsAt(tasks', x, InTransit(c))
    {
      assert x in tasks[c].tasks <==> SleepsAt(tasks, x, InTransit(c));
      assert x in tasks[t].tasks <==> SleepsAt(tasks, x, InTransit(t));
    }
    forall x, at | x !in tasks[t].tasks ensures SleepsAt(tasks', x, at) <==> SleepsAt(tasks, x, at) {
    }
    forall x, c | SleepsAt(tasks', x, InTransit(c))
      ensures c in tasks' && tasks'[c].Moving?
    {
      assert SleepsAt(tasks, x, InTransit(c));
      assert x in tasks[t].tasks <==> SleepsAt(tasks, x, InTransit(t));
    }
  }

  // ------------------------------------------------------------------ runs

  datatype Step =
    | WaitStart(t: nat, addr: nat)             // the value matched; get_or_insert
    | Sleep(t: nat)
    | WaitReturn(t: nat)
    | WakeStart(t: nat, addr: nat, value: nat)
    | WakeOne(t: nat)
    | WakeEnd(t: nat)
    | RequeueGet(t: nat, addr: nat, addr2: nat, value: nat, limit: nat)
    | RequeueGet2(t: nat)
    | RequeueWake(t: nat)
    | Drain(t: nat)
    | Extend(t: nat)
    | RequeueEnd(t: nat)
    | DropGuard(g: GuardId)

  /** The waking loop of call `t` has rounds left. */
  predicate LoopGoesOn(task: Task)
    requires task.Waking? || task.Requeuing?
  {
    task.open && task.count < task.value
  }

  predicate Enabled(s: State, step: Step) {
    match step
    case WaitStart(t, _) => t !in s.tasks
    case Sleep(t) => t in s.tasks && s.tasks[t].Entering?
    case WaitReturn(t) => t in s.tasks && s.tasks[t].Woken?
    case WakeStart(t, _, _) => t !in s.tasks
    case WakeOne(t) => t in s.tasks && s.tasks[t].Waking? && LoopGoesOn(s.tasks[t])
    case WakeEnd(t) => t in s.tasks && s.tasks[t].Waking? && !LoopGoesOn(s.tasks[t])
    case RequeueGet(t, _, _, _, _) => t !in s.tasks
    case RequeueGet2(t) => t in s.tasks && s.tasks[t].Pairing?
    case RequeueWake(t) => t in s.tasks && s.tasks[t].Requeuing? && LoopGoesOn(s.tasks[t])
    case Drain(t) => t in s.tasks && s.tasks[t].Requeuing? && s.tasks[t].count == s.tasks[t].value
    case Extend(t) => t in s.tasks && s.tasks[t].Moving?
    case RequeueEnd(t) =>
      t in s.tasks && s.tasks[t].Requeuing? && !LoopGoesOn(s.tasks[t]) && s.tasks[t].count != s.tasks[t].value
    case DropGuard(g) => g in s.table.guards && g.task in s.tasks && s.tasks[g.task].Returned?
  }

  /** Call `caller` wakes the first task of the queue of `addr`, or that queue is empty and it wakes none. */
  ghost predicate WakesFirst(s: State, s': State, caller: nat, addr: nat) {
    && addr in s.table.queueOf && s.table.queueOf[addr] < |s.table.queues|
    && s'.slept == s.slept && s'.moved == s.moved && caller in s'.tasks
    && var queue := s.table.queues[s.table.queueOf[addr]];
       if queue == [] then
         && Sleepers(s'.tasks) == Sleepers(s.tasks) && s'.woken == s.woken
         && s'.tasks == s.tasks[caller := s'.tasks[caller]]
       else
         && queue[0] in Sleepers(s.tasks) && Sleepers(s'.tasks) == Sleepers(s.tasks) - {queue[0]}
         && s'.woken == s.woken + [Act(caller, queue[0], addr)]
         && s'.tasks == s.tasks[queue[0] := Woken(s.tasks[queue[0]].addr)][caller := s'.tasks[caller]]
         && s'.table.queues == s.table.queues[s.table.queueOf[addr] := queue[1..]]
  }

  /** Call `t` wakes the first task of the queue of `addr` and becomes `one`, or finds no task and becomes `none`. */
  function Notify(s: State, t: nat, addr: nat, one: Task, none: Task): (s': State)
    requires Ok(s) && t in s.tasks && Still(s.tasks[t]) && addr in s.table.queueOf
    requires Still(one) && Still(none) && TaskOk(s.table.guards, t, one) && TaskOk(s.table.guards, t, none)
    ensures Ok(s') && MapGrows(s.table, s'.table) && s'.table.queueOf == s.table.queueOf
    ensures s'.table.guards == s.table.guards
    ensures t in s'.tasks && s'.tasks[t] == if s.table.queues[s.table.queueOf[addr]] == [] then none else one
    ensures WakesFirst(s, s', t, addr)
  {
    var q := s.table.queueOf[addr];
    if s.table.queues[q] == [] then Go(s, s.table, t, none)
    else Go(Pop(s, q, t, addr), Pop(s, q, t, addr).table, t, one)
  }

  /** A task woken is counted, an empty queue ends the loop. */
  function AfterRound(task: Task, found: bool): Task
    requires task.Waking? || task.Requeuing?
  {
    match task
    case Waking(addr, value, count, _) => Waking(addr, value, if found then count + 1 else count, found)
    case Requeuing(addr, addr2, value, limit, count, _) =>
      Requeuing(addr, addr2, value, limit, if found then count + 1 else count, found)
  }

  /** One round of the loop of FUTEX_WAKE. */
  function DoWakeOne(s: State, t: nat): (s': State)
    requires Ok(s) && Enabled(s, WakeOne(t))
    ensures Ok(s') && MapGrows(s.table, s'.table) && s'.table.queueOf == s.table.queueOf
    ensures WakesFirst(s, s', t, s.tasks[t].addr)
    ensures var task, queue := s.tasks[t], s.table.queues[s.table.queueOf[s.tasks[t].addr]];
            t in s'.tasks && s'.tasks[t] == AfterRound(task, queue != [])
  {
    assert TaskOk(s.table.guards, t, s.tasks[t]);
    Notify(s, t, s.tasks[t].addr, AfterRound(s.tasks[t], true), AfterRound(s.tasks[t], false))
  }

  /** One round of the waking loop of FUTEX_REQUEUE. */
  function DoRequeueWake(s: State, t: nat): (s': State)
    requires Ok(s) && Enabled(s, RequeueWake(t))
    ensures Ok(s') && MapGrows(s.table, s'.table)
    ensures WakesFirst(s, s', t, s.tasks[t].addr)
    ensures var task, queue := s.tasks[t], s.table.queues[s.table.queueOf[s.tasks[t].addr]];
            t in s'.tasks && s'.tasks[t] == AfterRound(task, queue != [])
  {
    assert TaskOk(s.table.guards, t, s.tasks[t]);
    Notify(s, t, s.tasks[t].addr, AfterRound(s.tasks[t], true), AfterRound(s.tasks[t], false))
  }

  /** `get_or_insert`: the new guard, on a queue that is new if the address had none. */
  function Acquire(s: State, t: nat, index: nat, addr: nat): (f': Table)
    requires Ok(s) && GuardId(t, index) !in s.table.guards
    ensures TableOk(f') && TableGrows(s.table, f', t) && MapGrows(s.table, f')
    ensures GuardId(t, index) in f'.guards && f'.guards[GuardId(t, index)].key == addr
    ensures f'.guards == s.table.guards[GuardId(t, index) := f'.guards[GuardId(t, index)]]
  {
    Hold(Insert(s.table, addr), GuardId(t, index), addr)
  }

  function Paired(s: State, t: nat, f: Table): (s': State)
    requires Ok(s) && Enabled(s, RequeueGet2(t)) && TableOk(f) && TableGrows(s.table, f, t)
    requires GuardId(t, 1) in f.guards && f.guards[GuardId(t, 1)].key == s.tasks[t].addr2
    requires f.guards == s.table.guards[GuardId(t, 1) := f.guards[GuardId(t, 1)]]
    ensures Ok(s') && s'.table == f && Sleepers(s'.tasks) == Sleepers(s.tasks)
  {
    var Pairing(addr, addr2, value, limit) := s.tasks[t];
    assert TaskOk(s.table.guards, t, s.tasks[t]);
    Go(s, f, t, if GuardId(t, 0) in f.guards then Requeuing(addr, addr2, value, limit, 0, true)
                else Returned(0, value))
  }

  function DoRequeueGet2(s: State, t: nat): (s': State)
    requires Ok(s) && Enabled(s, RequeueGet2(t))
    ensures Ok(s') && MapGrows(s.table, s'.table) && Sleepers(s'.tasks) == Sleepers(s.tasks)
  {
    assert TaskOk(s.table.guards, t, s.tasks[t]);
    Paired(s, t, Acquire(s, t, 1, s.tasks[t].addr2))
  }

  /** Requeuing task `t` takes the oldest waiters of its first queue, in order, as many as allowed. */
  ghost predicate TakesOldest(s: State, s': State, t: nat)
    requires Enabled(s, Drain(t))
  {
    && s.tasks[t].addr in s.table.queueOf && s.table.queueOf[s.tasks[t].addr] < |s.table.queues| == |s'.table.queues|
    && t in s'.tasks && s'.tasks[t].Moving?
    && var q, moved := s.table.queueOf[s.tasks[t].addr], s'.tasks[t].tasks;
       && moved + s'.table.queues[q] == s.table.queues[q]
       && |moved| == Min(s.tasks[t].limit, |s.table.queues[q]|)
       && s'.table.queues == s.table.queues[q := s'.table.queues[q]]
  }

  lemma SplitAgain(queue: seq<nat>, n: nat)
    requires n <= |queue|
    ensures queue[..n] + queue[n..] == queue
  {
  }

  function DoDrainAll(s: State, t: nat): (s': State)
    requires Ok(s) && Enabled(s, Drain(t))
    ensures Ok(s') && MapGrows(s.table, s'.table) && Sleepers(s'.tasks) == Sleepers(s.tasks)
    ensures TakesOldest(s, s', t)
  {
    assert TaskOk(s.table.guards, t, s.tasks[t]);
    var queue := s.table.queues[s.table.queueOf[s.tasks[t].addr]];
    var n := Min(s.tasks[t].limit, |queue|);
    SplitAgain(queue, n);
    DoDrain(s, t, n)
  }

  function StartWake(s: State, t: nat, addr: nat, value: nat): (s': State)
    requires Ok(s) && t !in s.tasks
    ensures Ok(s') && MapGrows(s.table, s'.table) && Sleepers(s'.tasks) == Sleepers(s.tasks)
  {
    if addr in s.table.queueOf then Go(s, Hold(s.table, GuardId(t, 0), addr), t, Waking(addr, value, 0, true))
    else Go(s, s.table, t, Returned(0, value))
  }

  function StartRequeue(s: State, t: nat, addr: nat, addr2: nat, value: nat, limit: nat): (s': State)
    requires Ok(s) && t !in s.tasks
    ensures Ok(s') && MapGrows(s.table, s'.table) && Sleepers(s'.tasks) == Sleepers(s.tasks)
  {
    Go(s, if addr in s.table.queueOf then Hold(s.table, GuardId(t, 0), addr) else s.table, t,
       Pairing(addr, addr2, value, limit))
  }

  ghost predicate MapGrows(f: Table, f': Table) {
    forall a :: a in f.queueOf ==> a in f'.queueOf && f'.queueOf[a] == f.queueOf[a]
  }

  function StartWait(s: State, t: nat, addr: nat): (s': State)
    requires Ok(s) && t !in s.tasks
    ensures Ok(s') && MapGrows(s.table, s'.table) && Sleepers(s'.tasks) == Sleepers(s.tasks)
  {
    Go(s, Acquire(s, t, 0, addr), t, Entering(addr))
  }

  function EndWait(s: State, t: nat): (s': State)
    requires Ok(s) && Enabled(s, WaitReturn(t))
    ensures Ok(s') && MapGrows(s.table, s'.table) && Sleepers(s'.tasks) == Sleepers(s.tasks)
  {
    Go(s, s.table, t, Returned(0, 0))
  }

  function EndWake(s: State, t: nat): (s': State)
    requires Ok(s) && t in s.tasks && (s.tasks[t].Waking? || s.tasks[t].Requeuing?)
    ensures Ok(s') && MapGrows(s.table, s'.table) && Sleepers(s'.tasks) == Sleepers(s.tasks)
  {
    assert TaskOk(s.table.guards, t, s.tasks[t]);
    Go(s, s.table, t, Returned(s.tasks[t].count, s.tasks[t].value))
  }

  lemma DropsOwnGuard(f: Table, f': Table, g: GuardId)
    requires f'.queueOf == f.queueOf && f'.queues == f.queues && f'.guards == f.guards - {g}
    ensures TableGrows(f, f', g.task) && MapGrows(f, f')
  {
  }

  function Dropped(s: State, f: Table, g: GuardId): (s': State)
    requires Ok(s) && Enabled(s, DropGuard(g)) && TableOk(f)
    requires f.queueOf == s.table.queueOf && f.queues == s.table.queues && f.guards == s.table.guards - {g}
    ensures Ok(s') && MapGrows(s.table, s'.table) && Sleepers(s'.tasks) == Sleepers(s.tasks)
  {
    DropsOwnGuard(s.table, f, g);
    Go(s, f, g.task, s.tasks[g.task])
  }

  predicate OfWait(step: Step) {
    step.WaitStart? || step.Sleep? || step.WaitReturn? || step.WakeStart? || step.WakeOne? || step.WakeEnd?
  }

  function ApplyWait(s: State, step: Step): (s': State)
    requires Ok(s) && Enabled(s, step) && OfWait(step)
    ensures Ok(s') && MapGrows(s.table, s'.table)
  {
    match step
    case WaitStart(t, addr) => StartWait(s, t, addr)
    case Sleep(t) => DoSleep(s, t)
    case WaitReturn(t) => EndWait(s, t)
    case WakeStart(t, addr, value) => StartWake(s, t, addr, value)
    case WakeOne(t) => DoWakeOne(s, t)
    case WakeEnd(t) => EndWake(s, t)
  }

  function ApplyRequeue(s: State, step: Step): (s': State)
    requires Ok(s) && Enabled(s, step) && !OfWait(step)
    ensures Ok(s') && MapGrows(s.table, s'.table)
  {
    match step
    case RequeueGet(t, addr, addr2, value, limit) => StartRequeue(s, t, addr, addr2, value, limit)
    case RequeueGet2(t) => DoRequeueGet2(s, t)
    case RequeueWake(t) => DoRequeueWake(s, t)
    case Drain(t) => DoDrainAll(s, t)
    case Extend(t) => DoExtend(s, t)
    case RequeueEnd(t) => EndWake(s, t)
    case DropGuard(g) => Dropped(s, Release(s.table, g), g)
  }

  function Apply(s: State, step: Step): (s': State)
    requires Ok(s) && Enabled(s, step)
    ensures Ok(s') && MapGrows(s.table, s'.table)
  {
    if OfWait(step) then ApplyWait(s, step) else ApplyRequeue(s, step)
  }
}
