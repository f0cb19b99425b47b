/**
 From system call to result: what the first step of a call does with its arguments, that the arguments
 stay those of the call over any run, and that no call is ever stuck.
 */
module PipeCalls {
  import opened Common
  import opened FileTable
  import opened PipeSystem
  import opened PipeTheorems
  import opened PipeAlone

  // ---------------------------------------------------------------- first steps

  /** A write takes a reference to the descriptor's object and works on the user's whole buffer. */
  lemma WriteStarts(s: State, c: nat, t: nat, fd: nat, buf: seq<Byte>)
    requires Sound(s) && Enabled(s, WriteStart(c, t, fd, buf))
    ensures var o, s' := s.arcs.refs[Slot(t, fd)], Apply(s, WriteStart(c, t, fd, buf));
            && s'.arcs.refs == s.arcs.refs[Local(c, 0) := o] && s'.flows == s.flows
            && c in s'.calls && s'.calls == s.calls[c := s'.calls[c]]
            && (forall p :: o == PipeEnd(p, false) ==> s'.calls[c] == Starting(p, buf))
            && ((forall p :: o != PipeEnd(p, false)) ==> s'.calls[c] == Leaving)
  {
  }

  /** So does a read, with the length of the user's buffer. */
  lemma ReadStarts(s: State, c: nat, t: nat, fd: nat, len: nat)
    requires Sound(s) && Enabled(s, ReadStart(c, t, fd, len))
    ensures var o, s' := s.arcs.refs[Slot(t, fd)], Apply(s, ReadStart(c, t, fd, len));
            && s'.arcs.refs == s.arcs.refs[Local(c, 0) := o] && s'.flows == s.flows
            && c in s'.calls && s'.calls == s.calls[c := s'.calls[c]]
            && (forall p :: o == PipeEnd(p, true) ==> s'.calls[c] == Reading(p, len))
            && ((forall p :: o != PipeEnd(p, true)) ==> s'.calls[c] == Leaving)
  {
  }

  /** A call that has returned gives its reference back. */
  lemma ReleaseDrops(s: State, c: nat)
    requires Sound(s) && Enabled(s, Release(c))
    ensures var s' := Apply(s, Release(c));
            s'.arcs.refs == s.arcs.refs - {Local(c, 0)} && s'.calls == s.calls && s'.flows == s.flows
  {
  }

  /** Opening any other file puts a new object at the lowest free descriptor. */
  lemma OpenAlone(s: State, c: nat, t: nat, fd: nat)
    requires Sound(s) && Enabled(s, Open(c, t)) && IsLowestFree(s.arcs.refs, t, fd)
    ensures Enabled(Apply(s, Open(c, t)), Install(c, At(fd)))
    ensures Apply(Apply(s, Open(c, t)), Install(c, At(fd))).arcs.refs
            == s.arcs.refs[Slot(t, fd) := Other(s.arcs.nextOther)]
  {
    NewCallHoldsNothing(s, c);
    SlotsDecide(s, Apply(s, Open(c, t)), t, At(fd));
    PassOn(s.arcs.refs, Local(c, 0), Slot(t, fd), Other(s.arcs.nextOther));
  }

  /** Any call can begin in any state, with any arguments, on an open descriptor or an existing table. */
  lemma AnyCallCanStart(s: State, c: nat, t: nat, fd: nat, newFd: nat, buf: seq<Byte>, len: nat)
    requires c !in s.calls
    ensures t < s.arcs.nextTable ==> Enabled(s, Open(c, t)) && Enabled(s, Pipe2(c, t)) && Enabled(s, Fork(t))
    ensures Slot(t, fd) in s.arcs.refs ==>
              && Enabled(s, ReadStart(c, t, fd, len)) && Enabled(s, WriteStart(c, t, fd, buf))
              && Enabled(s, DupGet(c, t, fd)) && Enabled(s, CloseRemove(c, t, fd)) && Enabled(s, ClearSlot(t, fd))
              && (newFd < AX_FILE_LIMIT ==> Enabled(s, Dup2Locked(c, t, fd, newFd)))
  {
  }

  // ----------------------------------------------------------------------- fork

  /** A fork that copies gives the child a table with the parent's descriptors. */
  lemma ForkAlone(s: State, t: nat)
    requires Sound(s) && Enabled(s, Fork(t))
    ensures var s' := Apply(s, Fork(t));
            && SlotsCopied(s.arcs.refs, s'.arcs.refs, t, s.arcs.nextTable, AX_FILE_LIMIT)
            && s'.arcs.nextTable == s.arcs.nextTable + 1 && s'.calls == s.calls && s'.flows == s.flows
  {
  }

  /** What was open in the parent is still open in the child after the parent has cleared its table. */
  lemma ChildKeepsFiles(s: State, t: nat, fd: nat) returns (s': State)
    requires Sound(s) && Enabled(s, Fork(t)) && Slot(t, fd) in s.arcs.refs
    ensures var s1 := Apply(s, Fork(t)); Runs(s1, ClearSteps(s1.arcs.refs, t, AX_FILE_LIMIT), s')
    ensures Slot(t, fd) !in s'.arcs.refs
    ensures Slot(s.arcs.nextTable, fd) in s'.arcs.refs
    ensures s'.arcs.refs[Slot(s.arcs.nextTable, fd)] == s.arcs.refs[Slot(t, fd)]
  {
    ForkAlone(s, t);
    s' := ClearAlone(Apply(s, Fork(t)), t);
  }

  // ------------------------------------------------------- arguments over a run

  /** A write of `buf` to pipe `p`. */
  predicate IsWrite(call: Call, p: nat, buf: seq<Byte>) {
    match call
    case Starting(q, b) => q == p && b == buf
    case Writing(q, b, _) => q == p && b == buf
    case WriteDone(q, b, _) => q == p && b == buf
    case _ => false
  }

  /** A read of at most `len` bytes from pipe `p`. */
  predicate IsRead(call: Call, p: nat, len: nat) {
    match call
    case Reading(q, n) => q == p && n == len
    case ReadDone(q, n, _) => q == p && n == len
    case _ => false
  }

  /** The call `c0` takes a step; it and every other call stay what they were. */
  ghost predicate Continues(s: State, s': State, c0: nat) {
    && c0 in s.calls && c0 in s'.calls && s'.calls == s.calls[c0 := s'.calls[c0]]
    && (forall p, buf :: IsWrite(s'.calls[c0], p, buf) ==> IsWrite(s.calls[c0], p, buf))
    && (forall p, len :: IsRead(s'.calls[c0], p, len) ==> IsRead(s.calls[c0], p, len))
  }

  lemma ReadStepContinues(s: State, c: nat)
    requires Sound(s) && Enabled(s, ReadStep(c))
    ensures Continues(s, DoRead(s, c), c)
  {
    if DoRead(s, c) == s {
      assert s.calls == s.calls[c := s.calls[c]];
    }
  }

  lemma WriteCheckContinues(s: State, c: nat)
    requires Sound(s) && Enabled(s, WriteCheck(c))
    ensures Continues(s, DoWriteCheck(s, c), c)
  {
    WriteCheckIsExact(s, c);
  }

  lemma WriteStepContinues(s: State, c: nat)
    requires Sound(s) && Enabled(s, WriteStep(c))
    ensures Continues(s, DoWrite(s, c), c)
  {
    if DoWrite(s, c) == s {
      assert s.calls == s.calls[c := s.calls[c]];
    }
  }

  /** A step that moves bytes goes on with the call it belongs to. */
  lemma FlowStepContinues(s: State, step: Step, c: nat)
    requires Sound(s) && Enabled(s, step) && MovesBytes(step) && c in ApplyFlow(s, step).calls
    ensures c in s.calls
    ensures forall p, buf :: IsWrite(ApplyFlow(s, step).calls[c], p, buf) ==> IsWrite(s.calls[c], p, buf)
    ensures forall p, len :: IsRead(ApplyFlow(s, step).calls[c], p, len) ==> IsRead(s.calls[c], p, len)
  {
    match step
    case ReadStep(c0) => ReadStepContinues(s, c0);
    case WriteCheck(c0) => WriteCheckContinues(s, c0);
    case WriteStep(c0) => WriteStepContinues(s, c0);
  }

  lemma ProcessStepContinues(s: State, step: Step, c: nat)
    requires Sound(s) && Enabled(s, step) && !OnDescriptor(step) && !MovesBytes(step)
    requires c in ApplyProcess(s, step).calls
    ensures forall p, buf ::
              IsWrite(ApplyProcess(s, step).calls[c], p, buf) ==> c in s.calls && IsWrite(s.calls[c], p, buf)
    ensures forall p, len ::
              IsRead(ApplyProcess(s, step).calls[c], p, len) ==> c in s.calls && IsRead(s.calls[c], p, len)
  {
  }

  /** Only the first step of a write makes a call a write, of the buffer given and to the pipe held. */
  ghost predicate BeginsWrite(s: State, step: Step, c: nat, p: nat, buf: seq<Byte>) {
    && step.WriteStart? && step.c == c && step.buf == buf
    && Slot(step.t, step.fd) in s.arcs.refs && s.arcs.refs[Slot(step.t, step.fd)] == PipeEnd(p, false)
  }

  ghost predicate BeginsRead(s: State, step: Step, c: nat, p: nat, len: nat) {
    && step.ReadStart? && step.c == c && step.len == len
    && Slot(step.t, step.fd) in s.arcs.refs && s.arcs.refs[Slot(step.t, step.fd)] == PipeEnd(p, true)
  }

  lemma DescriptorStepBegins(s: State, step: Step, c: nat)
    requires Sound(s) && Enabled(s, step) && OnDescriptor(step) && c in ApplyDescriptor(s, step).calls
    ensures forall p, buf :: IsWrite(ApplyDescriptor(s, step).calls[c], p, buf) ==>
              BeginsWrite(s, step, c, p, buf) || (c in s.calls && IsWrite(s.calls[c], p, buf))
    ensures forall p, len :: IsRead(ApplyDescriptor(s, step).calls[c], p, len) ==>
              BeginsRead(s, step, c, p, len) || (c in s.calls && IsRead(s.calls[c], p, len))
  {
  }

  lemma StepBegins(s: State, step: Step, c: nat)
    requires Sound(s) && Enabled(s, step) && c in Apply(s, step).calls
    ensures forall p, buf :: IsWrite(Apply(s, step).calls[c], p, buf) ==>
              BeginsWrite(s, step, c, p, buf) || (c in s.calls && IsWrite(s.calls[c], p, buf))
    ensures forall p, len :: IsRead(Apply(s, step).calls[c], p, len) ==>
              BeginsRead(s, step, c, p, len) || (c in s.calls && IsRead(s.calls[c], p, len))
  {
    if MovesBytes(step) {
      FlowStepContinues(s, step, c);
    } else if OnDescriptor(step) {
      DescriptorStepBegins(s, step, c);
    } else {
      ProcessStepContinues(s, step, c);
    }
  }

  lemma DropFirst(steps: seq<Step>, i: nat)
    requires i < |steps|
    ensures steps[..i + 1][1..] == steps[1..][..i]
  {
  }

  lemma RunsFrom(s: State, steps: seq<Step>, i: nat, mid: State)
    requires Sound(s) && i < |steps| && Enabled(s, steps[0]) && Runs(Apply(s, steps[0]), steps[1..][..i], mid)
    ensures Runs(s, steps[..i + 1], mid)
  {
    DropFirst(steps, i);
  }

  lemma {:induction false} WriteBegan(s: State, steps: seq<Step>, s': State, c: nat, p: nat, buf: seq<Byte>)
    returns (k: nat, mid: State)
    requires Sound(s) && Runs(s, steps, s') && c in s'.calls && IsWrite(s'.calls[c], p, buf)
    requires c in s.calls ==> !IsWrite(s.calls[c], p, buf)
    ensures k < |steps| && Runs(s, steps[..k], mid) && BeginsWrite(mid, steps[k], c, p, buf)
    decreases |steps|
  {
    var s1 := Apply(s, steps[0]);
    if c in s1.calls && IsWrite(s1.calls[c], p, buf) {
      StepBegins(s, steps[0], c);
      k, mid := 0, s;
    } else {
      var i: nat;
      i, mid := WriteBegan(s1, steps[1..], s', c, p, buf);
      k := i + 1;
      RunsFrom(s, steps, i, mid);
    }
  }

  lemma {:induction false} ReadBegan(s: State, steps: seq<Step>, s': State, c: nat, p: nat, len: nat)
    returns (k: nat, mid: State)
    requires Sound(s) && Runs(s, steps, s') && c in s'.calls && IsRead(s'.calls[c], p, len)
    requires c in s.calls ==> !IsRead(s.calls[c], p, len)
    ensures k < |steps| && Runs(s, steps[..k], mid) && BeginsRead(mid, steps[k], c, p, len)
    decreases |steps|
  {
    var s1 := Apply(s, steps[0]);
    if c in s1.calls && IsRead(s1.calls[c], p, len) {
      StepBegins(s, steps[0], c);
      k, mid := 0, s;
    } else {
      var i: nat;
      i, mid := ReadBegan(s1, steps[1..], s', c, p, len);
      k := i + 1;
      RunsFrom(s, steps, i, mid);
    }
  }

  /**
   A write that returned Ok(n) was begun by a system call on a descriptor of the pipe's write end, and
   contributed exactly the first n bytes of that call's buffer; n is the whole length unless no one holds
   the read end any more.
   */
  lemma WriteResultIsExact(steps: seq<Step>, s: State, c: nat) returns (k: nat, mid: State)
    requires Reached(steps, s) && c in s.calls && s.calls[c].WriteDone?
    ensures k < |steps| && Reached(steps[..k], mid) && steps[k].WriteStart?
    ensures BeginsWrite(mid, steps[k], c, s.calls[c].pipe, steps[k].buf)
    ensures s.calls[c].pipe < |s.flows| && s.calls[c].n <= |steps[k].buf|
    ensures By(s.flows[s.calls[c].pipe].accepted, c) == steps[k].buf[..s.calls[c].n]
    ensures s.calls[c].n < |steps[k].buf| ==>
              forall h :: h in s.arcs.refs ==> s.arcs.refs[h] != PipeEnd(s.calls[c].pipe, true)
  {
    WrittenPrefix(steps, s, c);
    StartIsSound();
    k, mid := WriteBegan(START, steps, s, c, s.calls[c].pipe, s.calls[c].buf);
  }

  /**
   A read that returned was begun by a system call on a descriptor of the pipe's read end; what it got is
   what was delivered to it, and no longer than that call's buffer.
   */
  lemma ReadResultIsExact(steps: seq<Step>, s: State, c: nat) returns (k: nat, mid: State)
    requires Reached(steps, s) && c in s.calls && s.calls[c].ReadDone?
    ensures k < |steps| && Reached(steps[..k], mid) && steps[k].ReadStart?
    ensures BeginsRead(mid, steps[k], c, s.calls[c].pipe, steps[k].len)
    ensures s.calls[c].pipe < |s.flows| && |s.calls[c].got| <= steps[k].len
    ensures By(s.flows[s.calls[c].pipe].delivered, c) == s.calls[c].got
  {
    StartIsSound();
    RunsKeepAll(START, steps, s);
    assert InRange(s.calls[c], |s.flows|);
    StreamIsPreserved(steps, s, s.calls[c].pipe);
    k, mid := ReadBegan(START, steps, s, c, s.calls[c].pipe, s.calls[c].len);
  }

  // ------------------------------------------------------------------- progress

  /** A table has a lowest free descriptor, or it is full. */
  lemma {:induction false} SlotToUse(s: State, t: nat, n: nat) returns (slot: Target)
    requires n <= AX_FILE_LIMIT && forall i: nat :: i < n ==> Slot(t, i) in s.arcs.refs
    ensures Finds(s, t, slot)
    decreases AX_FILE_LIMIT - n
  {
    if n == AX_FILE_LIMIT {
      slot := NoRoom;
    } else if Slot(t, n) in s.arcs.refs {
      slot := SlotToUse(s, t, n + 1);
    } else {
      slot := At(n);
    }
  }

  /** A call is over once it panicked, or returned and gave its reference back. */
  predicate IsOver(s: State, c: nat)
    requires c in s.calls
  {
    s.calls[c].Panicked? || (Returned(s.calls[c]) && Local(c, 0) !in s.arcs.refs)
  }

  /** The call that a step belongs to. */
  function CallOf(step: Step): (c: int) {
    match step
    case InstallRead(c, _) => c
    case InstallWrite(c, _) => c
    case RollBack(c) => c
    case Install(c, _) => c
    case Release(c) => c
    case ReadStep(c) => c
    case WriteCheck(c) => c
    case WriteStep(c) => c
    case _ => -1
  }

  /** In every sound state each call that is not over has a step to take. */
  lemma CallGoesOn(s: State, c: nat) returns (step: Step)
    requires Sound(s) && c in s.calls && !IsOver(s, c)
    ensures Enabled(s, step) && CallOf(step) == c
  {
    match s.calls[c]
    case Installing(t) =>
      var slot := SlotToUse(s, t, 0);
      step := Install(c, slot);
    case NewPair(t, _) =>
      var slot := SlotToUse(s, t, 0);
      step := InstallRead(c, slot);
    case HalfInstalled(t, _, _) =>
      var slot := SlotToUse(s, t, 0);
      step := InstallWrite(c, slot);
    case RollingBack(_, _, _) => step := RollBack(c);
    case Reading(_, _) => step := ReadStep(c);
    case Starting(_, _) => step := WriteCheck(c);
    case Writing(_, _, _) => step := WriteStep(c);
    case Leaving => step := Release(c);
    case ReadDone(_, _, _) => step := Release(c);
    case WriteDone(_, _, _) => step := Release(c);
    case WriteEpipe(_) => step := Release(c);
  }
}
