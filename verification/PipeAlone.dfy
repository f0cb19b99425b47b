/**
 A system call whose steps run without interference does what the sequential system call does
 (`Descriptors`): the interleaving model cuts the calls up without changing them.
 */
module PipeAlone {
  import opened FileTable
  import opened Descriptors
  import opened PipeSystem
  import opened PipeTheorems

  // ----------------------------------------------------------- who holds what

  lemma Undo(refs: map<Holder, Object>, h: Holder, o: Object)
    requires h !in refs
    ensures refs[h := o] - {h} == refs
  {
  }

  lemma Swap(refs: map<Holder, Object>, g: Holder, h: Holder, o: Object, p: Object)
    requires g != h
    ensures refs[g := o][h := p] == refs[h := p][g := o]
  {
  }

  /** What `src` was given goes to `dst`. */
  lemma PassOn(refs: map<Holder, Object>, src: Holder, dst: Holder, o: Object)
    requires src !in refs
    ensures (refs[src := o] - {src})[dst := o] == refs[dst := o]
  {
    Undo(refs, src, o);
  }

  /** The first of two references goes to `dst`, the second stays. */
  lemma PassOnFirst(refs: map<Holder, Object>, g: Holder, h: Holder, dst: Holder, o: Object, p: Object)
    requires g !in refs && h !in refs && g != h && dst != h
    ensures (refs[g := o][h := p] - {g})[dst := o] == refs[dst := o][h := p]
    ensures (refs[g := o][h := p] - {g}) == refs[h := p]
  {
    Swap(refs, g, h, o, p);
    Undo(refs[h := p], g, o);
    Swap(refs, h, dst, p, o);
  }

  lemma GiveBack(refs: map<Holder, Object>, src: Holder, dst: Holder, o: Object)
    requires src !in refs && dst !in refs && src != dst
    ensures (refs[src := o] - {src})[dst := o] - {dst} == refs
  {
    PassOn(refs, src, dst, o);
    Undo(refs, dst, o);
  }

  lemma TakeAway(refs: map<Holder, Object>, src: Holder, dst: Holder)
    requires src in refs && dst !in refs
    ensures (refs - {src})[dst := refs[src]] - {dst} == refs - {src}
  {
    Undo(refs - {src}, dst, refs[src]);
  }

  lemma NewCallHoldsNothing(s: State, c: nat)
    requires Sound(s) && c !in s.calls
    ensures Local(c, 0) !in s.arcs.refs && Local(c, 1) !in s.arcs.refs
  {
  }

  lemma SlotsDecide(s: State, s': State, t: nat, slot: Target)
    requires forall i: nat :: Slot(t, i) in s.arcs.refs <==> Slot(t, i) in s'.arcs.refs
    ensures Finds(s, t, slot) <==> Finds(s', t, slot)
  {
    if slot.At? {
      LowestFreeBySlots(s.arcs.refs, s'.arcs.refs, t, slot.fd);
    }
  }

  // ------------------------------------------------------ close, dup and dup2

  /** `close`: the descriptor goes, and with it exactly one reference. */
  lemma CloseAlone(s: State, c: nat, t: nat, fd: nat)
    requires Sound(s) && Enabled(s, CloseRemove(c, t, fd))
    ensures var s1 := Apply(s, CloseRemove(c, t, fd));
            && Enabled(s1, Release(c))
            && Apply(s1, Release(c)).arcs.refs == s.arcs.refs - {Slot(t, fd)}
  {
    NewCallHoldsNothing(s, c);
    TakeAway(s.arcs.refs, Slot(t, fd), Local(c, 0));
  }

  /** `dup`: the lowest free descriptor gets what `fd` has, or nothing changes. */
  lemma DupAlone(s: State, c: nat, t: nat, fd: nat, slot: Target)
    requires Sound(s) && Enabled(s, DupGet(c, t, fd)) && Finds(s, t, slot)
    ensures var s1 := Apply(s, DupGet(c, t, fd));
            && Enabled(s1, Install(c, slot))
            && Apply(s1, Install(c, slot)).arcs.refs
               == if slot.At? then s.arcs.refs[Slot(t, slot.fd) := s.arcs.refs[Slot(t, fd)]] else s.arcs.refs
  {
    NewCallHoldsNothing(s, c);
    SlotsDecide(s, Apply(s, DupGet(c, t, fd)), t, slot);
    var o := s.arcs.refs[Slot(t, fd)];
    Undo(s.arcs.refs, Local(c, 0), o);
  }

  /** `dup2`: `newFd` gets what `fd` has. */
  lemma Dup2Alone(s: State, c: nat, t: nat, fd: nat, newFd: nat)
    requires Sound(s) && Enabled(s, Dup2Locked(c, t, fd, newFd))
    ensures Apply(s, Dup2Locked(c, t, fd, newFd)).arcs.refs
            == s.arcs.refs[Slot(t, newFd) := s.arcs.refs[Slot(t, fd)]]
  {
    NewCallHoldsNothing(s, c);
    if fd == newFd {
      assert s.arcs.refs[Slot(t, fd) := s.arcs.refs[Slot(t, fd)]] == s.arcs.refs;
    }
  }

  // -------------------------------------------------------------------- exit

  /** The steps that clear the open descriptors of table `t` below `n`, in order. */
  function ClearSteps(refs: map<Holder, Object>, t: nat, n: nat): seq<Step> {
    if n == 0 then []
    else if Slot(t, n - 1) in refs then ClearSteps(refs, t, n - 1) + [ClearSlot(t, n - 1)]
    else ClearSteps(refs, t, n - 1)
  }

  /** What is held after these steps. */
  function Cleared(refs: map<Holder, Object>, t: nat, n: nat): map<Holder, Object> {
    if n == 0 then refs
    else if Slot(t, n - 1) in refs then Cleared(refs, t, n - 1) - {Slot(t, n - 1)}
    else Cleared(refs, t, n - 1)
  }

  lemma {:induction false} ClearedIsWithout(refs: map<Holder, Object>, t: nat, n: nat)
    ensures Cleared(refs, t, n) == WithoutSlots(refs, t, n)
    ensures forall i: nat :: i >= n ==> (Slot(t, i) in Cleared(refs, t, n) <==> Slot(t, i) in refs)
  {
    if n > 0 {
      ClearedIsWithout(refs, t, n - 1);
      OneMoreSlotCleared(refs, t, n);
    }
  }

  lemma NotYetCleared(refs: map<Holder, Object>, t: nat, n: nat)
    ensures Slot(t, n) in refs ==> Slot(t, n) in Cleared(refs, t, n)
  {
    ClearedIsWithout(refs, t, n);
  }

  lemma ClearStep(s: State, front: seq<Step>, s1: State, t: nat, fd: nat) returns (s': State)
    requires Sound(s) && Runs(s, front, s1) && Sound(s1) && Slot(t, fd) in s1.arcs.refs
    ensures Runs(s, front + [ClearSlot(t, fd)], s') && Sound(s') && s'.arcs.refs == s1.arcs.refs - {Slot(t, fd)}
  {
    s' := Apply(s1, ClearSlot(t, fd));
    RunsSnoc(s, front, s1, ClearSlot(t, fd));
  }

  lemma {:induction false} ClearRuns(s: State, t: nat, n: nat) returns (s': State)
    requires Sound(s)
    ensures Runs(s, ClearSteps(s.arcs.refs, t, n), s') && Sound(s') && s'.arcs.refs == Cleared(s.arcs.refs, t, n)
    decreases n
  {
    if n == 0 {
      s' := s;
    } else {
      s' := ClearRuns(s, t, n - 1);
      NotYetCleared(s.arcs.refs, t, n - 1);
      if Slot(t, n - 1) in s.arcs.refs {
        s' := ClearStep(s, ClearSteps(s.arcs.refs, t, n - 1), s', t, n - 1);
      }
    }
  }

  /** Clearing a table slot by slot leaves exactly what the sequential `clear` leaves. */
  lemma ClearAlone(s: State, t: nat) returns (s': State)
    requires Sound(s)
    ensures Runs(s, ClearSteps(s.arcs.refs, t, AX_FILE_LIMIT), s')
    ensures s'.arcs.refs == WithoutSlots(s.arcs.refs, t, AX_FILE_LIMIT)
  {
    s' := ClearRuns(s, t, AX_FILE_LIMIT);
    ClearedIsWithout(s.arcs.refs, t, AX_FILE_LIMIT);
  }

  // ------------------------------------------------------------------- pipe2

  /** The two ends of the pipe that a `pipe2` starting in `s` makes. */
  function ReadEnd(s: State): Object {
    PipeEnd(s.arcs.nextPipe, true)
  }

  function WriteEnd(s: State): Object {
    PipeEnd(s.arcs.nextPipe, false)
  }

  /** `s` after `pipe2` installed its read end: only the write end is still its own. */
  ghost predicate ReadInstalled(s: State, s2: State, c: nat, t: nat, fd: nat) {
    && Sound(s2) && c in s2.calls && s2.calls[c] == HalfInstalled(t, fd, s.arcs.nextPipe)
    && s2.arcs.refs == s.arcs.refs[Slot(t, fd) := ReadEnd(s)]
                                  [Local(c, 1) := WriteEnd(s)]
  }

  lemma Pipe2Starts(s: State, c: nat, t: nat, slot: Target) returns (s1: State)
    requires Sound(s) && Enabled(s, Pipe2(c, t)) && Finds(s, t, slot)
    ensures s1 == Apply(s, Pipe2(c, t)) && Sound(s1) && c in s1.calls && s1.calls[c] == NewPair(t, s.arcs.nextPipe)
    ensures Enabled(s1, InstallRead(c, slot))
    ensures Local(c, 0) !in s.arcs.refs && Local(c, 1) !in s.arcs.refs
    ensures s1.arcs.refs == s.arcs.refs[Local(c, 0) := ReadEnd(s)]
                                       [Local(c, 1) := WriteEnd(s)]
  {
    NewCallHoldsNothing(s, c);
    s1 := DoPipe2(s, c, t);
    SlotsDecide(s, s1, t, slot);
  }

  lemma Pipe2Halfway(s: State, c: nat, t: nat, fd: nat) returns (s2: State)
    requires Sound(s) && Enabled(s, Pipe2(c, t)) && Finds(s, t, At(fd))
    ensures Enabled(Apply(s, Pipe2(c, t)), InstallRead(c, At(fd)))
    ensures s2 == Apply(Apply(s, Pipe2(c, t)), InstallRead(c, At(fd))) && ReadInstalled(s, s2, c, t, fd)
    ensures Local(c, 0) !in s.arcs.refs && Local(c, 1) !in s.arcs.refs && Slot(t, fd) !in s.arcs.refs
  {
    var s1 := Pipe2Starts(s, c, t, At(fd));
    PassOnFirst(s.arcs.refs, Local(c, 0), Local(c, 1), Slot(t, fd), ReadEnd(s), WriteEnd(s));
    s2 := DoInstallRead(s1, c, At(fd));
  }

  /** `pipe2` with room for both ends installs them at the two lowest free descriptors. */
  lemma Pipe2Alone(s: State, c: nat, t: nat, readFd: nat, writeFd: nat)
    requires Sound(s) && Enabled(s, Pipe2(c, t)) && IsLowestFree(s.arcs.refs, t, readFd)
    requires IsLowestFree(s.arcs.refs[Slot(t, readFd) := ReadEnd(s)], t, writeFd)
    ensures Enabled(Apply(s, Pipe2(c, t)), InstallRead(c, At(readFd)))
    ensures var s2 := Apply(Apply(s, Pipe2(c, t)), InstallRead(c, At(readFd)));
            && Enabled(s2, InstallWrite(c, At(writeFd)))
            && Apply(s2, InstallWrite(c, At(writeFd))).arcs.refs
               == s.arcs.refs[Slot(t, readFd) := ReadEnd(s)]
                             [Slot(t, writeFd) := WriteEnd(s)]
  {
    var s2 := Pipe2Halfway(s, c, t, readFd);
    SecondEndGoesIn(s, s2, c, t, readFd, writeFd);
  }

  lemma SecondEndGoesIn(s: State, s2: State, c: nat, t: nat, readFd: nat, writeFd: nat)
    requires ReadInstalled(s, s2, c, t, readFd) && Local(c, 1) !in s.arcs.refs
    requires IsLowestFree(s.arcs.refs[Slot(t, readFd) := ReadEnd(s)], t, writeFd)
    ensures Enabled(s2, InstallWrite(c, At(writeFd)))
    ensures Apply(s2, InstallWrite(c, At(writeFd))).arcs.refs
            == s.arcs.refs[Slot(t, readFd) := ReadEnd(s)][Slot(t, writeFd) := WriteEnd(s)]
  {
    var refs := s.arcs.refs[Slot(t, readFd) := ReadEnd(s)];
    LowestFreeBySlots(s2.arcs.refs, refs, t, writeFd);
    PassOn(refs, Local(c, 1), Slot(t, writeFd), WriteEnd(s));
  }

  /** `pipe2` with room for one end only takes that end out again and leaves everything as it was. */
  lemma Pipe2RollsBack(s: State, c: nat, t: nat, readFd: nat)
    requires Sound(s) && Enabled(s, Pipe2(c, t)) && IsLowestFree(s.arcs.refs, t, readFd)
    requires TableFull(s.arcs.refs[Slot(t, readFd) := ReadEnd(s)], t)
    ensures Enabled(Apply(s, Pipe2(c, t)), InstallRead(c, At(readFd)))
    ensures var s2 := Apply(Apply(s, Pipe2(c, t)), InstallRead(c, At(readFd)));
            && Enabled(s2, InstallWrite(c, NoRoom))
            && var s3 := Apply(s2, InstallWrite(c, NoRoom));
               && Enabled(s3, RollBack(c))
               && var s4 := Apply(s3, RollBack(c));
                  && Enabled(s4, Release(c))
                  && Apply(s4, Release(c)).arcs.refs == s.arcs.refs
  {
    var s2 := Pipe2Halfway(s, c, t, readFd);
    var s3 := SecondEndFails(s, s2, c, t, readFd);
    ReadEndGoes(s, s3, c, t, readFd);
  }

  lemma SecondEndFails(s: State, s2: State, c: nat, t: nat, fd: nat) returns (s3: State)
    requires ReadInstalled(s, s2, c, t, fd) && TableFull(s2.arcs.refs, t) && Local(c, 1) !in s.arcs.refs
    ensures Enabled(s2, InstallWrite(c, NoRoom)) && s3 == Apply(s2, InstallWrite(c, NoRoom)) && Sound(s3)
    ensures c in s3.calls && s3.calls[c] == RollingBack(t, fd, s.arcs.nextPipe)
    ensures s3.arcs.refs == s.arcs.refs[Slot(t, fd) := ReadEnd(s)]
  {
    Undo(s.arcs.refs[Slot(t, fd) := ReadEnd(s)], Local(c, 1), WriteEnd(s));
    s3 := DoInstallWrite(s2, c, NoRoom);
  }

  lemma ReadEndGoes(s: State, s3: State, c: nat, t: nat, fd: nat)
    requires Sound(s3) && Local(c, 0) !in s.arcs.refs && Slot(t, fd) !in s.arcs.refs
    requires c in s3.calls && s3.calls[c] == RollingBack(t, fd, s.arcs.nextPipe)
    requires s3.arcs.refs == s.arcs.refs[Slot(t, fd) := ReadEnd(s)]
    ensures Enabled(s3, RollBack(c))
    ensures var s4 := Apply(s3, RollBack(c));
            && Enabled(s4, Release(c))
            && Apply(s4, Release(c)).arcs.refs == s.arcs.refs
  {
    GiveBack(s.arcs.refs, Slot(t, fd), Local(c, 0), ReadEnd(s));
  }

  /** `pipe2` on a full table drops both ends. */
  lemma Pipe2FindsNoRoom(s: State, c: nat, t: nat)
    requires Sound(s) && Enabled(s, Pipe2(c, t)) && TableFull(s.arcs.refs, t)
    ensures var s1 := Apply(s, Pipe2(c, t));
            && Enabled(s1, InstallRead(c, NoRoom))
            && var s2 := Apply(s1, InstallRead(c, NoRoom));
               && Enabled(s2, Release(c))
               && Apply(s2, Release(c)).arcs.refs == s.arcs.refs
  {
    var s1 := Pipe2Starts(s, c, t, NoRoom);
    FirstEndFails(s, s1, c, t);
  }

  lemma FirstEndFails(s: State, s1: State, c: nat, t: nat)
    requires Sound(s1) && c in s1.calls && s1.calls[c].NewPair? && s1.calls[c].table == t
    requires Enabled(s1, InstallRead(c, NoRoom))
    requires Local(c, 0) !in s.arcs.refs && Local(c, 1) !in s.arcs.refs
    requires s1.arcs.refs == s.arcs.refs[Local(c, 0) := ReadEnd(s)][Local(c, 1) := WriteEnd(s)]
    ensures var s2 := Apply(s1, InstallRead(c, NoRoom));
            && Enabled(s2, Release(c))
            && Apply(s2, Release(c)).arcs.refs == s.arcs.refs
  {
    PassOnFirst(s.arcs.refs, Local(c, 0), Local(c, 1), Slot(t, 0), ReadEnd(s), WriteEnd(s));
    GiveBack(s.arcs.refs, Local(c, 1), Local(c, 0), WriteEnd(s));
  }
}
