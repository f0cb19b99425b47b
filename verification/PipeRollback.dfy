/**
 The rollback of `pipe2` when other threads of the process work on the same table: between the two
 insertions the new read descriptor is visible to them.
 */
module PipeRollback {
  import opened FileTable
  import opened PipeSystem
  import opened PipeTheorems

  /**
   The rollback panics exactly when the read end's slot has been emptied.  Otherwise it takes out what
   is in the slot, and that is not the pipe's own end exactly when the slot was refilled.
   */
  lemma RollBackIsExact(s: State, c: nat)
    requires Sound(s) && Enabled(s, RollBack(c))
    ensures var RollingBack(t, fd, p) := s.calls[c];
            var s' := Apply(s, RollBack(c));
            && c in s'.calls && (s'.calls[c] == Panicked <==> Slot(t, fd) !in s.arcs.refs)
            && Slot(t, fd) !in s'.arcs.refs
            && (Slot(t, fd) in s.arcs.refs ==>
                  && s'.calls[c] == Leaving && Local(c, 0) in s'.arcs.refs
                  && s'.arcs.refs[Local(c, 0)] == s.arcs.refs[Slot(t, fd)])
  {
    assert Holds(s.arcs, c, s.calls[c]);
  }

  // ------------------------------------------------------------- a full table

  lemma Then(steps: seq<Step>, s: State, step: Step) returns (s': State)
    requires Reached(steps, s) && Sound(s) && Enabled(s, step)
    ensures s' == Apply(s, step) && Reached(steps + [step], s') && Sound(s')
  {
    StartIsSound();
    s' := Apply(s, step);
    RunsSnoc(START, steps, s, step);
  }

  /** Table 0 has exactly the first `n` descriptors open, and the calls so far have numbers below `n`. */
  ghost predicate Opened(s: State, n: nat) {
    && Sound(s) && s.arcs.nextTable == 1
    && (forall i: nat :: Slot(0, i) in s.arcs.refs <==> i < n)
    && (forall c :: c in s.calls ==> c < n)
  }

  lemma SlotFilled(refs: map<Holder, Object>, h: Holder, fd: nat)
    requires h in refs && h.Local?
    ensures var refs' := (refs - {h})[Slot(0, fd) := refs[h]];
            forall i: nat :: Slot(0, i) in refs' <==> Slot(0, i) in refs || i == fd
  {
  }

  lemma OpenOne(s: State, n: nat)
    requires Opened(s, n) && n < AX_FILE_LIMIT
    ensures Enabled(s, Open(n, 0))
    ensures var s1 := Apply(s, Open(n, 0));
            && Enabled(s1, Install(n, At(n))) && s1.arcs.nextTable == 1
            && s1.calls == s.calls[n := Installing(0)]
            && s1.arcs.refs == s.arcs.refs[Local(n, 0) := Other(s.arcs.nextOther)]
  {
    var s1 := Apply(s, Open(n, 0));
    assert IsLowestFree(s1.arcs.refs, 0, n);
  }

  lemma InstallOne(s: State, s1: State, n: nat)
    requires Opened(s, n) && n < AX_FILE_LIMIT && Sound(s1) && Enabled(s1, Install(n, At(n))) && s1.arcs.nextTable == 1
    requires s1.calls == s.calls[n := Installing(0)]
    requires s1.arcs.refs == s.arcs.refs[Local(n, 0) := Other(s.arcs.nextOther)]
    ensures Opened(Apply(s1, Install(n, At(n))), n + 1)
  {
    var s2 := Apply(s1, Install(n, At(n)));
    SlotFilled(s1.arcs.refs, Local(n, 0), n);
    assert s2.arcs.refs == (s1.arcs.refs - {Local(n, 0)})[Slot(0, n) := s1.arcs.refs[Local(n, 0)]];
  }

  lemma OpenOneMore(front: seq<Step>, s: State, n: nat) returns (steps: seq<Step>, s': State)
    requires Reached(front, s) && Opened(s, n) && n < AX_FILE_LIMIT
    ensures Reached(steps, s') && Opened(s', n + 1)
  {
    OpenOne(s, n);
    var s1 := Then(front, s, Open(n, 0));
    InstallOne(s, s1, n);
    s' := Then(front + [Open(n, 0)], s1, Install(n, At(n)));
    steps := front + [Open(n, 0)] + [Install(n, At(n))];
  }

  lemma NoneOpened() returns (steps: seq<Step>, s: State)
    ensures Reached(steps, s) && Opened(s, 0)
  {
    StartIsSound();
    s := Then([], START, NewTable);
    steps := [] + [NewTable];
  }

  lemma {:induction false} FillTable(n: nat) returns (steps: seq<Step>, s: State)
    requires n <= AX_FILE_LIMIT
    ensures Reached(steps, s) && Opened(s, n)
    decreases n
  {
    if n == 0 {
      steps, s := NoneOpened();
    } else {
      steps, s := FillTable(n - 1);
      steps, s := OpenOneMore(steps, s, n - 1);
    }
  }

  // ------------------------------------------------------------ interference

  /** Call `c` of `pipe2` is about to roll back descriptor 1023 of table 0, and no call has a higher number. */
  ghost predicate AboutToRollBack(s: State, c: nat) {
    && Sound(s) && s.arcs.nextTable == 1 && c in s.calls && s.calls[c].RollingBack?
    && s.calls[c].table == 0 && s.calls[c].readFd == LAST
    && (forall i: nat :: i < AX_FILE_LIMIT <==> Slot(0, i) in s.arcs.refs)
    && s.arcs.refs[Slot(0, LAST)] == PipeEnd(s.calls[c].pipe, true)
    && (forall d :: d in s.calls ==> d <= c)
  }

  const LAST: nat := AX_FILE_LIMIT - 1

  lemma Pipe2Begins(s: State)
    requires Opened(s, LAST)
    ensures Enabled(s, Pipe2(LAST, 0))
    ensures var s1 := Apply(s, Pipe2(LAST, 0));
            && Enabled(s1, InstallRead(LAST, At(LAST))) && s1.arcs.nextTable == 1
            && s1.calls == s.calls[LAST := NewPair(0, s.arcs.nextPipe)]
            && s1.arcs.refs == s.arcs.refs[Local(LAST, 0) := PipeEnd(s.arcs.nextPipe, true)]
                                          [Local(LAST, 1) := PipeEnd(s.arcs.nextPipe, false)]
  {
    var s1 := Apply(s, Pipe2(LAST, 0));
    assert IsLowestFree(s1.arcs.refs, 0, LAST);
  }

  /** The read end takes the last descriptor. */
  ghost predicate LastTaken(s: State, s2: State) {
    && Sound(s2) && s2.arcs.nextTable == 1
    && s2.calls == s.calls[LAST := HalfInstalled(0, LAST, s.arcs.nextPipe)]
    && (forall i: nat :: Slot(0, i) in s2.arcs.refs <==> i < AX_FILE_LIMIT)
    && s2.arcs.refs[Slot(0, LAST)] == PipeEnd(s.arcs.nextPipe, true)
  }

  lemma ReadEndGoesIn(s: State, s1: State)
    requires Opened(s, LAST) && Sound(s1) && Enabled(s1, InstallRead(LAST, At(LAST))) && s1.arcs.nextTable == 1
    requires s1.calls == s.calls[LAST := NewPair(0, s.arcs.nextPipe)]
    requires s1.arcs.refs == s.arcs.refs[Local(LAST, 0) := PipeEnd(s.arcs.nextPipe, true)]
                                        [Local(LAST, 1) := PipeEnd(s.arcs.nextPipe, false)]
    ensures LastTaken(s, Apply(s1, InstallRead(LAST, At(LAST))))
  {
    ReadEndMoves(s1);
    SlotFilled(s1.arcs.refs, Local(LAST, 0), LAST);
  }

  lemma ReadEndMoves(s1: State)
    requires Sound(s1) && Enabled(s1, InstallRead(LAST, At(LAST))) && s1.calls[LAST].table == 0
    ensures Local(LAST, 0) in s1.arcs.refs
    ensures var s2 := Apply(s1, InstallRead(LAST, At(LAST)));
            && s2.arcs.refs == (s1.arcs.refs - {Local(LAST, 0)})[Slot(0, LAST) := s1.arcs.refs[Local(LAST, 0)]]
            && s2.calls == s1.calls[LAST := HalfInstalled(0, LAST, s1.calls[LAST].pipe)]
            && s2.arcs.nextTable == s1.arcs.nextTable
  {
    assert Holds(s1.arcs, LAST, s1.calls[LAST]);
  }

  lemma WriteEndFails(s: State, s2: State)
    requires Opened(s, LAST) && LastTaken(s, s2)
    ensures Enabled(s2, InstallWrite(LAST, NoRoom)) && AboutToRollBack(Apply(s2, InstallWrite(LAST, NoRoom)), LAST)
  {
    var s3 := Apply(s2, InstallWrite(LAST, NoRoom));
    assert s3.arcs.refs == s2.arcs.refs - {Local(LAST, 1)};
  }

  lemma RollBackIsReached() returns (steps: seq<Step>, s: State)
    ensures Reached(steps, s) && AboutToRollBack(s, LAST)
  {
    var front, s0 := FillTable(LAST);
    Pipe2Begins(s0);
    var s1 := Then(front, s0, Pipe2(LAST, 0));
    ReadEndGoesIn(s0, s1);
    var s2 := Then(front + [Pipe2(LAST, 0)], s1, InstallRead(LAST, At(LAST)));
    WriteEndFails(s0, s2);
    s := Then(front + [Pipe2(LAST, 0)] + [InstallRead(LAST, At(LAST))], s2, InstallWrite(LAST, NoRoom));
    steps := front + [Pipe2(LAST, 0)] + [InstallRead(LAST, At(LAST))] + [InstallWrite(LAST, NoRoom)];
  }

  /** Another call closes the descriptor first. */
  ghost predicate Emptied(s: State, s': State, c: nat) {
    && Sound(s') && s'.arcs.nextTable == 1 && c in s.calls && c in s'.calls && s'.calls[c] == s.calls[c]
    && (forall i: nat :: Slot(0, i) in s'.arcs.refs <==> i < LAST)
    && (forall d :: d in s'.calls ==> d <= c + 1)
  }

  lemma OtherCloses(s: State, c: nat)
    requires AboutToRollBack(s, c)
    ensures Enabled(s, CloseRemove(c + 1, 0, LAST)) && Emptied(s, Apply(s, CloseRemove(c + 1, 0, LAST)), c)
  {
    var s' := Apply(s, CloseRemove(c + 1, 0, LAST));
    assert s'.arcs.refs
        == (s.arcs.refs - {Slot(0, LAST)})[Local(c + 1, 0) := s.arcs.refs[Slot(0, LAST)]];
  }

  /** A run in which another thread closes the new descriptor and the rollback panics. */
  lemma RollBackPanics() returns (steps: seq<Step>, s: State, c: nat)
    ensures Reached(steps, s) && c in s.calls && s.calls[c] == Panicked
  {
    var front, s0 := RollBackIsReached();
    c := LAST;
    OtherCloses(s0, c);
    var s1 := Then(front, s0, CloseRemove(c + 1, 0, LAST));
    RollBackIsExact(s1, c);
    s := Then(front + [CloseRemove(c + 1, 0, LAST)], s1, RollBack(c));
    steps := front + [CloseRemove(c + 1, 0, LAST)] + [RollBack(c)];
  }

  lemma OtherOpens(s: State, s1: State, c: nat)
    requires AboutToRollBack(s, c) && Emptied(s, s1, c)
    ensures Enabled(s1, Open(c + 2, 0))
    ensures var s2 := Apply(s1, Open(c + 2, 0));
            && Enabled(s2, Install(c + 2, At(LAST))) && c in s2.calls && s2.calls[c] == s.calls[c]
            && s2.calls[c + 2] == Installing(0)
            && Local(c + 2, 0) in s2.arcs.refs && s2.arcs.refs[Local(c + 2, 0)].Other?
  {
    var s2 := Apply(s1, Open(c + 2, 0));
    assert s2.arcs.refs == s1.arcs.refs[Local(c + 2, 0) := Other(s1.arcs.nextOther)];
    assert IsLowestFree(s2.arcs.refs, 0, LAST);
  }

  lemma OtherInstalls(s: State, s2: State, c: nat)
    requires AboutToRollBack(s, c) && Sound(s2) && Enabled(s2, Install(c + 2, At(LAST)))
    requires s2.calls[c + 2] == Installing(0) && c in s2.calls && s2.calls[c] == s.calls[c]
    requires Local(c + 2, 0) in s2.arcs.refs && s2.arcs.refs[Local(c + 2, 0)].Other?
    ensures var s3 := Apply(s2, Install(c + 2, At(LAST)));
            && c in s3.calls && s3.calls[c] == s.calls[c]
            && Slot(0, LAST) in s3.arcs.refs && s3.arcs.refs[Slot(0, LAST)].Other?
  {
  }

  /** A run in which another thread closes the descriptor and opens a file at it; the rollback closes that file. */
  lemma RollBackClosesOther() returns (steps: seq<Step>, s: State, s': State, c: nat)
    ensures Reached(steps, s) && Sound(s) && Enabled(s, RollBack(c)) && s' == Apply(s, RollBack(c))
    ensures Slot(s.calls[c].table, s.calls[c].readFd) in s.arcs.refs
    ensures s.arcs.refs[Slot(s.calls[c].table, s.calls[c].readFd)] != PipeEnd(s.calls[c].pipe, true)
    ensures Slot(s.calls[c].table, s.calls[c].readFd) !in s'.arcs.refs
  {
    var front, s0 := RollBackIsReached();
    c := LAST;
    OtherCloses(s0, c);
    var s1 := Then(front, s0, CloseRemove(c + 1, 0, LAST));
    OtherOpens(s0, s1, c);
    var s2 := Then(front + [CloseRemove(c + 1, 0, LAST)], s1, Open(c + 2, 0));
    OtherInstalls(s0, s2, c);
    s := Then(front + [CloseRemove(c + 1, 0, LAST)] + [Open(c + 2, 0)], s2, Install(c + 2, At(LAST)));
    steps := front + [CloseRemove(c + 1, 0, LAST)] + [Open(c + 2, 0)] + [Install(c + 2, At(LAST))];
    RollBackIsExact(s, c);
    s' := Apply(s, RollBack(c));
  }
}
