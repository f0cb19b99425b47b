/**
 What holds in every state that any interleaving of the pipe system calls can reach.
 */
module PipeTheorems {
  import opened Ring
  import opened FileTable
  import opened PipeSystem

  /** `steps` leads from `s` to `s'`. */
  ghost predicate Runs(s: State, steps: seq<Step>, s': State)
    requires Sound(s)
    decreases |steps|
  {
    if steps == [] then s == s'
    else Enabled(s, steps[0]) && Runs(Apply(s, steps[0]), steps[1..], s')
  }

  lemma StartIsSound()
    ensures Sound(START) && EndsOk(START)
  {
  }

  ghost predicate Reached(steps: seq<Step>, s: State) {
    StartIsSound();
    Runs(START, steps, s)
  }

  // ------------------------------------------------ what a returned call says

  /**
   End of file was reported only for a pipe that no one can write to any more and that is
   empty; a short write and EPIPE only for a pipe that no one can read any more.
   */
  ghost predicate EndOk(a: Arcs, flows: seq<Flow>, call: Call) {
    match call
    case ReadDone(p, len, got) =>
      len > 0 && got == [] ==> Gone(a, PipeEnd(p, false)) && p < |flows| && flows[p].ring == []
    case WriteDone(p, buf, n) => n != |buf| ==> Gone(a, PipeEnd(p, true))
    case WriteEpipe(p) => Gone(a, PipeEnd(p, true))
    case _ => true
  }

  ghost predicate EndsOk(s: State) {
    forall c :: c in s.calls ==> EndOk(s.arcs, s.flows, s.calls[c])
  }

  lemma CalmKeepsEnds(s: State, s': State)
    requires Sound(s) && EndsOk(s) && Calm(s, s') && NoRevival(s.arcs, s'.arcs)
    ensures EndsOk(s')
  {
    forall c | c in s'.calls && IsResult(s'.calls[c])
      ensures EndOk(s'.arcs, s'.flows, s'.calls[c])
    {
      assert EndOk(s.arcs, s.flows, s.calls[c]);
      assert forall p :: 0 <= p < |s.flows| ==> s'.flows[p] == s'.flows[..|s.flows|][p];
    }
  }

  /** A call that is inside `Pipe::write` keeps the write end alive. */
  lemma WriterKeepsEndAlive(s: State, c: nat)
    requires Sound(s) && c in s.calls && s.calls[c].Writing?
    ensures !Gone(s.arcs, PipeEnd(s.calls[c].pipe, false))
  {
    assert Holds(s.arcs, c, s.calls[c]);
    HeldObjectIsLive(s.arcs, Local(c, 0));
  }

  /** Call `c` changes pipe `p` but does not put bytes into a drained pipe without writers. */
  lemma OthersKeepEnds(s: State, s': State, c: nat, p: nat)
    requires Sound(s) && EndsOk(s) && s'.arcs == s.arcs && p < |s.flows|
    requires c in s'.calls && s'.calls == s.calls[c := s'.calls[c]] && EndOk(s.arcs, s'.flows, s'.calls[c])
    requires |s'.flows| == |s.flows| && s'.flows == s.flows[p := s'.flows[p]]
    requires s.flows[p].ring == [] && Gone(s.arcs, PipeEnd(p, false)) ==> s'.flows[p].ring == []
    ensures EndsOk(s')
  {
    forall c' | c' in s'.calls && c' != c
      ensures EndOk(s'.arcs, s'.flows, s'.calls[c'])
    {
      assert EndOk(s.arcs, s.flows, s.calls[c']);
    }
  }

  lemma ReadKeepsEnds(s: State, c: nat)
    requires Sound(s) && EndsOk(s) && c in s.calls && s.calls[c].Reading?
    ensures EndsOk(DoRead(s, c))
  {
    assert Holds(s.arcs, c, s.calls[c]);
    ClosedMeansPeerUnheld(s.arcs, Local(c, 0));
    if DoRead(s, c) != s {
      OthersKeepEnds(s, DoRead(s, c), c, s.calls[c].pipe);
    }
  }

  lemma WriteCheckKeepsEnds(s: State, c: nat)
    requires Sound(s) && EndsOk(s) && c in s.calls && s.calls[c].Starting?
    ensures EndsOk(DoWriteCheck(s, c))
  {
    assert Holds(s.arcs, c, s.calls[c]);
    ClosedMeansPeerUnheld(s.arcs, Local(c, 0));
    assert s.flows == s.flows[s.calls[c].pipe := s.flows[s.calls[c].pipe]];
    OthersKeepEnds(s, DoWriteCheck(s, c), c, s.calls[c].pipe);
  }

  lemma WriteKeepsEnds(s: State, c: nat)
    requires Sound(s) && EndsOk(s) && c in s.calls && s.calls[c].Writing?
    ensures EndsOk(DoWrite(s, c))
  {
    assert Holds(s.arcs, c, s.calls[c]);
    ClosedMeansPeerUnheld(s.arcs, Local(c, 0));
    WriterKeepsEndAlive(s, c);
    if DoWrite(s, c) != s {
      OthersKeepEnds(s, DoWrite(s, c), c, s.calls[c].pipe);
    }
  }

  lemma StepKeepsEnds(s: State, step: Step)
    requires Sound(s) && EndsOk(s) && Enabled(s, step)
    ensures EndsOk(Apply(s, step))
  {
    if !MovesBytes(step) {
      CalmKeepsEnds(s, Apply(s, step));
    } else {
      match step
      case ReadStep(c) => ReadKeepsEnds(s, c);
      case WriteCheck(c) => WriteCheckKeepsEnds(s, c);
      case WriteStep(c) => WriteKeepsEnds(s, c);
    }
  }

  // ---------------------------------------------------------------- every run

  lemma {:induction false} RunsKeepAll(s: State, steps: seq<Step>, s': State)
    requires Sound(s) && Runs(s, steps, s')
    ensures Sound(s') && NoRevival(s.arcs, s'.arcs)
    ensures EndsOk(s) ==> EndsOk(s')
    decreases |steps|
  {
    if steps != [] {
      if EndsOk(s) {
        StepKeepsEnds(s, steps[0]);
      }
      RunsKeepAll(Apply(s, steps[0]), steps[1..], s');
    }
  }

  lemma SnocTail(steps: seq<Step>, step: Step)
    ensures steps == [] ==> (steps + [step])[1..] == []
    ensures steps != [] ==> (steps + [step])[0] == steps[0] && (steps + [step])[1..] == steps[1..] + [step]
  {
  }

  /** One more step of a run. */
  lemma {:induction false} RunsSnoc(s: State, steps: seq<Step>, s': State, step: Step)
    requires Sound(s) && Runs(s, steps, s') && Sound(s') && Enabled(s', step)
    ensures Runs(s, steps + [step], Apply(s', step))
    decreases |steps|
  {
    SnocTail(steps, step);
    if steps != [] {
      RunsSnoc(Apply(s, steps[0]), steps[1..], s', step);
    }
  }

  /**
   In every reachable state, `closed` seen from an end that someone holds is true exactly when
   no descriptor in any table and no call in progress holds the other end.
   */
  lemma ClosedIsExact(steps: seq<Step>, s: State, h: Holder)
    requires Reached(steps, s)
    requires h in s.arcs.refs && s.arcs.refs[h].PipeEnd?
    ensures s.arcs.refs[h].pipe in s.arcs.buffers
    ensures Closed(s.arcs, s.arcs.refs[h]) <==>
              forall h' :: h' in s.arcs.refs ==> s.arcs.refs[h'] != Peer(s.arcs.refs[h])
  {
    StartIsSound();
    RunsKeepAll(START, steps, s);
    ClosedMeansPeerUnheld(s.arcs, h);
  }

  /**
   In every reachable state the bytes delivered, then the bytes in the ring, are the bytes
   accepted; and each call's own bytes appear in the histories in the call's order.
   */
  lemma StreamIsPreserved(steps: seq<Step>, s: State, p: nat)
    requires Reached(steps, s) && p < |s.flows|
    ensures Bytes(s.flows[p].delivered) + s.flows[p].ring == Bytes(s.flows[p].accepted)
    ensures |s.flows[p].ring| <= RING_BUFFER_SIZE
    ensures forall c :: c in s.calls ==>
              By(s.flows[p].accepted, c) == Sent(s.calls[c], p) && By(s.flows[p].delivered, c) == Got(s.calls[c], p)
  {
    StartIsSound();
    RunsKeepAll(START, steps, s);
    assert PipeOk(s.flows[p], p, s.calls);
    forall c | c in s.calls
      ensures By(s.flows[p].accepted, c) == Sent(s.calls[c], p) && By(s.flows[p].delivered, c) == Got(s.calls[c], p)
    {
      assert CallFlowOk(s.flows[p], p, s.calls, c);
    }
  }

  /**
   A write that returned Ok(n) contributed exactly the first n bytes of the buffer it works on, and n is
   its whole length unless no one holds the read end any more.
   */
  lemma WrittenPrefix(steps: seq<Step>, s: State, c: nat)
    requires Reached(steps, s) && c in s.calls && s.calls[c].WriteDone?
    ensures s.calls[c].pipe < |s.flows| && s.calls[c].n <= |s.calls[c].buf|
    ensures By(s.flows[s.calls[c].pipe].accepted, c) == s.calls[c].buf[..s.calls[c].n]
    ensures s.calls[c].n < |s.calls[c].buf| ==>
              forall h :: h in s.arcs.refs ==> s.arcs.refs[h] != PipeEnd(s.calls[c].pipe, true)
  {
    StartIsSound();
    RunsKeepAll(START, steps, s);
    assert InRange(s.calls[c], |s.flows|);
    StreamIsPreserved(steps, s, s.calls[c].pipe);
    assert EndOk(s.arcs, s.flows, s.calls[c]);
    GoneHasNoHolder(s.arcs, PipeEnd(s.calls[c].pipe, true));
  }

  lemma GoneHasNoHolder(a: Arcs, o: Object)
    requires Consistent(a)
    ensures Gone(a, o) ==> forall h :: h in a.refs ==> a.refs[h] != o
  {
    forall h | h in a.refs && a.refs[h] == o
      ensures o in a.strong
    {
      HeldObjectIsLive(a, h);
    }
  }

  // ------------------------------------------------- what ends a waiting call

  /**
   A round of a read into a non-empty buffer returns 0 exactly when the ring is empty and no one
   holds the write end, and waits exactly when the ring is empty and someone does.
   */
  lemma ReadRoundIsExact(s: State, c: nat)
    requires Sound(s) && c in s.calls && s.calls[c].Reading? && s.calls[c].len > 0
    ensures s.calls[c].pipe < |s.flows|
    ensures var Reading(p, len) := s.calls[c];
            var noWriter := forall h :: h in s.arcs.refs ==> s.arcs.refs[h] != PipeEnd(p, false);
            && (DoRead(s, c).calls[c] == ReadDone(p, len, []) <==> s.flows[p].ring == [] && noWriter)
            && (DoRead(s, c) == s <==> s.flows[p].ring == [] && !noWriter)
  {
    assert Holds(s.arcs, c, s.calls[c]);
    ClosedMeansPeerUnheld(s.arcs, Local(c, 0));
  }

  /** A round that finds bytes takes the oldest ones, and fills the buffer or empties the ring. */
  lemma ReadTakesOldest(s: State, c: nat)
    requires Sound(s) && c in s.calls && s.calls[c].Reading? && s.calls[c].len > 0
    requires s.calls[c].pipe < |s.flows| && s.flows[s.calls[c].pipe].ring != []
    ensures var Reading(p, len) := s.calls[c];
            var s' := DoRead(s, c);
            && s'.calls[c].ReadDone? && s'.calls[c].pipe == p && s'.calls[c].len == len
            && s.flows[p].ring == s'.calls[c].got + s'.flows[p].ring
            && (|s'.calls[c].got| == len || s'.flows[p].ring == []) && |s'.calls[c].got| <= len
  {
    assert Holds(s.arcs, c, s.calls[c]);
  }

  /** A read into an empty buffer returns at once and moves nothing. */
  lemma EmptyReadReturns(s: State, c: nat)
    requires Sound(s) && c in s.calls && s.calls[c].Reading? && s.calls[c].len == 0
    ensures DoRead(s, c) == s.(calls := s.calls[c := ReadDone(s.calls[c].pipe, 0, [])])
  {
    var Reading(p, _) := s.calls[c];
    var f := s.flows[p];
    assert f.delivered + Tag(c, []) == f.delivered && f.ring[0..] == f.ring;
    assert s.flows[p := f] == s.flows;
  }

  /**
   A write starts with EPIPE exactly when no one holds the read end; otherwise it returns at once exactly
   when there is nothing to write.
   */
  lemma WriteCheckIsExact(s: State, c: nat)
    requires Sound(s) && c in s.calls && s.calls[c].Starting?
    ensures var Starting(p, buf) := s.calls[c];
            var noReader := forall h :: h in s.arcs.refs ==> s.arcs.refs[h] != PipeEnd(p, true);
            DoWriteCheck(s, c).calls[c]
            == if noReader then WriteEpipe(p) else if buf == [] then WriteDone(p, buf, 0) else Writing(p, buf, 0)
  {
    assert Holds(s.arcs, c, s.calls[c]);
    ClosedMeansPeerUnheld(s.arcs, Local(c, 0));
  }

  /**
   A round of a write ends the call short exactly when the ring is full, bytes are left and no one
   holds the read end; it leaves everything as it was exactly when the ring is full and someone does.
   */
  lemma WriteRoundIsExact(s: State, c: nat)
    requires Sound(s) && c in s.calls && s.calls[c].Writing?
    ensures s.calls[c].pipe < |s.flows|
    ensures var Writing(p, buf, sent) := s.calls[c];
            var noReader := forall h :: h in s.arcs.refs ==> s.arcs.refs[h] != PipeEnd(p, true);
            var call := DoWrite(s, c).calls[c];
            var full := |s.flows[p].ring| == RING_BUFFER_SIZE;
            && (call.WriteDone? && call.n < |buf| <==> full && noReader && sent < |buf|)
            && (DoWrite(s, c) == s <==> full && !noReader)
    // A round stores the next bytes until the buffer is done or the ring is full.
    ensures var Writing(p, buf, sent) := s.calls[c];
            var s' := DoWrite(s, c);
            var sent' := if s'.calls[c].WriteDone? then s'.calls[c].n else s'.calls[c].sent;
            && (s'.calls[c] == WriteDone(p, buf, sent') || s'.calls[c] == Writing(p, buf, sent'))
            && sent <= sent' <= |buf| && s'.flows[p].ring == s.flows[p].ring + buf[sent..sent']
            && (sent' == |buf| || |s'.flows[p].ring| == RING_BUFFER_SIZE)
  {
    assert Holds(s.arcs, c, s.calls[c]);
    ClosedMeansPeerUnheld(s.arcs, Local(c, 0));
    assert PipeOk(s.flows[s.calls[c].pipe], s.calls[c].pipe, s.calls);
  }

  // -------------------------------------------------------------- end of file

  lemma FrozenUnderRead(s: State, c: nat, p: nat)
    requires Sound(s) && c in s.calls && s.calls[c].Reading? && p < |s.flows| && s.flows[p].ring == []
    ensures DoRead(s, c).flows[p] == s.flows[p]
  {
    assert s.flows[p].delivered + Tag(c, []) == s.flows[p].delivered;
  }

  lemma FrozenUnderCheck(s: State, c: nat, p: nat)
    requires Sound(s) && c in s.calls && s.calls[c].Starting? && p < |s.flows|
    requires Gone(s.arcs, PipeEnd(p, false))
    ensures DoWriteCheck(s, c).flows[p] == s.flows[p]
  {
    assert Holds(s.arcs, c, s.calls[c]);
    HeldObjectIsLive(s.arcs, Local(c, 0));
  }

  lemma FrozenUnderWrite(s: State, c: nat, p: nat)
    requires Sound(s) && c in s.calls && s.calls[c].Writing? && p < |s.flows|
    requires Gone(s.arcs, PipeEnd(p, false))
    ensures DoWrite(s, c).flows[p] == s.flows[p]
  {
    WriterKeepsEndAlive(s, c);
  }

  /** Once no one holds the write end and the ring is empty, no step moves a byte through the pipe. */
  lemma DrainedPipeIsFrozen(s: State, step: Step, p: nat)
    requires Sound(s) && Enabled(s, step) && p < |s.flows|
    requires Gone(s.arcs, PipeEnd(p, false)) && s.flows[p].ring == []
    ensures p < |Apply(s, step).flows| && Apply(s, step).flows[p] == s.flows[p]
  {
    if !MovesBytes(step) {
      assert Apply(s, step).flows[p] == Apply(s, step).flows[..|s.flows|][p];
    } else {
      match step
      case ReadStep(c) => FrozenUnderRead(s, c, p);
      case WriteCheck(c) => FrozenUnderCheck(s, c, p);
      case WriteStep(c) => FrozenUnderWrite(s, c, p);
    }
  }

  lemma {:induction false} DrainedPipeStaysFrozen(s: State, steps: seq<Step>, s': State, p: nat)
    requires Sound(s) && Runs(s, steps, s') && p < |s.flows|
    requires Gone(s.arcs, PipeEnd(p, false)) && s.flows[p].ring == []
    ensures p < |s'.flows| && s'.flows[p] == s.flows[p]
    decreases |steps|
  {
    if steps != [] {
      DrainedPipeIsFrozen(s, steps[0], p);
      DrainedPipeStaysFrozen(Apply(s, steps[0]), steps[1..], s', p);
    }
  }

  /**
   A read into a non-empty buffer returns 0 only when every accepted byte has been delivered,
   and then no later step of any run accepts or delivers another byte.
   */
  lemma EndOfFileIsFinal(steps: seq<Step>, s: State, c: nat, more: seq<Step>, s': State)
    requires Reached(steps, s) && c in s.calls
    requires s.calls[c].ReadDone? && s.calls[c].len > 0 && s.calls[c].got == []
    requires Sound(s) && Runs(s, more, s')
    ensures s.calls[c].pipe < |s.flows| && s.calls[c].pipe < |s'.flows|
    ensures Bytes(s.flows[s.calls[c].pipe].delivered) == Bytes(s.flows[s.calls[c].pipe].accepted)
    ensures s'.flows[s.calls[c].pipe] == s.flows[s.calls[c].pipe]
  {
    StartIsSound();
    RunsKeepAll(START, steps, s);
    assert EndOk(s.arcs, s.flows, s.calls[c]);
    DrainedPipeStaysFrozen(s, more, s', s.calls[c].pipe);
    StreamIsPreserved(steps, s, s.calls[c].pipe);
  }
}
