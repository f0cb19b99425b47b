/**
 Every interleaving of the system calls that touch pipes, as a transition system.
 A step is what one thread does between two points where another thread may run:
 taking the table lock, holding the ring lock for one round, or dropping an Arc.
 `yield_now` is any number of steps of other calls.
 */
module PipeSystem {
  import opened Common
  import opened Ring
  import opened FileTable

  /** A byte together with the call that moved it. */
  datatype Moved = Moved(call: nat, b: Byte)

  /** A system call that has started; it keeps its entry, with its result, after it returns. */
  datatype Call =
    | Installing(table: nat)                             // holds an Arc that it will put in the table
    | NewPair(table: nat, pipe: nat)                     // pipe2 holding both ends
    | HalfInstalled(table: nat, readFd: nat, pipe: nat)  // pipe2 with the read end installed
    | RollingBack(table: nat, readFd: nat, pipe: nat)    // pipe2 about to close the read end
    | Leaving                                            // returning; a local Arc may still be held
    | Panicked                                           // pipe2 found its read end already closed
    | Reading(pipe: nat, len: nat)
    | ReadDone(pipe: nat, len: nat, got: seq<Byte>)
    | Starting(pipe: nat, buf: seq<Byte>)                // write before its `closed` test
    | Writing(pipe: nat, buf: seq<Byte>, sent: nat)
    | WriteDone(pipe: nat, buf: seq<Byte>, n: nat)
    | WriteEpipe(pipe: nat)

  /** The ring's bytes, and the histories of what writers stored and readers took, in lock order. */
  datatype Flow = Flow(ring: seq<Byte>, accepted: seq<Moved>, delivered: seq<Moved>)

  datatype State = State(
    arcs: Arcs,
    calls: map<nat, Call>,
    flows: seq<Flow>)                                    // indexed by pipe

  datatype Step =
    | NewTable
    | Open(c: nat, t: nat)
    | Pipe2(c: nat, t: nat)
    | InstallRead(c: nat, slot: Target)
    | InstallWrite(c: nat, slot: Target)
    | RollBack(c: nat)
    | DupGet(c: nat, t: nat, fd: nat)
    | Install(c: nat, slot: Target)
    | Dup2Locked(c: nat, t: nat, fd: nat, newFd: nat)
    | CloseRemove(c: nat, t: nat, fd: nat)
    | Release(c: nat)
    | Fork(t: nat)
    | ClearSlot(t: nat, fd: nat)                         // exit drops the Arcs of a table one by one
    | ReadStart(c: nat, t: nat, fd: nat, len: nat)
    | ReadStep(c: nat)
    | WriteStart(c: nat, t: nat, fd: nat, buf: seq<Byte>)
    | WriteCheck(c: nat)
    | WriteStep(c: nat)

  /** What `FlattenObjects::add` finds: the lowest free descriptor, or a full table. */
  datatype Target = At(fd: nat) | NoRoom

  const START: State := State(INITIAL, map[], [])

  // ------------------------------------------------------- who holds what

  /** What call `c` holds while it is in the given state. */
  ghost predicate Holds(a: Arcs, c: nat, call: Call) {
    match call
    case Installing(t) => Local(c, 0) in a.refs && t < a.nextTable
    case NewPair(t, _) => Local(c, 0) in a.refs && Local(c, 1) in a.refs && t < a.nextTable
    case HalfInstalled(t, _, _) => Local(c, 0) !in a.refs && Local(c, 1) in a.refs && t < a.nextTable
    case RollingBack(_, _, _) => Local(c, 0) !in a.refs
    case Reading(p, _) => Local(c, 0) in a.refs && a.refs[Local(c, 0)] == PipeEnd(p, true)
    case Starting(p, _) => Local(c, 0) in a.refs && a.refs[Local(c, 0)] == PipeEnd(p, false)
    case Writing(p, _, _) => Local(c, 0) in a.refs && a.refs[Local(c, 0)] == PipeEnd(p, false)
    case _ => true
  }

  ghost predicate OwnershipOk(s: State) {
    && Consistent(s.arcs)
    && (forall c, i :: Local(c, i) in s.arcs.refs ==> c in s.calls)
    && (forall c :: c in s.calls ==> Holds(s.arcs, c, s.calls[c]))
  }

  /** Going from `a` to `b` leaves alone what calls other than `c` hold. */
  ghost predicate OthersKeep(a: Arcs, b: Arcs, c: nat) {
    && a.nextTable <= b.nextTable
    && (forall c', i :: c' != c ==> (Local(c', i) in a.refs <==> Local(c', i) in b.refs))
    && (forall c', i :: c' != c && Local(c', i) in a.refs && Local(c', i) in b.refs ==>
                          a.refs[Local(c', i)] == b.refs[Local(c', i)])
  }

  function With(s: State, b: Arcs, c: nat, call: Call): State {
    s.(arcs := b, calls := s.calls[c := call])
  }

  lemma WithKeepsOwnership(s: State, b: Arcs, c: nat, call: Call)
    requires OwnershipOk(s) && Consistent(b) && OthersKeep(s.arcs, b, c) && Holds(b, c, call)
    ensures OwnershipOk(With(s, b, c, call))
  {
    var s' := With(s, b, c, call);
    forall c' | c' in s'.calls && c' != c
      ensures Holds(b, c', s'.calls[c'])
    {
      assert Holds(s.arcs, c', s.calls[c']);
    }
  }

  // ------------------------------------------------------- what has flowed

  function Bytes(log: seq<Moved>): seq<Byte> {
    if log == [] then [] else Bytes(log[..|log| - 1]) + [log[|log| - 1].b]
  }

  /** The bytes of `log` moved by call `c`, in order. */
  function By(log: seq<Moved>, c: nat): seq<Byte> {
    if log == [] then []
    else By(log[..|log| - 1], c) + if log[|log| - 1].call == c then [log[|log| - 1].b] else []
  }

  function Tag(c: nat, bytes: seq<Byte>): seq<Moved> {
    seq(|bytes|, i requires 0 <= i < |bytes| => Moved(c, bytes[i]))
  }

  lemma TagSnoc(log: seq<Moved>, c: nat, bytes: seq<Byte>)
    requires bytes != []
    ensures var whole := log + Tag(c, bytes);
            && whole[..|whole| - 1] == log + Tag(c, bytes[..|bytes| - 1])
            && whole[|whole| - 1] == Moved(c, bytes[|bytes| - 1])
  {
  }

  lemma {:induction false} BytesAppend(log: seq<Moved>, c: nat, bytes: seq<Byte>)
    ensures Bytes(log + Tag(c, bytes)) == Bytes(log) + bytes
    decreases |bytes|
  {
    if bytes == [] {
      assert log + Tag(c, bytes) == log;
    } else {
      TagSnoc(log, c, bytes);
      BytesAppend(log, c, bytes[..|bytes| - 1]);
      assert bytes == bytes[..|bytes| - 1] + [bytes[|bytes| - 1]];
    }
  }

  lemma {:induction false} ByAppend(log: seq<Moved>, c: nat, bytes: seq<Byte>, c': nat)
    ensures By(log + Tag(c, bytes), c') == By(log, c') + if c' == c then bytes else []
    decreases |bytes|
  {
    if bytes == [] {
      assert log + Tag(c, bytes) == log;
    } else {
      TagSnoc(log, c, bytes);
      ByAppend(log, c, bytes[..|bytes| - 1], c');
      assert bytes == bytes[..|bytes| - 1] + [bytes[|bytes| - 1]];
    }
  }

  /** What a call has put into pipe `p` so far. */
  function Sent(call: Call, p: nat): seq<Byte> {
    match call
    case Writing(q, buf, sent) => if q == p && sent <= |buf| then buf[..sent] else []
    case WriteDone(q, buf, n) => if q == p && n <= |buf| then buf[..n] else []
    case _ => []
  }

  /** What a call has taken out of pipe `p`. */
  function Got(call: Call, p: nat): seq<Byte> {
    match call
    case ReadDone(q, _, got) => if q == p then got else []
    case _ => []
  }

  predicate InRange(call: Call, pipes: nat) {
    match call
    case Reading(p, _) => p < pipes
    case ReadDone(p, len, got) => p < pipes && |got| <= len
    case Starting(p, _) => p < pipes
    case Writing(p, buf, sent) => p < pipes && sent <= |buf|
    case WriteDone(p, buf, n) => p < pipes && n <= |buf|
    case WriteEpipe(p) => p < pipes
    case _ => true
  }

  /** Each call's bytes are in the two histories, in the call's own order and nothing else. */
  predicate CallFlowOk(f: Flow, p: nat, calls: map<nat, Call>, c: nat) {
    && By(f.accepted, c) == (if c in calls then Sent(calls[c], p) else [])
    && By(f.delivered, c) == (if c in calls then Got(calls[c], p) else [])
  }

  ghost predicate PipeOk(f: Flow, p: nat, calls: map<nat, Call>) {
    && |f.ring| <= RING_BUFFER_SIZE
    && Bytes(f.delivered) + f.ring == Bytes(f.accepted)
    && (forall c :: CallFlowOk(f, p, calls, c))
  }

  ghost predicate FlowOk(s: State) {
    && |s.flows| == s.arcs.nextPipe
    && (forall p :: 0 <= p < |s.flows| ==> PipeOk(s.flows[p], p, s.calls))
    && (forall c :: c in s.calls ==> InRange(s.calls[c], |s.flows|))
  }

  /** A call that has moved nothing. */
  predicate Quiet(call: Call) {
    !call.ReadDone? && !call.WriteDone? && (call.Writing? ==> call.sent == 0)
  }

  /** A pipe that call `c` moves no further bytes through. */
  lemma OtherPipeKeeps(f: Flow, p: nat, calls: map<nat, Call>, c: nat, call: Call)
    requires PipeOk(f, p, calls)
    requires Sent(call, p) == (if c in calls then Sent(calls[c], p) else [])
    requires Got(call, p) == (if c in calls then Got(calls[c], p) else [])
    ensures PipeOk(f, p, calls[c := call])
  {
    var calls' := calls[c := call];
    forall c' ensures CallFlowOk(f, p, calls', c') {
      assert CallFlowOk(f, p, calls, c');
    }
  }

  /** Only pipe `p` and call `c` change, and `c` is a call on that pipe. */
  lemma OneCallMoves(s: State, s': State, c: nat, p: nat)
    requires FlowOk(s) && s'.arcs.nextPipe == s.arcs.nextPipe && p < |s.flows| == |s'.flows|
    requires s'.flows == s.flows[p := s'.flows[p]] && PipeOk(s'.flows[p], p, s'.calls)
    requires c in s.calls && c in s'.calls && s'.calls == s.calls[c := s'.calls[c]]
    requires InRange(s'.calls[c], |s.flows|) && OnPipe(s.calls[c], p) && OnPipe(s'.calls[c], p)
    ensures FlowOk(s')
  {
    forall q | 0 <= q < |s.flows| && q != p
      ensures PipeOk(s.flows[q], q, s'.calls)
    {
      OtherPipeKeeps(s.flows[q], q, s.calls, c, s'.calls[c]);
    }
  }

  predicate OnPipe(call: Call, p: nat) {
    match call
    case Reading(q, _) => q == p
    case ReadDone(q, _, _) => q == p
    case Writing(q, _, _) => q == p
    case WriteDone(q, _, _) => q == p
    case _ => false
  }

  lemma QuietKeepsFlow(s: State, b: Arcs, c: nat, call: Call)
    requires FlowOk(s) && b.nextPipe == s.arcs.nextPipe && Quiet(call) && InRange(call, |s.flows|)
    requires c in s.calls ==> Quiet(s.calls[c])
    ensures FlowOk(With(s, b, c, call))
  {
    forall p | 0 <= p < |s.flows|
      ensures PipeOk(s.flows[p], p, s.calls[c := call])
    {
      OtherPipeKeeps(s.flows[p], p, s.calls, c, call);
    }
  }

  ghost predicate Sound(s: State) {
    OwnershipOk(s) && FlowOk(s)
  }

  // ------------------------------------------------------------ the steps

  predicate IsResult(call: Call) {
    call.ReadDone? || call.WriteDone? || call.WriteEpipe?
  }

  /** No pipe's flow changes and no call gets a result. */
  predicate Calm(s: State, s': State) {
    && |s.flows| <= |s'.flows| && s'.flows[..|s.flows|] == s.flows
    && forall c :: c in s'.calls && IsResult(s'.calls[c]) ==> c in s.calls && s.calls[c] == s'.calls[c]
  }

  /** A call that has moved nothing becomes `call`, the references becoming those of `b`. */
  function Advance(s: State, b: Arcs, c: nat, call: Call): (s': State)
    requires Sound(s) && Consistent(b) && OthersKeep(s.arcs, b, c) && Holds(b, c, call)
    requires b.nextPipe == s.arcs.nextPipe && NoRevival(s.arcs, b)
    requires Quiet(call) && InRange(call, |s.flows|) && (c in s.calls ==> Quiet(s.calls[c]))
    ensures Sound(s') && NoRevival(s.arcs, s'.arcs)
    ensures IsResult(call) || Calm(s, s')
    ensures s'.arcs == b && s'.calls == s.calls[c := call] && s'.flows == s.flows
  {
    WithKeepsOwnership(s, b, c, call);
    QuietKeepsFlow(s, b, c, call);
    With(s, b, c, call)
  }

  /** A new call takes a clone of descriptor `fd`; which call it is depends on the object. */
  function Take(s: State, c: nat, t: nat, fd: nat, call: Call): (s': State)
    requires Sound(s) && c !in s.calls && Slot(t, fd) in s.arcs.refs && InRange(call, |s.flows|)
    requires match call
             case Installing(t') => t' < s.arcs.nextTable
             case Leaving => true
             case Reading(p, _) => s.arcs.refs[Slot(t, fd)] == PipeEnd(p, true)
             case Starting(p, _) => s.arcs.refs[Slot(t, fd)] == PipeEnd(p, false)
             case _ => false
    ensures Sound(s') && NoRevival(s.arcs, s'.arcs) && Calm(s, s')
  {
    Advance(s, Clone(s.arcs, Slot(t, fd), Local(c, 0)), c, call)
  }

  ghost predicate Finds(s: State, t: nat, slot: Target) {
    match slot
    case At(fd) => IsLowestFree(s.arcs.refs, t, fd)
    case NoRoom => TableFull(s.arcs.refs, t)
  }

  /** `add_file_like` on the Arc in `Local(c, i)`. */
  function Put(s: State, c: nat, i: nat, t: nat, slot: Target): (b: Arcs)
    requires Sound(s) && Local(c, i) in s.arcs.refs && t < s.arcs.nextTable && Finds(s, t, slot)
    ensures Consistent(b) && NoRevival(s.arcs, b) && OthersKeep(s.arcs, b, c) && SameCounters(s.arcs, b)
    ensures forall j :: Local(c, j) in b.refs <==> Local(c, j) in s.arcs.refs && j != i
  {
    if slot.At? then Move(s.arcs, Local(c, i), Slot(t, slot.fd)) else Drop(s.arcs, Local(c, i))
  }

  function DoPipe2(s: State, c: nat, t: nat): (s': State)
    requires Sound(s) && c !in s.calls && t < s.arcs.nextTable
    ensures Sound(s') && NoRevival(s.arcs, s'.arcs) && Calm(s, s')
  {
    var b := NewPipe(s.arcs, Local(c, 0), Local(c, 1));
    var call := NewPair(t, s.arcs.nextPipe);
    var s' := With(s, b, c, call).(flows := s.flows + [Flow([], [], [])]);
    WithKeepsOwnership(s, b, c, call);
    NewPipeKeepsFlow(s, s', c);
    s'
  }

  lemma NewPipeKeepsFlow(s: State, s': State, c: nat)
    requires FlowOk(s) && c !in s.calls && s'.arcs.nextPipe == s.arcs.nextPipe + 1
    requires c in s'.calls && s'.calls == s.calls[c := s'.calls[c]] && s'.calls[c].NewPair?
    requires s'.flows == s.flows + [Flow([], [], [])]
    ensures FlowOk(s')
  {
    QuietKeepsFlow(s, s.arcs, c, s'.calls[c]);
    assert forall c' :: c' in s.calls ==> InRange(s.calls[c'], |s.flows|);
    assert PipeOk(s'.flows[|s.flows|], |s.flows|, s'.calls);
  }

  function DoInstallRead(s: State, c: nat, slot: Target): (s': State)
    requires Sound(s) && c in s.calls && s.calls[c].NewPair? && Finds(s, s.calls[c].table, slot)
    ensures Sound(s') && NoRevival(s.arcs, s'.arcs) && Calm(s, s')
  {
    assert Holds(s.arcs, c, s.calls[c]);
    var b := Put(s, c, 0, s.calls[c].table, slot);
    if slot.At? then Advance(s, b, c, HalfInstalled(s.calls[c].table, slot.fd, s.calls[c].pipe))
    else Advance(s, Move(b, Local(c, 1), Local(c, 0)), c, Leaving)
  }

  function DoInstallWrite(s: State, c: nat, slot: Target): (s': State)
    requires Sound(s) && c in s.calls && s.calls[c].HalfInstalled? && Finds(s, s.calls[c].table, slot)
    ensures Sound(s') && NoRevival(s.arcs, s'.arcs) && Calm(s, s')
  {
    assert Holds(s.arcs, c, s.calls[c]);
    Advance(s, Put(s, c, 1, s.calls[c].table, slot), c,
            if slot.At? then Leaving else RollingBack(s.calls[c].table, s.calls[c].readFd, s.calls[c].pipe))
  }

  function DoRollBack(s: State, c: nat): (s': State)
    requires Sound(s) && c in s.calls && s.calls[c].RollingBack?
    ensures Sound(s') && NoRevival(s.arcs, s'.arcs) && Calm(s, s')
  {
    assert Holds(s.arcs, c, s.calls[c]);
    var h := Slot(s.calls[c].table, s.calls[c].readFd);
    if h in s.arcs.refs then Advance(s, Move(s.arcs, h, Local(c, 0)), c, Leaving)
    else Advance(s, s.arcs, c, Panicked)
  }

  function DoInstall(s: State, c: nat, slot: Target): (s': State)
    requires Sound(s) && c in s.calls && s.calls[c].Installing? && Finds(s, s.calls[c].table, slot)
    ensures Sound(s') && NoRevival(s.arcs, s'.arcs) && Calm(s, s')
  {
    assert Holds(s.arcs, c, s.calls[c]);
    Advance(s, Put(s, c, 0, s.calls[c].table, slot), c, Leaving)
  }

  function DoDup2(s: State, c: nat, t: nat, fd: nat, newFd: nat): (s': State)
    requires Sound(s) && c !in s.calls && Slot(t, fd) in s.arcs.refs && newFd < AX_FILE_LIMIT
    ensures Sound(s') && NoRevival(s.arcs, s'.arcs) && Calm(s, s')
  {
    Advance(s, if fd == newFd then s.arcs else Dup2(s.arcs, t, fd, newFd, Local(c, 0)), c, Leaving)
  }

  function DoClose(s: State, c: nat, t: nat, fd: nat): (s': State)
    requires Sound(s) && c !in s.calls && Slot(t, fd) in s.arcs.refs
    ensures Sound(s') && NoRevival(s.arcs, s'.arcs) && Calm(s, s')
  {
    Advance(s, Move(s.arcs, Slot(t, fd), Local(c, 0)), c, Leaving)
  }

  function DoOpen(s: State, c: nat, t: nat): (s': State)
    requires Sound(s) && c !in s.calls && t < s.arcs.nextTable
    ensures Sound(s') && NoRevival(s.arcs, s'.arcs) && Calm(s, s')
  {
    Advance(s, NewOther(s.arcs, Local(c, 0)), c, Installing(t))
  }

  predicate Returned(call: Call) {
    call.Leaving? || call.ReadDone? || call.WriteDone? || call.WriteEpipe?
  }

  /** The call's temporary Arc goes out of scope. */
  function DoRelease(s: State, c: nat): (s': State)
    requires Sound(s) && c in s.calls && Returned(s.calls[c]) && Local(c, 0) in s.arcs.refs
    ensures Sound(s') && NoRevival(s.arcs, s'.arcs) && Calm(s, s')
  {
    var b := Drop(s.arcs, Local(c, 0));
    WithKeepsOwnership(s, b, c, s.calls[c]);
    assert s.calls[c := s.calls[c]] == s.calls;
    s.(arcs := b)
  }

  /** Steps that change tables only. */
  function Retable(s: State, b: Arcs): (s': State)
    requires Sound(s) && Consistent(b) && NoRevival(s.arcs, b)
    requires s.arcs.nextTable <= b.nextTable && s.arcs.nextPipe == b.nextPipe
    requires forall c, i :: Local(c, i) in s.arcs.refs <==> Local(c, i) in b.refs
    requires forall c, i :: Local(c, i) in s.arcs.refs ==> b.refs[Local(c, i)] == s.arcs.refs[Local(c, i)]
    ensures Sound(s') && NoRevival(s.arcs, s'.arcs) && Calm(s, s')
  {
    s.(arcs := b)
  }

  /** The read of call `c` takes the oldest `n` bytes of its pipe and returns. */
  function Deliver(s: State, c: nat, n: nat): (s': State)
    requires Sound(s) && c in s.calls && s.calls[c].Reading? && s.calls[c].pipe < |s.flows|
    requires n <= s.calls[c].len && n <= |s.flows[s.calls[c].pipe].ring|
    ensures Sound(s') && s'.arcs == s.arcs
  {
    var Reading(p, len) := s.calls[c];
    var f := s.flows[p];
    var got := f.ring[..n];
    var s' := s.(calls := s.calls[c := ReadDone(p, len, got)],
                 flows := s.flows[p := f.(ring := f.ring[n..], delivered := f.delivered + Tag(c, got))]);
    assert f.ring == got + f.ring[n..] && [] + got == got;
    DeliverKeepsPipe(f, p, s.calls, c, got, f.ring[n..], ReadDone(p, len, got));
    OneCallMoves(s, s', c, p);
    WithKeepsOwnership(s, s.arcs, c, ReadDone(p, len, got));
    s'
  }

  lemma DeliverKeepsPipe(f: Flow, p: nat, calls: map<nat, Call>, c: nat, got: seq<Byte>, rest: seq<Byte>, call: Call)
    requires PipeOk(f, p, calls) && c in calls && f.ring == got + rest
    requires Got(call, p) == Got(calls[c], p) + got && Sent(call, p) == Sent(calls[c], p)
    ensures PipeOk(f.(ring := rest, delivered := f.delivered + Tag(c, got)), p, calls[c := call])
  {
    var f', calls' := f.(ring := rest, delivered := f.delivered + Tag(c, got)), calls[c := call];
    assert Bytes(f'.delivered) + rest == Bytes(f.accepted) by {
      BytesAppend(f.delivered, c, got);
      assert Bytes(f.delivered) + (got + rest) == Bytes(f.delivered) + got + rest;
    }
    forall c' ensures CallFlowOk(f', p, calls', c') {
      assert CallFlowOk(f, p, calls, c');
      ByAppend(f.delivered, c, got, c');
      assert By(f.delivered, c') + [] == By(f.delivered, c');
    }
  }

  /** One round of `Pipe::read`. */
  function DoRead(s: State, c: nat): (s': State)
    requires Sound(s) && c in s.calls && s.calls[c].Reading?
    ensures Sound(s') && s'.arcs == s.arcs
  {
    assert Holds(s.arcs, c, s.calls[c]);
    HeldObjectIsLive(s.arcs, Local(c, 0));
    var Reading(p, len) := s.calls[c];
    if len == 0 then Deliver(s, c, 0)
    else
      match ReadRound(s.flows[p].ring, len, Closed(s.arcs, PipeEnd(p, true)))
      case ReadWait => s
      case ReadReturn(n) => Deliver(s, c, n)
  }

  /** The start of `Pipe::write`: EPIPE without a read end, nothing to do for an empty buffer. */
  function DoWriteCheck(s: State, c: nat): (s': State)
    requires Sound(s) && c in s.calls && s.calls[c].Starting?
    ensures Sound(s') && s'.arcs == s.arcs
  {
    assert Holds(s.arcs, c, s.calls[c]);
    HeldObjectIsLive(s.arcs, Local(c, 0));
    var Starting(p, buf) := s.calls[c];
    if Closed(s.arcs, PipeEnd(p, false)) then Advance(s, s.arcs, c, WriteEpipe(p))
    else if buf == [] then Store(Advance(s, s.arcs, c, Writing(p, buf, 0)), c, 0, true)
    else Advance(s, s.arcs, c, Writing(p, buf, 0))
  }

  /** The write of call `c` stores its next `n` bytes, and returns if `last`. */
  function Store(s: State, c: nat, n: nat, last: bool): (s': State)
    requires Sound(s) && c in s.calls && s.calls[c].Writing? && s.calls[c].pipe < |s.flows|
    requires s.calls[c].sent + n <= |s.calls[c].buf|
    requires |s.flows[s.calls[c].pipe].ring| + n <= RING_BUFFER_SIZE
    ensures Sound(s') && s'.arcs == s.arcs
  {
    var Writing(p, buf, sent) := s.calls[c];
    var f, chunk := s.flows[p], buf[sent..sent + n];
    var call := if last then WriteDone(p, buf, sent + n) else Writing(p, buf, sent + n);
    var s' := s.(calls := s.calls[c := call],
                 flows := s.flows[p := f.(ring := f.ring + chunk, accepted := f.accepted + Tag(c, chunk))]);
    assert buf[..sent] + chunk == buf[..sent + n];
    StoreKeepsPipe(f, p, s.calls, c, chunk, call);
    OneCallMoves(s, s', c, p);
    assert Holds(s.arcs, c, s.calls[c]);
    WithKeepsOwnership(s, s.arcs, c, call);
    s'
  }

  lemma StoreKeepsPipe(f: Flow, p: nat, calls: map<nat, Call>, c: nat, chunk: seq<Byte>, call: Call)
    requires PipeOk(f, p, calls) && c in calls && |f.ring| + |chunk| <= RING_BUFFER_SIZE
    requires Sent(call, p) == Sent(calls[c], p) + chunk && Got(call, p) == Got(calls[c], p)
    ensures PipeOk(f.(ring := f.ring + chunk, accepted := f.accepted + Tag(c, chunk)), p, calls[c := call])
  {
    var f', calls' := f.(ring := f.ring + chunk, accepted := f.accepted + Tag(c, chunk)), calls[c := call];
    assert Bytes(f.delivered) + f'.ring == Bytes(f'.accepted) by {
      BytesAppend(f.accepted, c, chunk);
      assert Bytes(f.delivered) + (f.ring + chunk) == Bytes(f.delivered) + f.ring + chunk;
    }
    forall c' ensures CallFlowOk(f', p, calls', c') {
      assert CallFlowOk(f, p, calls, c');
      ByAppend(f.accepted, c, chunk, c');
      assert By(f.accepted, c') + [] == By(f.accepted, c');
    }
  }

  /** One round of `Pipe::write`. */
  function DoWrite(s: State, c: nat): (s': State)
    requires Sound(s) && c in s.calls && s.calls[c].Writing?
    ensures Sound(s') && s'.arcs == s.arcs
  {
    assert Holds(s.arcs, c, s.calls[c]);
    HeldObjectIsLive(s.arcs, Local(c, 0));
    var Writing(p, buf, sent) := s.calls[c];
    assert PipeOk(s.flows[p], p, s.calls);
    var (outcome, n) := WriteRound(s.flows[p].ring, |buf| - sent, Closed(s.arcs, PipeEnd(p, false)));
    match outcome
    case WriteWait => s
    case WriteAgain => Store(s, c, n, false)
    case WriteReturn => Store(s, c, n, true)
  }

  // ------------------------------------------------------------------ runs

  ghost predicate Enabled(s: State, step: Step) {
    match step
    case NewTable => true
    case Open(c, t) => c !in s.calls && t < s.arcs.nextTable
    case Pipe2(c, t) => c !in s.calls && t < s.arcs.nextTable
    case InstallRead(c, slot) => c in s.calls && s.calls[c].NewPair? && Finds(s, s.calls[c].table, slot)
    case InstallWrite(c, slot) => c in s.calls && s.calls[c].HalfInstalled? && Finds(s, s.calls[c].table, slot)
    case RollBack(c) => c in s.calls && s.calls[c].RollingBack?
    case DupGet(c, t, fd) => c !in s.calls && Slot(t, fd) in s.arcs.refs
    case Install(c, slot) => c in s.calls && s.calls[c].Installing? && Finds(s, s.calls[c].table, slot)
    case Dup2Locked(c, t, fd, newFd) => c !in s.calls && Slot(t, fd) in s.arcs.refs && newFd < AX_FILE_LIMIT
    case CloseRemove(c, t, fd) => c !in s.calls && Slot(t, fd) in s.arcs.refs
    case Release(c) => c in s.calls && Returned(s.calls[c]) && Local(c, 0) in s.arcs.refs
    case Fork(t) => t < s.arcs.nextTable
    case ClearSlot(t, fd) => Slot(t, fd) in s.arcs.refs
    case ReadStart(c, t, fd, len) => c !in s.calls && Slot(t, fd) in s.arcs.refs
    case ReadStep(c) => c in s.calls && s.calls[c].Reading?
    case WriteStart(c, t, fd, buf) => c !in s.calls && Slot(t, fd) in s.arcs.refs
    case WriteCheck(c) => c in s.calls && s.calls[c].Starting?
    case WriteStep(c) => c in s.calls && s.calls[c].Writing?
  }

  /** A read or write that finds another kind of object, or the wrong end, moves no pipe bytes. */
  function ReadCall(o: Object, len: nat): Call {
    if o.PipeEnd? && o.readable then Reading(o.pipe, len) else Leaving
  }

  function WriteCall(o: Object, buf: seq<Byte>): Call {
    if o.PipeEnd? && !o.readable then Starting(o.pipe, buf) else Leaving
  }

  predicate MovesBytes(step: Step) {
    step.ReadStep? || step.WriteStep? || step.WriteCheck?
  }

  /** Steps of the calls that work on one descriptor. */
  predicate OnDescriptor(step: Step) {
    || step.DupGet? || step.Install? || step.Dup2Locked? || step.CloseRemove? || step.Release?
    || step.ReadStart? || step.WriteStart?
  }

  function ApplyFlow(s: State, step: Step): (s': State)
    requires Sound(s) && Enabled(s, step) && MovesBytes(step)
    ensures Sound(s') && s'.arcs == s.arcs
  {
    match step
    case ReadStep(c) => DoRead(s, c)
    case WriteCheck(c) => DoWriteCheck(s, c)
    case WriteStep(c) => DoWrite(s, c)
  }

  function ApplyDescriptor(s: State, step: Step): (s': State)
    requires Sound(s) && Enabled(s, step) && OnDescriptor(step)
    ensures Sound(s') && NoRevival(s.arcs, s'.arcs) && Calm(s, s')
  {
    match step
    case DupGet(c, t, fd) => Take(s, c, t, fd, Installing(t))
    case Install(c, slot) => DoInstall(s, c, slot)
    case Dup2Locked(c, t, fd, newFd) => DoDup2(s, c, t, fd, newFd)
    case CloseRemove(c, t, fd) => DoClose(s, c, t, fd)
    case Release(c) => DoRelease(s, c)
    case ReadStart(c, t, fd, len) => Take(s, c, t, fd, ReadCall(s.arcs.refs[Slot(t, fd)], len))
    case WriteStart(c, t, fd, buf) => Take(s, c, t, fd, WriteCall(s.arcs.refs[Slot(t, fd)], buf))
  }

  function ApplyProcess(s: State, step: Step): (s': State)
    requires Sound(s) && Enabled(s, step) && !OnDescriptor(step) && !MovesBytes(step)
    ensures Sound(s') && NoRevival(s.arcs, s'.arcs) && Calm(s, s')
  {
    match step
    case NewTable => Retable(s, s.arcs.(nextTable := s.arcs.nextTable + 1))
    case Open(c, t) => DoOpen(s, c, t)
    case Pipe2(c, t) => DoPipe2(s, c, t)
    case InstallRead(c, slot) => DoInstallRead(s, c, slot)
    case InstallWrite(c, slot) => DoInstallWrite(s, c, slot)
    case RollBack(c) => DoRollBack(s, c)
    case Fork(t) => Retable(s, ForkTable(s.arcs, t))
    case ClearSlot(t, fd) => Retable(s, Drop(s.arcs, Slot(t, fd)))
  }

  function Apply(s: State, step: Step): (s': State)
    requires Sound(s) && Enabled(s, step)
    ensures Sound(s') && NoRevival(s.arcs, s'.arcs) && (!MovesBytes(step) ==> Calm(s, s'))
  {
    if MovesBytes(step) then ApplyFlow(s, step)
    else if OnDescriptor(step) then ApplyDescriptor(s, step)
    else ApplyProcess(s, step)
  }
}
