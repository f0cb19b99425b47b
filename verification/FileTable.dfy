/**
 File descriptor tables and the reference counts behind them
 (api/src/file/mod.rs, api/src/imp/fs/fd_ops.rs, api/src/imp/fs/pipe.rs).

 A table slot and a kernel call in progress each hold an `Arc<dyn FileLike>`.
 Cloning that Arc never clones the `Pipe` inside, so the ring buffer's own strong
 count follows the number of live ends.  `Consistent` says both levels of counts
 agree with who really holds what; every operation below keeps it.
 */
module FileTable {

  const AX_FILE_LIMIT := 1024

  /** A file object: one of the two ends of a pipe, or anything else that has a descriptor. */
  datatype Object = PipeEnd(pipe: nat, readable: bool) | Other(id: nat)

  /** A place that owns one strong reference to a file object. */
  datatype Holder = Slot(table: nat, fd: nat) | Local(call: nat, index: nat)

  datatype Errno = EBADF | EMFILE | EFAULT | KernelPanic

  datatype Result = Ok(value: int) | Err(errno: Errno)

  /**
   `refs` says what each holder owns, `strong` is the strong count kept in each live
   file object, `buffers` the strong count kept in each live ring buffer.
   */
  datatype Arcs = Arcs(
    refs: map<Holder, Object>,
    strong: map<Object, nat>,
    buffers: map<nat, nat>,
    nextPipe: nat,
    nextOther: nat,
    nextTable: nat)

  ghost function HoldersOf(refs: map<Holder, Object>, o: Object): set<Holder> {
    set h | h in refs && refs[h] == o
  }

  predicate Created(a: Arcs, o: Object) {
    match o
    case PipeEnd(p, _) => p < a.nextPipe
    case Other(i) => i < a.nextOther
  }

  function LiveEnds(strong: map<Object, nat>, p: nat): nat {
    (if PipeEnd(p, true) in strong then 1 else 0) + (if PipeEnd(p, false) in strong then 1 else 0)
  }

  ghost predicate CountsMatch(refs: map<Holder, Object>, strong: map<Object, nat>) {
    && (forall o :: o in strong <==> HoldersOf(refs, o) != {})
    && (forall o :: o in strong ==> strong[o] == |HoldersOf(refs, o)|)
  }

  ghost predicate BuffersMatch(strong: map<Object, nat>, buffers: map<nat, nat>) {
    && (forall p :: p in buffers <==> LiveEnds(strong, p) > 0)
    && (forall p :: p in buffers ==> buffers[p] == LiveEnds(strong, p))
  }

  ghost predicate Consistent(a: Arcs) {
    && CountsMatch(a.refs, a.strong)
    && BuffersMatch(a.strong, a.buffers)
    && (forall h :: h in a.refs ==> Created(a, a.refs[h]))
    && (forall h :: h in a.refs && h.Slot? ==> h.table < a.nextTable && h.fd < AX_FILE_LIMIT)
  }

  /** The object was created and its last reference has been dropped. */
  ghost predicate Gone(a: Arcs, o: Object) {
    Created(a, o) && o !in a.strong
  }

  /** Destroyed objects stay destroyed. */
  ghost predicate NoRevival(a: Arcs, b: Arcs) {
    forall o :: Gone(a, o) ==> Gone(b, o)
  }

  const INITIAL: Arcs := Arcs(map[], map[], map[], 0, 0, 0)

  // ---------------------------------------------------------------- counting

  lemma HoldersAfterAdd(refs: map<Holder, Object>, h: Holder, o: Object)
    requires h !in refs
    ensures HoldersOf(refs[h := o], o) == HoldersOf(refs, o) + {h}
    ensures forall x :: x != o ==> HoldersOf(refs[h := o], x) == HoldersOf(refs, x)
  {
  }

  lemma HoldersAfterRemove(refs: map<Holder, Object>, h: Holder)
    requires h in refs
    ensures HoldersOf(refs - {h}, refs[h]) == HoldersOf(refs, refs[h]) - {h}
    ensures |HoldersOf(refs - {h}, refs[h])| == |HoldersOf(refs, refs[h])| - 1
    ensures forall x :: x != refs[h] ==> HoldersOf(refs - {h}, x) == HoldersOf(refs, x)
  {
    assert h in HoldersOf(refs, refs[h]);
  }

  /** One more holder of `o` and a count one higher. */
  lemma CountsAfterAdd(refs: map<Holder, Object>, strong: map<Object, nat>, h: Holder, o: Object)
    requires CountsMatch(refs, strong) && h !in refs
    ensures CountsMatch(refs[h := o], strong[o := (if o in strong then strong[o] else 0) + 1])
  {
    HoldersAfterAdd(refs, h, o);
  }

  /** One holder less: the count goes down, or the object goes away. */
  lemma CountsAfterRemove(refs: map<Holder, Object>, strong: map<Object, nat>, h: Holder)
    requires CountsMatch(refs, strong) && h in refs
    ensures refs[h] in strong && strong[refs[h]] > 0
    ensures strong[refs[h]] > 1 ==> CountsMatch(refs - {h}, strong[refs[h] := strong[refs[h]] - 1])
    ensures strong[refs[h]] == 1 ==> CountsMatch(refs - {h}, strong - {refs[h]})
  {
    HoldersAfterRemove(refs, h);
    assert h in HoldersOf(refs, refs[h]);
  }

  lemma SameLiveEnds(strong: map<Object, nat>, strong': map<Object, nat>, buffers: map<nat, nat>)
    requires BuffersMatch(strong, buffers)
    requires forall o: Object :: o.PipeEnd? ==> (o in strong <==> o in strong')
    ensures BuffersMatch(strong', buffers)
  {
    assert forall p :: LiveEnds(strong', p) == LiveEnds(strong, p);
  }

  lemma EndCreated(strong: map<Object, nat>, buffers: map<nat, nat>, p: nat)
    requires BuffersMatch(strong, buffers) && LiveEnds(strong, p) == 0
    ensures BuffersMatch(strong[PipeEnd(p, true) := 1][PipeEnd(p, false) := 1], buffers[p := 2])
  {
    var strong' := strong[PipeEnd(p, true) := 1][PipeEnd(p, false) := 1];
    assert LiveEnds(strong', p) == 2;
    assert forall q :: q != p ==> LiveEnds(strong', q) == LiveEnds(strong, q);
  }

  lemma EndDestroyed(strong: map<Object, nat>, buffers: map<nat, nat>, o: Object)
    requires BuffersMatch(strong, buffers) && o.PipeEnd? && o in strong
    ensures o.pipe in buffers && buffers[o.pipe] > 0
    ensures BuffersMatch(strong - {o}, DropBuffer(buffers, o.pipe))
  {
    var strong' := strong - {o};
    assert LiveEnds(strong', o.pipe) == LiveEnds(strong, o.pipe) - 1;
    assert forall p :: p != o.pipe ==> LiveEnds(strong', p) == LiveEnds(strong, p);
  }

  function DropBuffer(buffers: map<nat, nat>, p: nat): map<nat, nat>
    requires p in buffers && buffers[p] > 0
  {
    if buffers[p] > 1 then buffers[p := buffers[p] - 1] else buffers - {p}
  }

  lemma HeldObjectIsLive(a: Arcs, h: Holder)
    requires Consistent(a) && h in a.refs
    ensures a.refs[h] in a.strong && a.strong[a.refs[h]] > 0
    ensures a.refs[h].PipeEnd? ==> a.refs[h].pipe in a.buffers && a.buffers[a.refs[h].pipe] > 0
  {
    CountsAfterRemove(a.refs, a.strong, h);
  }

  lemma FreshObjectHasNoHolder(a: Arcs, o: Object)
    requires Consistent(a) && !Created(a, o)
    ensures HoldersOf(a.refs, o) == {} && o !in a.strong
  {
  }

  // -------------------------------------------------------- the Arc operations

  /** `Pipe::new`: two ends sharing one buffer, owned by `hr` and `hw`. */
  function NewPipe(a: Arcs, hr: Holder, hw: Holder): (b: Arcs)
    requires Consistent(a) && hr !in a.refs && hw !in a.refs && hr != hw && hr.Local? && hw.Local?
    ensures Consistent(b) && NoRevival(a, b)
    ensures b.refs == a.refs[hr := PipeEnd(a.nextPipe, true)][hw := PipeEnd(a.nextPipe, false)]
    ensures b.nextPipe == a.nextPipe + 1 && b.nextTable == a.nextTable && b.nextOther == a.nextOther
  {
    var r, w := PipeEnd(a.nextPipe, true), PipeEnd(a.nextPipe, false);
    FreshObjectHasNoHolder(a, r);
    FreshObjectHasNoHolder(a, w);
    CountsAfterAdd(a.refs, a.strong, hr, r);
    CountsAfterAdd(a.refs[hr := r], a.strong[r := 1], hw, w);
    EndCreated(a.strong, a.buffers, a.nextPipe);
    a.(refs := a.refs[hr := r][hw := w],
       strong := a.strong[r := 1][w := 1],
       buffers := a.buffers[a.nextPipe := 2],
       nextPipe := a.nextPipe + 1)
  }

  /** `Arc::new` on any other file object, owned by `h`. */
  function NewOther(a: Arcs, h: Holder): (b: Arcs)
    requires Consistent(a) && h !in a.refs && h.Local?
    ensures Consistent(b) && NoRevival(a, b)
    ensures b.refs == a.refs[h := Other(a.nextOther)]
    ensures b.nextPipe == a.nextPipe && b.nextTable == a.nextTable && b.nextOther == a.nextOther + 1
  {
    FreshObjectHasNoHolder(a, Other(a.nextOther));
    CountsAfterAdd(a.refs, a.strong, h, Other(a.nextOther));
    SameLiveEnds(a.strong, a.strong[Other(a.nextOther) := 1], a.buffers);
    a.(refs := a.refs[h := Other(a.nextOther)],
       strong := a.strong[Other(a.nextOther) := 1],
       nextOther := a.nextOther + 1)
  }

  predicate CanHold(a: Arcs, h: Holder) {
    h !in a.refs && (h.Slot? ==> h.table < a.nextTable && h.fd < AX_FILE_LIMIT)
  }

  predicate SameCounters(a: Arcs, b: Arcs) {
    a.nextPipe == b.nextPipe && a.nextOther == b.nextOther && a.nextTable == b.nextTable
  }

  /** `Arc::clone`: `dst` now owns another reference to what `src` owns. */
  function Clone(a: Arcs, src: Holder, dst: Holder): (b: Arcs)
    requires Consistent(a) && src in a.refs && CanHold(a, dst)
    ensures Consistent(b) && NoRevival(a, b)
    ensures b.refs == a.refs[dst := a.refs[src]] && SameCounters(a, b)
  {
    var o := a.refs[src];
    HeldObjectIsLive(a, src);
    CountsAfterAdd(a.refs, a.strong, dst, o);
    SameLiveEnds(a.strong, a.strong[o := a.strong[o] + 1], a.buffers);
    a.(refs := a.refs[dst := o], strong := a.strong[o := a.strong[o] + 1])
  }

  /** Moving an Arc from one owner to another touches no count. */
  function Move(a: Arcs, src: Holder, dst: Holder): (b: Arcs)
    requires Consistent(a) && src in a.refs && CanHold(a, dst)
    ensures Consistent(b) && NoRevival(a, b)
    ensures b.refs == (a.refs - {src})[dst := a.refs[src]] && SameCounters(a, b)
  {
    CountsAfterMove(a.refs, a.strong, src, dst);
    a.(refs := (a.refs - {src})[dst := a.refs[src]])
  }

  lemma CountsAfterMove(refs: map<Holder, Object>, strong: map<Object, nat>, src: Holder, dst: Holder)
    requires CountsMatch(refs, strong) && src in refs && dst !in refs
    ensures CountsMatch((refs - {src})[dst := refs[src]], strong)
  {
    HoldersAfterRemove(refs, src);
    HoldersAfterAdd(refs - {src}, dst, refs[src]);
    assert src in HoldersOf(refs, refs[src]);
  }

  /**
   `drop` of the Arc that `h` owns.  The last reference destroys the object, and destroying
   a pipe end gives up that end's reference to the ring buffer.
   */
  function Drop(a: Arcs, h: Holder): (b: Arcs)
    requires Consistent(a) && h in a.refs
    ensures Consistent(b) && NoRevival(a, b)
    ensures b.refs == a.refs - {h} && SameCounters(a, b)
  {
    CountsAfterRemove(a.refs, a.strong, h);
    var o := a.refs[h];
    if a.strong[o] > 1 then
      SameLiveEnds(a.strong, a.strong[o := a.strong[o] - 1], a.buffers);
      a.(refs := a.refs - {h}, strong := a.strong[o := a.strong[o] - 1])
    else if o.PipeEnd? then
      EndDestroyed(a.strong, a.buffers, o);
      a.(refs := a.refs - {h}, strong := a.strong - {o}, buffers := DropBuffer(a.buffers, o.pipe))
    else
      SameLiveEnds(a.strong, a.strong - {o}, a.buffers);
      a.(refs := a.refs - {h}, strong := a.strong - {o})
  }

  // ------------------------------------------------------ what `closed` reports

  function Peer(o: Object): Object
    requires o.PipeEnd?
  {
    PipeEnd(o.pipe, !o.readable)
  }

  /** `Pipe::closed`: the buffer's strong count is one. */
  predicate Closed(a: Arcs, o: Object)
    requires o.PipeEnd? && o.pipe in a.buffers
  {
    a.buffers[o.pipe] == 1
  }

  /** Seen from a held end, `closed` is true exactly when no slot and no call holds the other end. */
  lemma ClosedMeansPeerUnheld(a: Arcs, h: Holder)
    requires Consistent(a) && h in a.refs && a.refs[h].PipeEnd?
    ensures a.refs[h].pipe in a.buffers
    ensures Closed(a, a.refs[h]) <==> forall h' :: h' in a.refs ==> a.refs[h'] != Peer(a.refs[h])
    ensures Closed(a, a.refs[h]) <==> Gone(a, Peer(a.refs[h]))
  {
    HeldObjectIsLive(a, h);
    var peer := Peer(a.refs[h]);
    if forall h' :: h' in a.refs ==> a.refs[h'] != peer {
      assert HoldersOf(a.refs, peer) == {};
    } else {
      var h' :| h' in a.refs && a.refs[h'] == peer;
      HeldObjectIsLive(a, h');
    }
  }

  // --------------------------------------------------------- whole-table steps

  ghost predicate IsLowestFree(refs: map<Holder, Object>, t: nat, fd: int) {
    0 <= fd < AX_FILE_LIMIT && Slot(t, fd) !in refs && forall i :: 0 <= i < fd ==> Slot(t, i) in refs
  }

  ghost predicate TableFull(refs: map<Holder, Object>, t: nat) {
    forall i: nat :: i < AX_FILE_LIMIT ==> Slot(t, i) in refs
  }

  /** `refs'` is `refs` with the first `n` slots of table `t` copied to table `t2`. */
  ghost predicate SlotsCopied(refs: map<Holder, Object>, refs': map<Holder, Object>, t: nat, t2: nat, n: nat) {
    && (forall h :: h in refs' <==> h in refs || (h.Slot? && h.table == t2 && h.fd < n && Slot(t, h.fd) in refs))
    && (forall h :: h in refs ==> h in refs' && refs'[h] == refs[h])
    && (forall h :: h in refs' && h !in refs && Slot(t, h.fd) in refs ==> refs'[h] == refs[Slot(t, h.fd)])
  }

  /** `FD_TABLE.copy_inner` into the empty table `t2`, up to descriptor `n`. */
  function CopyTable(a: Arcs, t: nat, t2: nat, n: nat): (b: Arcs)
    requires Consistent(a) && t2 < a.nextTable && t != t2 && n <= AX_FILE_LIMIT
    requires forall i: nat :: Slot(t2, i) !in a.refs
    ensures Consistent(b) && NoRevival(a, b)
    ensures SlotsCopied(a.refs, b.refs, t, t2, n) && SameCounters(a, b)
  {
    if n == 0 then a
    else
      var c := CopyTable(a, t, t2, n - 1);
      var b := if Slot(t, n - 1) in c.refs then Clone(c, Slot(t, n - 1), Slot(t2, n - 1)) else c;
      OneMoreSlotCopied(a.refs, c.refs, b.refs, t, t2, n);
      b
  }

  lemma OneMoreSlotCopied(refs: map<Holder, Object>, mid: map<Holder, Object>, refs': map<Holder, Object>,
                          t: nat, t2: nat, n: nat)
    requires n > 0 && t != t2 && forall i: nat :: Slot(t2, i) !in refs
    requires SlotsCopied(refs, mid, t, t2, n - 1)
    requires refs' == if Slot(t, n - 1) in mid then mid[Slot(t2, n - 1) := mid[Slot(t, n - 1)]] else mid
    ensures SlotsCopied(refs, refs', t, t2, n)
  {
    assert Slot(t, n - 1) in mid <==> Slot(t, n - 1) in refs;
  }

  /** `clone` without CLONE_FILES: a new table holding what table `t` holds. */
  function ForkTable(a: Arcs, t: nat): (b: Arcs)
    requires Consistent(a) && t < a.nextTable
    ensures Consistent(b) && NoRevival(a, b)
    ensures SlotsCopied(a.refs, b.refs, t, a.nextTable, AX_FILE_LIMIT)
    ensures SameCounters(b, a.(nextTable := a.nextTable + 1))
  {
    CopyTable(a.(nextTable := a.nextTable + 1), t, a.nextTable, AX_FILE_LIMIT)
  }

  ghost function WithoutSlots(refs: map<Holder, Object>, t: nat, n: nat): map<Holder, Object> {
    map h | h in refs && !(h.Slot? && h.table == t && h.fd < n) :: refs[h]
  }

  lemma OneMoreSlotCleared(refs: map<Holder, Object>, t: nat, n: nat)
    requires n > 0
    ensures WithoutSlots(refs, t, n) == WithoutSlots(refs, t, n - 1) - {Slot(t, n - 1)}
    ensures Slot(t, n - 1) !in WithoutSlots(refs, t, n - 1) ==> WithoutSlots(refs, t, n) == WithoutSlots(refs, t, n - 1)
  {
  }

  /** `sys_dup2` on two different descriptors, under the table's write lock; `tmp` is its local Arc. */
  function Dup2(a: Arcs, t: nat, oldFd: nat, newFd: nat, tmp: Holder): (b: Arcs)
    requires Consistent(a) && Slot(t, oldFd) in a.refs && oldFd != newFd && newFd < AX_FILE_LIMIT
    requires tmp !in a.refs && tmp.Local?
    ensures Consistent(b) && NoRevival(a, b)
    ensures b.refs == a.refs[Slot(t, newFd) := a.refs[Slot(t, oldFd)]] && SameCounters(a, b)
  {
    MoveOver(Clone(a, Slot(t, oldFd), tmp), tmp, Slot(t, newFd))
  }

  /** What `dst` held is dropped, and it takes over what `src` holds. */
  function MoveOver(a: Arcs, src: Holder, dst: Holder): (b: Arcs)
    requires Consistent(a) && src in a.refs && src != dst
    requires dst.Slot? ==> dst.table < a.nextTable && dst.fd < AX_FILE_LIMIT
    ensures Consistent(b) && NoRevival(a, b)
    ensures b.refs == (a.refs - {src})[dst := a.refs[src]] && SameCounters(a, b)
  {
    var c := if dst in a.refs then Drop(a, dst) else a;
    assert (c.refs - {src})[dst := a.refs[src]] == (a.refs - {src})[dst := a.refs[src]];
    Move(c, src, dst)
  }

  /** Who holds what fixes every count: no operation can leave a count behind. */
  lemma RefsDetermineCounts(a: Arcs, b: Arcs)
    requires Consistent(a) && Consistent(b) && a.refs == b.refs
    ensures a.strong == b.strong && a.buffers == b.buffers
  {
    assert a.strong == b.strong by {
      assert forall o :: o in a.strong <==> HoldersOf(a.refs, o) != {};
      assert forall o :: o in b.strong <==> HoldersOf(b.refs, o) != {};
    }
    assert forall p :: p in a.buffers <==> LiveEnds(a.strong, p) > 0;
    assert forall p :: p in b.buffers <==> LiveEnds(b.strong, p) > 0;
  }
}
