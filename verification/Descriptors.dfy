/**
 The descriptor system calls as they run against the tables: `dup`, `dup2`, `close`,
 `pipe2` with its rollback, and the two loops `copy_inner` and `clear`.  Each contract
 gives the exact new ownership map; `Valid` then fixes every strong count.
 */
module Descriptors {
  import opened FileTable

  /** At most one descriptor of table `t` is free. */
  ghost predicate NoRoomForTwo(refs: map<Holder, Object>, t: nat) {
    forall i: nat, j: nat :: i < j < AX_FILE_LIMIT ==> Slot(t, i) in refs || Slot(t, j) in refs
  }

  lemma FullHasNoRoomForTwo(refs: map<Holder, Object>, t: nat)
    requires TableFull(refs, t)
    ensures NoRoomForTwo(refs, t)
  {
  }

  /** With the lowest descriptor taken, the table is full exactly when there was no room for two. */
  lemma SecondDescriptor(refs: map<Holder, Object>, refs1: map<Holder, Object>, t: nat, fd: nat)
    requires IsLowestFree(refs, t, fd)
    requires forall i: nat :: Slot(t, i) in refs1 <==> Slot(t, i) in refs || i == fd
    ensures TableFull(refs1, t) <==> NoRoomForTwo(refs, t)
  {
    if !TableFull(refs1, t) {
      var j: nat :| j < AX_FILE_LIMIT && Slot(t, j) !in refs1;
      assert fd < j;
    }
  }

  /** Two local references more do not change what table `t` offers. */
  lemma LocalsAside(refs: map<Holder, Object>, hr: Holder, hw: Holder, r: Object, w: Object, t: nat)
    requires hr !in refs && hw !in refs && hr.Local? && hw.Local? && hr != hw
    ensures refs[hr := r][hw := w] - {hr} - {hw} == refs
    ensures NoRoomForTwo(refs[hr := r][hw := w], t) <==> NoRoomForTwo(refs, t)
    ensures forall fd :: IsLowestFree(refs[hr := r][hw := w], t, fd) <==> IsLowestFree(refs, t, fd)
  {
  }

  lemma LowestFreeBySlots(refs: map<Holder, Object>, refs': map<Holder, Object>, t: nat, fd: int)
    requires forall i: nat :: Slot(t, i) in refs <==> Slot(t, i) in refs'
    ensures IsLowestFree(refs, t, fd) <==> IsLowestFree(refs', t, fd)
  {
  }

  class Tables {
    var refs: map<Holder, Object>
    var strong: map<Object, nat>
    var buffers: map<nat, nat>
    var nextPipe: nat
    var nextOther: nat
    var nextTable: nat

    function View(): Arcs
      reads this
    {
      Arcs(refs, strong, buffers, nextPipe, nextOther, nextTable)
    }

    ghost predicate Valid()
      reads this
    {
      Consistent(View())
    }

    // ------------------------------------------------------- Arc operations

    method CloneRef(src: Holder, dst: Holder)
      requires Valid() && src in refs && CanHold(View(), dst)
      modifies this`refs, this`strong
      ensures Valid() && refs == old(refs)[dst := old(refs)[src]]
    {
      ghost var b := Clone(View(), src, dst);
      HeldObjectIsLive(View(), src);
      var o := refs[src];
      refs, strong := refs[dst := o], strong[o := strong[o] + 1];
      assert View() == b;
    }

    method MoveRef(src: Holder, dst: Holder)
      requires Valid() && src in refs && CanHold(View(), dst)
      modifies this`refs
      ensures Valid() && refs == (old(refs) - {src})[dst := old(refs)[src]]
    {
      ghost var b := Move(View(), src, dst);
      var o := refs[src];
      refs := refs - {src};
      refs := refs[dst := o];
      assert View() == b;
    }

    method DropRef(h: Holder)
      requires Valid() && h in refs
      modifies this`refs, this`strong, this`buffers
      ensures Valid() && refs == old(refs) - {h}
    {
      ghost var b := Drop(View(), h);
      HeldObjectIsLive(View(), h);
      var o := refs[h];
      refs := refs - {h};
      if strong[o] > 1 {
        strong := strong[o := strong[o] - 1];
      } else {
        strong := strong - {o};
        if o.PipeEnd? {
          buffers := DropBuffer(buffers, o.pipe);
        }
      }
      assert View() == b;
    }

    method PipeNew(hr: Holder, hw: Holder)
      requires Valid() && hr !in refs && hw !in refs && hr != hw && hr.Local? && hw.Local?
      modifies this`refs, this`strong, this`buffers, this`nextPipe
      ensures Valid() && nextPipe == old(nextPipe) + 1
      ensures refs == old(refs)[hr := PipeEnd(old(nextPipe), true)][hw := PipeEnd(old(nextPipe), false)]
    {
      ghost var b := NewPipe(View(), hr, hw);
      var p := nextPipe;
      refs := refs[hr := PipeEnd(p, true)][hw := PipeEnd(p, false)];
      strong := strong[PipeEnd(p, true) := 1][PipeEnd(p, false) := 1];
      buffers, nextPipe := buffers[p := 2], p + 1;
      assert View() == b;
    }

    // ------------------------------------------------------ table operations

    /** `get_file_like`: `local` receives a clone of what descriptor `fd` holds. */
    method GetFileLike(t: nat, fd: int, local: Holder) returns (ok: bool)
      requires Valid() && local !in refs && local.Local?
      modifies this`refs, this`strong
      ensures ok <==> fd >= 0 && Slot(t, fd) in old(refs)
      ensures Valid()
      ensures ok ==> refs == old(refs)[local := old(refs)[Slot(t, fd)]]
      ensures !ok ==> View() == old(View())
    {
      ok := fd >= 0 && Slot(t, fd) in refs;
      if ok {
        CloneRef(Slot(t, fd), local);
      }
    }

    /** `add_file_like`: the reference moves to the lowest free slot, or is dropped with EMFILE. */
    method AddFileLike(t: nat, local: Holder) returns (r: Result)
      requires Valid() && local in refs && local.Local? && t < nextTable
      modifies this`refs, this`strong, this`buffers
      ensures Valid()
      ensures r == Err(EMFILE) <==> TableFull(old(refs), t)
      ensures r.Err? ==> r == Err(EMFILE) && refs == old(refs) - {local}
      ensures r.Ok? ==> IsLowestFree(old(refs), t, r.value)
                        && refs == (old(refs) - {local})[Slot(t, r.value) := old(refs)[local]]
    {
      var fd := 0;
      while fd < AX_FILE_LIMIT && Slot(t, fd) in refs
        invariant fd <= AX_FILE_LIMIT
        invariant forall i :: 0 <= i < fd ==> Slot(t, i) in refs
      {
        fd := fd + 1;
      }
      if fd == AX_FILE_LIMIT {
        DropRef(local);
        return Err(EMFILE);
      }
      MoveRef(local, Slot(t, fd));
      r := Ok(fd);
    }

    /** `close_file_like`: the slot's reference moves to the call and is dropped there. */
    method CloseFileLike(t: nat, fd: int, local: Holder) returns (r: Result)
      requires Valid() && local !in refs && local.Local?
      modifies this`refs, this`strong, this`buffers
      ensures Valid()
      ensures fd >= 0 && Slot(t, fd) in old(refs) ==> r == Ok(0) && refs == old(refs) - {Slot(t, fd)}
      ensures !(fd >= 0 && Slot(t, fd) in old(refs)) ==> r == Err(EBADF) && refs == old(refs)
    {
      if fd < 0 || Slot(t, fd) !in refs {
        return Err(EBADF);
      }
      MoveRef(Slot(t, fd), local);
      DropRef(local);
      r := Ok(0);
    }

    /** `copy_inner`: clone every occupied slot of `t` into the new table `t2`. */
    method CopyInner(t: nat, t2: nat)
      requires Valid() && t2 < nextTable && t != t2 && forall i: nat :: Slot(t2, i) !in refs
      modifies this`refs, this`strong
      ensures Valid() && SlotsCopied(old(refs), refs, t, t2, AX_FILE_LIMIT)
    {
      for id := 0 to AX_FILE_LIMIT
        invariant Valid() && SlotsCopied(old(refs), refs, t, t2, id)
      {
        ghost var mid := refs;
        if Slot(t, id) in refs {
          CloneRef(Slot(t, id), Slot(t2, id));
        }
        OneMoreSlotCopied(old(refs), mid, refs, t, t2, id + 1);
      }
    }

    /** The table part of `clone` without CLONE_FILES. */
    method Fork(t: nat) returns (t2: nat)
      requires Valid() && t < nextTable
      modifies this`refs, this`strong, this`nextTable
      ensures Valid() && t2 == old(nextTable) && nextTable == t2 + 1
      ensures SlotsCopied(old(refs), refs, t, t2, AX_FILE_LIMIT)
    {
      t2 := nextTable;
      nextTable := nextTable + 1;
      CopyInner(t, t2);
    }

    /** `clear` on exit: remove every occupied slot of `t`. */
    method Clear(t: nat)
      requires Valid()
      modifies this`refs, this`strong, this`buffers
      ensures Valid() && refs == WithoutSlots(old(refs), t, AX_FILE_LIMIT)
      ensures forall fd: nat :: Slot(t, fd) !in refs
    {
      for id := 0 to AX_FILE_LIMIT
        invariant Valid() && refs == WithoutSlots(old(refs), t, id)
      {
        OneMoreSlotCleared(old(refs), t, id + 1);
        if Slot(t, id) in refs {
          DropRef(Slot(t, id));
        }
      }
    }

    // --------------------------------------------------------- system calls

    method SysDup(t: nat, fd: int, call: nat) returns (r: Result)
      requires Valid() && t < nextTable && Local(call, 0) !in refs
      modifies this`refs, this`strong, this`buffers
      ensures Valid()
      ensures r == Err(EBADF) <==> fd < 0 || Slot(t, fd) !in old(refs)
      ensures r.Err? ==> View() == old(View())
      ensures r == Err(EMFILE) <==>
                fd >= 0 && Slot(t, fd) in old(refs) && TableFull(old(refs), t)
      ensures r.Ok? ==> IsLowestFree(old(refs), t, r.value)
                        && refs == old(refs)[Slot(t, r.value) := old(refs)[Slot(t, fd)]]
    {
      ghost var a := View();
      var ok := GetFileLike(t, fd, Local(call, 0));
      if !ok {
        return Err(EBADF);
      }
      r := AddFileLike(t, Local(call, 0));
      if r.Err? {
        assert refs == a.refs;
        RefsDetermineCounts(a, View());
      }
    }

    method SysDup2(t: nat, oldFd: int, newFd: int, call: nat) returns (r: Result)
      requires Valid() && t < nextTable && Local(call, 0) !in refs
      modifies this`refs, this`strong, this`buffers
      ensures Valid()
      ensures r == Err(EBADF) <==> oldFd < 0 || Slot(t, oldFd) !in old(refs)
      ensures r == Err(EBADF) ==> View() == old(View())
      // The kernel panics exactly when the source is open and the target is out of range.
      ensures r == Err(KernelPanic) <==>
                && oldFd >= 0 && Slot(t, oldFd) in old(refs)
                && (newFd < 0 || newFd >= AX_FILE_LIMIT)
      ensures r.Ok? ==> r.value == newFd && newFd >= 0
                        && refs == old(refs)[Slot(t, newFd) := old(refs)[Slot(t, oldFd)]]
    {
      if oldFd < 0 || Slot(t, oldFd) !in refs {
        return Err(EBADF);
      }
      if oldFd == newFd {
        return Ok(newFd);
      }
      CloneRef(Slot(t, oldFd), Local(call, 0));
      if newFd >= 0 && Slot(t, newFd) in refs {
        DropRef(Slot(t, newFd));
      }
      if newFd < 0 || newFd >= AX_FILE_LIMIT {
        DropRef(Local(call, 0));
        return Err(KernelPanic);
      }
      MoveRef(Local(call, 0), Slot(t, newFd));
      r := Ok(newFd);
    }

    /** The second insertion of `sys_pipe2`: on a full table the read end's descriptor is closed again. */
    method AddSecondEnd(t: nat, h: Holder, readFd: nat, tmp: Holder) returns (r: Result)
      requires Valid() && t < nextTable && h in refs && h.Local? && tmp !in refs && tmp.Local?
      requires Slot(t, readFd) in refs
      modifies this`refs, this`strong, this`buffers
      ensures Valid()
      ensures r == Err(EMFILE) <==> TableFull(old(refs), t)
      ensures r.Err? ==> r == Err(EMFILE) && refs == old(refs) - {h} - {Slot(t, readFd)}
      ensures r.Ok? ==> IsLowestFree(old(refs), t, r.value)
                        && refs == (old(refs) - {h})[Slot(t, r.value) := old(refs)[h]]
    {
      r := AddFileLike(t, h);
      if r.Err? {
        var _ := CloseFileLike(t, readFd, tmp);
      }
    }

    /** The two insertions of `sys_pipe2`, undone together when the table is full. */
    method AddBothEnds(t: nat, hr: Holder, hw: Holder) returns (r: Result, fds: (int, int))
      requires Valid() && t < nextTable && hr in refs && hw in refs && hr != hw && hr.Local? && hw.Local?
      modifies this`refs, this`strong, this`buffers
      ensures Valid()
      ensures r == Err(EMFILE) <==> NoRoomForTwo(old(refs), t)
      ensures r.Err? ==> r == Err(EMFILE) && refs == old(refs) - {hr} - {hw}
      ensures r.Ok? ==>
                && r == Ok(0)
                && IsLowestFree(old(refs), t, fds.0)
                && IsLowestFree(old(refs)[Slot(t, fds.0) := old(refs)[hr]], t, fds.1)
                && refs == (old(refs) - {hr} - {hw})[Slot(t, fds.0) := old(refs)[hr]]
                                                      [Slot(t, fds.1) := old(refs)[hw]]
    {
      fds := (0, 0);
      ghost var before := refs;
      var rd := AddFileLike(t, hr);
      if rd.Err? {
        FullHasNoRoomForTwo(before, t);
        DropRef(hw);
        return Err(EMFILE), fds;
      }
      SecondDescriptor(before, refs, t, rd.value);
      var wr := AddSecondEnd(t, hw, rd.value, hr);
      if wr.Err? {
        return Err(EMFILE), fds;
      }
      fds := (rd.value, wr.value);
      r := Ok(0);
    }

    /** `sys_pipe2`; `fds` is what is stored in the user's array on success. */
    method SysPipe2(t: nat, userPtrOk: bool, call: nat) returns (r: Result, fds: (int, int))
      requires Valid() && t < nextTable && Local(call, 0) !in refs && Local(call, 1) !in refs
      modifies this
      ensures Valid()
      ensures r == Err(EFAULT) <==> !userPtrOk
      ensures r == Err(EMFILE) <==> userPtrOk && NoRoomForTwo(old(refs), t)
      // A failed call leaves every holder and every count as it found them.
      ensures r.Err? ==> refs == old(refs) && strong == old(strong) && buffers == old(buffers)
      ensures r.Ok? ==>
                && r == Ok(0)
                && IsLowestFree(old(refs), t, fds.0)
                && IsLowestFree(old(refs)[Slot(t, fds.0) := PipeEnd(old(nextPipe), true)], t, fds.1)
                && refs == old(refs)[Slot(t, fds.0) := PipeEnd(old(nextPipe), true)]
                                    [Slot(t, fds.1) := PipeEnd(old(nextPipe), false)]
    {
      if !userPtrOk {
        return Err(EFAULT), (0, 0);
      }
      ghost var a := View();
      var hr, hw := Local(call, 0), Local(call, 1);
      PipeNew(hr, hw);
      ghost var mid := refs;
      LocalsAside(a.refs, hr, hw, mid[hr], mid[hw], t);
      r, fds := AddBothEnds(t, hr, hw);
      if r.Err? {
        RefsDetermineCounts(a, View());
      } else {
        var rd := Slot(t, fds.0);
        LowestFreeBySlots(mid[rd := mid[hr]], a.refs[rd := mid[hr]], t, fds.1);
      }
    }
  }
}
