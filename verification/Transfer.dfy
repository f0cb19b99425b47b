/**
 Vectored transfers and `sendfile` (api/src/imp/fs/io.rs) over byte streams that may transfer less
 than they are asked for, or fail, at any call.
 */
module Transfer {

  import opened Common

  datatype Errno = EINVAL | EFAULT | ESPIPE | DeviceError(code: nat)

  datatype Result = Ok(n: nat) | Err(errno: Errno)

  /**
   How a file answers its next call: transfer at most `n` bytes, or fail.  A file with no answers left
   transfers all it can.
   */
  datatype Answer = AtMost(n: nat) | Fail(code: nat)

  /** What the next call of a file transfers, asked for `want` bytes with `avail` at hand. */
  function Respond(plan: seq<Answer>, want: nat, avail: nat): Result {
    if plan == [] then Ok(Min(want, avail))
    else
      match plan[0]
      case AtMost(n) => Ok(Min(n, Min(want, avail)))
      case Fail(code) => Err(DeviceError(code))
  }

  /** The answers left after `n` calls. */
  function After(plan: seq<Answer>, n: nat): seq<Answer> {
    if n <= |plan| then plan[n..] else []
  }

  /** The reading side of a file: a finite stream and a position in it. */
  class Source {
    const data: seq<Byte>
    var pos: nat
    var plan: seq<Answer>

    ghost predicate Valid()
      reads this
    {
      pos <= |data|
    }

    constructor (data: seq<Byte>, pos: nat, plan: seq<Answer>)
      requires pos <= |data|
      ensures Valid() && this.data == data && this.pos == pos && this.plan == plan
    {
      this.data, this.pos, this.plan := data, pos, plan;
    }

    /** `FileLike::read` with room for `want` bytes. */
    method Read(want: nat) returns (r: Result, bytes: seq<Byte>)
      requires Valid()
      modifies this
      ensures Valid() && r == Respond(old(plan), want, |data| - old(pos)) && plan == After(old(plan), 1)
      ensures r.Err? ==> pos == old(pos)
      ensures r.Ok? ==> pos == old(pos) + r.n && bytes == data[old(pos)..pos]
    {
      r, bytes := Respond(plan, want, |data| - pos), [];
      plan := After(plan, 1);
      if r.Ok? {
        bytes := data[pos..pos + r.n];
        pos := pos + r.n;
      }
    }
  }

  /** The writing side of a file: what it has accepted. */
  class Sink {
    var data: seq<Byte>
    var plan: seq<Answer>

    constructor (plan: seq<Answer>)
      ensures data == []
    {
      data, this.plan := [], plan;
    }

    /** `FileLike::write` */
    method Write(bytes: seq<Byte>) returns (r: Result)
      modifies this
      ensures r == Respond(old(plan), |bytes|, |bytes|) && plan == After(old(plan), 1)
      ensures r.Err? ==> data == old(data)
      ensures r.Ok? ==> data == old(data) + bytes[..r.n]
    {
      r := Respond(plan, |bytes|, |bytes|);
      plan := After(plan, 1);
      if r.Ok? {
        data := data + bytes[..r.n];
      }
    }
  }

  // ---------------------------------------------------------------- vectors

  datatype IoVec = IoVec(base: nat, len: nat)

  const IOV_MAX := 1024

  function Total(iovs: seq<IoVec>): nat {
    if iovs == [] then 0 else Total(iovs[..|iovs| - 1]) + iovs[|iovs| - 1].len
  }

  /** The address of byte `p` of the concatenated vectors. */
  function Addr(iovs: seq<IoVec>, p: nat): nat
    requires p < Total(iovs)
  {
    var n := |iovs| - 1;
    if p < Total(iovs[..n]) then Addr(iovs[..n], p) else iovs[n].base + (p - Total(iovs[..n]))
  }

  /** Every vector passes the access check. */
  predicate InMemory(iovs: seq<IoVec>, size: nat) {
    forall i :: 0 <= i < |iovs| && iovs[i].len > 0 ==> iovs[i].base + iovs[i].len <= size
  }

  ghost predicate NonOverlapping(iovs: seq<IoVec>) {
    forall p, q :: 0 <= p < q < Total(iovs) ==> Addr(iovs, p) != Addr(iovs, q)
  }

  lemma {:induction false} AddrInPrefix(iovs: seq<IoVec>, k: nat, p: nat)
    requires k <= |iovs| && p < Total(iovs[..k])
    ensures Total(iovs[..k]) <= Total(iovs) && Addr(iovs, p) == Addr(iovs[..k], p)
    decreases |iovs|
  {
    if k < |iovs| {
      var n := |iovs| - 1;
      assert iovs[..n][..k] == iovs[..k];
      AddrInPrefix(iovs[..n], k, p);
    } else {
      assert iovs[..k] == iovs;
    }
  }

  /** Byte `j` of vector `k` comes after all bytes of the vectors before it. */
  lemma AddrInVector(iovs: seq<IoVec>, k: nat, j: nat)
    requires k < |iovs| && j < iovs[k].len
    ensures Total(iovs[..k + 1]) == Total(iovs[..k]) + iovs[k].len <= Total(iovs)
    ensures Addr(iovs, Total(iovs[..k]) + j) == iovs[k].base + j
  {
    assert iovs[..k + 1][..k] == iovs[..k];
    AddrInPrefix(iovs, k + 1, Total(iovs[..k]) + j);
  }

  /** The number of calls that the vectors make: empty ones make none. */
  function Calls(iovs: seq<IoVec>): nat {
    if iovs == [] then 0 else Calls(iovs[..|iovs| - 1]) + if iovs[|iovs| - 1].len == 0 then 0 else 1
  }

  /** How the file answers the call for vector `k`, the vectors before it having been transferred whole. */
  function AnswerFor(iovs: seq<IoVec>, k: nat, avail: nat, plan: seq<Answer>): Result
    requires k < |iovs|
  {
    var used := Total(iovs[..k]);
    Respond(After(plan, Calls(iovs[..k])), iovs[k].len, if used <= avail then avail - used else 0)
  }

  /** Vector `k` is empty, or passes the access check and is transferred whole. */
  predicate Whole(iovs: seq<IoVec>, k: nat, size: nat, avail: nat, plan: seq<Answer>)
    requires k < |iovs|
  {
    || iovs[k].len == 0
    || (iovs[k].base + iovs[k].len <= size && AnswerFor(iovs, k, avail, plan) == Ok(iovs[k].len))
  }

  /** So are all vectors before `k`. */
  predicate AllWhole(iovs: seq<IoVec>, k: nat, size: nat, avail: nat, plan: seq<Answer>)
    requires k <= |iovs|
    decreases k
  {
    k == 0 || (AllWhole(iovs, k - 1, size, avail, plan) && Whole(iovs, k - 1, size, avail, plan))
  }

  lemma {:induction false} OneOfAllWhole(iovs: seq<IoVec>, k: nat, size: nat, avail: nat, plan: seq<Answer>, j: nat)
    requires j < k <= |iovs| && AllWhole(iovs, k, size, avail, plan)
    ensures Whole(iovs, j, size, avail, plan)
    decreases k
  {
    if j < k - 1 {
      OneOfAllWhole(iovs, k - 1, size, avail, plan, j);
    }
  }

  /**
   Vector `k` is the first that is not transferred whole, and that decides the result `r` and the number
   `n` of bytes transferred; with no such vector everything is.
   */
  ghost predicate StopsAt(iovs: seq<IoVec>, size: nat, avail: nat, plan: seq<Answer>, k: nat, r: Result, n: nat) {
    && k <= |iovs| && AllWhole(iovs, k, size, avail, plan)
    && if k == |iovs| then n == Total(iovs) && r == Ok(n)
       else
         && !Whole(iovs, k, size, avail, plan)
         && if iovs[k].base + iovs[k].len > size then n == Total(iovs[..k]) && r == Err(EFAULT)
            else
              match AnswerFor(iovs, k, avail, plan)
              case Err(e) => n == Total(iovs[..k]) && r == Err(e)
              case Ok(m) => n == Total(iovs[..k]) + m && r == Ok(n)
  }

  /** The first `k` vectors were transferred whole, `ret` bytes, and the file has the answers `left`. */
  ghost predicate UpTo(iovs: seq<IoVec>, size: nat, avail: nat, plan: seq<Answer>,
                       k: nat, left: seq<Answer>, ret: nat) {
    && k <= |iovs| && ret == Total(iovs[..k]) <= avail && left == After(plan, Calls(iovs[..k]))
    && AllWhole(iovs, k, size, avail, plan)
  }

  lemma UpToStart(iovs: seq<IoVec>, size: nat, avail: nat, plan: seq<Answer>)
    ensures UpTo(iovs, size, avail, plan, 0, plan, 0)
  {
  }

  lemma NextEmpty(iovs: seq<IoVec>, size: nat, avail: nat, plan: seq<Answer>, k: nat, left: seq<Answer>, ret: nat)
    requires UpTo(iovs, size, avail, plan, k, left, ret) && k < |iovs| && iovs[k].len == 0
    ensures UpTo(iovs, size, avail, plan, k + 1, left, ret)
  {
    assert iovs[..k + 1][..k] == iovs[..k];
  }

  lemma NextWhole(iovs: seq<IoVec>, size: nat, avail: nat, plan: seq<Answer>, k: nat, left: seq<Answer>, ret: nat)
    requires UpTo(iovs, size, avail, plan, k, left, ret) && k < |iovs| && 0 < iovs[k].len <= size - iovs[k].base
    requires Respond(left, iovs[k].len, avail - ret) == Ok(iovs[k].len)
    ensures UpTo(iovs, size, avail, plan, k + 1, After(left, 1), ret + iovs[k].len)
  {
    assert iovs[..k + 1][..k] == iovs[..k];
    AfterMore(plan, Calls(iovs[..k]));
  }

  lemma StopsFaulting(iovs: seq<IoVec>, size: nat, avail: nat, plan: seq<Answer>, k: nat, left: seq<Answer>, ret: nat)
    requires UpTo(iovs, size, avail, plan, k, left, ret) && k < |iovs|
    requires iovs[k].len > 0 && iovs[k].base + iovs[k].len > size
    ensures StopsAt(iovs, size, avail, plan, k, Err(EFAULT), ret)
  {
  }

  lemma StopsAnswered(iovs: seq<IoVec>, size: nat, avail: nat, plan: seq<Answer>, k: nat, left: seq<Answer>, ret: nat)
    requires UpTo(iovs, size, avail, plan, k, left, ret) && k < |iovs| && 0 < iovs[k].len <= size - iovs[k].base
    requires Respond(left, iovs[k].len, avail - ret) != Ok(iovs[k].len)
    ensures match Respond(left, iovs[k].len, avail - ret)
            case Ok(m) => StopsAt(iovs, size, avail, plan, k, Ok(ret + m), ret + m)
            case Err(e) => StopsAt(iovs, size, avail, plan, k, Err(e), ret)
  {
  }

  lemma StopsDone(iovs: seq<IoVec>, size: nat, avail: nat, plan: seq<Answer>, left: seq<Answer>, ret: nat)
    requires UpTo(iovs, size, avail, plan, |iovs|, left, ret)
    ensures StopsAt(iovs, size, avail, plan, |iovs|, Ok(ret), ret)
  {
    assert iovs[..|iovs|] == iovs;
  }

  lemma AfterMore(plan: seq<Answer>, n: nat)
    ensures After(After(plan, n), 1) == After(plan, n + 1)
  {
  }

  /** Vectors, memory and the file's answers fix the outcome. */
  lemma OutcomeIsFixed(iovs: seq<IoVec>, size: nat, avail: nat, plan: seq<Answer>,
                       k: nat, r: Result, n: nat, k': nat, r': Result, n': nat)
    requires StopsAt(iovs, size, avail, plan, k, r, n) && StopsAt(iovs, size, avail, plan, k', r', n')
    ensures k == k' && r == r' && n == n'
  {
    if k < k' {
      OneOfAllWhole(iovs, k', size, avail, plan, k);
    } else if k' < k {
      OneOfAllWhole(iovs, k, size, avail, plan, k');
    }
  }

  lemma {:induction false} NothingInEmptyVectors(iovs: seq<IoVec>)
    ensures Total(iovs) == 0 <==> forall j :: 0 <= j < |iovs| ==> iovs[j].len == 0
  {
    if iovs != [] {
      NothingInEmptyVectors(iovs[..|iovs| - 1]);
    }
  }

  /**
   An error comes from the first vector that is not transferred whole: EFAULT exactly when it fails the
   access check.  The bytes of the vectors before it were transferred and go unreported, which is no
   loss exactly when these vectors are all empty.
   */
  lemma ErrorHidesBytes(iovs: seq<IoVec>, size: nat, avail: nat, plan: seq<Answer>, k: nat, r: Result, n: nat)
    requires StopsAt(iovs, size, avail, plan, k, r, n) && r.Err?
    ensures k < |iovs| && iovs[k].len > 0 && n == Total(iovs[..k])
    ensures r == Err(EFAULT) <==> iovs[k].base + iovs[k].len > size
    ensures n == 0 <==> forall j :: 0 <= j < k ==> iovs[j].len == 0
  {
    NothingInEmptyVectors(iovs[..k]);
  }

  /** Two vectors of one byte, and a file that transfers one byte and then fails: one byte goes unreported. */
  lemma OneByteHidden(code: nat, avail: nat)
    requires avail > 0
    ensures StopsAt([IoVec(0, 1), IoVec(1, 1)], 2, avail, [AtMost(1), Fail(code)], 1, Err(DeviceError(code)), 1)
  {
    var iovs, plan := [IoVec(0, 1), IoVec(1, 1)], [AtMost(1), Fail(code)];
    UpToStart(iovs, 2, avail, plan);
    NextWhole(iovs, 2, avail, plan, 0, plan, 0);
    StopsAnswered(iovs, 2, avail, plan, 1, After(plan, 1), 1);
  }

  /** A file without answers of its own transfers as much as there is. */
  lemma {:induction false} ObligingFile(iovs: seq<IoVec>, size: nat, avail: nat, k: nat, r: Result, n: nat)
    requires StopsAt(iovs, size, avail, [], k, r, n) && InMemory(iovs, size)
    ensures r == Ok(n) && n == Min(Total(iovs), avail)
  {
    WholePrefix(iovs, size, avail, k);
    if k < |iovs| {
      assert After([], Calls(iovs[..k])) == [];
      assert iovs[..k + 1][..k] == iovs[..k];
      TotalOfPrefix(iovs, k + 1);
    } else {
      assert iovs[..k] == iovs;
    }
  }

  lemma {:induction false} WholePrefix(iovs: seq<IoVec>, size: nat, avail: nat, k: nat)
    requires k <= |iovs| && AllWhole(iovs, k, size, avail, [])
    ensures Total(iovs[..k]) <= avail
    decreases k
  {
    if k > 0 {
      WholePrefix(iovs, size, avail, k - 1);
      assert Whole(iovs, k - 1, size, avail, []);
      assert After([], Calls(iovs[..k - 1])) == [];
      assert iovs[..k][..k - 1] == iovs[..k - 1];
    }
  }

  /** The addresses of the first `n` bytes of the concatenated vectors. */
  ghost function Cells(iovs: seq<IoVec>, n: nat): set<nat>
    requires n <= Total(iovs)
    decreases n
  {
    if n == 0 then {} else Cells(iovs, n - 1) + {Addr(iovs, n - 1)}
  }

  lemma {:induction false} CellsHold(iovs: seq<IoVec>, n: nat, p: nat)
    requires n <= Total(iovs)
    ensures p < n ==> Addr(iovs, p) in Cells(iovs, n)
    ensures p <= n ==> Cells(iovs, p) <= Cells(iovs, n)
    decreases n
  {
    if n > 0 && p < n {
      CellsHold(iovs, n - 1, p);
    }
  }

  /** The first `r` bytes of the vectors hold `bytes`, and the rest of memory is as before. */
  ghost predicate Scattered(before: seq<Byte>, after: seq<Byte>, iovs: seq<IoVec>, bytes: seq<Byte>) {
    && |after| == |before| && |bytes| <= Total(iovs)
    && (forall p :: 0 <= p < |bytes| ==> Addr(iovs, p) < |after| && after[Addr(iovs, p)] == bytes[p])
    && (forall a :: 0 <= a < |after| && a !in Cells(iovs, |bytes|) ==> after[a] == before[a])
  }

  lemma ScatterNone(mem: seq<Byte>, iovs: seq<IoVec>, data: seq<Byte>, pos: nat)
    requires pos <= |data|
    ensures Scattered(mem, mem, iovs, data[pos..pos])
  {
  }

  /** An address outside the first bytes is outside all earlier vectors and the start of vector `k`. */
  lemma OutsideVector(iovs: seq<IoVec>, k: nat, n: nat, a: nat)
    requires k < |iovs| && n <= iovs[k].len && Total(iovs[..k]) + n <= Total(iovs)
    requires a !in Cells(iovs, Total(iovs[..k]) + n)
    ensures a !in Cells(iovs, Total(iovs[..k])) && !(iovs[k].base <= a < iovs[k].base + n)
  {
    var used := Total(iovs[..k]);
    CellsHold(iovs, used + n, used);
    var j := a - iovs[k].base;
    if 0 <= j < n {
      AddrInVector(iovs, k, j);
      CellsHold(iovs, used + n, used + j);
    }
  }

  lemma ScatterMore(before: seq<Byte>, mid: seq<Byte>, after: seq<Byte>, iovs: seq<IoVec>, k: nat,
                    bytes: seq<Byte>, more: seq<Byte>)
    requires NonOverlapping(iovs) && k < |iovs| && |bytes| == Total(iovs[..k]) && |more| <= iovs[k].len
    requires Scattered(before, mid, iovs, bytes) && Stored(mid, after, iovs[k].base, more)
    ensures Scattered(before, after, iovs, bytes + more)
  {
    if more == [] {
      assert after == mid && bytes + more == bytes;
      return;
    }
    AddrInVector(iovs, k, 0);
    var all := bytes + more;
    forall p | 0 <= p < |all|
      ensures Addr(iovs, p) < |after| && after[Addr(iovs, p)] == all[p]
    {
      if p >= |bytes| {
        AddrInVector(iovs, k, p - |bytes|);
      } else {
        BeforeVector(iovs, k, p, |more|);
      }
    }
    forall a | 0 <= a < |after| && a !in Cells(iovs, |all|)
      ensures after[a] == before[a]
    {
      OutsideVector(iovs, k, |more|, a);
    }
  }

  /** A byte of an earlier vector is not among the first `n` of vector `k`. */
  lemma BeforeVector(iovs: seq<IoVec>, k: nat, p: nat, n: nat)
    requires NonOverlapping(iovs) && k < |iovs| && p < Total(iovs[..k]) && n <= iovs[k].len
    ensures p < Total(iovs)
    ensures !(iovs[k].base <= Addr(iovs, p) < iovs[k].base + n)
  {
    AddrInPrefix(iovs, k, p);
    if iovs[k].base <= Addr(iovs, p) < iovs[k].base + n {
      AddrInVector(iovs, k, Addr(iovs, p) - iovs[k].base);
    }
  }

  /** One `read` into the memory that a vector describes. */
  method ReadInto(file: Source, mem: array<Byte>, iov: IoVec) returns (r: Result)
    requires file.Valid() && iov.base + iov.len <= mem.Length
    modifies file, mem
    ensures file.Valid() && old(file.pos) <= file.pos <= old(file.pos) + iov.len
    ensures Stored(old(mem[..]), mem[..], iov.base, file.data[old(file.pos)..file.pos])
    ensures r.Ok? ==> file.pos == old(file.pos) + r.n
    ensures r.Err? ==> file.pos == old(file.pos) && mem[..] == old(mem[..])
    ensures r == Respond(old(file.plan), iov.len, |file.data| - old(file.pos)) && file.plan == After(old(file.plan), 1)
  {
    var bytes;
    r, bytes := file.Read(iov.len);
    if r.Ok? {
      Store(mem, iov.base, bytes);
    }
  }

  /** One `read` into vector `k`, all vectors before it being full. */
  method ReadVector(file: Source, mem: array<Byte>, iovs: seq<IoVec>, k: nat, ghost before: seq<Byte>, ghost start: nat)
    returns (r: Result)
    requires file.Valid() && NonOverlapping(iovs) && k < |iovs| && iovs[k].base + iovs[k].len <= mem.Length
    requires start <= file.pos && file.pos - start == Total(iovs[..k])
    requires Scattered(before, mem[..], iovs, file.data[start..file.pos])
    modifies file, mem
    ensures file.Valid() && start <= file.pos && Scattered(before, mem[..], iovs, file.data[start..file.pos])
    ensures file.pos == old(file.pos) + if r.Ok? then r.n else 0
    ensures r == Respond(old(file.plan), iovs[k].len, |file.data| - old(file.pos))
    ensures file.plan == After(old(file.plan), 1)
  {
    ghost var mid, from := mem[..], file.pos;
    r := ReadInto(file, mem, iovs[k]);
    ScatterMore(before, mid, mem[..], iovs, k, file.data[start..from], file.data[from..file.pos]);
    assert file.data[start..file.pos] == file.data[start..from] + file.data[from..file.pos];
  }

  /** The loop of `sys_readv` on a vector that is not empty; `more` is false when it ends the loop. */
  method ReadvRound(file: Source, mem: array<Byte>, iovs: seq<IoVec>, k: nat, ret: nat,
                    ghost before: seq<Byte>, ghost start: nat, ghost plan: seq<Answer>)
    returns (r: Result, more: bool, ret': nat)
    requires file.Valid() && NonOverlapping(iovs) && k < |iovs| && iovs[k].len > 0
    requires start <= file.pos && ret == file.pos - start
    requires Scattered(before, mem[..], iovs, file.data[start..file.pos])
    requires UpTo(iovs, mem.Length, |file.data| - start, plan, k, file.plan, ret)
    modifies file, mem
    ensures file.Valid() && start <= file.pos && Scattered(before, mem[..], iovs, file.data[start..file.pos])
    ensures more ==> ret' == file.pos - start
                     && UpTo(iovs, mem.Length, |file.data| - start, plan, k + 1, file.plan, ret')
    ensures !more ==> StopsAt(iovs, mem.Length, |file.data| - start, plan, k, r, file.pos - start)
  {
    var iov := iovs[k];
    ghost var size, avail, left := mem.Length, |file.data| - start, file.plan;
    if iov.base + iov.len > mem.Length {
      StopsFaulting(iovs, size, avail, plan, k, left, ret);
      return Err(EFAULT), false, ret;
    }
    r := ReadVector(file, mem, iovs, k, before, start);
    if r == Ok(iov.len) {
      NextWhole(iovs, size, avail, plan, k, left, ret);
      return r, true, ret + r.n;
    }
    StopsAnswered(iovs, size, avail, plan, k, left, ret);
    more, ret' := false, ret;
    if r.Ok? {
      ret' := ret + r.n;
      r := Ok(ret');
    }
  }

  /** The loop of `sys_readv`. */
  method ReadvLoop(file: Source, mem: array<Byte>, iovs: seq<IoVec>, ghost before: seq<Byte>, ghost start: nat,
                   ghost plan: seq<Answer>)
    returns (r: Result, ghost k: nat)
    requires file.Valid() && NonOverlapping(iovs) && start == file.pos && plan == file.plan
    requires Scattered(before, mem[..], iovs, file.data[start..file.pos])
    modifies file, mem
    ensures file.Valid() && start <= file.pos && Scattered(before, mem[..], iovs, file.data[start..file.pos])
    ensures StopsAt(iovs, mem.Length, |file.data| - start, plan, k, r, file.pos - start)
  {
    ghost var size, avail := mem.Length, |file.data| - file.pos;
    var ret := 0;
    UpToStart(iovs, size, avail, plan);
    for i := 0 to |iovs|
      invariant file.Valid() && start <= file.pos && ret == file.pos - start
      invariant Scattered(before, mem[..], iovs, file.data[start..file.pos])
      invariant UpTo(iovs, size, avail, plan, i, file.plan, ret)
    {
      if iovs[i].len == 0 {
        NextEmpty(iovs, size, avail, plan, i, file.plan, ret);
        continue;
      }
      var more;
      r, more, ret := ReadvRound(file, mem, iovs, i, ret, before, start, plan);
      if !more {
        return r, i;
      }
    }
    StopsDone(iovs, size, avail, plan, file.plan, ret);
    r, k := Ok(ret), |iovs|;
  }

  /**
   `sys_readv`: the bytes taken from the file, however many, are the next ones of the stream and fill
   the concatenated vectors from their start; `k` is the vector that decides how many and what is reported.
   */
  method Readv(file: Source, mem: array<Byte>, iovs: seq<IoVec>) returns (r: Result, ghost k: nat)
    requires file.Valid() && NonOverlapping(iovs)
    modifies file, mem
    ensures file.Valid() && old(file.pos) <= file.pos
    ensures Scattered(old(mem[..]), mem[..], iovs, file.data[old(file.pos)..file.pos])
    ensures r.Ok? ==> r.n == file.pos - old(file.pos)
    ensures |iovs| > IOV_MAX ==> r == Err(EINVAL) && file.pos == old(file.pos)
    ensures |iovs| <= IOV_MAX ==>
              StopsAt(iovs, mem.Length, |file.data| - old(file.pos), old(file.plan), k, r, file.pos - old(file.pos))
  {
    ScatterNone(mem[..], iovs, file.data, file.pos);
    if |iovs| > IOV_MAX {
      return Err(EINVAL), 0;
    }
    r, k := ReadvLoop(file, mem, iovs, mem[..], file.pos, file.plan);
  }

  /** The first `n` bytes of the concatenated vectors lie in memory. */
  ghost predicate Readable(size: nat, iovs: seq<IoVec>, n: nat) {
    n <= Total(iovs) && forall p :: 0 <= p < n ==> Addr(iovs, p) < size
  }

  /** The first `n` bytes of the concatenated vectors. */
  ghost function Gathered(mem: seq<Byte>, iovs: seq<IoVec>, n: nat): seq<Byte>
    requires Readable(|mem|, iovs, n)
    decreases n
  {
    if n == 0 then [] else Gathered(mem, iovs, n - 1) + [mem[Addr(iovs, n - 1)]]
  }

  lemma {:induction false} GatherMore(mem: seq<Byte>, iovs: seq<IoVec>, k: nat, used: nat, n: nat)
    requires k < |iovs| && n <= iovs[k].len && iovs[k].base + n <= |mem|
    requires used == Total(iovs[..k]) && Readable(|mem|, iovs, used)
    ensures Readable(|mem|, iovs, used + n)
    ensures Gathered(mem, iovs, used + n) == Gathered(mem, iovs, used) + mem[iovs[k].base..iovs[k].base + n]
    decreases n
  {
    if n > 0 {
      GatherMore(mem, iovs, k, used, n - 1);
      AddrInVector(iovs, k, n - 1);
      OneByteMore(Gathered(mem, iovs, used), mem, iovs[k].base, n);
    } else {
      assert Gathered(mem, iovs, used) + [] == Gathered(mem, iovs, used);
    }
  }

  lemma OneByteMore(text: seq<Byte>, mem: seq<Byte>, base: nat, n: nat)
    requires 0 < n && base + n <= |mem|
    ensures text + mem[base..base + n - 1] + [mem[base + n - 1]] == text + mem[base..base + n]
  {
  }

  /** `after` is `before` followed by the first `n` bytes of the concatenated vectors. */
  ghost predicate Accepted(before: seq<Byte>, after: seq<Byte>, mem: seq<Byte>, iovs: seq<IoVec>, n: nat) {
    Readable(|mem|, iovs, n) && after == before + Gathered(mem, iovs, n)
  }

  lemma AcceptMore(before: seq<Byte>, mid: seq<Byte>, after: seq<Byte>, mem: seq<Byte>,
                   iovs: seq<IoVec>, k: nat, n: nat)
    requires k < |iovs| && n <= iovs[k].len && iovs[k].base + n <= |mem|
    requires Accepted(before, mid, mem, iovs, Total(iovs[..k]))
    requires after == mid + mem[iovs[k].base..iovs[k].base + n]
    ensures Accepted(before, after, mem, iovs, Total(iovs[..k]) + n)
  {
    GatherMore(mem, iovs, k, Total(iovs[..k]), n);
    var chunk := mem[iovs[k].base..iovs[k].base + n];
    assert before + Gathered(mem, iovs, Total(iovs[..k])) + chunk
        == before + (Gathered(mem, iovs, Total(iovs[..k])) + chunk);
  }

  lemma {:induction false} TotalOfPrefix(iovs: seq<IoVec>, k: nat)
    requires k <= |iovs|
    ensures Total(iovs[..k]) <= Total(iovs)
    decreases |iovs|
  {
    if k < |iovs| {
      assert iovs[..|iovs| - 1][..k] == iovs[..k];
      TotalOfPrefix(iovs[..|iovs| - 1], k);
    } else {
      assert iovs[..k] == iovs;
    }
  }

  lemma RoomForVector(iovs: seq<IoVec>, k: nat)
    requires k < |iovs|
    ensures Total(iovs[..k]) + iovs[k].len <= Total(iovs)
  {
    assert iovs[..k + 1][..k] == iovs[..k];
    TotalOfPrefix(iovs, k + 1);
  }

  lemma SliceOfSlice(mem: seq<Byte>, base: nat, len: nat, n: nat)
    requires n <= len && base + len <= |mem|
    ensures mem[base..base + len][..n] == mem[base..base + n]
  {
  }

  /** One `write` from vector `k`, all vectors before it having been accepted. */
  method WriteVector(file: Sink, mem: array<Byte>, iovs: seq<IoVec>, k: nat, ghost before: seq<Byte>)
    returns (r: Result)
    requires k < |iovs| && iovs[k].base + iovs[k].len <= mem.Length
    requires Accepted(before, file.data, mem[..], iovs, Total(iovs[..k]))
    modifies file
    ensures Accepted(before, file.data, mem[..], iovs, Total(iovs[..k]) + if r.Ok? then r.n else 0)
    // A file that is written to has room for all that the vectors hold.
    ensures Total(iovs[..k]) + iovs[k].len <= Total(iovs)
    ensures r == Respond(old(file.plan), iovs[k].len, Total(iovs) - Total(iovs[..k]))
    ensures file.plan == After(old(file.plan), 1)
  {
    var iov := iovs[k];
    RoomForVector(iovs, k);
    ghost var mid := file.data;
    var bytes := mem[..][iov.base..iov.base + iov.len];
    r := file.Write(bytes);
    if r.Ok? {
      SliceOfSlice(mem[..], iov.base, iov.len, r.n);
      AcceptMore(before, mid, file.data, mem[..], iovs, k, r.n);
    }
  }

  /** The loop of `sys_writev` on a vector that is not empty; `more` is false when it ends the loop. */
  method WritevRound(file: Sink, mem: array<Byte>, iovs: seq<IoVec>, k: nat, ret: nat,
                     ghost before: seq<Byte>, ghost plan: seq<Answer>)
    returns (r: Result, more: bool, ret': nat, ghost n: nat)
    requires k < |iovs| && iovs[k].len > 0
    requires Accepted(before, file.data, mem[..], iovs, ret)
    requires UpTo(iovs, mem.Length, Total(iovs), plan, k, file.plan, ret)
    modifies file
    ensures Accepted(before, file.data, mem[..], iovs, n)
    ensures more ==> n == ret' && UpTo(iovs, mem.Length, Total(iovs), plan, k + 1, file.plan, ret')
    ensures !more ==> StopsAt(iovs, mem.Length, Total(iovs), plan, k, r, n)
  {
    var iov := iovs[k];
    ghost var size, avail, left := mem.Length, Total(iovs), file.plan;
    if iov.base + iov.len > mem.Length {
      StopsFaulting(iovs, size, avail, plan, k, left, ret);
      return Err(EFAULT), false, ret, ret;
    }
    r := WriteVector(file, mem, iovs, k, before);
    if r == Ok(iov.len) {
      NextWhole(iovs, size, avail, plan, k, left, ret);
      return r, true, ret + r.n, ret + r.n;
    }
    StopsAnswered(iovs, size, avail, plan, k, left, ret);
    more, ret', n := false, ret, ret;
    if r.Ok? {
      ret', n := ret + r.n, ret + r.n;
      r := Ok(ret');
    }
  }

  /**
   `sys_writev`: the bytes the file accepts are the first `n` of the concatenated vectors; `k` is the
   vector that decides how many and what is reported.
   */
  method Writev(file: Sink, mem: array<Byte>, iovs: seq<IoVec>) returns (r: Result, ghost k: nat, ghost n: nat)
    modifies file
    ensures Accepted(old(file.data), file.data, mem[..], iovs, n)
    ensures r.Ok? ==> r.n == n
    ensures |iovs| > IOV_MAX ==> r == Err(EINVAL) && n == 0
    ensures |iovs| <= IOV_MAX ==> StopsAt(iovs, mem.Length, Total(iovs), old(file.plan), k, r, n)
  {
    k, n := 0, 0;
    if |iovs| > IOV_MAX {
      return Err(EINVAL), k, n;
    }
    ghost var plan, size, avail := file.plan, mem.Length, Total(iovs);
    var ret := 0;
    UpToStart(iovs, size, avail, plan);
    for i := 0 to |iovs|
      invariant n == ret && Accepted(old(file.data), file.data, mem[..], iovs, n)
      invariant UpTo(iovs, size, avail, plan, i, file.plan, ret)
    {
      if iovs[i].len == 0 {
        NextEmpty(iovs, size, avail, plan, i, file.plan, ret);
        continue;
      }
      var more;
      r, more, ret, n := WritevRound(file, mem, iovs, i, ret, old(file.data), plan);
      if !more {
        return r, i, n;
      }
    }
    StopsDone(iovs, size, avail, plan, file.plan, ret);
    r, k := Ok(ret), |iovs|;
  }

  // --------------------------------------------------------------- sendfile

  const SENDFILE_BUFFER := 0x4000

  /** The outcome of a `sendfile`: what it reports, what it took, what the destination accepted. */
  datatype Sent = Sent(r: Result, taken: nat, accepted: nat)

  /** A round that forwarded `n` bytes whole comes before `t`. */
  function Added(n: nat, t: Sent): Sent {
    Sent(if t.r.Ok? then Ok(t.r.n + n) else t.r, t.taken + n, t.accepted + n)
  }

  /** What comes of a source with `avail` bytes left and the answers that source and destination give. */
  function Sending(avail: nat, from: seq<Answer>, into: seq<Answer>): Sent
    decreases avail
  {
    match Respond(from, SENDFILE_BUFFER, avail)
    case Err(e) => Sent(Err(e), 0, 0)
    case Ok(n) =>
      if n == 0 then Sent(Ok(0), 0, 0)
      else
        match Respond(into, n, n)
        case Err(e) => Sent(Err(e), n, 0)
        case Ok(m) =>
          if m < n then Sent(Ok(0), n, m) else Added(n, Sending(avail - n, After(from, 1), After(into, 1)))
  }

  /** The first `i` rounds forward `n` bytes, each round all that it takes. */
  predicate Forwards(avail: nat, from: seq<Answer>, into: seq<Answer>, i: nat, n: nat)
    decreases i
  {
    if i == 0 then n == 0
    else
      match Respond(from, SENDFILE_BUFFER, avail)
      case Err(_) => false
      case Ok(chunk) =>
        && 0 < chunk <= n && Respond(into, chunk, chunk) == Ok(chunk)
        && Forwards(avail - chunk, After(from, 1), After(into, 1), i - 1, n - chunk)
  }

  /**
   After `n` bytes the next round ends the loop with outcome `t`: an error of the source, the source's
   end, an error of the destination, or a short write, whose bytes are accepted but not reported.
   */
  predicate Ends(left: nat, from: seq<Answer>, into: seq<Answer>, n: nat, t: Sent) {
    match Respond(from, SENDFILE_BUFFER, left)
    case Err(e) => t == Sent(Err(e), n, n)
    case Ok(chunk) =>
      if chunk == 0 then t == Sent(Ok(n), n, n)
      else
        match Respond(into, chunk, chunk)
        case Err(e) => t == Sent(Err(e), n + chunk, n)
        case Ok(m) => m < chunk && t == Sent(Ok(n), n + chunk, n + m)
  }

  lemma OutcomeLater(avail: nat, from: seq<Answer>, into: seq<Answer>, chunk: nat, j: nat, m: nat, i: nat, n: nat)
    requires 0 < chunk && i == j + 1 && n == chunk + m <= avail
    requires Respond(from, SENDFILE_BUFFER, avail) == Ok(chunk) && Respond(into, chunk, chunk) == Ok(chunk)
    requires var f, g := After(from, 1), After(into, 1);
             Ends(avail - chunk - m, After(f, j), After(g, j), m, Sending(avail - chunk, f, g))
    ensures Ends(avail - n, After(from, i), After(into, i), n, Sending(avail, from, into))
  {
    var t := Sending(avail - chunk, After(from, 1), After(into, 1));
    assert Sending(avail, from, into) == Added(chunk, t);
    AfterFirst(from, j);
    AfterFirst(into, j);
    EndsLater(avail - n, After(from, i), After(into, i), m, chunk, t);
  }

  lemma EndsLater(left: nat, from: seq<Answer>, into: seq<Answer>, n: nat, more: nat, t: Sent)
    requires Ends(left, from, into, n, t)
    ensures Ends(left, from, into, n + more, Added(more, t))
  {
  }

  /** Whole rounds, and then one that ends the loop: nothing else comes of a `sendfile`. */
  lemma {:induction false} SendingOutcome(avail: nat, from: seq<Answer>, into: seq<Answer>) returns (i: nat, n: nat)
    ensures Forwards(avail, from, into, i, n) && n <= avail
    ensures Ends(avail - n, After(from, i), After(into, i), n, Sending(avail, from, into))
    decreases avail
  {
    var got := Respond(from, SENDFILE_BUFFER, avail);
    if got.Ok? && got.n > 0 && Respond(into, got.n, got.n) == Ok(got.n) {
      var j, m := SendingOutcome(avail - got.n, After(from, 1), After(into, 1));
      i, n := j + 1, m + got.n;
      OutcomeLater(avail, from, into, got.n, j, m, i, n);
    } else {
      i, n := 0, 0;
      AfterNone(from);
      AfterNone(into);
      OutcomeNow(avail, from, into);
    }
  }

  lemma OutcomeNow(avail: nat, from: seq<Answer>, into: seq<Answer>)
    requires var got := Respond(from, SENDFILE_BUFFER, avail);
             !(got.Ok? && got.n > 0 && Respond(into, got.n, got.n) == Ok(got.n))
    ensures Ends(avail, from, into, 0, Sending(avail, from, into))
  {
  }

  /**
   What a successful `sendfile` took but does not report is the chunk of round `i`, its last; the
   destination accepted that chunk only in part, or the source had come to its end and there is none.
   */
  lemma LastChunkUncounted(avail: nat, from: seq<Answer>, into: seq<Answer>) returns (i: nat)
    requires Sending(avail, from, into).r.Ok?
    ensures var t := Sending(avail, from, into);
            && t.r.n <= t.accepted <= t.taken && t.r.n <= avail
            && var chunk, lost := t.taken - t.r.n, t.accepted - t.r.n;
               && Respond(After(from, i), SENDFILE_BUFFER, avail - t.r.n) == Ok(chunk)
               && if chunk == 0 then lost == 0 else lost < chunk && Respond(After(into, i), chunk, chunk) == Ok(lost)
  {
    var n;
    i, n := SendingOutcome(avail, from, into);
  }

  lemma AfterNone(plan: seq<Answer>)
    ensures After(plan, 0) == plan
  {
  }

  lemma AfterFirst(plan: seq<Answer>, n: nat)
    ensures After(After(plan, 1), n) == After(plan, n + 1)
  {
  }

  /** `after` is `base` followed by bytes of the stream from `start` on, none of them beyond `upto`. */
  ghost predicate Forwarded(base: seq<Byte>, after: seq<Byte>, data: seq<Byte>, start: nat, upto: nat) {
    && |base| <= |after| && start + (|after| - |base|) <= upto <= |data|
    && after == base + data[start..start + (|after| - |base|)]
  }

  lemma ForwardMore(base: seq<Byte>, mid: seq<Byte>, data: seq<Byte>, start: nat, from: nat, n: nat, upto: nat)
    requires start <= from && from + n <= upto <= |data| && mid == base + data[start..from]
    ensures Forwarded(base, mid + data[from..from + n], data, start, upto)
    ensures |mid + data[from..from + n]| - |base| == from + n - start
  {
    assert data[start..from + n] == data[start..from] + data[from..from + n];
  }

  /** One round of `do_sendfile`; `more` is false when it ends the loop, and then the round counts nothing. */
  method SendRound(src: Source, dest: Sink, ghost start: nat, ghost base: seq<Byte>) returns (r: Result, more: bool)
    requires src.Valid() && start <= src.pos && dest.data == base + src.data[start..src.pos]
    modifies src, dest
    ensures src.Valid() && old(src.pos) <= src.pos <= old(src.pos) + SENDFILE_BUFFER
    ensures Forwarded(base, dest.data, src.data, start, src.pos) && |dest.data| - |base| >= old(src.pos) - start
    ensures more ==> r == Ok(src.pos - old(src.pos)) && r.n > 0 && dest.data == base + src.data[start..src.pos]
    ensures !more && r.Ok? ==> r.n == 0 && (|dest.data| - |base| < src.pos - start || src.pos == old(src.pos))
    ensures var t := Sending(|src.data| - old(src.pos), old(src.plan), old(dest.plan));
            if more then t == Added(r.n, Sending(|src.data| - src.pos, src.plan, dest.plan))
            else t == Sent(r, src.pos - old(src.pos), |dest.data| - |old(dest.data)|)
  {
    ghost var from, mid := src.pos, dest.data;
    var got, buf := src.Read(SENDFILE_BUFFER);
    if got.Err? || got.n == 0 {
      return got, false;
    }
    r := dest.Write(buf);
    if r.Err? {
      return r, false;
    }
    assert buf[..r.n] == src.data[from..from + r.n];
    ForwardMore(base, mid, src.data, start, from, r.n, src.pos);
    more := r.n == got.n;
    if !more {
      r := Ok(0);
    }
  }

  /**
   `do_sendfile`: what the destination accepts is a prefix of what was taken from the source.  The
   result never exceeds it, and equals it when everything taken was accepted; a short write ends
   the loop and its bytes are not counted.
   */
  method DoSendfile(src: Source, dest: Sink) returns (r: Result)
    requires src.Valid()
    modifies src, dest
    ensures src.Valid() && old(src.pos) <= src.pos
    ensures Forwarded(old(dest.data), dest.data, src.data, old(src.pos), src.pos)
    ensures r.Ok? ==> r.n <= |dest.data| - |old(dest.data)|
    ensures r.Ok? && |dest.data| - |old(dest.data)| == src.pos - old(src.pos) ==> r.n == src.pos - old(src.pos)
    ensures r.Ok? ==> src.pos - old(src.pos) <= r.n + SENDFILE_BUFFER
    ensures Sent(r, src.pos - old(src.pos), |dest.data| - |old(dest.data)|)
            == Sending(|src.data| - old(src.pos), old(src.plan), old(dest.plan))
  {
    ghost var start, base := src.pos, dest.data;
    ghost var whole := Sending(|src.data| - src.pos, src.plan, dest.plan);
    var total := 0;
    while true
      invariant src.Valid() && start <= src.pos && total == src.pos - start
      invariant dest.data == base + src.data[start..src.pos]
      invariant whole == Added(total, Sending(|src.data| - src.pos, src.plan, dest.plan))
      decreases |src.data| - src.pos
    {
      var sent, more := SendRound(src, dest, start, base);
      if sent.Err? {
        return sent;
      }
      if !more {
        break;
      }
      total := total + sent.n;
    }
    r := Ok(total);
  }

  /** Between files without answers of their own everything is sent. */
  lemma {:induction false} ObligingFilesSendAll(avail: nat)
    ensures Sending(avail, [], []) == Sent(Ok(avail), avail, avail)
    decreases avail
  {
    if avail > 0 {
      ObligingFilesSendAll(avail - Min(SENDFILE_BUFFER, avail));
    }
  }

  /** What a transfer that began at `from` and ended at `upto` took from the source. */
  ghost function Taken(data: seq<Byte>, from: nat, upto: nat): seq<Byte> {
    if from <= upto <= |data| then data[from..upto] else []
  }

  lemma TakenFrom(data: seq<Byte>, offset: nat, start: nat, upto: nat, n: nat)
    requires start == Min(offset, |data|) && start + n <= upto <= |data|
    ensures var taken := Taken(data, offset, offset + (upto - start));
            |taken| == upto - start && taken[..n] == data[start..start + n]
  {
  }

  /**
   `sys_sendfile`.  With an offset the source must be a regular file, is read at the offset without
   moving its own position, and the offset advances by exactly the bytes taken; at or past the end of
   the file there is nothing to take.  The length asked for is ignored.
   */
  method Sendfile(src: Source, dest: Sink, regular: bool, offset: nat, hasOffset: bool, len: nat)
    returns (r: Result, offset': nat)
    requires src.Valid()
    modifies src, dest
    ensures src.Valid() && offset <= offset'
    ensures hasOffset ==> src.pos == old(src.pos)
    ensures !hasOffset ==> offset' == offset && old(src.pos) <= src.pos
    ensures hasOffset && !regular ==> r == Err(ESPIPE) && offset' == offset
    ensures var taken := if hasOffset then Taken(src.data, offset, offset') else Taken(src.data, old(src.pos), src.pos);
            && (hasOffset ==> |taken| == offset' - offset)
            && |old(dest.data)| <= |dest.data| <= |old(dest.data)| + |taken|
            && dest.data == old(dest.data) + taken[..|dest.data| - |old(dest.data)|]
            && (r.Ok? ==> r.n <= |dest.data| - |old(dest.data)|)
            && (r.Ok? && |dest.data| - |old(dest.data)| == |taken| ==> r.n == |taken|)
            && (r.Ok? ==> |taken| <= r.n + SENDFILE_BUFFER)
    // The outcome does not depend on `len`.
    ensures !(hasOffset && !regular) ==>
              var start := if hasOffset then Min(offset, |src.data|) else old(src.pos);
              Sent(r, if hasOffset then offset' - offset else src.pos - old(src.pos), |dest.data| - |old(dest.data)|)
              == Sending(|src.data| - start, old(src.plan), old(dest.plan))
  {
    offset' := offset;
    if !hasOffset {
      r := DoSendfile(src, dest);
      return;
    }
    if !regular {
      return Err(ESPIPE), offset';
    }
    var start := Min(offset, |src.data|);
    var cursor := new Source(src.data, start, src.plan);
    r := DoSendfile(cursor, dest);
    offset' := offset + (cursor.pos - start);
    TakenFrom(src.data, offset, start, cursor.pos, |dest.data| - |old(dest.data)|);
  }
}
