/**
 The pipe's ring buffer (api/src/file/pipe.rs) and the two lock-held rounds of
 `Pipe::read` and `Pipe::write` that work on it.  The class is proved to be a
 first-in first-out queue of at most 256 bytes; the rounds are proved against
 functions on that queue, which is what the interleaving model runs on.
 */
module Ring {

  import opened Common

  const RING_BUFFER_SIZE := 256

  datatype RingBufferStatus = Full | Empty | Normal

  datatype ReadOutcome = ReadWait | ReadReturn(n: nat)

  datatype WriteOutcome = WriteWait | WriteAgain | WriteReturn

  /** What one locked round of a read does: its outcome.  A round that returns takes `q[..n]`. */
  function ReadRound(q: seq<Byte>, len: nat, closed: bool): (r: ReadOutcome)
    // A round that finds bytes and room takes as many as both allow.
    ensures q != [] && len > 0 ==>
              r.ReadReturn? && 0 < r.n <= |q| && r.n <= len && (r.n == |q| || r.n == len)
    // Otherwise it takes none, and waits exactly while the peer is there.
    ensures q == [] || len == 0 ==> (r.ReadWait? <==> !closed) && (r.ReadReturn? ==> r.n == 0)
  {
    if Min(|q|, len) > 0 then ReadReturn(Min(|q|, len))
    else if closed then ReadReturn(0)
    else ReadWait
  }

  /** What one locked round of a write does: its outcome and how many of `remaining` bytes it stores. */
  function WriteRound(q: seq<Byte>, remaining: nat, closed: bool): (r: (WriteOutcome, nat))
    requires |q| <= RING_BUFFER_SIZE
    ensures r.1 <= remaining && |q| + r.1 <= RING_BUFFER_SIZE
    // A round that finds space stores something or returns; a round waits only on a full ring.
    ensures |q| < RING_BUFFER_SIZE ==> r.0.WriteReturn? || r.1 > 0
    ensures r.0.WriteWait? ==> |q| == RING_BUFFER_SIZE && !closed
    // A round that goes on has filled the ring.
    ensures r.0.WriteAgain? ==> |q| + r.1 == RING_BUFFER_SIZE
    // A round returns with bytes left over only when the ring is full and the peer has gone.
    ensures r.0.WriteReturn? ==> r.1 == remaining || (closed && |q| == RING_BUFFER_SIZE)
    // The round ends the call without waiting exactly when the bytes are strictly fewer than
    // the free space, or the ring is full and the peer has gone.
    ensures r.0.WriteReturn? <==>
              remaining < RING_BUFFER_SIZE - |q| || (|q| == RING_BUFFER_SIZE && closed)
  {
    var space := RING_BUFFER_SIZE - |q|;
    if space == 0 then (if closed then WriteReturn else WriteWait, 0)
    else if remaining < space then (WriteReturn, remaining)
    else (WriteAgain, space)
  }

  /** The bytes of a ring from `head` to `tail`, going round the end when `wraps`. */
  ghost function Window(a: seq<Byte>, head: nat, tail: nat, wraps: bool): seq<Byte>
    requires head <= |a| && tail <= |a| && (!wraps ==> head <= tail)
  {
    if wraps then a[head..] + a[..tail] else a[head..tail]
  }

  lemma WindowPop(a: seq<Byte>, head: nat, tail: nat, wraps: bool)
    requires head < |a| && tail <= |a| && (!wraps ==> head < tail)
    ensures var w := Window(a, head, tail, wraps);
            && w[0] == a[head]
            && w[1..] == if head + 1 == |a| && wraps then Window(a, 0, tail, false)
                         else Window(a, head + 1, tail, wraps)
  {
    if wraps {
      assert (a[head..] + a[..tail])[1..] == a[head + 1..] + a[..tail];
      assert head + 1 == |a| ==> a[head + 1..] + a[..tail] == a[0..tail];
    } else {
      assert a[head..tail][1..] == a[head + 1..tail];
    }
  }

  lemma WindowPush(a: seq<Byte>, head: nat, tail: nat, wraps: bool, b: Byte)
    requires head < |a| && tail < |a| && (if wraps then tail < head else head <= tail)
    ensures Window(a, head, tail, wraps) + [b] == Window(a[tail := b], head, tail + 1, wraps)
    ensures tail + 1 == |a| && !wraps ==>
              Window(a[tail := b], head, tail + 1, wraps) == Window(a[tail := b], head, 0, true)
  {
    var a' := a[tail := b];
    assert a'[..tail + 1] == a[..tail] + [b];
    if wraps {
      assert a'[head..] == a[head..];
      assert a[head..] + a[..tail] + [b] == a'[head..] + a'[..tail + 1];
    } else {
      assert a'[head..tail + 1] == a[head..tail] + [b];
      assert a'[head..] + a'[..0] == a'[head..];
    }
  }

  class PipeRingBuffer {
    const arr: array<Byte>
    var head: nat
    var tail: nat
    var status: RingBufferStatus

    ghost predicate Valid()
      reads this
    {
      && arr.Length == RING_BUFFER_SIZE
      && head < RING_BUFFER_SIZE
      && tail < RING_BUFFER_SIZE
      && (status.Normal? <==> head != tail)
    }

    /** The bytes stored, oldest first. */
    ghost function Contents(): (q: seq<Byte>)
      requires Valid()
      reads this, arr
    {
      Window(arr[..], head, tail, status.Full? || tail < head)
    }

    constructor ()
      ensures Valid() && fresh(arr)
      ensures Contents() == []
    {
      arr := new Byte[RING_BUFFER_SIZE](_ => 0);
      head, tail, status := 0, 0, Empty;
    }

    method WriteByte(b: Byte)
      requires Valid() && |Contents()| < RING_BUFFER_SIZE
      modifies this, arr
      ensures Valid()
      ensures Contents() == old(Contents()) + [b]
    {
      WindowPush(arr[..], head, tail, tail < head, b);
      status := Normal;
      arr[tail] := b;
      tail := (tail + 1) % RING_BUFFER_SIZE;
      if tail == head {
        status := Full;
      }
    }

    method ReadByte() returns (b: Byte)
      requires Valid() && |Contents()| > 0
      modifies this
      ensures Valid()
      ensures b == old(Contents())[0]
      ensures Contents() == old(Contents())[1..]
    {
      WindowPop(arr[..], head, tail, status.Full? || tail < head);
      status := Normal;
      b := arr[head];
      head := (head + 1) % RING_BUFFER_SIZE;
      if head == tail {
        status := Empty;
      }
    }

    function AvailableRead(): (n: nat)
      requires Valid()
      reads this, arr
      ensures n == |Contents()|
    {
      if status.Empty? then 0
      else if tail > head then tail - head
      else tail + RING_BUFFER_SIZE - head
    }

    function AvailableWrite(): (n: nat)
      requires Valid()
      reads this, arr
      ensures n + |Contents()| == RING_BUFFER_SIZE
    {
      if status.Full? then 0 else RING_BUFFER_SIZE - AvailableRead()
    }

    /** The copying loop of `Pipe::read`: the oldest `n` bytes go to the start of `buf`. */
    method TakeInto(buf: array<Byte>, n: nat)
      requires Valid() && buf != arr && n <= |Contents()| && n <= buf.Length
      modifies this, buf
      ensures Valid() && Contents() == old(Contents())[n..]
      ensures buf[..n] == old(Contents())[..n] && buf[n..] == old(buf[n..])
    {
      ghost var q := Contents();
      for i := 0 to n
        invariant Valid() && Contents() == q[i..]
        invariant forall k :: 0 <= k < buf.Length ==> buf[k] == if k < i then q[k] else old(buf[k])
      {
        assert q[i..][1..] == q[i + 1..];
        var b := ReadByte();
        buf[i] := b;
      }
    }

    /** One lock-held round of `Pipe::read` on a non-empty user buffer. */
    method ReadLocked(buf: array<Byte>, closed: bool) returns (r: ReadOutcome)
      requires Valid() && buf != arr && buf.Length > 0
      modifies this, buf
      ensures Valid()
      ensures r == ReadRound(old(Contents()), buf.Length, closed)
      ensures r.ReadWait? ==> Contents() == old(Contents()) && buf[..] == old(buf[..])
      ensures r.ReadReturn? ==>
                && r.n <= |old(Contents())| && r.n <= buf.Length
                && buf[..r.n] == old(Contents())[..r.n] && buf[r.n..] == old(buf[..])[r.n..]
                && Contents() == old(Contents())[r.n..]
    {
      var readSize := Min(AvailableRead(), buf.Length);
      if readSize == 0 {
        return if closed then ReadReturn(0) else ReadWait;
      }
      TakeInto(buf, readSize);
      return ReadReturn(readSize);
    }

    /** One lock-held round of `Pipe::write`, `sent` bytes of `buf` being in the ring already. */
    method WriteLocked(buf: array<Byte>, sent: nat, closed: bool)
      returns (r: WriteOutcome, sent': nat)
      requires Valid() && buf != arr && sent <= buf.Length
      modifies this, arr
      ensures Valid()
      ensures (r, sent' - sent) == WriteRound(old(Contents()), buf.Length - sent, closed)
      ensures sent <= sent' <= buf.Length
      ensures Contents() == old(Contents()) + buf[sent..sent']
    {
      ghost var q := Contents();
      var space := AvailableWrite();
      sent' := sent;
      if space == 0 {
        return if closed then WriteReturn else WriteWait, sent;
      }
      for i := 0 to space
        invariant sent' == sent + i <= buf.Length
        invariant Valid() && Contents() == q + buf[sent..sent']
      {
        if sent' == buf.Length {
          return WriteReturn, sent';
        }
        assert buf[sent..sent' + 1] == buf[sent..sent'] + [buf[sent']];
        WriteByte(buf[sent']);
        sent' := sent' + 1;
        assert q + buf[sent..sent'] == q + buf[sent..sent' - 1] + [buf[sent' - 1]];
      }
      return WriteAgain, sent';
    }
  }
}
