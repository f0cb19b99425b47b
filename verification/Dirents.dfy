/**
 `getdents64` (api/src/imp/fs/ctl.rs): the record encoder and the one-entry lookahead that a
 directory keeps between calls.
 */
module Dirents {

  import opened Common

  const NAME_OFFSET := 19   // offset of d_name in linux_dirent64
  const DIRENT_SIZE := 24   // size of linux_dirent64, trailing padding included
  const DIRENT_ALIGN := 8

  datatype Entry = Entry(dtype: Byte, name: seq<Byte>)

  function RecLen(name: seq<Byte>): (n: nat)
    ensures n % DIRENT_ALIGN == 0 && n >= DIRENT_SIZE
    ensures NAME_OFFSET + |name| + 1 <= n < NAME_OFFSET + |name| + 1 + DIRENT_ALIGN
  {
    (NAME_OFFSET + |name| + 1 + (DIRENT_ALIGN - 1)) / DIRENT_ALIGN * DIRENT_ALIGN
  }

  /** A name that the 16-bit record length can describe and that NUL can end. */
  predicate Encodable(e: Entry) {
    0 !in e.name && RecLen(e.name) < 65536
  }

  function LittleEndian(lo: Byte, hi: Byte): nat {
    (lo as int) + 256 * (hi as int)
  }

  // ------------------------------------------------------------ one record

  const HEAD: seq<Byte> := [1, 0, 0, 0, 0, 0, 0, 0, 0, 0, 0, 0, 0, 0, 0, 0]   // d_ino is 1, d_off is 0

  /** The bytes of one record, up to the padding after the name's terminator. */
  predicate IsRecord(bytes: seq<Byte>, e: Entry) {
    && |bytes| == RecLen(e.name)
    && bytes[..16] == HEAD
    && bytes[16] == RecLen(e.name) % 256 && bytes[17] == RecLen(e.name) / 256 % 256
    && bytes[18] == e.dtype
    && bytes[NAME_OFFSET..NAME_OFFSET + |e.name|] == e.name
    && bytes[NAME_OFFSET + |e.name|] == 0
  }

  /**
   What a user program reads by walking a buffer from record length to record length.  The walk
   fails on a record that is not aligned, does not hold its name and terminator, or leaves the buffer.
   */
  function Walk(bytes: seq<Byte>): Option<seq<Entry>>
    decreases |bytes|
  {
    if bytes == [] then Some([])
    else if |bytes| < DIRENT_SIZE then None
    else
      var len := LittleEndian(bytes[16], bytes[17]);
      if len < DIRENT_SIZE || len > |bytes| || len % DIRENT_ALIGN != 0 || 0 !in bytes[NAME_OFFSET..len] then None
      else
        var rest := Walk(bytes[len..]);
        if rest.None? then None
        else Some([Entry(bytes[18], UpToNul(bytes[NAME_OFFSET..len]))] + rest.value)
  }

  function UpToNul(bytes: seq<Byte>): seq<Byte> {
    if bytes == [] || bytes[0] == 0 then [] else [bytes[0]] + UpToNul(bytes[1..])
  }

  lemma {:induction false} UpToNulStops(bytes: seq<Byte>, n: nat)
    requires n < |bytes| && bytes[n] == 0 && 0 !in bytes[..n]
    ensures UpToNul(bytes) == bytes[..n]
  {
    if n > 0 {
      assert bytes[..n][0] != 0;
      assert bytes[1..][..n - 1] == bytes[..n][1..];
      UpToNulStops(bytes[1..], n - 1);
    }
  }

  /** A record alone reads as its entry. */
  lemma WalkOne(r: seq<Byte>, e: Entry)
    requires IsRecord(r, e) && Encodable(e)
    ensures Walk(r) == Some([e])
  {
    var tail := r[NAME_OFFSET..|r|];
    assert tail[|e.name|] == 0 && tail[..|e.name|] == e.name;
    UpToNulStops(tail, |e.name|);
    assert r[|r|..] == [] && [e] + [] == [e];
  }

  /** A record added at the end of a buffer adds its entry at the end of the walk. */
  lemma {:induction false} WalkAppend(bytes: seq<Byte>, es: seq<Entry>, r: seq<Byte>, e: Entry)
    requires Walk(bytes) == Some(es) && IsRecord(r, e) && Encodable(e)
    ensures Walk(bytes + r) == Some(es + [e])
    decreases |bytes|
  {
    if bytes == [] {
      WalkOne(r, e);
      assert bytes + r == r && es + [e] == [e];
    } else {
      var len := LittleEndian(bytes[16], bytes[17]);
      var whole, rest := bytes + r, bytes[len..];
      assert whole[16] == bytes[16] && whole[17] == bytes[17] && whole[18] == bytes[18];
      assert whole[NAME_OFFSET..len] == bytes[NAME_OFFSET..len];
      assert whole[len..] == rest + r;
      var first := Entry(bytes[18], UpToNul(bytes[NAME_OFFSET..len]));
      assert es == [first] + Walk(rest).value;
      assert es[1..] == Walk(rest).value;
      WalkAppend(rest, es[1..], r, e);
      assert [first] + (es[1..] + [e]) == es + [e];
    }
  }

  /** The three stores of `write_entry` leave one record at `off` and nothing else changed. */
  lemma StoredRecord(b0: seq<Byte>, b1: seq<Byte>, b2: seq<Byte>, b3: seq<Byte>, off: nat, header: seq<Byte>, e: Entry)
    requires off + RecLen(e.name) <= |b0| && |header| == DIRENT_SIZE
    requires Stored(b0, b1, off, header)
    requires Stored(b1, b2, off + NAME_OFFSET, e.name)
    requires Stored(b2, b3, off + NAME_OFFSET + |e.name|, [0])
    requires header[..16] == HEAD && header[18] == e.dtype
    requires header[16] == RecLen(e.name) % 256 && header[17] == RecLen(e.name) / 256 % 256
    ensures Wrote(b0, b3, off, e)
  {
    var r := b3[off..off + RecLen(e.name)];
    assert forall i :: 0 <= i < NAME_OFFSET ==> r[i] == header[i];
    assert r[..16] == header[..16];
    forall i | 0 <= i < |e.name|
      ensures r[NAME_OFFSET..NAME_OFFSET + |e.name|][i] == e.name[i]
    {
      assert b3[off + NAME_OFFSET + i] == b2[off + NAME_OFFSET + i];
    }
  }

  /** The first `n` bytes, walked, give the entries `es`. */
  predicate ReadsAs(bytes: seq<Byte>, n: nat, es: seq<Entry>) {
    n <= |bytes| && Walk(bytes[..n]) == Some(es)
  }

  /** Only bytes before position `n` changed. */
  predicate TailKept(before: seq<Byte>, after: seq<Byte>, n: nat) {
    |after| == |before| && forall i :: n <= i < |before| ==> after[i] == before[i]
  }

  lemma TailKeptTwice(b0: seq<Byte>, b1: seq<Byte>, b2: seq<Byte>, n: nat, m: nat)
    requires TailKept(b0, b1, n) && TailKept(b1, b2, m) && n <= m
    ensures TailKept(b0, b2, m) && (m == 0 ==> b2 == b0)
  {
  }

  /** A record for `e` was written at `off` and nothing else. */
  predicate Wrote(before: seq<Byte>, after: seq<Byte>, off: nat, e: Entry) {
    && off + RecLen(e.name) <= |before| && TailKept(before, after, off + RecLen(e.name))
    && after[..off] == before[..off]
    && IsRecord(after[off..off + RecLen(e.name)], e)
  }

  lemma WroteReads(before: seq<Byte>, after: seq<Byte>, off: nat, es: seq<Entry>, e: Entry)
    requires Wrote(before, after, off, e) && ReadsAs(before, off, es) && Encodable(e)
    ensures ReadsAs(after, off + RecLen(e.name), es + [e])
  {
    var len := RecLen(e.name);
    WalkAppend(before[..off], es, after[off..off + len], e);
    assert after[..off + len] == after[..off] + after[off..off + len];
  }

  /** The bytes of the structure that `write_entry` stores; the record length is cut to 16 bits. */
  method Header(len: nat, dtype: Byte, padding: seq<Byte>) returns (h: seq<Byte>)
    requires |padding| == DIRENT_SIZE - NAME_OFFSET
    ensures |h| == DIRENT_SIZE && h[..16] == HEAD && h[18] == dtype
    ensures h[16] == len % 256 && h[17] == len / 256 % 256
  {
    h := HEAD + [len % 256, len / 256 % 256, dtype] + padding;
  }

  class DirBuffer {
    const buf: array<Byte>
    var offset: nat

    constructor (buf: array<Byte>)
      ensures this.buf == buf && offset == 0
    {
      this.buf, offset := buf, 0;
    }

    /**
     `write_entry`: a record is stored at the offset if it fits.  Storing the header also stores the
     structure's trailing padding, whose five bytes are unspecified (`padding`).
     */
    method WriteEntry(dtype: Byte, name: seq<Byte>, padding: seq<Byte>) returns (ok: bool)
      requires offset <= buf.Length && |padding| == DIRENT_SIZE - NAME_OFFSET
      modifies this`offset, buf
      ensures ok <==> RecLen(name) <= buf.Length - old(offset)
      ensures !ok ==> offset == old(offset) && buf[..] == old(buf[..])
      ensures ok ==> offset == old(offset) + RecLen(name)
                     && Wrote(old(buf[..]), buf[..], old(offset), Entry(dtype, name))
    {
      var len := RecLen(name);
      if buf.Length - offset < len {
        return false;
      }
      var header := Header(len, dtype, padding);
      ghost var b0 := buf[..];
      Store(buf, offset, header);
      ghost var b1 := buf[..];
      Store(buf, offset + NAME_OFFSET, name);
      ghost var b2 := buf[..];
      Store(buf, offset + NAME_OFFSET + |name|, [0]);
      StoredRecord(b0, b1, b2, buf[..], offset, header, Entry(dtype, name));
      offset := offset + len;
      return true;
    }

    /** `write_entry` seen from a buffer that reads as `es`. */
    method Append(ent: Entry, padding: seq<Byte>, ghost es: seq<Entry>) returns (ok: bool)
      requires |padding| == DIRENT_SIZE - NAME_OFFSET && ReadsAs(buf[..], offset, es) && Encodable(ent)
      modifies this`offset, buf
      ensures ok <==> RecLen(ent.name) <= buf.Length - old(offset)
      ensures !ok ==> offset == old(offset) && buf[..] == old(buf[..])
      ensures ok ==> offset == old(offset) + RecLen(ent.name) && ReadsAs(buf[..], offset, es + [ent])
                     && TailKept(old(buf[..]), buf[..], offset)
    {
      ghost var from, before := offset, buf[..];
      ok := WriteEntry(ent.dtype, ent.name, padding);
      if ok {
        WroteReads(before, buf[..], from, es, ent);
      }
    }
  }

  // ------------------------------------------------- one call and many calls

  datatype Errno = EINVAL

  datatype Result = Ok(n: nat) | Err(errno: Errno)

  /** An open directory: `pos` entries read from the file system, `last` read but not handed out. */
  datatype Dir = Dir(entries: seq<Entry>, pos: nat, last: Option<Entry>)

  predicate ValidDir(d: Dir) {
    && d.pos <= |d.entries|
    && (d.last.Some? ==> d.pos > 0 && d.last.value == d.entries[d.pos - 1])
    && forall i :: 0 <= i < |d.entries| ==> Encodable(d.entries[i])
  }

  /** How many entries have been handed out. */
  function Handed(d: Dir): nat
    requires ValidDir(d)
  {
    if d.last.Some? then d.pos - 1 else d.pos
  }

  /** The space that the entries `i..j` take. */
  function Space(entries: seq<Entry>, i: nat, j: nat): nat
    requires i <= j <= |entries|
  {
    if i == j then 0 else Space(entries, i, j - 1) + RecLen(entries[j - 1].name)
  }

  /** What one call with `room` bytes does: it hands out entries `Handed(d)..Handed(d')`. */
  ghost predicate Call(d: Dir, room: nat, d': Dir, r: Result)
    requires ValidDir(d)
  {
    && ValidDir(d') && d'.entries == d.entries && Handed(d) <= Handed(d')
    && Space(d.entries, Handed(d), Handed(d')) <= room
    // nothing more would have fitted
    && (Handed(d') < |d.entries| ==> Space(d.entries, Handed(d), Handed(d') + 1) > room)
    && r == if Handed(d) == Handed(d') < |d.entries| then Err(EINVAL) else Ok(Space(d.entries, Handed(d), Handed(d')))
  }

  class Directory {
    const entries: seq<Entry>
    var pos: nat
    var last: Option<Entry>

    function View(): Dir
      reads this
    {
      Dir(entries, pos, last)
    }

    constructor (entries: seq<Entry>)
      ensures View() == Dir(entries, 0, None)
    {
      this.entries, pos, last := entries, 0, None;
    }

    /** The entry kept from an earlier call goes first; if it does not fit it is kept again. */
    method HandLast(buffer: DirBuffer, padding: seq<Byte>) returns (ok: bool)
      requires ValidDir(View()) && |padding| == DIRENT_SIZE - NAME_OFFSET && buffer.offset == 0
      modifies this`last, buffer`offset, buffer.buf
      ensures ok <==> (old(last).Some? ==> RecLen(old(last).value.name) <= buffer.buf.Length)
      ensures !ok ==> last == old(last) && buffer.buf[..] == old(buffer.buf[..])
      ensures ok ==> last.None? && Filled(buffer.buf[..], buffer.offset, entries, old(Handed(View())), pos)
                     && TailKept(old(buffer.buf[..]), buffer.buf[..], buffer.offset)
    {
      assert buffer.buf[..][..0] == [];
      if last.None? {
        assert entries[pos..pos] == [];
        return true;
      }
      var ent := last.value;
      last := None;
      assert entries[pos - 1..pos] == [] + [ent];
      ok := buffer.Append(ent, padding, []);
      if !ok {
        last := Some(ent);
      }
    }

    /** `sys_getdents64` on user memory `buf`. */
    method GetDents(buf: array<Byte>, padding: seq<Byte>) returns (r: Result)
      requires ValidDir(View()) && |padding| == DIRENT_SIZE - NAME_OFFSET
      modifies this, buf
      ensures ValidDir(View()) && Call(old(View()), buf.Length, View(), r)
      ensures r.Ok? ==> ReadsAs(buf[..], r.n, entries[old(Handed(View()))..Handed(View())])
                        && TailKept(old(buf[..]), buf[..], r.n)
      ensures r.Err? ==> buf[..] == old(buf[..])
    {
      ghost var d := View();
      var buffer := new DirBuffer(buf);
      var ok := HandLast(buffer, padding);
      if !ok {
        return Err(EINVAL);
      }
      ghost var b0, b1, n := old(buf[..]), buf[..], buffer.offset;
      pos, last := Fill(buffer, padding, entries, Handed(d), pos);
      r := if last.Some? && buffer.offset == 0 then Err(EINVAL) else Ok(buffer.offset);
      CallIsOver(d, View(), buf[..], buffer.offset, r);
      TailKeptTwice(b0, b1, buf[..], n, buffer.offset);
    }
  }

  /** `used` bytes are filled with the entries `i..j`. */
  ghost predicate Filled(bytes: seq<Byte>, used: nat, entries: seq<Entry>, i: nat, j: nat) {
    i <= j <= |entries| && used == Space(entries, i, j) && ReadsAs(bytes, used, entries[i..j])
  }

  /** The reading loop has stopped: at the end, or at an entry that did not fit. */
  ghost predicate Stopped(bytes: seq<Byte>, used: nat, entries: seq<Entry>, i: nat, pos: nat, last: Option<Entry>) {
    if last.None? then pos == |entries| && Filled(bytes, used, entries, i, pos)
    else
      && i < pos <= |entries| && last.value == entries[pos - 1]
      && Filled(bytes, used, entries, i, pos - 1) && used + RecLen(last.value.name) > |bytes|
  }

  lemma CallIsOver(d: Dir, d': Dir, bytes: seq<Byte>, used: nat, r: Result)
    requires ValidDir(d) && d'.entries == d.entries
    requires Stopped(bytes, used, d.entries, Handed(d), d'.pos, d'.last)
    requires r == if d'.last.Some? && used == 0 then Err(EINVAL) else Ok(used)
    ensures ValidDir(d') && Call(d, |bytes|, d', r)
    ensures r.Ok? ==> ReadsAs(bytes, r.n, d.entries[Handed(d)..Handed(d')])
  {
    SpaceOfSome(d.entries, Handed(d), Handed(d'));
  }

  lemma FilledMore(bytes: seq<Byte>, used: nat, entries: seq<Entry>, i: nat, j: nat)
    requires i < j <= |entries| && used == Space(entries, i, j - 1) + RecLen(entries[j - 1].name)
    requires ReadsAs(bytes, used, entries[i..j - 1] + [entries[j - 1]])
    ensures Filled(bytes, used, entries, i, j)
  {
    assert entries[i..j] == entries[i..j - 1] + [entries[j - 1]];
  }

  /**
   The reading loop: `read_dir` gives the entry at `pos` and moves on; entries are added until one
   does not fit, and that one is kept.
   */
  method Fill(buffer: DirBuffer, padding: seq<Byte>, entries: seq<Entry>, ghost h0: nat, start: nat)
    returns (pos: nat, last: Option<Entry>)
    requires forall i :: 0 <= i < |entries| ==> Encodable(entries[i])
    requires |padding| == DIRENT_SIZE - NAME_OFFSET && Filled(buffer.buf[..], buffer.offset, entries, h0, start)
    modifies buffer`offset, buffer.buf
    ensures old(buffer.offset) <= buffer.offset && Stopped(buffer.buf[..], buffer.offset, entries, h0, pos, last)
    ensures TailKept(old(buffer.buf[..]), buffer.buf[..], buffer.offset)
  {
    pos := start;
    while pos < |entries|
      invariant pos <= |entries| && old(buffer.offset) <= buffer.offset
      invariant Filled(buffer.buf[..], buffer.offset, entries, h0, pos)
      invariant TailKept(old(buffer.buf[..]), buffer.buf[..], buffer.offset)
    {
      var ent := entries[pos];
      pos := pos + 1;
      var ok := buffer.Append(ent, padding, entries[h0..pos - 1]);
      if !ok {
        return pos, Some(ent);
      }
      FilledMore(buffer.buf[..], buffer.offset, entries, h0, pos);
    }
    last := None;
  }

  lemma SpaceOfSome(entries: seq<Entry>, i: nat, j: nat)
    requires i <= j <= |entries|
    ensures Space(entries, i, j) == 0 <==> i == j
  {
  }

  /** The second of two calls sees what the first left: the outcome is fixed by what was handed out. */
  lemma CallIsDetermined(d: Dir, room: nat, d1: Dir, r1: Result, d2: Dir, r2: Result)
    requires ValidDir(d) && Call(d, room, d1, r1) && Call(d, room, d2, r2)
    ensures Handed(d1) == Handed(d2) && r1 == r2
  {
    if Handed(d1) < Handed(d2) {
      SpaceGrows(d.entries, Handed(d), Handed(d1) + 1, Handed(d2));
    } else if Handed(d2) < Handed(d1) {
      SpaceGrows(d.entries, Handed(d), Handed(d2) + 1, Handed(d1));
    }
  }

  lemma {:induction false} SpaceGrows(entries: seq<Entry>, i: nat, j: nat, k: nat)
    requires i <= j <= k <= |entries|
    ensures Space(entries, i, j) <= Space(entries, i, k)
    decreases k
  {
    if j < k {
      SpaceGrows(entries, i, j, k - 1);
    }
  }

  /** Ok(0) exactly when everything was handed out before; EINVAL exactly when the next entry does not fit. */
  lemma CallOutcome(d: Dir, room: nat, d': Dir, r: Result)
    requires ValidDir(d) && Call(d, room, d', r)
    ensures r == Ok(0) <==> Handed(d) == |d.entries|
    ensures r.Err? <==> Handed(d) < |d.entries| && RecLen(d.entries[Handed(d)].name) > room
    ensures r == Ok(0) || r.Err? <==> Handed(d') == Handed(d)
  {
    SpaceOfSome(d.entries, Handed(d), Handed(d'));
    if Handed(d) < |d.entries| {
      assert Space(d.entries, Handed(d), Handed(d) + 1) == RecLen(d.entries[Handed(d)].name);
      if Handed(d) < Handed(d') {
        SpaceGrows(d.entries, Handed(d), Handed(d) + 1, Handed(d'));
      }
    }
  }

  /** `ds` are the directory's states between calls with buffers of the sizes `rooms`. */
  ghost predicate Session(ds: seq<Dir>, rooms: seq<nat>, rs: seq<Result>) {
    && |ds| == |rooms| + 1 == |rs| + 1
    && (forall i :: 0 <= i < |ds| ==> ValidDir(ds[i]))
    && (forall i :: 0 <= i < |rooms| ==> Call(ds[i], rooms[i], ds[i + 1], rs[i]))
  }

  /** One directory whose entries are handed out in order, as `ds` shows it. */
  ghost predicate Onward(ds: seq<Dir>) {
    && (forall i :: 0 <= i < |ds| ==> ValidDir(ds[i]))
    && (forall i :: 0 < i < |ds| ==> ds[i - 1].entries == ds[i].entries && Handed(ds[i - 1]) <= Handed(ds[i]))
  }

  /** What all calls together put into the users' buffers, in order. */
  ghost function Delivered(ds: seq<Dir>): seq<Entry>
    requires Onward(ds)
  {
    if |ds| <= 1 then []
    else
      var n := |ds| - 1;
      Delivered(ds[..n]) + ds[n].entries[Handed(ds[n - 1])..Handed(ds[n])]
  }

  lemma SessionIsOnward(ds: seq<Dir>, rooms: seq<nat>, rs: seq<Result>)
    requires Session(ds, rooms, rs)
    ensures Onward(ds)
  {
    forall i | 0 < i < |ds|
      ensures ds[i - 1].entries == ds[i].entries && Handed(ds[i - 1]) <= Handed(ds[i])
    {
      assert Call(ds[i - 1], rooms[i - 1], ds[i], rs[i - 1]);
    }
  }

  lemma {:induction false} DeliveredIsPrefix(ds: seq<Dir>)
    requires Onward(ds) && |ds| > 0 && Handed(ds[0]) == 0
    ensures ds[|ds| - 1].entries == ds[0].entries
    ensures Delivered(ds) == ds[0].entries[..Handed(ds[|ds| - 1])]
    decreases |ds|
  {
    if |ds| > 1 {
      var n := |ds| - 1;
      DeliveredIsPrefix(ds[..n]);
      SlicesMeet(ds[0].entries, Handed(ds[n - 1]), Handed(ds[n]));
    }
  }

  lemma SlicesMeet(entries: seq<Entry>, i: nat, j: nat)
    requires i <= j <= |entries|
    ensures entries[..i] + entries[i..j] == entries[..j]
  {
  }

  /** The entry read from the file system but not handed out. */
  function Kept(d: Dir): seq<Entry> {
    if d.last.Some? then [d.last.value] else []
  }

  lemma KeptIsNext(d: Dir)
    requires ValidDir(d)
    ensures d.entries[..Handed(d)] + Kept(d) == d.entries[..d.pos]
  {
  }

  /**
   Over any sequence of calls with any buffer sizes, EINVAL included, the records delivered are the
   directory's entries in order, each once, and with the kept entry they are the prefix consumed.
   */
  lemma DeliveredExactlyOnce(ds: seq<Dir>, rooms: seq<nat>, rs: seq<Result>)
    requires Session(ds, rooms, rs) && ds[0] == Dir(ds[0].entries, 0, None)
    ensures Onward(ds)
    ensures var d := ds[|ds| - 1];
            && d.entries == ds[0].entries
            && Delivered(ds) == d.entries[..Handed(d)]
            && Delivered(ds) + Kept(d) == d.entries[..d.pos]
  {
    SessionIsOnward(ds, rooms, rs);
    DeliveredIsPrefix(ds);
    KeptIsNext(ds[|ds| - 1]);
  }

  ghost predicate RoomForAll(ds: seq<Dir>, rooms: seq<nat>)
    requires |ds| == |rooms| + 1
  {
    forall i, j :: 0 <= i < |rooms| && 0 <= j < |ds[i].entries| ==> RecLen(ds[i].entries[j].name) <= rooms[i]
  }

  /** With room for the largest record, as many calls as there are entries hand out everything. */
  lemma {:induction false} LargeBuffersFinish(ds: seq<Dir>, rooms: seq<nat>, rs: seq<Result>)
    requires Session(ds, rooms, rs) && RoomForAll(ds, rooms)
    ensures var d := ds[|ds| - 1];
            Handed(d) == |d.entries| || Handed(d) >= Handed(ds[0]) + |rooms|
    decreases |ds|
  {
    if |ds| > 1 {
      var n := |ds| - 1;
      LargeBuffersFinish(ds[..n], rooms[..n - 1], rs[..n - 1]);
      assert Call(ds[n - 1], rooms[n - 1], ds[n], rs[n - 1]);
      CallOutcome(ds[n - 1], rooms[n - 1], ds[n], rs[n - 1]);
    }
  }

  /** A user who keeps calling with large enough buffers gets the whole directory, and then Ok(0). */
  lemma WholeDirectoryIsRead(ds: seq<Dir>, rooms: seq<nat>, rs: seq<Result>)
    requires Session(ds, rooms, rs) && ds[0] == Dir(ds[0].entries, 0, None) && RoomForAll(ds, rooms)
    requires |rooms| > |ds[0].entries|
    ensures rs[|rs| - 1] == Ok(0)
    ensures Onward(ds) && Delivered(ds) == ds[0].entries
  {
    var n := |rooms|;
    AllHandedBeforeLast(ds, rooms, rs);
    assert Call(ds[n - 1], rooms[n - 1], ds[n], rs[n - 1]);
    CallOutcome(ds[n - 1], rooms[n - 1], ds[n], rs[n - 1]);
    DeliveredExactlyOnce(ds, rooms, rs);
  }

  lemma AllHandedBeforeLast(ds: seq<Dir>, rooms: seq<nat>, rs: seq<Result>)
    requires Session(ds, rooms, rs) && ds[0] == Dir(ds[0].entries, 0, None) && RoomForAll(ds, rooms)
    requires |rooms| > |ds[0].entries|
    ensures Handed(ds[|rooms| - 1]) == |ds[|rooms| - 1].entries|
  {
    var n := |rooms|;
    LargeBuffersFinish(ds[..n], rooms[..n - 1], rs[..n - 1]);
    DeliveredExactlyOnce(ds[..n], rooms[..n - 1], rs[..n - 1]);
  }
}
