/** Bytes, and storing them in memory. */
module Common {

  type Byte = b: int | 0 <= b < 256

  datatype Option<T> = None | Some(value: T)

  function Min(a: nat, b: nat): nat {
    if a < b then a else b
  }

  /** `after` is `before` with `data` stored at position `at`. */
  predicate Stored(before: seq<Byte>, after: seq<Byte>, at: nat, data: seq<Byte>) {
    && at + |data| <= |before| == |after|
    && forall i :: 0 <= i < |before| ==> after[i] == if at <= i < at + |data| then data[i - at] else before[i]
  }

  /** A copy of `data` to position `at`. */
  method Store(mem: array<Byte>, at: nat, data: seq<Byte>)
    requires at + |data| <= mem.Length
    modifies mem
    ensures Stored(old(mem[..]), mem[..], at, data)
  {
    for i := 0 to |data|
      invariant Stored(old(mem[..]), mem[..], at, data[..i])
    {
      mem[at + i] := data[i];
    }
  }
}
