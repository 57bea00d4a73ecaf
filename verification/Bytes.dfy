/**
 Byte strings: little-endian integers and bounds-checked reading, as the engine's binary
 formats use them.  A reader is a function from the bytes that remain to a value and the
 bytes that remain after it.
 */
module Bytes {
  import opened Symbolic

  type Read<T> = Option<(T, seq<byte>)>

  function Pow256(n: nat): (p: nat)
    ensures p > 0
  {
    if n == 0 then 1 else 256 * Pow256(n - 1)
  }

  /** The `n` low-order bytes of `v`, least significant first. */
  function LittleEndian(v: nat, n: nat): (b: seq<byte>)
    ensures |b| == n
  {
    if n == 0 then [] else [v % 256] + LittleEndian(v / 256, n - 1)
  }

  function Value(b: seq<byte>): nat {
    if b == [] then 0 else b[0] + 256 * Value(b[1..])
  }

  lemma {:induction false} ValueOfLittleEndian(v: nat, n: nat)
    requires v < Pow256(n)
    ensures Value(LittleEndian(v, n)) == v
  {
    if n != 0 {
      ValueOfLittleEndian(v / 256, n - 1);
      assert LittleEndian(v, n)[1..] == LittleEndian(v / 256, n - 1);
    }
  }

  lemma {:induction false} LittleEndianOfValue(b: seq<byte>)
    ensures Value(b) < Pow256(|b|)
    ensures LittleEndian(Value(b), |b|) == b
  {
    if b != [] {
      hide LittleEndian, Pow256;
      LittleEndianOfValue(b[1..]);
      LowByte(b[0], Value(b[1..]), |b|);
      assert b == [b[0]] + b[1..];
    } else {
      LowByte(0, 0, 1);
    }
  }

  lemma LowByte(x: byte, v: nat, n: nat)
    requires n > 0
    ensures LittleEndian(x + 256 * v, n) == [x] + LittleEndian(v, n - 1)
    ensures v < Pow256(n - 1) ==> x + 256 * v < Pow256(n)
    ensures Pow256(0) == 1 && LittleEndian(0, 0) == []
  {
    assert (x + 256 * v) % 256 == x && (x + 256 * v) / 256 == v;
  }

  function U32(v: u32): (b: seq<byte>)
    ensures |b| == 4
  {
    LittleEndian(v, 4)
  }

  // ---- Reading ----

  function Take(b: seq<byte>, n: nat): Read<seq<byte>> {
    if |b| < n then None else Some((b[..n], b[n..]))
  }

  function TakeU32(b: seq<byte>): Read<u32> {
    if |b| < 4 then None
    else
      LittleEndianOfValue(b[..4]);
      Some((Value(b[..4]), b[4..]))
  }

  /** One byte read as a flag: anything but zero is true. */
  function TakeFlag(b: seq<byte>): Read<bool> {
    if b == [] then None else Some((b[0] != 0, b[1..]))
  }

  function Flag(x: bool): seq<byte> { if x then [1] else [0] }

  /** What was read before, put in front of what is read next. */
  function Prepend<T>(xs: seq<T>, r: Read<seq<T>>): Read<seq<T>> {
    if r.None? then None else Some((xs + r.value.0, r.value.1))
  }

  lemma PrependTwice<T>(xs: seq<T>, x: T, r: Read<seq<T>>)
    ensures Prepend(xs, Prepend([x], r)) == Prepend(xs + [x], r)
    ensures Prepend([], r) == r
  {
    assert r.Some? ==> xs + ([x] + r.value.0) == (xs + [x]) + r.value.0 && [] + r.value.0 == r.value.0;
  }

  lemma TakeConcat(a: seq<byte>, q: seq<byte>)
    ensures Take(a + q, |a|) == Some((a, q))
  {
    assert (a + q)[..|a|] == a && (a + q)[|a|..] == q;
  }

  lemma TakeU32Concat(v: u32, q: seq<byte>)
    ensures TakeU32(U32(v) + q) == Some((v, q))
  {
    TakeConcat(U32(v), q);
    ValueOfLittleEndian(v, 4);
  }

  lemma TakeFlagConcat(x: bool, q: seq<byte>)
    ensures TakeFlag(Flag(x) + q) == Some((x, q))
  {
    assert (Flag(x) + q)[1..] == q;
  }

  /** More bytes behind do not change what is read. */
  lemma TakeStable(b: seq<byte>, n: nat, q: seq<byte>)
    requires Take(b, n).Some?
    ensures Take(b + q, n) == Some((Take(b, n).value.0, Take(b, n).value.1 + q))
  {
    assert (b + q)[..n] == b[..n] && (b + q)[n..] == b[n..] + q;
  }

  lemma TakeU32Stable(b: seq<byte>, q: seq<byte>)
    requires TakeU32(b).Some?
    ensures TakeU32(b + q) == Some((TakeU32(b).value.0, TakeU32(b).value.1 + q))
  {
    TakeStable(b, 4, q);
  }

  lemma TakeFlagStable(b: seq<byte>, q: seq<byte>)
    requires TakeFlag(b).Some?
    ensures TakeFlag(b + q) == Some((TakeFlag(b).value.0, TakeFlag(b).value.1 + q))
  {
    assert (b + q)[1..] == b[1..] + q;
  }

  /** A cursor over a buffer; a read that would pass the end fails and moves nothing. */
  class Reader {
    const data: seq<byte>
    var offset: nat

    ghost predicate Valid()
      reads this
    {
      offset <= |data|
    }

    ghost function Rest(): seq<byte>
      reads this
      requires Valid()
    {
      data[offset..]
    }

    constructor (data: seq<byte>)
      ensures Valid() && this.data == data && offset == 0 && Rest() == data
    {
      this.data, offset := data, 0;
    }

    method ReadBytes(n: nat) returns (r: Option<seq<byte>>)
      requires Valid()
      modifies this`offset
      ensures Valid() && offset == old(offset) + (if r.Some? then n else 0)
      ensures r.Some? == Take(old(Rest()), n).Some?
      ensures r.Some? ==> Take(old(Rest()), n) == Some((r.value, Rest()))
    {
      if offset + n > |data| {
        return None;
      }
      assert Rest()[..n] == data[offset..offset + n] && Rest()[n..] == data[offset + n..];
      r := Some(data[offset..offset + n]);
      offset := offset + n;
    }

    method ReadU32() returns (r: Option<u32>)
      requires Valid()
      modifies this`offset
      ensures Valid() && offset == old(offset) + (if r.Some? then 4 else 0)
      ensures r.Some? == TakeU32(old(Rest())).Some?
      ensures r.Some? ==> TakeU32(old(Rest())) == Some((r.value, Rest()))
    {
      var b := ReadBytes(4);
      if b.None? {
        return None;
      }
      LittleEndianOfValue(b.value);
      r := Some(Value(b.value));
    }

    method ReadFlag() returns (r: Option<bool>)
      requires Valid()
      modifies this`offset
      ensures Valid() && offset == old(offset) + (if r.Some? then 1 else 0)
      ensures r.Some? == TakeFlag(old(Rest())).Some?
      ensures r.Some? ==> TakeFlag(old(Rest())) == Some((r.value, Rest()))
    {
      var b := ReadBytes(1);
      if b.None? {
        return None;
      }
      r := Some(b.value[0] != 0);
    }

    method AtEnd() returns (end: bool)
      requires Valid()
      ensures end == (Rest() == [])
    {
      end := offset == |data|;
    }
  }
}
