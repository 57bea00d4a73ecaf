/**
 The identity file (crypto-engine/src/storage/identity_store.cpp): format 2, which is
 written, and format 1, which is still read.
 */
module IdentityCodec {
  import opened Symbolic
  import opened Bytes

  /** A prekey pair with the identity's signature over its public half. */
  datatype RawPrekey = RawPrekey(pub: seq<byte>, priv: seq<byte>, signature: seq<byte>)

  datatype RawOneTime = RawOneTime(pub: seq<byte>, priv: seq<byte>, consumed: bool)

  /** The persistent fields of `ZiaEngine` as bytes. */
  datatype RawIdentity = RawIdentity(
    has: bool, pub: seq<byte>, priv: seq<byte>,
    spk: Option<RawPrekey>, pq: Option<RawPrekey>,
    otpks: seq<RawOneTime>)

  const SPK_PUB := 32
  const SPK_PRIV := 32
  const PQ_PUB := 1184
  const PQ_PRIV := 2400

  predicate ValidPrekey(x: Option<RawPrekey>, pub: nat, priv: nat) {
    x.Some? ==> |x.value.pub| == pub && |x.value.priv| == priv && |x.value.signature| == 64
  }

  predicate ValidOneTime(x: RawOneTime) { |x.pub| == 32 && |x.priv| == 32 }

  predicate Valid(e: RawIdentity) {
    && |e.pub| == 32 && (e.has ==> |e.priv| == 64)
    && ValidPrekey(e.spk, SPK_PUB, SPK_PRIV) && ValidPrekey(e.pq, PQ_PUB, PQ_PRIV)
    && |e.otpks| < U32_LIMIT
    && forall i :: 0 <= i < |e.otpks| ==> ValidOneTime(e.otpks[i])
  }

  // ---- The formats ----

  function EncodeOwner(e: RawIdentity): seq<byte> { Flag(e.has) + (e.pub + (if e.has then e.priv else [])) }

  function EncodePrekey(x: Option<RawPrekey>): seq<byte> {
    Flag(x.Some?) + (if x.Some? then x.value.pub + (x.value.priv + x.value.signature) else [])
  }

  function EncodeOneTime(x: RawOneTime): seq<byte> { x.pub + (x.priv + Flag(x.consumed)) }

  function EncodeOneTimes(xs: seq<RawOneTime>): seq<byte> {
    if xs == [] then [] else EncodeOneTime(xs[0]) + EncodeOneTimes(xs[1..])
  }

  function EncodeList(xs: seq<RawOneTime>): seq<byte> { U32(|xs| % U32_LIMIT) + EncodeOneTimes(xs) }

  /** Format 2, the one the engine writes. */
  function Serialize(e: RawIdentity): seq<byte> {
    [2] + EncodeOwner(e) + EncodePrekey(e.spk) + EncodePrekey(e.pq) + EncodeList(e.otpks)
  }

  /** Format 1, written before post-quantum prekeys existed. */
  function SerializeV1(e: RawIdentity): seq<byte> {
    [1] + EncodeOwner(e) + EncodePrekey(e.spk) + EncodeList(e.otpks)
  }

  /** The private key of an engine without identity stays what it was. */
  function DecodeOwner(b: seq<byte>, priv0: seq<byte>): Read<(bool, seq<byte>, seq<byte>)> {
    var (has, b) :- TakeFlag(b);
    var (pub, b) :- Take(b, 32);
    if has then
      var (priv, b) :- Take(b, 64);
      Some(((true, pub, priv), b))
    else Some(((false, pub, priv0), b))
  }

  function DecodePrekey(b: seq<byte>, pub: nat, priv: nat): Read<Option<RawPrekey>> {
    var (present, b) :- TakeFlag(b);
    if present then
      var (x, b) :- Take(b, pub);
      var (y, b) :- Take(b, priv);
      var (z, b) :- Take(b, 64);
      Some((Some(RawPrekey(x, y, z)), b))
    else Some((None, b))
  }

  function DecodeOneTime(b: seq<byte>): Read<RawOneTime> {
    var (pub, b) :- Take(b, 32);
    var (priv, b) :- Take(b, 32);
    var (consumed, b) :- TakeFlag(b);
    Some((RawOneTime(pub, priv, consumed), b))
  }

  function DecodeOneTimes(b: seq<byte>, count: nat): Read<seq<RawOneTime>>
    decreases count
  {
    if count == 0 then Some(([], b))
    else
      var (x, b) :- DecodeOneTime(b);
      Prepend([x], DecodeOneTimes(b, count - 1))
  }

  function DecodeList(b: seq<byte>): Read<seq<RawOneTime>> {
    var (count, b) :- TakeU32(b);
    DecodeOneTimes(b, count)
  }

  /** The post-quantum prekey is cleared, and read back only from format 2. */
  function DecodePq(b: seq<byte>, version: byte): Read<Option<RawPrekey>> {
    if version >= 2 then DecodePrekey(b, PQ_PUB, PQ_PRIV) else Some((None, b))
  }

  function DecodeBody(b: seq<byte>, version: byte, priv0: seq<byte>): Read<RawIdentity> {
    var (owner, b) :- DecodeOwner(b, priv0);
    var (spk, b) :- DecodePrekey(b, SPK_PUB, SPK_PRIV);
    var (pq, b) :- DecodePq(b, version);
    var (otpks, b) :- DecodeList(b);
    Some((RawIdentity(owner.0, owner.1, owner.2, spk, pq, otpks), b))
  }

  /** `deserialize_identity` into an engine whose private key was `priv0` (empty if new). */
  function Deserialize(b: seq<byte>, priv0: seq<byte>): Option<RawIdentity> {
    if b == [] || b[0] < 1 || b[0] > 2 then None
    else
      var (e, rest) :- DecodeBody(b[1..], b[0], priv0);
      if rest == [] then Some(e) else None
  }

  // ---- Writing then reading ----

  lemma OwnerConcat(e: RawIdentity, priv0: seq<byte>, q: seq<byte>)
    requires |e.pub| == 32 && (e.has ==> |e.priv| == 64)
    ensures DecodeOwner(EncodeOwner(e) + q, priv0) == Some(((e.has, e.pub, if e.has then e.priv else priv0), q))
  {
    var p := if e.has then e.priv else [];
    assert EncodeOwner(e) + q == Flag(e.has) + (e.pub + (p + q));
    TakeFlagConcat(e.has, e.pub + (p + q));
    TakeConcat(e.pub, p + q);
    if e.has { TakeConcat(e.priv, q); } else { assert p + q == q; }
  }

  lemma PrekeyConcat(x: Option<RawPrekey>, pub: nat, priv: nat, q: seq<byte>)
    requires ValidPrekey(x, pub, priv)
    ensures DecodePrekey(EncodePrekey(x) + q, pub, priv) == Some((x, q))
  {
    if x.Some? {
      var k := x.value;
      assert EncodePrekey(x) + q == Flag(true) + (k.pub + (k.priv + (k.signature + q)));
      TakeFlagConcat(true, k.pub + (k.priv + (k.signature + q)));
      TakeConcat(k.pub, k.priv + (k.signature + q));
      TakeConcat(k.priv, k.signature + q);
      TakeConcat(k.signature, q);
    } else {
      assert EncodePrekey(x) + q == Flag(false) + q;
      TakeFlagConcat(false, q);
    }
  }

  lemma OneTimeConcat(x: RawOneTime, q: seq<byte>)
    requires ValidOneTime(x)
    ensures DecodeOneTime(EncodeOneTime(x) + q) == Some((x, q))
  {
    assert EncodeOneTime(x) + q == x.pub + (x.priv + (Flag(x.consumed) + q));
    TakeConcat(x.pub, x.priv + (Flag(x.consumed) + q));
    TakeConcat(x.priv, Flag(x.consumed) + q);
    TakeFlagConcat(x.consumed, q);
  }

  lemma {:induction false} OneTimesConcat(xs: seq<RawOneTime>, q: seq<byte>)
    requires forall i :: 0 <= i < |xs| ==> ValidOneTime(xs[i])
    ensures DecodeOneTimes(EncodeOneTimes(xs) + q, |xs|) == Some((xs, q))
  {
    hide DecodeOneTime, EncodeOneTime;
    if xs == [] {
      assert EncodeOneTimes(xs) + q == q;
    } else {
      Regroup(EncodeOneTime(xs[0]), EncodeOneTimes(xs[1..]), q);
      OneTimeConcat(xs[0], EncodeOneTimes(xs[1..]) + q);
      OneTimesConcat(xs[1..], q);
      assert [xs[0]] + xs[1..] == xs;
    }
  }

  lemma ListConcat(xs: seq<RawOneTime>, q: seq<byte>)
    requires |xs| < U32_LIMIT && forall i :: 0 <= i < |xs| ==> ValidOneTime(xs[i])
    ensures DecodeList(EncodeList(xs) + q) == Some((xs, q))
  {
    hide TakeU32, U32, EncodeOneTimes, DecodeOneTimes;
    Regroup(U32(|xs|), EncodeOneTimes(xs), q);
    TakeU32Concat(|xs|, EncodeOneTimes(xs) + q);
    OneTimesConcat(xs, q);
  }

  /** What reading back gives: the identity itself, except that the private key of an engine
      that has none is left alone. */
  function Restored(e: RawIdentity, priv0: seq<byte>): RawIdentity { if e.has then e else e.(priv := priv0) }

  /** Format 2 is read back completely, whatever number of one-time prekeys it holds. */
  lemma RoundTrip(e: RawIdentity, priv0: seq<byte>)
    requires Valid(e)
    ensures Deserialize(Serialize(e), priv0) == Some(Restored(e, priv0))
  {
    hide EncodeOwner, EncodePrekey, EncodeList, DecodeOwner, DecodePrekey, DecodeList;
    var l := EncodeList(e.otpks);
    var b3 := EncodePrekey(e.pq) + l;
    var b2 := EncodePrekey(e.spk) + b3;
    Regroup([2] + EncodeOwner(e) + EncodePrekey(e.spk), EncodePrekey(e.pq), l);
    Regroup([2] + EncodeOwner(e), EncodePrekey(e.spk), b3);
    Regroup([2], EncodeOwner(e), b2);
    assert Serialize(e)[1..] == EncodeOwner(e) + b2;
    OwnerConcat(e, priv0, b2);
    PrekeyConcat(e.spk, SPK_PUB, SPK_PRIV, b3);
    PrekeyConcat(e.pq, PQ_PUB, PQ_PRIV, l);
    assert l + [] == l;
    ListConcat(e.otpks, []);
  }

  /** A format 1 file is read back as the same identity without a post-quantum prekey. */
  lemma MigratesV1(e: RawIdentity, priv0: seq<byte>)
    requires Valid(e)
    ensures Deserialize(SerializeV1(e), priv0) == Some(Restored(e, priv0).(pq := None))
  {
    hide EncodeOwner, EncodePrekey, EncodeList, DecodeOwner, DecodePrekey, DecodeList;
    var l := EncodeList(e.otpks);
    var b2 := EncodePrekey(e.spk) + l;
    Regroup([1] + EncodeOwner(e), EncodePrekey(e.spk), l);
    Regroup([1], EncodeOwner(e), b2);
    assert SerializeV1(e)[1..] == EncodeOwner(e) + b2;
    OwnerConcat(e, priv0, b2);
    PrekeyConcat(e.spk, SPK_PUB, SPK_PRIV, l);
    assert l + [] == l;
    ListConcat(e.otpks, []);
  }

  // ---- No accepted file is a prefix of another ----

  lemma OwnerStable(b: seq<byte>, priv0: seq<byte>, q: seq<byte>)
    requires DecodeOwner(b, priv0).Some?
    ensures DecodeOwner(b + q, priv0) == Some((DecodeOwner(b, priv0).value.0, DecodeOwner(b, priv0).value.1 + q))
  {
    TakeFlagStable(b, q);
    var (has, b1) := TakeFlag(b).value;
    TakeStable(b1, 32, q);
    if has { TakeStable(Take(b1, 32).value.1, 64, q); }
  }

  lemma PrekeyStable(b: seq<byte>, pub: nat, priv: nat, q: seq<byte>)
    requires DecodePrekey(b, pub, priv).Some?
    ensures DecodePrekey(b + q, pub, priv) == Some((DecodePrekey(b, pub, priv).value.0, DecodePrekey(b, pub, priv).value.1 + q))
  {
    TakeFlagStable(b, q);
    var (present, b1) := TakeFlag(b).value;
    if present {
      TakeStable(b1, pub, q);
      var b2 := Take(b1, pub).value.1;
      TakeStable(b2, priv, q);
      TakeStable(Take(b2, priv).value.1, 64, q);
    }
  }

  lemma OneTimeStable(b: seq<byte>, q: seq<byte>)
    requires DecodeOneTime(b).Some?
    ensures DecodeOneTime(b + q) == Some((DecodeOneTime(b).value.0, DecodeOneTime(b).value.1 + q))
  {
    TakeStable(b, 32, q);
    var b1 := Take(b, 32).value.1;
    TakeStable(b1, 32, q);
    TakeFlagStable(Take(b1, 32).value.1, q);
  }

  lemma {:induction false} OneTimesStable(b: seq<byte>, count: nat, q: seq<byte>)
    requires DecodeOneTimes(b, count).Some?
    ensures DecodeOneTimes(b + q, count) == Some((DecodeOneTimes(b, count).value.0, DecodeOneTimes(b, count).value.1 + q))
    decreases count
  {
    hide DecodeOneTime;
    if count != 0 {
      OneTimeStable(b, q);
      OneTimesStable(DecodeOneTime(b).value.1, count - 1, q);
    }
  }

  lemma ListStable(b: seq<byte>, q: seq<byte>)
    requires DecodeList(b).Some?
    ensures DecodeList(b + q) == Some((DecodeList(b).value.0, DecodeList(b).value.1 + q))
  {
    TakeU32Stable(b, q);
    OneTimesStable(TakeU32(b).value.1, TakeU32(b).value.0, q);
  }

  lemma BodyStable(b: seq<byte>, version: byte, priv0: seq<byte>, q: seq<byte>)
    requires DecodeBody(b, version, priv0).Some?
    ensures DecodeBody(b + q, version, priv0)
         == Some((DecodeBody(b, version, priv0).value.0, DecodeBody(b, version, priv0).value.1 + q))
  {
    hide DecodeOwner, DecodePrekey, DecodeList;
    OwnerStable(b, priv0, q);
    var b1 := DecodeOwner(b, priv0).value.1;
    PrekeyStable(b1, SPK_PUB, SPK_PRIV, q);
    var b2 := DecodePrekey(b1, SPK_PUB, SPK_PRIV).value.1;
    if version >= 2 { PrekeyStable(b2, PQ_PUB, PQ_PRIV, q); }
    ListStable(DecodePq(b2, version).value.1, q);
  }

  /** A truncated or an extended identity file of either format is always refused. */
  lemma PrefixFree(b: seq<byte>, q: seq<byte>, priv0: seq<byte>, priv1: seq<byte>)
    requires Deserialize(b, priv0).Some? && q != []
    ensures Deserialize(b + q, priv1).None?
  {
    hide DecodeBody;
    assert (b + q)[1..] == b[1..] + q && (b + q)[0] == b[0];
    BodyAny(b[1..], b[0], priv0, priv1);
    BodyStable(b[1..], b[0], priv1, q);
    assert [] + q == q;
  }

  /** How much is read does not depend on the engine that reads. */
  lemma BodyAny(b: seq<byte>, version: byte, priv0: seq<byte>, priv1: seq<byte>)
    requires DecodeBody(b, version, priv0).Some?
    ensures DecodeBody(b, version, priv1).Some?
    ensures DecodeBody(b, version, priv1).value.1 == DecodeBody(b, version, priv0).value.1
  {
    hide Take, TakeFlag, DecodePrekey, DecodeList;
  }

  lemma TruncationRefused(b: seq<byte>, k: nat, priv0: seq<byte>, priv1: seq<byte>)
    requires Deserialize(b, priv0).Some? && k < |b|
    ensures Deserialize(b[..k], priv1).None?
  {
    hide Deserialize;
    assert b[..k] + b[k..] == b;
    if Deserialize(b[..k], priv1).Some? { PrefixFree(b[..k], b[k..], priv1, priv0); }
  }

  // ---- The code ----

  lemma {:induction false} OneTimesAppend(xs: seq<RawOneTime>, x: RawOneTime)
    ensures EncodeOneTimes(xs + [x]) == EncodeOneTimes(xs) + EncodeOneTime(x)
  {
    hide EncodeOneTime;
    if xs == [] {
      assert xs + [x] == [x] && EncodeOneTimes([x]) == EncodeOneTime(x) + [];
    } else {
      OneTimesAppend(xs[1..], x);
      assert (xs + [x])[1..] == xs[1..] + [x];
      Regroup(EncodeOneTime(xs[0]), EncodeOneTimes(xs[1..]), EncodeOneTime(x));
    }
  }

  method AppendPrekey(buf: seq<byte>, x: Option<RawPrekey>) returns (buf': seq<byte>)
    ensures buf' == buf + EncodePrekey(x)
  {
    buf' := buf + Flag(x.Some?);
    if x.Some? {
      buf' := buf' + x.value.pub;
      buf' := buf' + x.value.priv;
      buf' := buf' + x.value.signature;
    }
  }

  /** `serialize_identity`. */
  method SerializeIdentity(e: RawIdentity) returns (buf: seq<byte>)
    ensures buf == Serialize(e)
  {
    hide U32, EncodePrekey;
    buf := [2];
    buf := buf + Flag(e.has);
    buf := buf + e.pub;
    if e.has {
      buf := buf + e.priv;
    }
    assert buf == [2] + EncodeOwner(e);
    buf := AppendPrekey(buf, e.spk);
    buf := AppendPrekey(buf, e.pq);
    ghost var head := buf;
    buf := buf + U32(|e.otpks| % U32_LIMIT);
    ghost var counted := buf;
    var i := 0;
    while i < |e.otpks|
      invariant 0 <= i <= |e.otpks|
      invariant buf == counted + EncodeOneTimes(e.otpks[..i])
    {
      var x := e.otpks[i];
      OneTimesAppend(e.otpks[..i], x);
      assert e.otpks[..i + 1] == e.otpks[..i] + [x];
      Regroup(counted, EncodeOneTimes(e.otpks[..i]), EncodeOneTime(x));
      Regroup(buf, x.pub, x.priv + Flag(x.consumed));
      Regroup(buf + x.pub, x.priv, Flag(x.consumed));
      buf := buf + x.pub;
      buf := buf + x.priv;
      buf := buf + Flag(x.consumed);
      i := i + 1;
    }
    assert e.otpks[..i] == e.otpks;
    Regroup(head, U32(|e.otpks| % U32_LIMIT), EncodeOneTimes(e.otpks));
  }

  method ReadPrekey(r: Reader, pub: nat, priv: nat) returns (x: Option<Option<RawPrekey>>)
    requires r.Valid()
    modifies r`offset
    ensures r.Valid()
    ensures x.Some? == DecodePrekey(old(r.Rest()), pub, priv).Some?
    ensures x.Some? ==> DecodePrekey(old(r.Rest()), pub, priv) == Some((x.value, r.Rest()))
  {
    hide Take, TakeFlag;
    x := None;
    var flag := r.ReadFlag();
    if flag.None? { return; }
    if !flag.value { return Some(None); }
    var a := r.ReadBytes(pub);
    if a.None? { return; }
    var b := r.ReadBytes(priv);
    if b.None? { return; }
    var c := r.ReadBytes(64);
    if c.None? { return; }
    x := Some(Some(RawPrekey(a.value, b.value, c.value)));
  }

  method ReadOneTime(r: Reader) returns (x: Option<RawOneTime>)
    requires r.Valid()
    modifies r`offset
    ensures r.Valid()
    ensures x.Some? == DecodeOneTime(old(r.Rest())).Some?
    ensures x.Some? ==> DecodeOneTime(old(r.Rest())) == Some((x.value, r.Rest()))
  {
    x := None;
    var pub := r.ReadBytes(32);
    if pub.None? { return; }
    var priv := r.ReadBytes(32);
    if priv.None? { return; }
    var consumed := r.ReadFlag();
    if consumed.None? { return; }
    x := Some(RawOneTime(pub.value, priv.value, consumed.value));
  }

  method ReadOneTimes(r: Reader) returns (xs: Option<seq<RawOneTime>>)
    requires r.Valid()
    modifies r`offset
    ensures r.Valid()
    ensures xs.Some? == DecodeList(old(r.Rest())).Some?
    ensures xs.Some? ==> DecodeList(old(r.Rest())) == Some((xs.value, r.Rest()))
  {
    hide DecodeOneTime, TakeU32;
    var count := r.ReadU32();
    if count.None? { return None; }
    var list := [];
    ghost var all := DecodeOneTimes(r.Rest(), count.value);
    assert Prepend([], all) == all by { assert all.Some? ==> [] + all.value.0 == all.value.0; }
    var i := 0;
    while i < count.value
      invariant 0 <= i <= count.value && r.Valid()
      invariant all == Prepend(list, DecodeOneTimes(r.Rest(), count.value - i))
    {
      var x := ReadOneTime(r);
      if x.None? {
        return None;
      }
      PrependTwice(list, x.value, DecodeOneTimes(r.Rest(), count.value - i - 1));
      list := list + [x.value];
      i := i + 1;
    }
    assert list + [] == list;
    xs := Some(list);
  }

  method ReadOwner(r: Reader, priv0: seq<byte>) returns (x: Option<(bool, seq<byte>, seq<byte>)>)
    requires r.Valid()
    modifies r`offset
    ensures r.Valid()
    ensures x.Some? == DecodeOwner(old(r.Rest()), priv0).Some?
    ensures x.Some? ==> DecodeOwner(old(r.Rest()), priv0) == Some((x.value, r.Rest()))
  {
    hide Take, TakeFlag;
    x := None;
    var flag := r.ReadFlag();
    if flag.None? { return; }
    var pub := r.ReadBytes(32);
    if pub.None? { return; }
    if !flag.value { return Some((false, pub.value, priv0)); }
    var priv := r.ReadBytes(64);
    if priv.None? { return; }
    x := Some((true, pub.value, priv.value));
  }

  /** The engine's persistent fields, filled by `deserialize_identity`. */
  class IdentityRecord {
    var has: bool
    var pub: seq<byte>
    var priv: seq<byte>
    var spk: Option<RawPrekey>
    var pq: Option<RawPrekey>
    var otpks: seq<RawOneTime>

    ghost function View(): RawIdentity
      reads this
    {
      RawIdentity(has, pub, priv, spk, pq, otpks)
    }

    method DeserializeIdentity(data: seq<byte>) returns (ok: bool)
      modifies this
      ensures ok == Deserialize(data, old(priv)).Some?
      ensures ok ==> View() == Deserialize(data, old(priv)).value
    {
      hide DecodeOwner, DecodePrekey, DecodeList;
      ok := false;
      var r := new Reader(data);
      var version := r.ReadBytes(1);
      if version.None? || version.value[0] < 1 || version.value[0] > 2 { return; }
      assert r.Rest() == data[1..];
      var owner := ReadOwner(r, priv);
      if owner.None? { return; }
      has, pub, priv := owner.value.0, owner.value.1, owner.value.2;
      var prekey := ReadPrekey(r, SPK_PUB, SPK_PRIV);
      if prekey.None? { return; }
      spk, pq := prekey.value, None;
      if version.value[0] >= 2 {
        prekey := ReadPrekey(r, PQ_PUB, PQ_PRIV);
        if prekey.None? { return; }
        pq := prekey.value;
      }
      var list := ReadOneTimes(r);
      if list.None? { return; }
      otpks := list.value;
      ok := r.AtEnd();
    }
  }
}
