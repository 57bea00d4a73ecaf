/**
 The session file (crypto-engine/src/session.cpp): `serialize_state` and
 `deserialize_state`, and what restoring a session means for the conversation.
 */
module SessionCodec {
  import opened Symbolic
  import opened Bytes
  import Ratchet
  import RatchetSafety

  datatype RawSkipped = RawSkipped(dh: seq<byte>, n: u32, key: seq<byte>)

  /** `ZiaSession` as bytes. */
  datatype RawSession = RawSession(
    ad: seq<byte>,
    dhsPublic: seq<byte>, dhsPrivate: seq<byte>,
    hasDhr: bool, dhr: seq<byte>,
    root: seq<byte>,
    hasSend: bool, send: seq<byte>,
    hasRecv: bool, recv: seq<byte>,
    ns: u32, nr: u32, pn: u32,
    skipped: seq<RawSkipped>)

  predicate ValidSkipped(x: RawSkipped) { |x.dh| == 32 && |x.key| == 32 }

  /** An absent chain key may have any size: the source leaves its buffer empty. */
  predicate Valid(s: RawSession) {
    && |s.ad| == 64 && |s.dhsPublic| == |s.dhsPrivate| == |s.dhr| == |s.root| == 32
    && (s.hasSend ==> |s.send| == 32) && (s.hasRecv ==> |s.recv| == 32)
    && |s.skipped| < U32_LIMIT
    && forall i :: 0 <= i < |s.skipped| ==> ValidSkipped(s.skipped[i])
  }

  // ---- The format ----

  function EncodeEntry(x: RawSkipped): seq<byte> { x.dh + (U32(x.n) + x.key) }

  function EncodeEntries(xs: seq<RawSkipped>): seq<byte> {
    if xs == [] then [] else EncodeEntry(xs[0]) + EncodeEntries(xs[1..])
  }

  function EncodeChain(present: bool, key: seq<byte>): seq<byte> { Flag(present) + (if present then key else Repeat<byte>(0, 32)) }

  function EncodeKeys(s: RawSession): seq<byte> {
    s.ad + s.dhsPublic + s.dhsPrivate + Flag(s.hasDhr) + s.dhr + s.root
  }

  function EncodeCounters(s: RawSession): seq<byte> { U32(s.ns) + U32(s.nr) + U32(s.pn) }

  function EncodeSkipped(xs: seq<RawSkipped>): seq<byte> { U32(|xs| % U32_LIMIT) + EncodeEntries(xs) }

  function Serialize(s: RawSession): seq<byte> {
    EncodeKeys(s) + EncodeChain(s.hasSend, s.send) + EncodeChain(s.hasRecv, s.recv) + EncodeCounters(s) + EncodeSkipped(s.skipped)
  }

  function DecodeEntry(b: seq<byte>): Read<RawSkipped> {
    var (dh, b) :- Take(b, 32);
    var (n, b) :- TakeU32(b);
    var (key, b) :- Take(b, 32);
    Some((RawSkipped(dh, n, key), b))
  }

  function DecodeEntries(b: seq<byte>, count: nat): Read<seq<RawSkipped>>
    decreases count
  {
    if count == 0 then Some(([], b))
    else
      var (x, b) :- DecodeEntry(b);
      Prepend([x], DecodeEntries(b, count - 1))
  }

  function DecodeChain(b: seq<byte>): Read<(bool, seq<byte>)> {
    var (present, b) :- TakeFlag(b);
    var (key, b) :- Take(b, 32);
    Some(((present, key), b))
  }

  /** The six fields before the chains. */
  datatype Keys = Keys(ad: seq<byte>, dhsPublic: seq<byte>, dhsPrivate: seq<byte>, hasDhr: bool, dhr: seq<byte>, root: seq<byte>)

  function DecodeKeys(b: seq<byte>): Read<Keys> {
    var (ad, b) :- Take(b, 64);
    var (dhsPublic, b) :- Take(b, 32);
    var (dhsPrivate, b) :- Take(b, 32);
    var (hasDhr, b) :- TakeFlag(b);
    var (dhr, b) :- Take(b, 32);
    var (root, b) :- Take(b, 32);
    Some((Keys(ad, dhsPublic, dhsPrivate, hasDhr, dhr, root), b))
  }

  function DecodeCounters(b: seq<byte>): Read<(u32, u32, u32)> {
    var (ns, b) :- TakeU32(b);
    var (nr, b) :- TakeU32(b);
    var (pn, b) :- TakeU32(b);
    Some(((ns, nr, pn), b))
  }

  function DecodeSkipped(b: seq<byte>): Read<seq<RawSkipped>> {
    var (count, b) :- TakeU32(b);
    DecodeEntries(b, count)
  }

  function DecodeState(b: seq<byte>): Read<RawSession> {
    var (k, b) :- DecodeKeys(b);
    var (send, b) :- DecodeChain(b);
    var (recv, b) :- DecodeChain(b);
    var (c, b) :- DecodeCounters(b);
    var (skipped, b) :- DecodeSkipped(b);
    Some((RawSession(k.ad, k.dhsPublic, k.dhsPrivate, k.hasDhr, k.dhr, k.root,
                     send.0, send.1, recv.0, recv.1, c.0, c.1, c.2, skipped), b))
  }

  /** Accepted only when every byte is used. */
  function Deserialize(b: seq<byte>): Option<RawSession> {
    var (s, rest) :- DecodeState(b);
    if rest == [] then Some(s) else None
  }

  // ---- Writing then reading ----

  lemma EntryConcat(x: RawSkipped, q: seq<byte>)
    requires ValidSkipped(x)
    ensures DecodeEntry(EncodeEntry(x) + q) == Some((x, q))
  {
    assert EncodeEntry(x) + q == x.dh + (U32(x.n) + (x.key + q));
    TakeConcat(x.dh, U32(x.n) + (x.key + q));
    TakeU32Concat(x.n, x.key + q);
    TakeConcat(x.key, q);
  }

  lemma {:induction false} EntriesConcat(xs: seq<RawSkipped>, q: seq<byte>)
    requires forall i :: 0 <= i < |xs| ==> ValidSkipped(xs[i])
    ensures DecodeEntries(EncodeEntries(xs) + q, |xs|) == Some((xs, q))
  {
    if xs == [] {
      assert EncodeEntries(xs) + q == q;
    } else {
      assert EncodeEntries(xs) + q == EncodeEntry(xs[0]) + (EncodeEntries(xs[1..]) + q);
      EntryConcat(xs[0], EncodeEntries(xs[1..]) + q);
      EntriesConcat(xs[1..], q);
      assert [xs[0]] + xs[1..] == xs;
    }
  }

  lemma ChainConcat(present: bool, key: seq<byte>, q: seq<byte>)
    requires present ==> |key| == 32
    ensures DecodeChain(EncodeChain(present, key) + q) == Some(((present, if present then key else Repeat<byte>(0, 32)), q))
  {
    var k := if present then key else Repeat<byte>(0, 32);
    assert EncodeChain(present, key) + q == Flag(present) + (k + q);
    TakeFlagConcat(present, k + q);
    TakeConcat(k, q);
  }

  lemma KeysConcat(s: RawSession, q: seq<byte>)
    requires |s.ad| == 64 && |s.dhsPublic| == |s.dhsPrivate| == |s.dhr| == |s.root| == 32
    ensures DecodeKeys(EncodeKeys(s) + q) == Some((Keys(s.ad, s.dhsPublic, s.dhsPrivate, s.hasDhr, s.dhr, s.root), q))
  {
    hide Take, TakeFlag, Flag;
    var b5 := s.root + q;
    var b4 := s.dhr + b5;
    var b3 := Flag(s.hasDhr) + b4;
    var b2 := s.dhsPrivate + b3;
    var b1 := s.dhsPublic + b2;
    assert EncodeKeys(s) + q == s.ad + b1 by {
      Regroup(s.ad + s.dhsPublic + s.dhsPrivate + Flag(s.hasDhr) + s.dhr, s.root, q);
      Regroup(s.ad + s.dhsPublic + s.dhsPrivate + Flag(s.hasDhr), s.dhr, b5);
      Regroup(s.ad + s.dhsPublic + s.dhsPrivate, Flag(s.hasDhr), b4);
      Regroup(s.ad + s.dhsPublic, s.dhsPrivate, b3);
      Regroup(s.ad, s.dhsPublic, b2);
    }
    TakeConcat(s.ad, b1);
    TakeConcat(s.dhsPublic, b2);
    TakeConcat(s.dhsPrivate, b3);
    TakeFlagConcat(s.hasDhr, b4);
    TakeConcat(s.dhr, b5);
    TakeConcat(s.root, q);
  }

  lemma CountersConcat(s: RawSession, q: seq<byte>)
    ensures DecodeCounters(EncodeCounters(s) + q) == Some(((s.ns, s.nr, s.pn), q))
  {
    hide TakeU32, U32;
    Regroup(U32(s.ns) + U32(s.nr), U32(s.pn), q);
    Regroup(U32(s.ns), U32(s.nr), U32(s.pn) + q);
    TakeU32Concat(s.ns, U32(s.nr) + (U32(s.pn) + q));
    TakeU32Concat(s.nr, U32(s.pn) + q);
    TakeU32Concat(s.pn, q);
  }

  lemma SkippedConcat(xs: seq<RawSkipped>, q: seq<byte>)
    requires |xs| < U32_LIMIT && forall i :: 0 <= i < |xs| ==> ValidSkipped(xs[i])
    ensures DecodeSkipped(EncodeSkipped(xs) + q) == Some((xs, q))
  {
    hide TakeU32, U32, EncodeEntries, DecodeEntries;
    Regroup(U32(|xs|), EncodeEntries(xs), q);
    TakeU32Concat(|xs|, EncodeEntries(xs) + q);
    EntriesConcat(xs, q);
  }

  /** The session with absent chain keys replaced by zeros. */
  function Normal(s: RawSession): RawSession {
    s.(send := if s.hasSend then s.send else Repeat<byte>(0, 32), recv := if s.hasRecv then s.recv else Repeat<byte>(0, 32))
  }

  /** Round trip: any session with any number of skipped keys is read back as it was, up to
      the bytes of absent chain keys, and writing it again gives the same file. */
  lemma RoundTrip(s: RawSession)
    requires Valid(s)
    ensures Deserialize(Serialize(s)) == Some(Normal(s))
    ensures Serialize(Normal(s)) == Serialize(s)
  {
    assert EncodeChain(s.hasSend, Normal(s).send) == EncodeChain(s.hasSend, s.send);
    assert EncodeChain(s.hasRecv, Normal(s).recv) == EncodeChain(s.hasRecv, s.recv);
    assert EncodeKeys(Normal(s)) == EncodeKeys(s) && EncodeCounters(Normal(s)) == EncodeCounters(s);
    hide DecodeKeys, DecodeChain, DecodeCounters, DecodeSkipped, EncodeKeys, EncodeChain, EncodeCounters, EncodeSkipped;
    var e := EncodeSkipped(s.skipped);
    var b4 := EncodeCounters(s) + e;
    var b3 := EncodeChain(s.hasRecv, s.recv) + b4;
    var b2 := EncodeChain(s.hasSend, s.send) + b3;
    assert Serialize(s) == EncodeKeys(s) + b2 by {
      Regroup(EncodeKeys(s) + EncodeChain(s.hasSend, s.send) + EncodeChain(s.hasRecv, s.recv), EncodeCounters(s), e);
      Regroup(EncodeKeys(s) + EncodeChain(s.hasSend, s.send), EncodeChain(s.hasRecv, s.recv), b4);
      Regroup(EncodeKeys(s), EncodeChain(s.hasSend, s.send), b3);
    }
    KeysConcat(s, b2);
    ChainConcat(s.hasSend, s.send, b3);
    ChainConcat(s.hasRecv, s.recv, b4);
    CountersConcat(s, e);
    SkippedConcat(s.skipped, []);
    assert e + [] == e;
  }

  // ---- No accepted file is a prefix of another ----

  lemma EntryStable(b: seq<byte>, q: seq<byte>)
    requires DecodeEntry(b).Some?
    ensures DecodeEntry(b + q) == Some((DecodeEntry(b).value.0, DecodeEntry(b).value.1 + q))
  {
    TakeStable(b, 32, q);
    var b1 := Take(b, 32).value.1;
    TakeU32Stable(b1, q);
    TakeStable(TakeU32(b1).value.1, 32, q);
  }

  lemma {:induction false} EntriesStable(b: seq<byte>, count: nat, q: seq<byte>)
    requires DecodeEntries(b, count).Some?
    ensures DecodeEntries(b + q, count) == Some((DecodeEntries(b, count).value.0, DecodeEntries(b, count).value.1 + q))
    decreases count
  {
    if count != 0 {
      EntryStable(b, q);
      EntriesStable(DecodeEntry(b).value.1, count - 1, q);
    }
  }

  lemma ChainStable(b: seq<byte>, q: seq<byte>)
    requires DecodeChain(b).Some?
    ensures DecodeChain(b + q) == Some((DecodeChain(b).value.0, DecodeChain(b).value.1 + q))
  {
    TakeFlagStable(b, q);
    TakeStable(TakeFlag(b).value.1, 32, q);
  }

  lemma KeysStable(b: seq<byte>, q: seq<byte>)
    requires DecodeKeys(b).Some?
    ensures DecodeKeys(b + q) == Some((DecodeKeys(b).value.0, DecodeKeys(b).value.1 + q))
  {
    hide Take, TakeFlag;
    TakeStable(b, 64, q);
    var b1 := Take(b, 64).value.1;
    TakeStable(b1, 32, q);
    var b2 := Take(b1, 32).value.1;
    TakeStable(b2, 32, q);
    var b3 := Take(b2, 32).value.1;
    TakeFlagStable(b3, q);
    var b4 := TakeFlag(b3).value.1;
    TakeStable(b4, 32, q);
    TakeStable(Take(b4, 32).value.1, 32, q);
  }

  lemma CountersStable(b: seq<byte>, q: seq<byte>)
    requires DecodeCounters(b).Some?
    ensures DecodeCounters(b + q) == Some((DecodeCounters(b).value.0, DecodeCounters(b).value.1 + q))
  {
    hide TakeU32;
    TakeU32Stable(b, q);
    var b1 := TakeU32(b).value.1;
    TakeU32Stable(b1, q);
    TakeU32Stable(TakeU32(b1).value.1, q);
  }

  lemma SkippedStable(b: seq<byte>, q: seq<byte>)
    requires DecodeSkipped(b).Some?
    ensures DecodeSkipped(b + q) == Some((DecodeSkipped(b).value.0, DecodeSkipped(b).value.1 + q))
  {
    TakeU32Stable(b, q);
    EntriesStable(TakeU32(b).value.1, TakeU32(b).value.0, q);
  }

  lemma StateStable(b: seq<byte>, q: seq<byte>)
    requires DecodeState(b).Some?
    ensures DecodeState(b + q) == Some((DecodeState(b).value.0, DecodeState(b).value.1 + q))
  {
    hide DecodeKeys, DecodeChain, DecodeCounters, DecodeSkipped;
    KeysStable(b, q);
    var b1 := DecodeKeys(b).value.1;
    ChainStable(b1, q);
    var b2 := DecodeChain(b1).value.1;
    ChainStable(b2, q);
    var b3 := DecodeChain(b2).value.1;
    CountersStable(b3, q);
    SkippedStable(DecodeCounters(b3).value.1, q);
  }

  /** Of two byte strings one of which extends the other, at most one is a session file: a
      truncated or an extended file is always refused. */
  lemma PrefixFree(b: seq<byte>, q: seq<byte>)
    requires Deserialize(b).Some? && q != []
    ensures Deserialize(b + q).None?
  {
    StateStable(b, q);
    assert [] + q == q;
  }

  lemma TruncationRefused(s: RawSession, k: nat)
    requires Valid(s) && k < |Serialize(s)|
    ensures Deserialize(Serialize(s)[..k]).None?
  {
    hide Serialize, Deserialize, Normal;
    RoundTrip(s);
    PrefixRefused(Serialize(s), k);
  }

  lemma PrefixRefused(b: seq<byte>, k: nat)
    requires Deserialize(b).Some? && k < |b|
    ensures Deserialize(b[..k]).None?
  {
    hide Deserialize;
    assert b[..k] + b[k..] == b;
    if Deserialize(b[..k]).Some? { PrefixFree(b[..k], b[k..]); }
  }

  // ---- A restored session behaves as the saved one ----

  /** A reading of byte strings as keys: any functions whatever. */
  datatype Reading = Reading(key: seq<byte> -> Secret, dh: seq<byte> -> DhKey, ad: seq<byte> -> Ratchet.Identities)

  function Meaning(s: RawSession, i: Reading): Ratchet.State {
    Ratchet.State(i.ad(s.ad), i.dh(s.dhsPublic), s.hasDhr, i.dh(s.dhr), i.key(s.root),
                  s.hasSend, i.key(s.send), s.hasRecv, i.key(s.recv), s.ns, s.nr, s.pn,
                  seq(|s.skipped|, j requires 0 <= j < |s.skipped| =>
                    Ratchet.Skipped(i.dh(s.skipped[j].dh), s.skipped[j].n, i.key(s.skipped[j].key))))
  }

  /** Two states that differ at most in chain keys that are absent. */
  predicate Alike(s: Ratchet.State, t: Ratchet.State) {
    && t == s.(send := t.send, recv := t.recv)
    && (s.hasSend ==> s.send == t.send) && (s.hasRecv ==> s.recv == t.recv)
  }

  lemma ReceiveAlike(s: Ratchet.State, t: Ratchet.State, p: Ratchet.Packet)
    requires Alike(s, t) && s.hasRecv
    ensures Ratchet.Receive(s, p).1 == Ratchet.Receive(t, p).1
    ensures Alike(Ratchet.Receive(s, p).0, Ratchet.Receive(t, p).0)
  {
    hide Ratchet.SkipTo;
    SkipAlike(s, t, p.header.n);
  }

  lemma DecryptAlike(s: Ratchet.State, t: Ratchet.State, p: Ratchet.Packet, drawn: DhKey)
    requires Alike(s, t) && Ratchet.ChainExists(s, p.header)
    ensures Ratchet.ChainExists(t, p.header)
    ensures Ratchet.DecryptPacket(s, p, drawn).1 == Ratchet.DecryptPacket(t, p, drawn).1
    ensures Alike(Ratchet.DecryptPacket(s, p, drawn).0, Ratchet.DecryptPacket(t, p, drawn).0)
  {
    hide Ratchet.Receive;
    var h := p.header;
    if s.hasRecv { SkipAlike(s, t, h.pn); }
    if Ratchet.SkipTo(s, h.pn).Some? {
      var s1, t1 := Ratchet.SkipTo(s, h.pn).value, Ratchet.SkipTo(t, h.pn).value;
      ReceiveAlike(Ratchet.DhStep(s1, h.dh, drawn), Ratchet.DhStep(t1, h.dh, drawn), p);
    }
    if s.hasRecv { ReceiveAlike(s, t, p); }
  }

  lemma StepAlike(s: Ratchet.State, t: Ratchet.State, op: RatchetSafety.Op)
    requires Alike(s, t) && RatchetSafety.Enabled(s, op)
    ensures RatchetSafety.Enabled(t, op)
    ensures RatchetSafety.Apply(s, op).1 == RatchetSafety.Apply(t, op).1
    ensures Alike(RatchetSafety.Apply(s, op).0, RatchetSafety.Apply(t, op).0)
  {
    hide Ratchet.DecryptPacket;
    if op.Deliver? && op.d.Arrived? { DecryptAlike(s, t, op.d.packet, op.drawn); }
  }

  lemma SkipAlike(s: Ratchet.State, t: Ratchet.State, until: u32)
    requires Alike(s, t) && s.hasRecv
    ensures Ratchet.SkipTo(s, until).Some? == Ratchet.SkipTo(t, until).Some?
    ensures Ratchet.SkipTo(s, until).Some? ==>
              Ratchet.SkipTo(s, until).value.hasRecv && Alike(Ratchet.SkipTo(s, until).value, Ratchet.SkipTo(t, until).value)
  {
    if s.nr < until { LoopAlike(s, t, until); }
  }

  lemma {:induction false} LoopAlike(s: Ratchet.State, t: Ratchet.State, until: u32)
    requires Alike(s, t) && s.hasRecv && s.nr <= until
    ensures Ratchet.SkipLoop(s, until).hasRecv && Alike(Ratchet.SkipLoop(s, until), Ratchet.SkipLoop(t, until))
    decreases until - s.nr
  {
    if s.nr < until { LoopAlike(Ratchet.SkipOne(s), Ratchet.SkipOne(t), until); }
  }

  lemma {:induction false} TraceAlike(s: Ratchet.State, t: Ratchet.State, ops: seq<RatchetSafety.Op>)
    requires Alike(s, t) && RatchetSafety.Runs(s, ops)
    ensures RatchetSafety.Runs(t, ops) && RatchetSafety.Trace(s, ops) == RatchetSafety.Trace(t, ops)
    decreases |ops|
  {
    hide RatchetSafety.Apply;
    if ops != [] {
      StepAlike(s, t, ops[0]);
      TraceAlike(RatchetSafety.Apply(s, ops[0]).0, RatchetSafety.Apply(t, ops[0]).0, ops[1..]);
    }
  }

  /** Persistence is a bisimulation: whatever the bytes stand for, a session read back from
      its file answers every later run exactly as the session that was saved. */
  lemma RestoredBehavesAsSaved(s: RawSession, i: Reading, ops: seq<RatchetSafety.Op>)
    requires Valid(s) && RatchetSafety.Runs(Meaning(s, i), ops)
    ensures Deserialize(Serialize(s)).Some?
    ensures var t := Meaning(Deserialize(Serialize(s)).value, i);
            RatchetSafety.Runs(t, ops) && RatchetSafety.Trace(t, ops) == RatchetSafety.Trace(Meaning(s, i), ops)
  {
    RoundTrip(s);
    TraceAlike(Meaning(s, i), Meaning(Normal(s), i), ops);
  }

  // ---- The code ----

  lemma {:induction false} EntriesAppend(xs: seq<RawSkipped>, x: RawSkipped)
    ensures EncodeEntries(xs + [x]) == EncodeEntries(xs) + EncodeEntry(x)
  {
    if xs == [] {
      assert xs + [x] == [x] && EncodeEntries([x]) == EncodeEntry(x) + [];
    } else {
      EntriesAppend(xs[1..], x);
      assert (xs + [x])[1..] == xs[1..] + [x];
    }
  }

  /** `serialize_state`: fields appended one by one, then the skipped keys in a loop. */
  method SerializeState(s: RawSession) returns (buf: seq<byte>)
    ensures buf == Serialize(s)
  {
    hide U32, Flag;
    buf := s.ad;
    buf := buf + s.dhsPublic;
    buf := buf + s.dhsPrivate;
    buf := buf + Flag(s.hasDhr);
    buf := buf + s.dhr;
    buf := buf + s.root;
    buf := buf + Flag(s.hasSend) + (if s.hasSend then s.send else Repeat<byte>(0, 32));
    Regroup(EncodeKeys(s), Flag(s.hasSend), if s.hasSend then s.send else Repeat<byte>(0, 32));
    ghost var chain := buf;
    buf := buf + Flag(s.hasRecv) + (if s.hasRecv then s.recv else Repeat<byte>(0, 32));
    Regroup(chain, Flag(s.hasRecv), if s.hasRecv then s.recv else Repeat<byte>(0, 32));
    ghost var chains := buf;
    buf := buf + U32(s.ns);
    buf := buf + U32(s.nr);
    buf := buf + U32(s.pn);
    Regroup(chains + U32(s.ns), U32(s.nr), U32(s.pn));
    Regroup(chains, U32(s.ns), U32(s.nr) + U32(s.pn));
    Regroup(U32(s.ns), U32(s.nr), U32(s.pn));
    assert buf == chains + EncodeCounters(s);
    ghost var head := buf;
    buf := buf + U32(|s.skipped| % U32_LIMIT);
    ghost var counted := buf;
    var i := 0;
    while i < |s.skipped|
      invariant 0 <= i <= |s.skipped|
      invariant buf == counted + EncodeEntries(s.skipped[..i])
    {
      var x := s.skipped[i];
      EntriesAppend(s.skipped[..i], x);
      assert s.skipped[..i + 1] == s.skipped[..i] + [x];
      Regroup(counted, EncodeEntries(s.skipped[..i]), EncodeEntry(x));
      Regroup(buf, x.dh, U32(x.n) + x.key);
      Regroup(buf + x.dh, U32(x.n), x.key);
      buf := buf + x.dh;
      buf := buf + U32(x.n);
      buf := buf + x.key;
      i := i + 1;
    }
    assert s.skipped[..i] == s.skipped;
    Regroup(head, U32(|s.skipped| % U32_LIMIT), EncodeEntries(s.skipped));
  }

  method ReadEntry(r: Reader) returns (x: Option<RawSkipped>)
    requires r.Valid()
    modifies r`offset
    ensures r.Valid()
    ensures x.Some? == DecodeEntry(old(r.Rest())).Some?
    ensures x.Some? ==> DecodeEntry(old(r.Rest())) == Some((x.value, r.Rest()))
  {
    x := None;
    var dh := r.ReadBytes(32);
    if dh.None? { return; }
    var n := r.ReadU32();
    if n.None? { return; }
    var key := r.ReadBytes(32);
    if key.None? { return; }
    x := Some(RawSkipped(dh.value, n.value, key.value));
  }

  /** The loop over the announced number of skipped keys. */
  method ReadSkipped(r: Reader) returns (xs: Option<seq<RawSkipped>>)
    requires r.Valid()
    modifies r`offset
    ensures r.Valid()
    ensures xs.Some? == DecodeSkipped(old(r.Rest())).Some?
    ensures xs.Some? ==> DecodeSkipped(old(r.Rest())) == Some((xs.value, r.Rest()))
  {
    hide DecodeEntry, TakeU32;
    var count := r.ReadU32();
    if count.None? { return None; }
    var skipped := [];
    ghost var all := DecodeEntries(r.Rest(), count.value);
    assert Prepend([], all) == all by { assert all.Some? ==> [] + all.value.0 == all.value.0; }
    var i := 0;
    while i < count.value
      invariant 0 <= i <= count.value && r.Valid()
      invariant all == Prepend(skipped, DecodeEntries(r.Rest(), count.value - i))
    {
      var x := ReadEntry(r);
      if x.None? {
        return None;
      }
      PrependTwice(skipped, x.value, DecodeEntries(r.Rest(), count.value - i - 1));
      skipped := skipped + [x.value];
      i := i + 1;
    }
    assert skipped + [] == skipped;
    xs := Some(skipped);
  }

  method ReadChain(r: Reader) returns (c: Option<(bool, seq<byte>)>)
    requires r.Valid()
    modifies r`offset
    ensures r.Valid()
    ensures c.Some? == DecodeChain(old(r.Rest())).Some?
    ensures c.Some? ==> DecodeChain(old(r.Rest())) == Some((c.value, r.Rest()))
  {
    c := None;
    var flag := r.ReadFlag();
    if flag.None? { return; }
    var key := r.ReadBytes(32);
    if key.None? { return; }
    c := Some((flag.value, key.value));
  }

  method ReadKeys(r: Reader) returns (k: Option<Keys>)
    requires r.Valid()
    modifies r`offset
    ensures r.Valid()
    ensures k.Some? == DecodeKeys(old(r.Rest())).Some?
    ensures k.Some? ==> DecodeKeys(old(r.Rest())) == Some((k.value, r.Rest()))
  {
    hide Take, TakeFlag;
    k := None;
    var ad := r.ReadBytes(64);
    if ad.None? { return; }
    var pub := r.ReadBytes(32);
    if pub.None? { return; }
    var priv := r.ReadBytes(32);
    if priv.None? { return; }
    var flag := r.ReadFlag();
    if flag.None? { return; }
    var dhr := r.ReadBytes(32);
    if dhr.None? { return; }
    var root := r.ReadBytes(32);
    if root.None? { return; }
    k := Some(Keys(ad.value, pub.value, priv.value, flag.value, dhr.value, root.value));
  }

  method ReadCounters(r: Reader) returns (c: Option<(u32, u32, u32)>)
    requires r.Valid()
    modifies r`offset
    ensures r.Valid()
    ensures c.Some? == DecodeCounters(old(r.Rest())).Some?
    ensures c.Some? ==> DecodeCounters(old(r.Rest())) == Some((c.value, r.Rest()))
  {
    hide TakeU32;
    c := None;
    var ns := r.ReadU32();
    if ns.None? { return; }
    var nr := r.ReadU32();
    if nr.None? { return; }
    var pn := r.ReadU32();
    if pn.None? { return; }
    c := Some((ns.value, nr.value, pn.value));
  }

  /** A session being filled from a file. */
  class SessionRecord {
    var keys: Keys
    var send: (bool, seq<byte>)
    var recv: (bool, seq<byte>)
    var counters: (u32, u32, u32)
    var skipped: seq<RawSkipped>

    ghost function View(): RawSession
      reads this
    {
      RawSession(keys.ad, keys.dhsPublic, keys.dhsPrivate, keys.hasDhr, keys.dhr, keys.root,
                 send.0, send.1, recv.0, recv.1, counters.0, counters.1, counters.2, skipped)
    }

    /** `deserialize_state`: on success the record is what the file describes. */
    method DeserializeState(data: seq<byte>) returns (ok: bool)
      modifies this
      ensures ok == Deserialize(data).Some?
      ensures ok ==> View() == Deserialize(data).value
    {
      hide DecodeKeys, DecodeChain, DecodeCounters, DecodeSkipped;
      var r := new Reader(data);
      ok := false;
      var k := ReadKeys(r);
      if k.None? { return; }
      keys := k.value;
      var c := ReadChain(r);
      if c.None? { return; }
      send := c.value;
      c := ReadChain(r);
      if c.None? { return; }
      recv := c.value;
      var n := ReadCounters(r);
      if n.None? { return; }
      counters := n.value;
      var xs := ReadSkipped(r);
      if xs.None? { return; }
      skipped := xs.value;
      ok := r.AtEnd();
    }
  }
}
