/**
 How long a skipped message key lives in a session's cache.
 */
module RatchetCache {
  import opened Symbolic
  import opened Ratchet
  import opened RatchetSafety

  // ---- The cache by itself ----

  /** What happens to the cache: a key is stored, or looked up and removed if found. */
  datatype CacheOp = Put(x: Skipped) | Take(dh: DhKey, n: u32)

  function CacheStep(cache: seq<Skipped>, op: CacheOp): seq<Skipped> {
    match op
    case Put(x) => Store(cache, x)
    case Take(dh, n) => var k := Find(cache, dh, n); if k < |cache| then Without(cache, k) else cache
  }

  function CacheRun(cache: seq<Skipped>, ops: seq<CacheOp>): seq<Skipped>
    decreases |ops|
  {
    if ops == [] then cache else CacheRun(CacheStep(cache, ops[0]), ops[1..])
  }

  function Puts(ops: seq<CacheOp>): nat {
    if ops == [] then 0 else (if ops[0].Put? then 1 else 0) + Puts(ops[1..])
  }

  lemma {:induction false} SurvivesFrom(cache: seq<Skipped>, x: Skipped, at: nat, ops: seq<CacheOp>)
    requires |cache| <= MAX_SKIPPED_KEYS && at < |cache| && cache[at] == x
    requires |cache| - at + Puts(ops) <= MAX_SKIPPED_KEYS
    requires forall i :: 0 <= i < |ops| ==> ops[i] != Take(x.dh, x.n)
    ensures x in CacheRun(cache, ops)
    decreases |ops|
  {
    if ops != [] {
      var next := CacheStep(cache, ops[0]);
      assert forall i :: 0 <= i < |ops[1..]| ==> ops[1..][i] == ops[i + 1];
      match ops[0]
      case Put(y) =>
        SurvivesFrom(next, x, if |cache| == MAX_SKIPPED_KEYS then at - 1 else at, ops[1..]);
      case Take(dh, n) =>
        var k := Find(cache, dh, n);
        SurvivesFrom(next, x, if k < at then at - 1 else at, ops[1..]);
    }
  }

  lemma {:induction false} CacheRunConcat(cache: seq<Skipped>, a: seq<CacheOp>, b: seq<CacheOp>)
    ensures CacheRun(cache, a + b) == CacheRun(CacheRun(cache, a), b)
    ensures Puts(a + b) == Puts(a) + Puts(b)
    decreases |a|
  {
    hide CacheStep;
    if a == [] {
      assert a + b == b;
    } else {
      CacheRunConcat(CacheStep(cache, a[0]), a[1..], b);
      assert (a + b)[1..] == a[1..] + b;
    }
  }

  // ---- What a session does to its cache ----

  function SkipStores(s: State, until: u32): seq<CacheOp>
    requires s.nr <= until
    decreases until - s.nr
  {
    if s.nr == until then []
    else [Put(Skipped(s.dhr, s.nr, MessageOf(s.recv)))] + SkipStores(SkipOne(s), until)
  }

  function Stored(s: State, until: u32): seq<CacheOp> {
    if s.hasRecv && s.nr < until && until - s.nr <= MAX_SKIPPED_KEYS then SkipStores(s, until) else []
  }

  /** One lookup, then the keys set aside on the way to the message. */
  function DeliveryOps(s: State, h: Header, drawn: DhKey): seq<CacheOp> {
    [Take(h.dh, h.n)] +
    (if Cached(s, h) || (s.hasRecv && s.dhr == h.dh && h.n < s.nr) then []
     else if !Turns(s, h) then Stored(s, h.n)
     else match SkipTo(s, h.pn)
          case None => []
          case Some(s') => Stored(s, h.pn) + Stored(DhStep(s', h.dh, drawn), h.n))
  }

  function OpOps(s: State, op: Op): seq<CacheOp> {
    if op.Deliver? && op.d.Arrived? then DeliveryOps(s, op.d.packet.header, op.drawn) else []
  }

  /** The cache operations of a whole run. */
  function RunOps(s: State, ops: seq<Op>): seq<CacheOp>
    requires Runs(s, ops)
    decreases |ops|
  {
    if ops == [] then [] else OpOps(s, ops[0]) + RunOps(Apply(s, ops[0]).0, ops[1..])
  }

  lemma {:induction false} SkipStoresRun(s: State, until: u32)
    requires s.nr <= until
    ensures CacheRun(s.skipped, SkipStores(s, until)) == SkipLoop(s, until).skipped
    ensures forall i :: 0 <= i < |SkipStores(s, until)| ==> SkipStores(s, until)[i].Put?
    decreases until - s.nr
  {
    if s.nr < until { SkipStoresRun(SkipOne(s), until); }
  }

  lemma StoredRun(s: State, until: u32)
    ensures SkipTo(s, until).Some? ==> SkipTo(s, until).value.skipped == CacheRun(s.skipped, Stored(s, until))
    ensures SkipTo(s, until).None? ==> Stored(s, until) == []
    ensures forall i :: 0 <= i < |Stored(s, until)| ==> Stored(s, until)[i].Put?
  {
    if s.nr < until { SkipStoresRun(s, until); }
  }

  lemma ReceiveRun(s: State, p: Packet)
    ensures Receive(s, p).0.skipped == CacheRun(s.skipped, Stored(s, p.header.n))
  {
    hide Stored, SkipTo;
    StoredRun(s, p.header.n);
  }

  lemma LookupRun(s: State, h: Header, rest: seq<CacheOp>)
    ensures CacheRun(s.skipped, [Take(h.dh, h.n)] + rest)
         == CacheRun(if Cached(s, h) then Without(s.skipped, Find(s.skipped, h.dh, h.n)) else s.skipped, rest)
  {
    assert ([Take(h.dh, h.n)] + rest)[1..] == rest;
  }

  lemma DecryptRun(s: State, p: Packet, drawn: DhKey)
    requires ChainExists(s, p.header)
    ensures DecryptPacket(s, p, drawn).0.skipped == CacheRun(s.skipped, DeliveryOps(s, p.header, drawn))
    ensures forall x :: x in DeliveryOps(s, p.header, drawn) ==> x.Put? || x == Take(p.header.dh, p.header.n)
  {
    hide Stored, SkipTo, Receive, CacheStep;
    var h := p.header;
    LookupRun(s, h, DeliveryOps(s, h, drawn)[1..]);
    assert DeliveryOps(s, h, drawn) == [Take(h.dh, h.n)] + DeliveryOps(s, h, drawn)[1..];
    StoredRun(s, h.n);
    StoredRun(s, h.pn);
    if Turns(s, h) {
      if SkipTo(s, h.pn).Some? {
        var t := DhStep(SkipTo(s, h.pn).value, h.dh, drawn);
        StoredRun(t, h.n);
        ReceiveRun(t, p);
        CacheRunConcat(s.skipped, Stored(s, h.pn), Stored(t, h.n));
      }
    } else {
      ReceiveRun(s, p);
    }
  }

  lemma {:induction false} RunIsCacheRun(s: State, ops: seq<Op>)
    requires Runs(s, ops)
    ensures Final(s, ops).skipped == CacheRun(s.skipped, RunOps(s, ops))
    decreases |ops|
  {
    hide DeliveryOps;
    if ops != [] {
      if ops[0].Deliver? && ops[0].d.Arrived? { DecryptRun(s, ops[0].d.packet, ops[0].drawn); }
      RunIsCacheRun(Apply(s, ops[0]).0, ops[1..]);
      CacheRunConcat(s.skipped, OpOps(s, ops[0]), RunOps(Apply(s, ops[0]).0, ops[1..]));
    }
  }

  /** No delivery of the run asks for the key of `x`. */
  predicate Untaken(ops: seq<Op>, x: Skipped) {
    forall i :: 0 <= i < |ops| && ops[i].Deliver? && ops[i].d.Arrived? ==>
      !(ops[i].d.packet.header.dh == x.dh && ops[i].d.packet.header.n == x.n)
  }

  lemma {:induction false} RunTakes(s: State, ops: seq<Op>, x: Skipped)
    requires Runs(s, ops) && Untaken(ops, x)
    ensures Take(x.dh, x.n) !in RunOps(s, ops)
    decreases |ops|
  {
    hide DeliveryOps;
    if ops != [] {
      if ops[0].Deliver? && ops[0].d.Arrived? { DecryptRun(s, ops[0].d.packet, ops[0].drawn); }
      assert forall i :: 0 <= i < |ops[1..]| ==> ops[1..][i] == ops[i + 1];
      RunTakes(Apply(s, ops[0]).0, ops[1..], x);
    }
  }

  /** Survival: over any traffic, a cached key that no delivery asks for is still there as
      long as the keys cached after it, old and new, number fewer than a thousand. */
  lemma SkippedKeySurvives(s: State, ops: seq<Op>, at: nat)
    requires Runs(s, ops) && at < |s.skipped| <= MAX_SKIPPED_KEYS && Untaken(ops, s.skipped[at])
    requires (|s.skipped| - 1 - at) + Puts(RunOps(s, ops)) < MAX_SKIPPED_KEYS
    ensures s.skipped[at] in Final(s, ops).skipped
  {
    RunIsCacheRun(s, ops);
    RunTakes(s, ops, s.skipped[at]);
    SurvivesFrom(s.skipped, s.skipped[at], at, RunOps(s, ops));
  }
}
