/**
 Safety of one session over arbitrary runs: any interleaving of encryptions and of
 deliveries of any packets whatsoever, failed ones included.
 */
module RatchetSafety {
  import opened Symbolic
  import opened Ratchet

  datatype Op = Send(plain: seq<byte>) | Deliver(d: Delivery, drawn: DhKey)

  datatype Event = Sent(packet: Packet) | Opened(packet: Packet, plain: seq<byte>) | Refused(status: Status)

  predicate Enabled(s: State, op: Op) {
    op.Deliver? && op.d.Arrived? ==> ChainExists(s, op.d.packet.header)
  }

  function Apply(s: State, op: Op): (State, Event)
    requires Enabled(s, op)
  {
    match op
    case Send(plain) =>
      var (s', r) := Encrypt(s, plain);
      (s', if r.Ok? then Sent(r.value) else Refused(r.status))
    case Deliver(d, drawn) =>
      var (s', r) := Decrypt(s, d, drawn);
      (s', if r.Err? then Refused(r.status) else if d.Arrived? then Opened(d.packet, r.value) else Refused(InvalidArg))
  }

  /** Every step of the run finds a receive chain when it uses one. */
  predicate Runs(s: State, ops: seq<Op>)
    decreases |ops|
  {
    ops == [] || (Enabled(s, ops[0]) && Runs(Apply(s, ops[0]).0, ops[1..]))
  }

  function Trace(s: State, ops: seq<Op>): (t: seq<Event>)
    requires Runs(s, ops)
    ensures |t| == |ops|
    decreases |ops|
  {
    if ops == [] then [] else [Apply(s, ops[0]).1] + Trace(Apply(s, ops[0]).0, ops[1..])
  }

  function Final(s: State, ops: seq<Op>): State
    requires Runs(s, ops)
    decreases |ops|
  {
    if ops == [] then s else Final(Apply(s, ops[0]).0, ops[1..])
  }

  // ---- The age of a chain key ----

  /** How many root-key turns lie behind a root key. */
  function Depth(root: Secret): nat {
    match root case RootOf(r, _) => Depth(r) + 1 case _ => 0
  }

  function Generation(chain: Secret): nat {
    match chain
    case NextOf(c) => Generation(c)
    case ChainOf(r, _) => Depth(r)
    case _ => 0
  }

  /** `c` was reached before `d`: in an earlier generation, or earlier in the same one. */
  predicate Older(c: Secret, d: Secret) {
    Generation(c) < Generation(d) || (Generation(c) == Generation(d) && Turn(c) < Turn(d))
  }

  predicate OlderKey(k: Secret, d: Secret) { k.MessageOf? && Older(k.chain, d) }

  // ---- Receiving: no message key opens two deliveries ----

  /** `used` are the keys that have opened a delivery.  All of them, and all cached keys,
      are older than the receive chain; no cached key has been used or is cached twice. */
  ghost predicate RecvInv(s: State, used: set<Secret>) {
    && (s.hasRecv ==> Generation(s.recv) < Depth(s.root))
    && (!s.hasRecv ==> used == {} && s.skipped == [])
    && (forall k :: k in used ==> OlderKey(k, s.recv))
    && (forall i :: 0 <= i < |s.skipped| ==> OlderKey(s.skipped[i].key, s.recv) && s.skipped[i].key !in used)
    && (forall i, j :: 0 <= i < j < |s.skipped| ==> s.skipped[i].key != s.skipped[j].key)
  }

  lemma {:induction false} SkipLoopRecv(s: State, until: u32, used: set<Secret>)
    requires s.hasRecv && s.nr <= until && RecvInv(s, used)
    ensures RecvInv(SkipLoop(s, until), used)
    ensures SkipLoop(s, until) == s.(nr := until, recv := SkipLoop(s, until).recv, skipped := SkipLoop(s, until).skipped)
    decreases until - s.nr
  {
    if s.nr < until { SkipLoopRecv(SkipOne(s), until, used); }
  }

  lemma DhStepRecv(s: State, theirs: DhKey, drawn: DhKey, used: set<Secret>)
    requires RecvInv(s, used)
    ensures RecvInv(DhStep(s, theirs, drawn), used) && DhStep(s, theirs, drawn).hasRecv
  {
  }

  lemma ReceiveRecv(s: State, p: Packet, used: set<Secret>)
    requires s.hasRecv && RecvInv(s, used)
    ensures var (s', r) := Receive(s, p);
            if r.Ok? then p.body.Sealed? && p.body.key !in used && RecvInv(s', used + {p.body.key})
            else RecvInv(s', used)
  {
    if s.nr < p.header.n { SkipLoopRecv(s, p.header.n, used); }
  }

  lemma DecryptRecv(s: State, p: Packet, drawn: DhKey, used: set<Secret>)
    requires RecvInv(s, used) && ChainExists(s, p.header)
    ensures var (s', r) := DecryptPacket(s, p, drawn);
            if r.Ok? then p.body.Sealed? && p.body.key !in used && RecvInv(s', used + {p.body.key})
            else RecvInv(s', used)
  {
    hide Receive, DhStep, SkipLoop;
    var h := p.header;
    if Cached(s, h) {
    } else if s.hasRecv && s.dhr == h.dh && h.n < s.nr {
    } else if Turns(s, h) {
      if SkipTo(s, h.pn).Some? {
        if s.hasRecv && s.nr < h.pn { SkipLoopRecv(s, h.pn, used); }
        var s1 := SkipTo(s, h.pn).value;
        DhStepRecv(s1, h.dh, drawn, used);
        ReceiveRecv(DhStep(s1, h.dh, drawn), p, used);
      }
    } else {
      ReceiveRecv(s, p, used);
    }
  }

  lemma StepRecv(s: State, op: Op, used: set<Secret>)
    requires RecvInv(s, used) && Enabled(s, op)
    ensures var (s', e) := Apply(s, op);
            if e.Opened? then e.packet.body.Sealed? && e.packet.body.key !in used && RecvInv(s', used + {e.packet.body.key})
            else RecvInv(s', used)
  {
    if op.Deliver? && op.d.Arrived? { DecryptRecv(s, op.d.packet, op.drawn, used); }
  }

  lemma {:induction false} TraceRecv(s: State, ops: seq<Op>, used: set<Secret>)
    requires RecvInv(s, used) && Runs(s, ops)
    ensures forall i :: 0 <= i < |ops| && Trace(s, ops)[i].Opened? ==>
              var b := Trace(s, ops)[i].packet.body; b.Sealed? && b.key !in used
    ensures forall i, j :: 0 <= i < j < |ops| && Trace(s, ops)[i].Opened? && Trace(s, ops)[j].Opened? ==>
              Trace(s, ops)[i].packet.body.key != Trace(s, ops)[j].packet.body.key
    ensures exists used' :: RecvInv(Final(s, ops), used')
    decreases |ops|
  {
    hide Apply, RecvInv;
    if ops != [] {
      var (s', e) := Apply(s, ops[0]);
      StepRecv(s, ops[0], used);
      TraceRecv(s', ops[1..], if e.Opened? then used + {e.packet.body.key} else used);
      assert Final(s, ops) == Final(s', ops[1..]);
      assert forall i :: 1 <= i < |ops| ==> Trace(s, ops)[i] == Trace(s', ops[1..])[i - 1];
    } else {
      assert RecvInv(Final(s, ops), used);
    }
  }

  /** A session as either constructor leaves it. */
  ghost predicate New(s: State) {
    || (exists ad, sk, mine, theirs :: s == Initiator(ad, sk, mine, theirs))
    || (exists ad, sk, mine :: s == Responder(ad, sk, mine))
  }

  /** Accept-once: over any traffic no two deliveries are opened by one message key, so
      no ciphertext is ever accepted twice, whatever headers carry it. */
  lemma AcceptOnce(s: State, ops: seq<Op>, i: nat, j: nat)
    requires New(s) && Runs(s, ops) && i < j < |ops|
    requires Trace(s, ops)[i].Opened? && Trace(s, ops)[j].Opened?
    ensures var b, c := Trace(s, ops)[i].packet.body, Trace(s, ops)[j].packet.body;
            b.Sealed? && c.Sealed? && b.key != c.key && b != c
  {
    TraceRecv(s, ops, {});
  }

  // ---- Sending: no message key seals two packets ----

  ghost predicate SendInv(s: State, used: set<Secret>) {
    && (s.hasSend ==> Generation(s.send) < Depth(s.root))
    && (!s.hasSend ==> used == {})
    && (forall k :: k in used ==> OlderKey(k, s.send))
  }

  lemma {:induction false} SkipLoopFrame(s: State, until: u32)
    requires s.nr <= until
    ensures var t := SkipLoop(s, until); t == s.(nr := until, recv := t.recv, skipped := t.skipped)
    decreases until - s.nr
  {
    if s.nr < until { SkipLoopFrame(SkipOne(s), until); }
  }

  lemma ReceiveSend(s: State, p: Packet, used: set<Secret>)
    requires SendInv(s, used)
    ensures SendInv(Receive(s, p).0, used)
  {
    if s.nr < p.header.n { SkipLoopFrame(s, p.header.n); }
  }

  lemma DecryptSend(s: State, p: Packet, drawn: DhKey, used: set<Secret>)
    requires SendInv(s, used) && ChainExists(s, p.header)
    ensures SendInv(DecryptPacket(s, p, drawn).0, used)
  {
    hide Receive, SkipLoop;
    var h := p.header;
    if !Cached(s, h) && !(s.hasRecv && s.dhr == h.dh && h.n < s.nr) {
      if Turns(s, h) {
        if SkipTo(s, h.pn).Some? {
          if s.nr < h.pn { SkipLoopFrame(s, h.pn); }
          ReceiveSend(DhStep(SkipTo(s, h.pn).value, h.dh, drawn), p, used);
        }
      } else {
        ReceiveSend(s, p, used);
      }
    }
  }

  lemma StepSend(s: State, op: Op, used: set<Secret>)
    requires SendInv(s, used) && Enabled(s, op)
    ensures var (s', e) := Apply(s, op);
            if e.Sent? then e.packet.body.Sealed? && e.packet.body.key !in used && SendInv(s', used + {e.packet.body.key})
            else SendInv(s', used)
  {
    if op.Deliver? && op.d.Arrived? { DecryptSend(s, op.d.packet, op.drawn, used); }
  }

  lemma {:induction false} TraceSend(s: State, ops: seq<Op>, used: set<Secret>)
    requires SendInv(s, used) && Runs(s, ops)
    ensures forall i :: 0 <= i < |ops| && Trace(s, ops)[i].Sent? ==>
              var b := Trace(s, ops)[i].packet.body; b.Sealed? && b.key !in used
    ensures forall i, j :: 0 <= i < j < |ops| && Trace(s, ops)[i].Sent? && Trace(s, ops)[j].Sent? ==>
              Trace(s, ops)[i].packet.body.key != Trace(s, ops)[j].packet.body.key
    decreases |ops|
  {
    hide Apply, SendInv;
    if ops != [] {
      var (s', e) := Apply(s, ops[0]);
      StepSend(s, ops[0], used);
      TraceSend(s', ops[1..], if e.Sent? then used + {e.packet.body.key} else used);
      assert forall i :: 1 <= i < |ops| ==> Trace(s, ops)[i] == Trace(s', ops[1..])[i - 1];
    }
  }

  /** The fixed all-zero nonce is sound: whatever is received in between, no two packets
      of a session are sealed under one key, even if counters wrap or keys are redrawn. */
  lemma NonceNeverReused(s: State, ops: seq<Op>, i: nat, j: nat)
    requires New(s) && Runs(s, ops) && i < j < |ops|
    requires Trace(s, ops)[i].Sent? && Trace(s, ops)[j].Sent?
    ensures var b, c := Trace(s, ops)[i].packet.body, Trace(s, ops)[j].packet.body;
            b.Sealed? && c.Sealed? && b.key != c.key
  {
    TraceSend(s, ops, {});
  }

  // ---- The cache is exact and bounded ----

  /** A receive chain: the remote key that opened it and its first chain key. */
  datatype Chain = Chain(dh: DhKey, start: Secret)

  /** The place `i` of a chain after its 32-bit index has wrapped `lap` times. */
  function KeyAt(c: Chain, i: u32, lap: nat): Secret { Advance(c.start, i + lap * U32_LIMIT) }

  predicate EntryOn(x: Skipped, c: Chain, lap: nat) { x.dh == c.dh && x.key == MessageOf(KeyAt(c, x.n, lap)) }

  predicate StandsOn(s: State, c: Chain, lap: nat) { s.dhr == c.dh && s.recv == KeyAt(c, s.nr, lap) }

  /** The key is the one at its own index of one of the chains; on a later lap of the index
      only if `wrapped`. */
  ghost predicate FromChain(x: Skipped, chains: set<Chain>, wrapped: bool) {
    exists c, lap: nat :: c in chains && EntryOn(x, c, lap) && (lap > 0 ==> wrapped)
  }

  ghost predicate OnChain(s: State, chains: set<Chain>, wrapped: bool) {
    exists c, lap: nat :: c in chains && StandsOn(s, c, lap) && (lap > 0 ==> wrapped)
  }

  ghost predicate CacheInv(s: State, chains: set<Chain>, wrapped: bool) {
    && |s.skipped| <= MAX_SKIPPED_KEYS
    && (s.hasRecv ==> s.hasDhr && OnChain(s, chains, wrapped))
    && (forall i :: 0 <= i < |s.skipped| ==> FromChain(s.skipped[i], chains, wrapped))
  }

  /** The receive chains that a run opens. */
  function ChainsOpened(s: State, ops: seq<Op>): set<Chain>
    requires Runs(s, ops)
    decreases |ops|
  {
    if ops == [] then {}
    else ChainOpened(s, ops[0]) + ChainsOpened(Apply(s, ops[0]).0, ops[1..])
  }

  function ChainOpened(s: State, op: Op): set<Chain> {
    if op.Deliver? && op.d.Arrived? then
      var h := op.d.packet.header;
      if !Cached(s, h) && Turns(s, h) && SkipTo(s, h.pn).Some?
      then {Chain(h.dh, ChainOf(s.root, Dh(s.dhs, h.dh)))} else {}
    else {}
  }

  /** No delivery carries the last 32-bit index, the only one that wraps the counter. */
  predicate NoWrap(ops: seq<Op>) {
    forall i :: 0 <= i < |ops| && ops[i].Deliver? && ops[i].d.Arrived? ==> ops[i].d.packet.header.n + 1 < U32_LIMIT
  }

  lemma {:induction false} SkipLoopCache(s: State, until: u32, chains: set<Chain>, wrapped: bool)
    requires s.hasRecv && s.nr <= until && CacheInv(s, chains, wrapped)
    ensures CacheInv(SkipLoop(s, until), chains, wrapped)
    decreases until - s.nr
  {
    if s.nr < until {
      var s1 := SkipOne(s);
      var x := Skipped(s.dhr, s.nr, MessageOf(s.recv));
      var c, lap: nat :| c in chains && StandsOn(s, c, lap) && (lap > 0 ==> wrapped);
      assert EntryOn(x, c, lap) && StandsOn(s1, c, lap);
      assert forall i :: 0 <= i < |s1.skipped| ==> s1.skipped[i] == x || s1.skipped[i] in s.skipped;
      SkipLoopCache(s1, until, chains, wrapped);
    }
  }

  /** Reading the message the chain stands at; beyond the last index the count starts anew. */
  lemma ReadCache(s: State, chains: set<Chain>, wrapped: bool)
    requires s.hasRecv && CacheInv(s, chains, wrapped) && (s.nr + 1 == U32_LIMIT ==> wrapped)
    ensures CacheInv(s.(recv := NextOf(s.recv), nr := Succ32(s.nr)), chains, wrapped)
  {
    hide FromChain;
    var c, lap: nat :| c in chains && StandsOn(s, c, lap) && (lap > 0 ==> wrapped);
    var s1 := s.(recv := NextOf(s.recv), nr := Succ32(s.nr));
    assert StandsOn(s1, c, if s.nr + 1 == U32_LIMIT then lap + 1 else lap);
  }

  lemma ReceiveCache(s: State, p: Packet, chains: set<Chain>, wrapped: bool)
    requires s.hasRecv && s.nr <= p.header.n && CacheInv(s, chains, wrapped)
    requires p.header.n + 1 == U32_LIMIT ==> wrapped
    ensures CacheInv(Receive(s, p).0, chains, wrapped)
  {
    hide CacheInv, SkipLoop;
    var n := p.header.n;
    if s.nr < n { SkipLoopCache(s, n, chains, wrapped); SkipLoopFrame(s, n); }
    if SkipTo(s, n).Some? { ReadCache(SkipTo(s, n).value, chains, wrapped); }
  }

  lemma StepTurn(s: State, h: Header, drawn: DhKey, chains: set<Chain>, wrapped: bool)
    requires CacheInv(s, chains, wrapped) && SkipTo(s, h.pn).Some?
    requires Chain(h.dh, ChainOf(s.root, Dh(s.dhs, h.dh))) in chains
    ensures var t := DhStep(SkipTo(s, h.pn).value, h.dh, drawn);
            CacheInv(t, chains, wrapped) && t.hasRecv && t.nr == 0
  {
    hide FromChain, SkipLoop;
    if s.hasRecv && s.nr < h.pn { SkipLoopCache(s, h.pn, chains, wrapped); SkipLoopFrame(s, h.pn); }
    assert StandsOn(DhStep(SkipTo(s, h.pn).value, h.dh, drawn), Chain(h.dh, ChainOf(s.root, Dh(s.dhs, h.dh))), 0);
  }

  lemma SameChain(s: State, s': State, chains: set<Chain>, more: set<Chain>, wrapped: bool)
    requires CacheInv(s, chains, wrapped) && s' == s.(send := s'.send, ns := s'.ns, skipped := s'.skipped)
    requires |s'.skipped| <= |s.skipped| && forall i :: 0 <= i < |s'.skipped| ==> s'.skipped[i] in s.skipped
    ensures CacheInv(s', chains + more, wrapped)
  {
    hide EntryOn;
    assert forall x :: FromChain(x, chains, wrapped) ==> FromChain(x, chains + more, wrapped);
    if s.hasRecv {
      var c, lap: nat :| c in chains && StandsOn(s, c, lap) && (lap > 0 ==> wrapped);
      assert StandsOn(s', c, lap);
    }
  }

  lemma StepCache(s: State, op: Op, chains: set<Chain>, wrapped: bool)
    requires CacheInv(s, chains, wrapped) && Enabled(s, op)
    requires op.Deliver? && op.d.Arrived? && op.d.packet.header.n + 1 == U32_LIMIT ==> wrapped
    ensures CacheInv(Apply(s, op).0, chains + ChainOpened(s, op), wrapped)
  {
    hide Receive, SkipTo, DhStep, CacheInv;
    var all := chains + ChainOpened(s, op);
    SameChain(s, s, chains, ChainOpened(s, op), wrapped);
    if op.Deliver? && op.d.Arrived? {
      var p := op.d.packet;
      var h := p.header;
      if Cached(s, h) {
        var cache := Without(s.skipped, Find(s.skipped, h.dh, h.n));
        SameChain(s, s.(skipped := cache), chains, ChainOpened(s, op), wrapped);
      } else if s.hasRecv && s.dhr == h.dh && h.n < s.nr {
      } else if Turns(s, h) {
        if SkipTo(s, h.pn).Some? {
          var s1 := SkipTo(s, h.pn).value;
          StepTurn(s, h, op.drawn, all, wrapped);
          ReceiveCache(DhStep(s1, h.dh, op.drawn), p, all, wrapped);
        }
      } else {
        ReceiveCache(s, p, all, wrapped);
      }
    } else {
      SameChain(s, Apply(s, op).0, chains, ChainOpened(s, op), wrapped);
    }
  }

  lemma {:induction false} RunCache(s: State, ops: seq<Op>, chains: set<Chain>, wrapped: bool)
    requires CacheInv(s, chains, wrapped) && Runs(s, ops) && (wrapped || NoWrap(ops))
    ensures CacheInv(Final(s, ops), chains + ChainsOpened(s, ops), wrapped)
    decreases |ops|
  {
    hide CacheInv, ChainOpened;
    if ops == [] {
      assert chains + {} == chains;
    } else {
      StepCache(s, ops[0], chains, wrapped);
      RunCache(Apply(s, ops[0]).0, ops[1..], chains + ChainOpened(s, ops[0]), wrapped);
      assert (chains + ChainOpened(s, ops[0])) + ChainsOpened(Apply(s, ops[0]).0, ops[1..])
          == chains + ChainsOpened(s, ops);
    }
  }

  /** Over any traffic the cache holds at most a thousand keys, each the message key at its
      own index of a receive chain that the run opened for its own DH key: its index modulo
      2^32 if a delivery made the counter wrap, its index itself otherwise. */
  lemma CacheExact(s: State, ops: seq<Op>)
    requires New(s) && Runs(s, ops)
    ensures |Final(s, ops).skipped| <= MAX_SKIPPED_KEYS
    ensures forall i :: 0 <= i < |Final(s, ops).skipped| ==>
              FromChain(Final(s, ops).skipped[i], ChainsOpened(s, ops), !NoWrap(ops))
  {
    RunCache(s, ops, {}, !NoWrap(ops));
    assert {} + ChainsOpened(s, ops) == ChainsOpened(s, ops);
  }
}
