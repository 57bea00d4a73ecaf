/**
 Order-independence of one receive chain: a batch of its next messages may arrive in any
 order without changing the plaintexts or the session that results.
 */
module RatchetOrder {
  import opened Symbolic
  import opened Ratchet
  import RatchetSafety
  import TwoParty

  /** The i-th message, counted from the next expected one, of the session's receive chain. */
  function ChainPacket(s: State, i: nat, pn: u32, plain: seq<byte>): Packet
    requires s.nr + i < U32_LIMIT
  {
    var h := Header(pn, s.nr + i, s.dhr);
    Packet(h, Sealed(MessageOf(Advance(s.recv, i)), Bound(s.ad, h), plain))
  }

  /** `batch[i]` is the i-th next message of the receive chain, as its sender seals it. */
  ghost predicate IsBatch(s: State, batch: seq<Packet>, plains: seq<seq<byte>>) {
    && |plains| == |batch|
    && s.nr + |batch| < U32_LIMIT
    && forall i :: 0 <= i < |batch| ==> batch[i] == ChainPacket(s, i, batch[i].header.pn, plains[i])
  }

  /** Nothing is cached under the coordinates of the next `k` messages of the chain. */
  ghost predicate NoLeftover(s: State, k: nat) {
    forall j :: 0 <= j < |s.skipped| && s.skipped[j].dh == s.dhr ==> !(s.nr <= s.skipped[j].n < s.nr + k)
  }

  /** The batch fits beside what is cached already, and none of its keys is cached. */
  ghost predicate Fits(s: State, k: nat) {
    && s.hasDhr && s.hasRecv
    && |s.skipped| + k <= MAX_SKIPPED_KEYS
    && NoLeftover(s, k)
  }

  predicate Permutation(order: seq<nat>, k: nat) {
    && (forall j :: 0 <= j < |order| ==> order[j] < k)
    && (forall i, j :: 0 <= i < j < |order| ==> order[i] != order[j])
    && (forall i: nat :: i < k ==> i in order)
  }

  /** Delivers `batch` in the order given; the key pair drawn by a DH step would be `drawn`. */
  function DeliverAll(s: State, batch: seq<Packet>, order: seq<nat>, drawn: DhKey)
    : (State, seq<Result<seq<byte>>>)
    requires s.hasRecv
    requires forall j :: 0 <= j < |order| ==> order[j] < |batch| && batch[order[j]].header.dh == s.dhr
    decreases |order|
  {
    if order == [] then (s, [])
    else
      var (s1, r) := DecryptPacket(s, batch[order[0]], drawn);
      if s1.hasRecv && s1.dhr == s.dhr then
        var (s2, rs) := DeliverAll(s1, batch, order[1..], drawn);
        (s2, [r] + rs)
      else (s1, [r])
  }

  function Elements(order: seq<nat>): set<nat> { set i | i in order }

  // ---- The keys passed over so far ----

  function Entry(s: State, i: nat): Skipped
    requires s.nr + i < U32_LIMIT
  {
    Skipped(s.dhr, s.nr + i, MessageOf(Advance(s.recv, i)))
  }

  /** Of the first `m` keys of the chain, those whose messages are not in `got`, in order. */
  ghost function Gap(s: State, m: nat, got: set<nat>): (g: seq<Skipped>)
    requires s.nr + m <= U32_LIMIT
  {
    if m == 0 then [] else Gap(s, m - 1, got) + if m - 1 in got then [] else [Entry(s, m - 1)]
  }

  lemma {:induction false} GapBounds(s: State, m: nat, got: set<nat>)
    requires s.nr + m <= U32_LIMIT
    ensures |Gap(s, m, got)| <= m
    ensures forall j :: 0 <= j < |Gap(s, m, got)| ==>
              var x := Gap(s, m, got)[j]; x.dh == s.dhr && s.nr <= x.n < s.nr + m
  {
    if m != 0 { GapBounds(s, m - 1, got); }
  }

  lemma {:induction false} GapIgnores(s: State, m: nat, got: set<nat>, i: nat)
    requires s.nr + m <= U32_LIMIT && m <= i
    ensures Gap(s, m, got + {i}) == Gap(s, m, got)
  {
    if m != 0 { GapIgnores(s, m - 1, got, i); }
  }

  /** Jumping from index `m` to `i` sets aside exactly the messages in between. */
  lemma {:induction false} GapJump(s: State, m: nat, i: nat, got: set<nat>)
    requires m <= i && s.nr + i < U32_LIMIT
    requires forall g :: g in got ==> g < m
    ensures Gap(s, i, got) == Gap(s, m, got) + Range(s.dhr, Advance(s.recv, m), s.nr + m, s.nr + i)
  {
    var range := Range(s.dhr, Advance(s.recv, m), s.nr + m, s.nr + i);
    if i == m {
      assert Gap(s, m, got) + range == Gap(s, m, got);
    } else {
      GapJump(s, m, i - 1, got);
      AdvancePlus(s.recv, m, i - 1 - m);
      assert range == Range(s.dhr, Advance(s.recv, m), s.nr + m, s.nr + i - 1) + [Entry(s, i - 1)];
    }
  }

  /** A passed-over message leaves its place in the list and nothing else moves. */
  lemma {:induction false} GapRemove(s: State, m: nat, i: nat, got: set<nat>) returns (rest: seq<Skipped>)
    requires i < m && s.nr + m <= U32_LIMIT && i !in got
    ensures Gap(s, m, got) == Gap(s, i, got) + [Entry(s, i)] + rest
    ensures Gap(s, m, got + {i}) == Gap(s, i, got) + rest
  {
    if m == i + 1 {
      rest := [];
      GapIgnores(s, i, got, i);
    } else {
      var r := GapRemove(s, m - 1, i, got);
      rest := r + if m - 1 in got then [] else [Entry(s, m - 1)];
    }
  }

  lemma {:induction false} GapEmpty(s: State, m: nat, got: set<nat>)
    requires s.nr + m <= U32_LIMIT && forall i :: 0 <= i < m ==> i in got
    ensures Gap(s, m, got) == []
  {
    if m != 0 { GapEmpty(s, m - 1, got); }
  }

  // ---- One delivery ----

  /** The session after the messages `got` of the batch, the furthest being number m - 1. */
  ghost function After(s: State, m: nat, got: set<nat>): State
    requires s.nr + m < U32_LIMIT
  {
    s.(nr := s.nr + m, recv := Advance(s.recv, m), skipped := s.skipped + Gap(s, m, got))
  }

  lemma FindAt(before: seq<Skipped>, x: Skipped, rest: seq<Skipped>)
    requires forall j :: 0 <= j < |before| ==> !(before[j].dh == x.dh && before[j].n == x.n)
    ensures Find(before + [x] + rest, x.dh, x.n) == |before|
    ensures Without(before + [x] + rest, |before|) == before + rest
  {
    var cache := before + [x] + rest;
    assert cache[|before|] == x;
    assert forall j :: 0 <= j < |before| ==> cache[j] == before[j];
  }

  lemma FindPassed(s: State, k: nat, m: nat, got: set<nat>, i: nat)
    requires Fits(s, k) && i < m <= k && s.nr + k < U32_LIMIT && i !in got
    ensures var cache := s.skipped + Gap(s, m, got);
            var at := Find(cache, s.dhr, s.nr + i);
            at < |cache| && cache[at] == Entry(s, i) && Without(cache, at) == s.skipped + Gap(s, m, got + {i})
  {
    hide Gap, Find, Without, Fits, Advance;
    var rest := GapRemove(s, m, i, got);
    var g := Gap(s, i, got);
    var x := Entry(s, i);
    assert s.skipped + Gap(s, m, got) == (s.skipped + g) + [x] + rest by {
      Regroup(s.skipped, g + [x], rest);
      Regroup(s.skipped, g, [x]);
    }
    assert s.skipped + Gap(s, m, got + {i}) == (s.skipped + g) + rest by { Regroup(s.skipped, g, rest); }
    GapBounds(s, i, got);
    BeforeMiss(s, k, i, g);
    FindAt(s.skipped + g, x, rest);
  }

  lemma BeforeMiss(s: State, k: nat, i: nat, g: seq<Skipped>)
    requires Fits(s, k) && i < k
    requires forall j :: 0 <= j < |g| ==> g[j].n < s.nr + i
    ensures var b := s.skipped + g; forall j :: 0 <= j < |b| ==> !(b[j].dh == s.dhr && b[j].n == s.nr + i)
  {
  }

  lemma FindAhead(s: State, k: nat, m: nat, got: set<nat>, i: nat)
    requires Fits(s, k) && m <= i < k && s.nr + k < U32_LIMIT
    ensures var cache := s.skipped + Gap(s, m, got); Find(cache, s.dhr, s.nr + i) == |cache|
  {
    GapBounds(s, m, got);
    BeforeMiss(s, k, i, Gap(s, m, got));
  }

  lemma SkipAhead(s: State, k: nat, m: nat, got: set<nat>, i: nat)
    requires Fits(s, k) && m <= i < k && s.nr + k < U32_LIMIT
    requires forall g :: g in got ==> g < m
    ensures SkipTo(After(s, m, got), s.nr + i) == Some(After(s, i, got))
  {
    var t := After(s, m, got);
    GapBounds(s, m, got);
    if m < i {
      SkipLoopFits(t, s.nr + i);
      GapJump(s, m, i, got);
      AdvancePlus(s.recv, m, i - m);
      Regroup(s.skipped, Gap(s, m, got), Range(t.dhr, t.recv, t.nr, s.nr + i));
    }
  }

  lemma ReceiveAhead(s: State, k: nat, m: nat, got: set<nat>, i: nat, pn: u32, plain: seq<byte>)
    requires Fits(s, k) && m <= i < k && s.nr + k < U32_LIMIT
    requires forall g :: g in got ==> g < m
    ensures Receive(After(s, m, got), ChainPacket(s, i, pn, plain)) == (After(s, i + 1, got + {i}), Ok(plain))
  {
    SkipAhead(s, k, m, got, i);
    GapIgnores(s, i, got, i);
    assert Gap(s, i + 1, got + {i}) == Gap(s, i, got);
  }

  lemma DeliverOne(s: State, k: nat, m: nat, got: set<nat>, i: nat, pn: u32, plain: seq<byte>, drawn: DhKey)
    requires Fits(s, k) && m <= k && i < k && s.nr + k < U32_LIMIT && i !in got
    requires forall g :: g in got ==> g < m
    ensures ChainExists(After(s, m, got), ChainPacket(s, i, pn, plain).header)
    ensures DecryptPacket(After(s, m, got), ChainPacket(s, i, pn, plain), drawn)
         == (After(s, if i < m then m else i + 1, got + {i}), Ok(plain))
  {
    hide SkipTo, Receive, Gap, Advance, NoLeftover;
    if i < m {
      FindPassed(s, k, m, got, i);
    } else {
      FindAhead(s, k, m, got, i);
      ReceiveAhead(s, k, m, got, i, pn, plain);
    }
  }

  // ---- The whole batch ----

  ghost function Expected(plains: seq<seq<byte>>, order: seq<nat>): seq<Result<seq<byte>>>
    requires forall j :: 0 <= j < |order| ==> order[j] < |plains|
  {
    seq(|order|, j requires 0 <= j < |order| => Ok(plains[order[j]]))
  }

  lemma ExpectedCons(plains: seq<seq<byte>>, order: seq<nat>)
    requires order != [] && forall j :: 0 <= j < |order| ==> order[j] < |plains|
    ensures Expected(plains, order) == [Ok(plains[order[0]])] + Expected(plains, order[1..])
  {
  }

  /** The indices still to be delivered: in the batch, distinct, and none delivered yet. */
  ghost predicate Remaining(order: seq<nat>, k: nat, got: set<nat>) {
    && (forall j :: 0 <= j < |order| ==> order[j] < k && order[j] !in got)
    && (forall i, j :: 0 <= i < j < |order| ==> order[i] != order[j])
  }

  lemma RemainingTail(order: seq<nat>, k: nat, got: set<nat>)
    requires order != [] && Remaining(order, k, got)
    ensures Remaining(order[1..], k, got + {order[0]})
    ensures got + {order[0]} + Elements(order[1..]) == got + Elements(order)
  {
  }

  /** One past the furthest index reached. */
  function Reach(m: nat, order: seq<nat>): nat
    decreases |order|
  {
    if order == [] then m else Reach(if order[0] < m then m else order[0] + 1, order[1..])
  }

  lemma {:induction false} ReachBounds(m: nat, order: seq<nat>, k: nat)
    requires m <= k && forall j :: 0 <= j < |order| ==> order[j] < k
    ensures m <= Reach(m, order) <= k
    ensures forall i :: i in order ==> i < Reach(m, order)
    decreases |order|
  {
    if order != [] {
      ReachBounds(if order[0] < m then m else order[0] + 1, order[1..], k);
      assert forall i :: i in order ==> i == order[0] || i in order[1..];
    }
  }

  lemma DeliverHead(s: State, batch: seq<Packet>, plains: seq<seq<byte>>, m: nat, got: set<nat>,
                    order: seq<nat>, drawn: DhKey)
    requires IsBatch(s, batch, plains) && Fits(s, |batch|) && m <= |batch|
    requires forall g :: g in got ==> g < m
    requires order != [] && Remaining(order, |batch|, got)
    ensures var t := After(s, if order[0] < m then m else order[0] + 1, got + {order[0]});
            var (u, rs) := DeliverAll(t, batch, order[1..], drawn);
            DeliverAll(After(s, m, got), batch, order, drawn) == (u, [Ok(plains[order[0]])] + rs)
  {
    hide DecryptPacket, Gap, Cached;
    var i := order[0];
    DeliverOne(s, |batch|, m, got, i, batch[i].header.pn, plains[i], drawn);
    var t := After(s, if i < m then m else i + 1, got + {i});
  }

  lemma {:induction false} DeliverRest(s: State, batch: seq<Packet>, plains: seq<seq<byte>>, m: nat, got: set<nat>,
                                       order: seq<nat>, drawn: DhKey)
    requires IsBatch(s, batch, plains) && Fits(s, |batch|) && m <= |batch|
    requires forall g :: g in got ==> g < m
    requires Remaining(order, |batch|, got)
    ensures Reach(m, order) <= |batch|
    ensures DeliverAll(After(s, m, got), batch, order, drawn)
         == (After(s, Reach(m, order), got + Elements(order)), Expected(plains, order))
    decreases |order|
  {
    hide DecryptPacket, After, Fits;
    if order == [] {
      assert got + Elements(order) == got;
      assert Expected(plains, order) == [];
    } else {
      var i := order[0];
      var m1 := if i < m then m else i + 1;
      RemainingTail(order, |batch|, got);
      DeliverHead(s, batch, plains, m, got, order, drawn);
      DeliverRest(s, batch, plains, m1, got + {i}, order[1..], drawn);
      ExpectedCons(plains, order);
    }
  }

  /** Every order of delivery yields each message's own plaintext and leaves one and the
      same session: the chain advanced past the batch and the cache as it was. */
  lemma OrderIndependence(s: State, batch: seq<Packet>, plains: seq<seq<byte>>, order: seq<nat>, drawn: DhKey)
    requires IsBatch(s, batch, plains) && Fits(s, |batch|) && Permutation(order, |batch|)
    ensures DeliverAll(s, batch, order, drawn).0
         == s.(nr := s.nr + |batch|, recv := Advance(s.recv, |batch|))
    ensures DeliverAll(s, batch, order, drawn).1
         == Expected(plains, order)
  {
    assert After(s, 0, {}) == s by { assert s.skipped + [] == s.skipped; }
    DeliverRest(s, batch, plains, 0, {}, order, drawn);
    ReachBounds(0, order, |batch|);
    var m := Reach(0, order);
    assert m == |batch| by {
      if |batch| != 0 { assert |batch| - 1 in order; }
    }
    GapEmpty(s, m, {} + Elements(order));
    assert s.skipped + [] == s.skipped;
  }

  /** In every reachable state of an honest conversation, a batch of the current receive
      chain that fits beside the cache may be delivered in any order. */
  lemma HonestOrderIndependence(y: TwoParty.System, ad: Identities, sk: Secret, a: DhKey, b: DhKey,
                                steps: seq<TwoParty.Step>, x: TwoParty.Side,
                                batch: seq<Packet>, plains: seq<seq<byte>>, order: seq<nat>, drawn: DhKey)
    requires TwoParty.Start(y, ad, sk, a, b) && TwoParty.AllAllowed(y, steps)
    requires var s := TwoParty.Party(TwoParty.FinalSystem(y, steps), x);
             && s.hasDhr && s.hasRecv && |s.skipped| + |batch| <= MAX_SKIPPED_KEYS
             && IsBatch(s, batch, plains) && Permutation(order, |batch|)
    ensures var s := TwoParty.Party(TwoParty.FinalSystem(y, steps), x);
            DeliverAll(s, batch, order, drawn) ==
            (s.(nr := s.nr + |batch|, recv := Advance(s.recv, |batch|)), Expected(plains, order))
  {
    TwoParty.CachesBehind(y, ad, sk, a, b, steps, x);
    OrderIndependence(TwoParty.Party(TwoParty.FinalSystem(y, steps), x), batch, plains, order, drawn);
  }

  // ---- The exact condition ----

  lemma {:induction false} AdvanceAge(c: Secret, n: nat)
    ensures RatchetSafety.Generation(Advance(c, n)) == RatchetSafety.Generation(c)
    ensures Turn(Advance(c, n)) == Turn(c) + n
  {
    if n != 0 { AdvanceAge(c, n - 1); }
  }

  /** Over any traffic a remote key can come back with another chain while keys of its first
      chain are still cached.  Such a leftover is what the message at its index is tried with:
      the message is refused, and the leftover is used up. */
  lemma LeftoverKeyRefuses(s0: State, ops: seq<RatchetSafety.Op>, i: nat, pn: u32, plain: seq<byte>, drawn: DhKey)
    requires RatchetSafety.New(s0) && RatchetSafety.Runs(s0, ops)
    requires var s := RatchetSafety.Final(s0, ops);
             s.hasDhr && s.hasRecv && s.nr + i < U32_LIMIT && Find(s.skipped, s.dhr, s.nr + i) < |s.skipped|
    ensures var s := RatchetSafety.Final(s0, ops);
            DecryptPacket(s, ChainPacket(s, i, pn, plain), drawn) ==
            (s.(skipped := Without(s.skipped, Find(s.skipped, s.dhr, s.nr + i))), Err(CryptoFailure))
  {
    hide RatchetSafety.Runs, RatchetSafety.Final, RatchetSafety.Trace, Advance;
    var s := RatchetSafety.Final(s0, ops);
    RatchetSafety.TraceRecv(s0, ops, {});
    hide RatchetSafety.RecvInv;
    var used :| RatchetSafety.RecvInv(s, used);
    OlderKeyRefuses(s, used, Find(s.skipped, s.dhr, s.nr + i), i);
  }

  lemma OlderKeyRefuses(s: State, used: set<Secret>, k: nat, i: nat)
    requires RatchetSafety.RecvInv(s, used) && k < |s.skipped|
    ensures s.skipped[k].key != MessageOf(Advance(s.recv, i))
  {
    hide Advance;
    AdvanceAge(s.recv, i);
    assert RatchetSafety.OlderKey(s.skipped[k].key, s.recv);
  }

  /** This order of delivery yields each message's plaintext and leaves the chain advanced
      past the batch and the cache as it was. */
  ghost predicate Delivers(s: State, batch: seq<Packet>, plains: seq<seq<byte>>, order: seq<nat>, drawn: DhKey)
    requires IsBatch(s, batch, plains) && s.hasRecv && Permutation(order, |batch|)
  {
    DeliverAll(s, batch, order, drawn)
    == (s.(nr := s.nr + |batch|, recv := Advance(s.recv, |batch|)), Expected(plains, order))
  }

  ghost predicate AnyOrder(s: State, batch: seq<Packet>, plains: seq<seq<byte>>, drawn: DhKey)
    requires IsBatch(s, batch, plains) && s.hasRecv
  {
    forall order :: Permutation(order, |batch|) ==> Delivers(s, batch, plains, order, drawn)
  }

  /** The order that exchanges the first message and message `i`. */
  function Swapped(i: nat, k: nat): seq<nat>
    requires i < k
  {
    seq(k, j requires 0 <= j < k => if j == 0 then i else if j == i then 0 else j)
  }

  lemma SwappedPermutes(i: nat, k: nat)
    requires i < k
    ensures Permutation(Swapped(i, k), k) && |Swapped(i, k)| == k && Swapped(i, k)[0] == i
  {
    var order := Swapped(i, k);
    forall m: nat | m < k ensures m in order {
      assert order[if m == i then 0 else if m == 0 then i else m] == m;
    }
  }

  lemma FirstRefused(s: State, batch: seq<Packet>, plains: seq<seq<byte>>, order: seq<nat>, drawn: DhKey)
    requires IsBatch(s, batch, plains) && s.hasRecv && order != [] && Permutation(order, |batch|)
    requires DecryptPacket(s, batch[order[0]], drawn).1.Err?
    ensures !Delivers(s, batch, plains, order, drawn)
  {
    hide DecryptPacket;
    assert DeliverAll(s, batch, order, drawn).1[0] == DecryptPacket(s, batch[order[0]], drawn).1;
    assert Expected(plains, order)[0].Ok?;
  }

  /** Order independence, exactly: in every state that any traffic can lead to, a batch that
      fits beside the cache may be delivered in any order if and only if none of its
      messages has a key cached under its coordinates already. */
  lemma OrderIndependentExactly(s0: State, ops: seq<RatchetSafety.Op>, batch: seq<Packet>, plains: seq<seq<byte>>, drawn: DhKey)
    requires RatchetSafety.New(s0) && RatchetSafety.Runs(s0, ops)
    requires var s := RatchetSafety.Final(s0, ops);
             && s.hasDhr && s.hasRecv && IsBatch(s, batch, plains)
             && |s.skipped| + |batch| <= MAX_SKIPPED_KEYS
    ensures var s := RatchetSafety.Final(s0, ops);
            AnyOrder(s, batch, plains, drawn) <==> NoLeftover(s, |batch|)
  {
    hide DeliverAll, Expected, Advance, Swapped;
    var s := RatchetSafety.Final(s0, ops);
    if NoLeftover(s, |batch|) {
      forall order | Permutation(order, |batch|) ensures Delivers(s, batch, plains, order, drawn) {
        OrderIndependence(s, batch, plains, order, drawn);
      }
    } else {
      var j :| 0 <= j < |s.skipped| && s.skipped[j].dh == s.dhr && s.nr <= s.skipped[j].n < s.nr + |batch|;
      var i := s.skipped[j].n - s.nr;
      assert Find(s.skipped, s.dhr, s.nr + i) < |s.skipped|;
      LeftoverKeyRefuses(s0, ops, i, batch[i].header.pn, plains[i], drawn);
      SwappedPermutes(i, |batch|);
      FirstRefused(s, batch, plains, Swapped(i, |batch|), drawn);
    }
  }

  /** Three packets that no session ever sealed, announcing `b`, then `c`, then `b` again too
      far ahead. */
  function Intruder(b: DhKey, c: DhKey, drawn: DhKey): seq<RatchetSafety.Op> {
    [RatchetSafety.Deliver(Arrived(Packet(Header(0, 1, b), Noise(0))), drawn),
     RatchetSafety.Deliver(Arrived(Packet(Header(0, 0, c), Noise(0))), drawn),
     RatchetSafety.Deliver(Arrived(Packet(Header(0, 1001, b), Noise(0))), drawn)]
  }

  function AfterFirst(s: State, b: DhKey, drawn: DhKey): State { SkipOne(DhStep(s, b, drawn)) }

  lemma IntruderFirst(s: State, b: DhKey, drawn: DhKey)
    requires !s.hasDhr && !s.hasRecv && s.skipped == []
    ensures RatchetSafety.Enabled(s, Intruder(b, b, drawn)[0])
    ensures RatchetSafety.Apply(s, Intruder(b, b, drawn)[0]).0 == AfterFirst(s, b, drawn)
  {
    var t := DhStep(s, b, drawn);
    assert SkipLoop(t, 1) == SkipOne(t);
  }

  lemma IntruderRest(s: State, b: DhKey, c: DhKey, drawn: DhKey)
    requires b != c && s.hasDhr && s.hasRecv && s.dhr == b && |s.skipped| == 1 && s.skipped[0].dh == b && s.skipped[0].n == 0
    ensures var s2 := DhStep(s, c, drawn);
            && RatchetSafety.Enabled(s, Intruder(b, c, drawn)[1])
            && RatchetSafety.Apply(s, Intruder(b, c, drawn)[1]).0 == s2
            && RatchetSafety.Enabled(s2, Intruder(b, c, drawn)[2])
            && RatchetSafety.Apply(s2, Intruder(b, c, drawn)[2]).0 == DhStep(s2, b, drawn)
  {
    hide Dh;
  }

  /** The condition does fail in reachable states: from any new responder, three packets of
      noise leave a key cached under the coordinates of the next message, which is then
      refused although its sender sealed it properly. */
  lemma LeftoverReachable(ad: Identities, sk: Secret, mine: DhKey, b: DhKey, c: DhKey, drawn: DhKey, plain: seq<byte>)
    requires b != c
    ensures RatchetSafety.Runs(Responder(ad, sk, mine), Intruder(b, c, drawn))
    ensures var s := RatchetSafety.Final(Responder(ad, sk, mine), Intruder(b, c, drawn));
            && s.hasDhr && s.hasRecv && s.dhr == b && s.nr == 0 && |s.skipped| == 1
            && !NoLeftover(s, 1)
            && DecryptPacket(s, ChainPacket(s, 0, 0, plain), drawn).1 == Err(CryptoFailure)
  {
    hide DecryptPacket, DhStep, ChainPacket, Find;
    var s0, ops := Responder(ad, sk, mine), Intruder(b, c, drawn);
    var s1 := AfterFirst(s0, b, drawn);
    IntruderFirst(s0, b, drawn);
    IntruderStates(s0, b, c, drawn);
    IntruderRest(s1, b, c, drawn);
    var s2 := DhStep(s1, c, drawn);
    var s3 := DhStep(s2, b, drawn);
    RunThree(s0, ops, s1, s2, s3);
    LeftoverKeyRefuses(s0, ops, 0, 0, plain, drawn);
  }

  lemma IntruderStates(s: State, b: DhKey, c: DhKey, drawn: DhKey)
    requires s.skipped == []
    ensures var u := AfterFirst(s, b, drawn);
            var t := DhStep(DhStep(u, c, drawn), b, drawn);
            t.hasDhr && t.hasRecv && t.dhr == b && t.nr == 0 && t.skipped == u.skipped
    ensures var t := AfterFirst(s, b, drawn);
            t.hasDhr && t.hasRecv && t.dhr == b && |t.skipped| == 1 && t.skipped[0].dh == b && t.skipped[0].n == 0
  {
  }

  lemma RunThree(s0: State, ops: seq<RatchetSafety.Op>, s1: State, s2: State, s3: State)
    requires |ops| == 3
    requires RatchetSafety.Enabled(s0, ops[0]) && RatchetSafety.Apply(s0, ops[0]).0 == s1
    requires RatchetSafety.Enabled(s1, ops[1]) && RatchetSafety.Apply(s1, ops[1]).0 == s2
    requires RatchetSafety.Enabled(s2, ops[2]) && RatchetSafety.Apply(s2, ops[2]).0 == s3
    ensures RatchetSafety.Runs(s0, ops) && RatchetSafety.Final(s0, ops) == s3
  {
    hide RatchetSafety.Apply, RatchetSafety.Enabled;
    var tail, last := ops[1..], ops[2..];
    assert tail[0] == ops[1] && tail[1..] == last && last[0] == ops[2] && last[1..] == [];
    assert RatchetSafety.Runs(s3, []) && RatchetSafety.Runs(s2, last) && RatchetSafety.Runs(s1, tail);
    assert RatchetSafety.Final(s3, []) == s3 == RatchetSafety.Final(s2, last) == RatchetSafety.Final(s1, tail);
  }
}
