/**
 Two sessions and a network.  The network may reorder, delay and drop packets; it hands
 each packet over at most once.  Every packet handed over opens to its own plaintext.

 The invariant numbers the sending chains of the conversation 0, 1, 2, ...: even ones
 belong to the initiator, odd ones to the responder.  One side is always exactly one
 chain ahead of the other.
 */
module TwoParty {
  import opened Symbolic
  import opened Ratchet
  import RatchetSafety

  datatype Side = Alice | Bob

  function Other(x: Side): Side { if x.Alice? then Bob else Alice }

  datatype Sent = Sent(from: Side, packet: Packet, plain: seq<byte>)

  /** Both sessions, everything ever sent, what was handed over, and the keys drawn so far. */
  datatype System = System(alice: State, bob: State, wire: seq<Sent>, got: set<nat>, drawn: set<DhKey>)

  function Party(y: System, x: Side): State { if x.Alice? then y.alice else y.bob }

  function WithParty(y: System, x: Side, s: State): System {
    if x.Alice? then y.(alice := s) else y.(bob := s)
  }

  datatype Step = Send(who: Side, plain: seq<byte>) | Deliver(k: nat, key: DhKey)

  /** How many keys handling the header would set aside. */
  function Passing(s: State, h: Header): nat {
    if Cached(s, h) then 0
    else if Turns(s, h) then (if s.hasRecv && s.nr < h.pn then h.pn - s.nr else 0) + h.n
    else if s.nr < h.n then h.n - s.nr else 0
  }

  /** A side encrypts while its 32-bit counter lasts.  A packet is handed over at most once,
      a newly drawn key is new, and no more than 1000 skipped keys are ever outstanding. */
  predicate Allowed(y: System, step: Step) {
    match step
    case Send(who, _) => Party(y, who).ns + 1 < U32_LIMIT
    case Deliver(k, key) =>
      && k < |y.wire| && k !in y.got
      && key.Random? && key !in y.drawn
      && var s := Party(y, Other(y.wire[k].from));
         |s.skipped| + Passing(s, y.wire[k].packet.header) <= MAX_SKIPPED_KEYS
  }

  /** What the recipient makes of packet `k`.  Without a receive chain the source has no
      defined behaviour; the theorem shows that this does not arise. */
  function Handled(y: System, k: nat, key: DhKey): (State, Result<seq<byte>>)
    requires k < |y.wire|
  {
    var s := Party(y, Other(y.wire[k].from));
    if ChainExists(s, y.wire[k].packet.header) then DecryptPacket(s, y.wire[k].packet, key)
    else (s, Err(CryptoFailure))
  }

  function Next(y: System, step: Step): System
    requires Allowed(y, step)
  {
    match step
    case Send(who, plain) =>
      var (s, r) := Encrypt(Party(y, who), plain);
      if r.Ok? then WithParty(y, who, s).(wire := y.wire + [Sent(who, r.value, plain)]) else y
    case Deliver(k, key) =>
      WithParty(y, Other(y.wire[k].from), Handled(y, k, key).0).(got := y.got + {k}, drawn := y.drawn + {key})
  }

  ghost predicate AllAllowed(y: System, steps: seq<Step>)
    decreases |steps|
  {
    steps == [] || (Allowed(y, steps[0]) && AllAllowed(Next(y, steps[0]), steps[1..]))
  }

  /** Every packet the run hands over opens to the plaintext it was sealed with. */
  ghost predicate AllOpen(y: System, steps: seq<Step>)
    requires AllAllowed(y, steps)
    decreases |steps|
  {
    steps == [] || (
      && (steps[0].Deliver? ==> Handled(y, steps[0].k, steps[0].key).1 == Ok(y.wire[steps[0].k].plain))
      && AllOpen(Next(y, steps[0]), steps[1..]))
  }

  /** A matching start: one session key, and the responder's pair known to the initiator. */
  ghost predicate Start(y: System, ad: Identities, sk: Secret, a: DhKey, b: DhKey) {
    && a.Random? && b.Random? && a != b
    && y == System(Initiator(ad, sk, a, b), Responder(ad, sk, b), [], {}, {a, b})
  }

  // ---- The conversation so far ----

  /** Message number `i` of chain number `chain`. */
  datatype Coord = Coord(chain: nat, i: nat)

  /** Chain `e` is sealed by the owner of `keys[e + 1]` towards the owner of `keys[e]`; it
      starts at `chains[e]` and has carried `texts[e]`.  `at` places every packet of the
      wire. */
  datatype Hist = Hist(
    ad: Identities, keys: seq<DhKey>, roots: seq<Secret>, chains: seq<Secret>,
    texts: seq<seq<seq<byte>>>, at: seq<Coord>)

  /** The messages whose keys the two caches hold. */
  datatype Held = Held(alice: seq<Coord>, bob: seq<Coord>)

  ghost predicate Sized(h: Hist) {
    |h.texts| == |h.chains| && |h.keys| == |h.roots| == |h.chains| + 1
  }

  ghost predicate GoodHist(h: Hist) {
    && Sized(h) && |h.chains| >= 1
    && (forall e :: 0 <= e < |h.keys| ==> h.keys[e].Random?)
    && (forall e, f :: 0 <= e < f < |h.keys| ==> h.keys[e] != h.keys[f])
    && (forall e :: 0 <= e < |h.chains| ==>
          && h.chains[e] == ChainOf(h.roots[e], Dh(h.keys[e + 1], h.keys[e]))
          && h.roots[e + 1] == RootOf(h.roots[e], Dh(h.keys[e + 1], h.keys[e])))
    && (forall e :: 0 <= e < |h.texts| ==> |h.texts[e]| < U32_LIMIT)
  }

  ghost predicate Placed(h: Hist, c: Coord) {
    c.chain < |h.chains| && c.chain < |h.texts| && c.chain + 1 < |h.keys| &&
    c.i < |h.texts[c.chain]| < U32_LIMIT
  }

  ghost function KeyAt(h: Hist, c: Coord): Secret
    requires c.chain < |h.chains|
  {
    MessageOf(Advance(h.chains[c.chain], c.i))
  }

  ghost function EntryAt(h: Hist, c: Coord): Skipped
    requires Placed(h, c)
  {
    Skipped(h.keys[c.chain + 1], c.i, KeyAt(h, c))
  }

  /** The final length of the previous chain of the owner of chain `e`. */
  ghost function PreviousLength(h: Hist, e: int): nat
    requires e < |h.texts| + 2
  {
    if e >= 2 then |h.texts[e - 2]| else 0
  }

  ghost function PacketAt(h: Hist, c: Coord): Packet
    requires Placed(h, c) && PreviousLength(h, c.chain) < U32_LIMIT
  {
    var header := Header(PreviousLength(h, c.chain), c.i, h.keys[c.chain + 1]);
    Packet(header, Sealed(KeyAt(h, c), Bound(h.ad, header), h.texts[c.chain][c.i]))
  }

  // ---- One side ----

  /** Messages to the side sending on chain `e` that its receive chains have passed. */
  ghost predicate Passed(h: Hist, e: int, nr: nat, c: Coord) {
    && Placed(h, c) && c.chain < e && ChainOwner(c.chain) != ChainOwner(e)
    && (c.chain == e - 1 ==> c.i < nr)
  }

  /** `has` lists the passed messages that were not handed over, without repetition. */
  ghost predicate CacheInv(s: State, h: Hist, e: int, has: seq<Coord>, got: set<Coord>) {
    && |has| == |s.skipped|
    && (forall j :: 0 <= j < |has| ==> Passed(h, e, s.nr, has[j]) && s.skipped[j] == EntryAt(h, has[j]) && has[j] !in got)
    && Distinct(has)
    && (forall c :: Passed(h, e, s.nr, c) && c !in got ==> c in has)
  }

  /** The side sends on chain `e` (-1: none yet) and receives on chain `e - 1`. */
  ghost predicate ChainInv(s: State, h: Hist, e: int) {
    && Sized(h) && -1 <= e < |h.chains|
    && s.ad == h.ad && s.dhs == h.keys[e + 1] && s.root == h.roots[e + 1]
    && s.hasSend == s.hasDhr == (e >= 0)
    && s.hasRecv == (e >= 1)
    && (e < 0 ==> s.ns == 0)
    && (e >= 0 ==> s.dhr == h.keys[e] && s.ns == |h.texts[e]| && s.send == Advance(h.chains[e], s.ns))
    && (e >= 0 ==> s.pn == PreviousLength(h, e))
    && (e >= 1 ==> s.nr <= |h.texts[e - 1]| && s.recv == Advance(h.chains[e - 1], s.nr))
  }

  ghost predicate PartyInv(s: State, h: Hist, e: int, has: seq<Coord>, got: set<Coord>) {
    && ChainInv(s, h, e)
    && CacheInv(s, h, e, has, got)
    && (forall c :: c in got && c.chain < |h.chains| && ChainOwner(c.chain) != ChainOwner(e) ==> Passed(h, e, s.nr, c))
  }

  function Run(chain: nat, lo: nat, hi: nat): seq<Coord>
    requires lo <= hi
  {
    seq(hi - lo, j requires 0 <= j < hi - lo => Coord(chain, lo + j))
  }

  // ---- Skipping ahead on the receive chain ----

  lemma SkipState(s: State, h: Hist, e: int, until: u32)
    requires GoodHist(h) && ChainInv(s, h, e) && e >= 1 && s.nr <= until <= |h.texts[e - 1]|
    requires |s.skipped| + (until - s.nr) <= MAX_SKIPPED_KEYS
    ensures SkipTo(s, until) == Some(s.(nr := until, recv := Advance(h.chains[e - 1], until),
                                        skipped := s.skipped + Range(s.dhr, s.recv, s.nr, until)))
  {
    if s.nr < until {
      SkipLoopFits(s, until);
      AdvancePlus(h.chains[e - 1], s.nr, until - s.nr);
    } else {
      assert s.skipped + Range(s.dhr, s.recv, s.nr, until) == s.skipped;
    }
  }

  lemma RangeEntry(s: State, h: Hist, e: int, until: u32, j: nat)
    requires GoodHist(h) && ChainInv(s, h, e) && e >= 1 && s.nr <= until <= |h.texts[e - 1]| && j < until - s.nr
    ensures Passed(h, e, until, Run(e - 1, s.nr, until)[j])
    ensures Range(s.dhr, s.recv, s.nr, until)[j] == EntryAt(h, Run(e - 1, s.nr, until)[j])
  {
    AdvancePlus(h.chains[e - 1], s.nr, j);
  }

  lemma SkipListed(s: State, h: Hist, e: int, has: seq<Coord>, got: set<Coord>, until: u32)
    requires GoodHist(h) && PartyInv(s, h, e, has, got) && e >= 1 && s.nr <= until <= |h.texts[e - 1]|
    ensures Distinct(has + Run(e - 1, s.nr, until))
    ensures forall c :: Passed(h, e, until, c) && c !in got ==> c in has + Run(e - 1, s.nr, until)
  {
    var run := Run(e - 1, s.nr, until);
    forall c | Passed(h, e, until, c) && c !in got ensures c in has + run {
      if !Passed(h, e, s.nr, c) { assert c == run[c.i - s.nr]; }
    }
  }

  lemma SkipCache(s: State, h: Hist, e: int, has: seq<Coord>, got: set<Coord>, until: u32, s': State)
    requires GoodHist(h) && PartyInv(s, h, e, has, got) && e >= 1 && s.nr <= until <= |h.texts[e - 1]|
    requires s' == s.(nr := until, recv := s'.recv, skipped := s.skipped + Range(s.dhr, s.recv, s.nr, until))
    ensures CacheInv(s', h, e, has + Run(e - 1, s.nr, until), got)
  {
    hide GoodHist, Advance;
    var has' := has + Run(e - 1, s.nr, until);
    forall j | 0 <= j < |has'|
      ensures Passed(h, e, until, has'[j]) && s'.skipped[j] == EntryAt(h, has'[j]) && has'[j] !in got
    {
      if j >= |has| { RangeEntry(s, h, e, until, j - |has|); }
    }
    SkipListed(s, h, e, has, got, until);
  }

  lemma SkipParty(s: State, h: Hist, e: int, has: seq<Coord>, got: set<Coord>, until: u32)
    requires GoodHist(h) && PartyInv(s, h, e, has, got) && e >= 1 && s.nr <= until <= |h.texts[e - 1]|
    requires |s.skipped| + (until - s.nr) <= MAX_SKIPPED_KEYS
    ensures SkipTo(s, until).Some?
    ensures var s' := SkipTo(s, until).value;
            && PartyInv(s', h, e, has + Run(e - 1, s.nr, until), got)
            && s' == s.(nr := until, recv := s'.recv, skipped := s'.skipped)
            && |s'.skipped| == |s.skipped| + (until - s.nr)
  {
    SkipState(s, h, e, until);
    SkipCache(s, h, e, has, got, until, SkipTo(s, until).value);
  }

  // ---- The three ways a packet can arrive ----

  /** A message of the current receive chain that has not been passed yet. */
  lemma ReceiveParty(s: State, h: Hist, e: int, has: seq<Coord>, got: set<Coord>, i: nat)
      returns (has': seq<Coord>)
    requires GoodHist(h) && PartyInv(s, h, e, has, got) && e >= 1 && s.nr <= i < |h.texts[e - 1]|
    requires |s.skipped| + (i - s.nr) <= MAX_SKIPPED_KEYS
    requires PreviousLength(h, e - 1) < U32_LIMIT
    ensures var c := Coord(e - 1, i);
            var (s', r) := Receive(s, PacketAt(h, c));
            r == Ok(h.texts[e - 1][i]) && PartyInv(s', h, e, has', got + {c})
  {
    hide CacheInv, Passed;
    SkipParty(s, h, e, has, got, i);
    has' := has + Run(e - 1, s.nr, i);
    var t := SkipTo(s, i).value;
    var c := Coord(e - 1, i);
    var u := t.(recv := NextOf(t.recv), nr := t.nr + 1);
    assert Receive(s, PacketAt(h, c)) == (u, Ok(h.texts[e - 1][i]));
    ReadNext(t, u, h, e, has', got);
  }

  lemma ReadNext(t: State, u: State, h: Hist, e: int, has: seq<Coord>, got: set<Coord>)
    requires GoodHist(h) && PartyInv(t, h, e, has, got) && e >= 1 && t.nr < |h.texts[e - 1]|
    requires u == t.(recv := NextOf(t.recv), nr := t.nr + 1)
    ensures PartyInv(u, h, e, has, got + {Coord(e - 1, t.nr)})
  {
    var c := Coord(e - 1, t.nr);
    assert forall d :: Passed(h, e, u.nr, d) <==> Passed(h, e, t.nr, d) || d == c;
  }

  /** A message that was passed: its key is in the cache and nowhere else. */
  lemma TakeParty(s: State, h: Hist, e: int, has: seq<Coord>, got: set<Coord>, c: Coord, key: DhKey)
      returns (has': seq<Coord>)
    requires GoodHist(h) && PartyInv(s, h, e, has, got) && Passed(h, e, s.nr, c) && c !in got
    requires PreviousLength(h, c.chain) < U32_LIMIT
    ensures ChainExists(s, PacketAt(h, c).header)
    ensures var (s', r) := DecryptPacket(s, PacketAt(h, c), key);
            r == Ok(h.texts[c.chain][c.i]) && PartyInv(s', h, e, has', got + {c})
  {
    var at: nat :| at < |has| && has[at] == c;
    FindEntry(s, h, e, has, got, at);
    has' := has[..at] + has[at + 1..];
    TakeCache(s, h, e, has, got, at);
  }

  lemma FindEntry(s: State, h: Hist, e: int, has: seq<Coord>, got: set<Coord>, at: nat)
    requires GoodHist(h) && PartyInv(s, h, e, has, got) && at < |has|
    ensures Find(s.skipped, h.keys[has[at].chain + 1], has[at].i) == at
  {
    var c := has[at];
    var k := Find(s.skipped, h.keys[c.chain + 1], c.i);
    assert s.skipped[at] == EntryAt(h, c);
    assert k <= at;
    assert s.skipped[k] == EntryAt(h, has[k]);
    assert has[k] == c;
  }

  ghost predicate Distinct(has: seq<Coord>) {
    forall i, j :: 0 <= i < j < |has| ==> has[i] != has[j]
  }

  lemma TakeCache(s: State, h: Hist, e: int, has: seq<Coord>, got: set<Coord>, at: nat)
    requires PartyInv(s, h, e, has, got) && at < |has|
    ensures PartyInv(s.(skipped := Without(s.skipped, at)), h, e, has[..at] + has[at + 1..], got + {has[at]})
  {
    TakeEntries(s, h, e, has, got, at);
    hide CacheInv, Passed;
  }

  lemma TakeEntries(s: State, h: Hist, e: int, has: seq<Coord>, got: set<Coord>, at: nat)
    requires CacheInv(s, h, e, has, got) && at < |has|
    ensures CacheInv(s.(skipped := Without(s.skipped, at)), h, e, has[..at] + has[at + 1..], got + {has[at]})
  {
    hide Passed, EntryAt;
    var has', cache := has[..at] + has[at + 1..], Without(s.skipped, at);
    forall j | 0 <= j < |has'| ensures exists i :: 0 <= i < |has| && i != at && has'[j] == has[i] && cache[j] == s.skipped[i] {
      var i := if j < at then j else j + 1;
      assert has'[j] == has[i] && cache[j] == s.skipped[i];
    }
  }

  /** The history once the side sending on chain `e` has answered chain `e + 1`. */
  ghost function Turned(h: Hist, key: DhKey): Hist
    requires GoodHist(h)
  {
    var n := |h.chains|;
    var dh := Dh(key, h.keys[n]);
    h.(keys := h.keys + [key], roots := h.roots + [RootOf(h.roots[n], dh)],
       chains := h.chains + [ChainOf(h.roots[n], dh)], texts := h.texts + [[]])
  }

  lemma TurnedGood(h: Hist, key: DhKey)
    requires GoodHist(h) && key.Random? && key !in h.keys
    ensures GoodHist(Turned(h, key))
  {
  }

  /** Turning adds a chain and changes nothing about those that exist. */
  lemma TurnedKeeps(h: Hist, key: DhKey, s: State, e: int, has: seq<Coord>, got: set<Coord>)
    requires GoodHist(h) && PartyInv(s, h, e, has, got)
    requires forall c :: c in got ==> c.chain < |h.chains|
    ensures PartyInv(s, Turned(h, key), e, has, got)
  {
    var h' := Turned(h, key);
    assert forall c :: Passed(h, e, s.nr, c) <==> Passed(h', e, s.nr, c);
    assert forall c :: Placed(h, c) ==> EntryAt(h, c) == EntryAt(h', c);
  }

  lemma StepChains(s: State, h: Hist, e: int, key: DhKey)
    requires GoodHist(h) && ChainInv(s, h, e) && |h.chains| == e + 2
    ensures ChainInv(DhStep(s, h.keys[e + 2], key), Turned(h, key), e + 2)
  {
    assert Dh(s.dhs, h.keys[e + 2]) == Dh(h.keys[e + 2], h.keys[e + 1]);
    hide Dh, Advance;
  }

  /** A DH step closes a receive chain that has been passed entirely. */
  lemma StepParty(s: State, h: Hist, e: int, has: seq<Coord>, got: set<Coord>, key: DhKey)
    requires GoodHist(h) && PartyInv(s, h, e, has, got) && |h.chains| == e + 2
    requires e >= 1 ==> s.nr == |h.texts[e - 1]|
    requires forall c :: c in got ==> Placed(h, c)
    ensures PartyInv(DhStep(s, h.keys[e + 2], key), Turned(h, key), e + 2, has, got)
  {
    hide GoodHist, ChainInv;
    var h' := Turned(h, key);
    StepChains(s, h, e, key);
    StepPassed(s, h, e, key);
    forall j | 0 <= j < |has| ensures EntryAt(h, has[j]) == EntryAt(h', has[j]) {
    }
  }

  lemma StepPassed(s: State, h: Hist, e: int, key: DhKey)
    requires GoodHist(h) && |h.chains| == e + 2 && (e >= 1 ==> s.nr == |h.texts[e - 1]|)
    ensures forall c :: Passed(h, e, s.nr, c) <==> Passed(Turned(h, key), e + 2, 0, c)
  {
    assert ChainOwner(e) == ChainOwner(e + 2);
  }

  lemma NotCached(s: State, h: Hist, e: int, has: seq<Coord>, got: set<Coord>, f: nat, i: nat)
    requires GoodHist(h) && PartyInv(s, h, e, has, got) && f < |h.chains| && i < U32_LIMIT
    requires f == e + 1 || (f == e - 1 && s.nr <= i)
    ensures Find(s.skipped, h.keys[f + 1], i) == |s.skipped|
  {
    forall j | 0 <= j < |s.skipped| ensures !(s.skipped[j].dh == h.keys[f + 1] && s.skipped[j].n == i) {
      assert s.skipped[j] == EntryAt(h, has[j]);
      assert has[j].chain != f ==> h.keys[has[j].chain + 1] != h.keys[f + 1];
    }
  }

  /** The announced length of the closing chain lets every unread key of it be kept. */
  lemma CloseParty(s: State, h: Hist, e: int, has: seq<Coord>, got: set<Coord>) returns (has': seq<Coord>)
    requires GoodHist(h) && PartyInv(s, h, e, has, got) && |h.chains| == e + 2
    requires e >= 1 ==> |s.skipped| + (|h.texts[e - 1]| - s.nr) <= MAX_SKIPPED_KEYS
    ensures SkipTo(s, PreviousLength(h, e + 1)).Some?
    ensures var t := SkipTo(s, PreviousLength(h, e + 1)).value;
            && PartyInv(t, h, e, has', got)
            && (e >= 1 ==> t.nr == |h.texts[e - 1]| && |t.skipped| == |s.skipped| + (t.nr - s.nr))
            && (e < 1 ==> t == s)
  {
    has' := has;
    if e >= 1 {
      SkipParty(s, h, e, has, got, |h.texts[e - 1]|);
      has' := has + Run(e - 1, s.nr, |h.texts[e - 1]|);
    }
  }

  /** The first message to arrive of a chain the recipient has not opened yet. */
  lemma TurnParty(s: State, h: Hist, e: int, has: seq<Coord>, got: set<Coord>, i: nat, key: DhKey)
      returns (has': seq<Coord>)
    requires GoodHist(h) && PartyInv(s, h, e, has, got) && |h.chains| == e + 2 && i < |h.texts[e + 1]|
    requires forall c :: c in got ==> Placed(h, c)
    requires key.Random? && key !in h.keys
    requires |s.skipped| + Passing(s, PacketAt(h, Coord(e + 1, i)).header) <= MAX_SKIPPED_KEYS
    ensures var c := Coord(e + 1, i);
            && ChainExists(s, PacketAt(h, c).header)
            && var (s', r) := DecryptPacket(s, PacketAt(h, c), key);
               r == Ok(h.texts[e + 1][i]) && PartyInv(s', Turned(h, key), e + 2, has', got + {c})
  {
    hide CacheInv, Passed, DecryptPacket, Receive, Advance, Find, Dh;
    var c := Coord(e + 1, i);
    var p := PacketAt(h, c);
    NotCached(s, h, e, has, got, e + 1, i);
    var has1 := CloseParty(s, h, e, has, got);
    var s1 := SkipTo(s, PreviousLength(h, e + 1)).value;
    StepParty(s1, h, e, has1, got, key);
    var h' := Turned(h, key);
    TurnedGood(h, key);
    assert PacketAt(h', c) == p;
    has' := ReceiveParty(DhStep(s1, h.keys[e + 2], key), h', e + 2, has1, got, i);
    DecryptUncached(s, p, key);
  }

  lemma DecryptUncached(s: State, p: Packet, key: DhKey)
    requires !Cached(s, p.header) && (s.hasRecv ==> s.hasDhr)
    requires if Turns(s, p.header) then SkipTo(s, p.header.pn).Some? else s.hasRecv && s.nr <= p.header.n
    ensures ChainExists(s, p.header)
    ensures DecryptPacket(s, p, key) ==
            Receive(if Turns(s, p.header) then DhStep(SkipTo(s, p.header.pn).value, p.header.dh, key) else s, p)
  {
  }

  // ---- The whole system ----

  function ChainOwner(e: int): Side { if e % 2 == 0 then Alice else Bob }

  /** The chain a side sends on when `n` chains exist: the last or the last but one. */
  function EpochOf(x: Side, n: nat): (e: int)
    ensures ChainOwner(e) == x
  {
    if ChainOwner(n - 1).Alice? == x.Alice? then n - 1 else n - 2
  }

  ghost function GotAt(h: Hist, got: set<nat>): set<Coord> {
    set k | k in got && k < |h.at| :: h.at[k]
  }

  ghost predicate WireInv(y: System, h: Hist) {
    && |h.at| == |y.wire|
    && Distinct(h.at)
    && (forall k :: k in y.got ==> k < |y.wire|)
    && (forall k :: 0 <= k < |h.at| ==> OnWire(h, h.at[k], y.wire[k]))
    && (forall c :: Placed(h, c) ==> c in h.at)
  }

  ghost predicate OnWire(h: Hist, c: Coord, m: Sent) {
    && Placed(h, c) && PreviousLength(h, c.chain) < U32_LIMIT
    && m == Sent(ChainOwner(c.chain), PacketAt(h, c), h.texts[c.chain][c.i])
  }

  function Has(f: Held, x: Side): seq<Coord> { if x.Alice? then f.alice else f.bob }

  function WithHas(f: Held, x: Side, has: seq<Coord>): Held {
    if x.Alice? then f.(alice := has) else f.(bob := has)
  }

  ghost predicate SideInv(s: State, h: Hist, x: Side, has: seq<Coord>, got: set<Coord>) {
    PartyInv(s, h, EpochOf(x, |h.chains|), has, got)
  }

  ghost predicate HistInv(y: System, h: Hist) {
    && GoodHist(h)
    && WireInv(y, h)
    && (forall e :: 0 <= e < |h.keys| ==> h.keys[e] in y.drawn)
  }

  ghost predicate Inv(y: System, h: Hist, f: Held) {
    && HistInv(y, h)
    && SideInv(y.alice, h, Alice, f.alice, GotAt(h, y.got))
    && SideInv(y.bob, h, Bob, f.bob, GotAt(h, y.got))
  }

  lemma SidesInv(y: System, h: Hist, f: Held, x: Side)
    requires HistInv(y, h)
    requires SideInv(Party(y, x), h, x, Has(f, x), GotAt(h, y.got))
    requires SideInv(Party(y, Other(x)), h, Other(x), Has(f, Other(x)), GotAt(h, y.got))
    ensures Inv(y, h, f)
  {
  }

  lemma StartInv(y: System, ad: Identities, sk: Secret, a: DhKey, b: DhKey) returns (h: Hist)
    requires Start(y, ad, sk, a, b)
    ensures Inv(y, h, Held([], []))
  {
    var dh := Dh(a, b);
    h := Hist(ad, [b, a], [sk, RootOf(sk, dh)], [ChainOf(sk, dh)], [[]], []);
    assert GoodHist(h);
  }

  // -- Sending --

  ghost function Extended(h: Hist, e: nat, plain: seq<byte>): Hist
    requires e < |h.texts|
  {
    h.(texts := h.texts[e := h.texts[e] + [plain]], at := h.at + [Coord(e, |h.texts[e]|)])
  }

  lemma ExtendedKeeps(h: Hist, e: nat, plain: seq<byte>, c: Coord)
    requires GoodHist(h) && |h.chains| <= e + 2 && e < |h.chains| && |h.texts[e]| + 1 < U32_LIMIT && Placed(h, c)
    ensures GoodHist(Extended(h, e, plain)) && Placed(Extended(h, e, plain), c)
    ensures PacketAt(Extended(h, e, plain), c) == PacketAt(h, c)
    ensures EntryAt(Extended(h, e, plain), c) == EntryAt(h, c)
    ensures Extended(h, e, plain).texts[c.chain][c.i] == h.texts[c.chain][c.i]
  {
  }

  /** The recipient of the extended chain. */
  lemma ExtendedOther(h: Hist, e: nat, plain: seq<byte>, s: State, o: int, has: seq<Coord>, got: set<Coord>)
    requires GoodHist(h) && |h.chains| <= e + 2 && e < |h.chains| && |h.texts[e]| + 1 < U32_LIMIT
    requires o == e + 1 || o == e - 1
    requires PartyInv(s, h, o, has, got)
    ensures PartyInv(s, Extended(h, e, plain), o, has, got)
  {
    var h' := Extended(h, e, plain);
    assert forall c :: Passed(h, o, s.nr, c) <==> Passed(h', o, s.nr, c);
    assert forall c :: Placed(h, c) ==> EntryAt(h, c) == EntryAt(h', c);
  }

  lemma ExtendedSender(h: Hist, e: nat, plain: seq<byte>, s: State, has: seq<Coord>, got: set<Coord>)
    requires GoodHist(h) && |h.chains| <= e + 2 && e < |h.chains| && |h.texts[e]| + 1 < U32_LIMIT
    requires PartyInv(s, h, e, has, got)
    ensures Encrypt(s, plain).1 == Ok(PacketAt(Extended(h, e, plain), Coord(e, |h.texts[e]|)))
    ensures PartyInv(Encrypt(s, plain).0, Extended(h, e, plain), e, has, got)
  {
    var h' := Extended(h, e, plain);
    assert ChainInv(Encrypt(s, plain).0, h', e);
    assert forall c :: Passed(h, e, s.nr, c) <==> Passed(h', e, s.nr, c);
    assert forall c :: Placed(h, c) ==> EntryAt(h, c) == EntryAt(h', c);
  }

  lemma ExtendedLast(h: Hist, e: nat, plain: seq<byte>)
    requires GoodHist(h) && e < |h.chains| && |h.texts[e]| + 1 < U32_LIMIT
    ensures GoodHist(Extended(h, e, plain)) && Placed(Extended(h, e, plain), Coord(e, |h.texts[e]|))
    ensures Extended(h, e, plain).texts[e][|h.texts[e]|] == plain
  {
  }

  lemma ExtendedWire(y: System, y': System, h: Hist, e: nat, plain: seq<byte>)
    requires HistInv(y, h) && |h.chains| <= e + 2 && e < |h.chains| && |h.texts[e]| + 1 < U32_LIMIT
    requires y'.got == y.got && y'.drawn == y.drawn
    requires y'.wire == y.wire + [Sent(ChainOwner(e), PacketAt(Extended(h, e, plain), Coord(e, |h.texts[e]|)), plain)]
    ensures HistInv(y', Extended(h, e, plain))
    ensures GotAt(Extended(h, e, plain), y'.got) == GotAt(h, y.got)
  {
    hide Advance;
    var h' := Extended(h, e, plain);
    ExtendedLast(h, e, plain);
    forall k | 0 <= k < |h'.at| ensures OnWire(h', h'.at[k], y'.wire[k]) {
      if k < |h.at| { assert OnWire(h, h.at[k], y.wire[k]); ExtendedKeeps(h, e, plain, h.at[k]); }
    }
    forall k | 0 <= k < |h.at| ensures h.at[k] != Coord(e, |h.texts[e]|) { assert OnWire(h, h.at[k], y.wire[k]); }
    forall c | Placed(h', c) ensures c in h'.at {
      if Placed(h, c) { assert c in h.at; } else { assert h'.at[|h.at|] == c; }
    }
  }

  /** `y'` is `y` after side `x` has moved to state `s`. */
  ghost predicate Moved(y: System, y': System, x: Side, s: State) {
    Party(y', x) == s && Party(y', Other(x)) == Party(y, Other(x))
  }

  lemma SendInv(y: System, y': System, h: Hist, f: Held, x: Side, plain: seq<byte>)
    requires Inv(y, h, f) && Party(y, x).hasSend && Party(y, x).ns + 1 < U32_LIMIT
    requires var (s, r) := Encrypt(Party(y, x), plain);
             && Moved(y, y', x, s) && y'.got == y.got && y'.drawn == y.drawn
             && y'.wire == y.wire + [Sent(x, r.value, plain)]
    ensures EpochOf(x, |h.chains|) >= 0
    ensures Inv(y', Extended(h, EpochOf(x, |h.chains|), plain), f)
  {
    var o, n, got := Other(x), |h.chains|, GotAt(h, y.got);
    var e := EpochOf(x, n);
    hide CacheInv, Passed, WireInv;
    var h' := Extended(h, e, plain);
    assert SideInv(Party(y', x), h', x, Has(f, x), got) by {
      ExtendedSender(h, e, plain, Party(y, x), Has(f, x), got);
    }
    assert SideInv(Party(y', o), h', o, Has(f, o), got) by {
      ExtendedOther(h, e, plain, Party(y, o), EpochOf(o, n), Has(f, o), got);
    }
    assert HistInv(y', h') && GotAt(h', y'.got) == got by {
      ExtendedSender(h, e, plain, Party(y, x), Has(f, x), got);
      ExtendedWire(y, y', h, e, plain);
    }
    SidesInv(y', h', f, x);
  }

  // -- Delivering --

  /** Handing a packet to one side leaves the other side's account unchanged. */
  lemma GotOther(s: State, h: Hist, e: int, has: seq<Coord>, got: set<Coord>, c: Coord)
    requires PartyInv(s, h, e, has, got) && ChainOwner(c.chain) == ChainOwner(e)
    ensures PartyInv(s, h, e, has, got + {c})
  {
  }

  lemma GotGrows(y: System, h: Hist, k: nat)
    requires WireInv(y, h) && k < |h.at| && k !in y.got
    ensures h.at[k] !in GotAt(h, y.got)
    ensures GotAt(h, y.got + {k}) == GotAt(h, y.got) + {h.at[k]}
    ensures forall c :: c in GotAt(h, y.got) ==> Placed(h, c)
  {
    forall c | c in GotAt(h, y.got) ensures Placed(h, c) {
      var l :| l in y.got && l < |h.at| && h.at[l] == c;
      assert OnWire(h, h.at[l], y.wire[l]);
    }
  }

  /** The recipient's account of a delivery, whichever way the packet arrives. */
  lemma DeliverParty(s: State, h: Hist, e: int, has: seq<Coord>, got: set<Coord>, c: Coord, key: DhKey)
      returns (h': Hist, has': seq<Coord>)
    requires GoodHist(h) && PartyInv(s, h, e, has, got) && Placed(h, c) && c !in got
    requires |h.chains| - 2 <= e && ChainOwner(c.chain) != ChainOwner(e)
    requires forall d :: d in got ==> Placed(h, d)
    requires key.Random? && key !in h.keys
    requires |s.skipped| + Passing(s, PacketAt(h, c).header) <= MAX_SKIPPED_KEYS
    ensures if c.chain <= e then h' == h else h' == Turned(h, key) && |h.chains| == e + 2
    ensures ChainExists(s, PacketAt(h, c).header)
    ensures var (s', r) := DecryptPacket(s, PacketAt(h, c), key);
            && r == Ok(h.texts[c.chain][c.i])
            && PartyInv(s', h', if c.chain <= e then e else e + 2, has', got + {c})
  {
    hide CacheInv, DecryptPacket, Receive, Advance;
    if Passed(h, e, s.nr, c) {
      h' := h;
      has' := TakeParty(s, h, e, has, got, c, key);
    } else if c.chain == e - 1 {
      h' := h;
      NotCached(s, h, e, has, got, e - 1, c.i);
      has' := ReceiveParty(s, h, e, has, got, c.i);
      DecryptUncached(s, PacketAt(h, c), key);
    } else {
      assert c.chain == e + 1;
      h' := Turned(h, key);
      has' := TurnParty(s, h, e, has, got, c.i, key);
    }
  }

  lemma TurnedWire(y: System, y': System, h: Hist, key: DhKey)
    requires HistInv(y, h) && key.Random? && key !in h.keys
    requires y'.wire == y.wire && y'.drawn == y.drawn + {key}
    requires forall k :: k in y'.got ==> k < |y.wire|
    ensures HistInv(y', Turned(h, key))
    ensures GotAt(Turned(h, key), y'.got) == GotAt(h, y'.got)
  {
    var h' := Turned(h, key);
    TurnedGood(h, key);
    forall k | 0 <= k < |h'.at| ensures OnWire(h', h'.at[k], y'.wire[k]) {
      assert OnWire(h, h.at[k], y.wire[k]);
    }
    assert forall c :: Placed(h', c) ==> Placed(h, c);
  }

  /** The history after packet `k`: a chain longer if the packet opens a receive chain. */
  ghost function HistAfter(y: System, h: Hist, k: nat, key: DhKey): Hist
    requires GoodHist(h) && k < |h.at| && k < |y.wire|
  {
    if h.at[k].chain > EpochOf(Other(y.wire[k].from), |h.chains|) then Turned(h, key) else h
  }

  lemma DeliverRecipient(y: System, h: Hist, has: seq<Coord>, k: nat, key: DhKey) returns (has': seq<Coord>)
    requires HistInv(y, h) && Allowed(y, Deliver(k, key))
    requires var x := Other(y.wire[k].from); SideInv(Party(y, x), h, x, has, GotAt(h, y.got))
    ensures Handled(y, k, key).1 == Ok(y.wire[k].plain)
    ensures SideInv(Handled(y, k, key).0, HistAfter(y, h, k, key), Other(y.wire[k].from), has', GotAt(h, y.got + {k}))
  {
    hide PartyInv;
    var x := Other(y.wire[k].from);
    assert OnWire(h, h.at[k], y.wire[k]);
    GotGrows(y, h, k);
    var h';
    h', has' := DeliverParty(Party(y, x), h, EpochOf(x, |h.chains|), has, GotAt(h, y.got), h.at[k], key);
  }

  lemma DeliverPeer(y: System, h: Hist, has: seq<Coord>, k: nat, key: DhKey)
    requires HistInv(y, h) && Allowed(y, Deliver(k, key))
    requires var o := y.wire[k].from; SideInv(Party(y, o), h, o, has, GotAt(h, y.got))
    ensures var o := y.wire[k].from; SideInv(Party(y, o), HistAfter(y, h, k, key), o, has, GotAt(h, y.got + {k}))
  {
    hide PartyInv, PacketAt;
    var o, n, c := y.wire[k].from, |h.chains|, h.at[k];
    assert OnWire(h, c, y.wire[k]);
    hide OnWire, WireInv, GoodHist;
    GotGrows(y, h, k);
    GotOther(Party(y, o), h, EpochOf(o, n), has, GotAt(h, y.got), c);
    if c.chain > EpochOf(Other(o), n) {
      TurnedKeeps(h, key, Party(y, o), EpochOf(o, n), has, GotAt(h, y.got + {k}));
    }
  }

  lemma DeliverHist(y: System, y': System, h: Hist, k: nat, key: DhKey)
    requires HistInv(y, h) && Allowed(y, Deliver(k, key))
    requires y'.wire == y.wire && y'.got == y.got + {k} && y'.drawn == y.drawn + {key}
    ensures HistInv(y', HistAfter(y, h, k, key))
    ensures GotAt(HistAfter(y, h, k, key), y'.got) == GotAt(h, y.got + {k})
  {
    TurnedWire(y, y', h, key);
  }

  lemma DeliverInv(y: System, y': System, h: Hist, f: Held, k: nat, key: DhKey) returns (f': Held)
    requires Inv(y, h, f) && Allowed(y, Deliver(k, key))
    requires Moved(y, y', Other(y.wire[k].from), Handled(y, k, key).0)
    requires y'.wire == y.wire && y'.got == y.got + {k} && y'.drawn == y.drawn + {key}
    ensures Handled(y, k, key).1 == Ok(y.wire[k].plain)
    ensures Inv(y', HistAfter(y, h, k, key), f')
  {
    var x, o := Other(y.wire[k].from), y.wire[k].from;
    var has' := DeliverRecipient(y, h, Has(f, x), k, key);
    DeliverPeer(y, h, Has(f, o), k, key);
    DeliverHist(y, y', h, k, key);
    f' := WithHas(f, x, has');
    SidesInv(y', HistAfter(y, h, k, key), f', x);
  }

  lemma StepInv(y: System, h: Hist, f: Held, step: Step) returns (h': Hist, f': Held)
    requires Inv(y, h, f) && Allowed(y, step)
    ensures step.Deliver? ==> Handled(y, step.k, step.key).1 == Ok(y.wire[step.k].plain)
    ensures Inv(Next(y, step), h', f')
  {
    hide PartyInv;
    h', f' := h, f;
    match step
    case Send(x, plain) =>
      if Party(y, x).hasSend {
        SendInv(y, Next(y, step), h, f, x, plain);
        h' := Extended(h, EpochOf(x, |h.chains|), plain);
      }
    case Deliver(k, key) =>
      h' := HistAfter(y, h, k, key);
      f' := DeliverInv(y, Next(y, step), h, f, k, key);
  }

  lemma {:induction false} RunOpens(y: System, h: Hist, f: Held, steps: seq<Step>)
    requires Inv(y, h, f) && AllAllowed(y, steps)
    ensures AllOpen(y, steps)
    decreases |steps|
  {
    if steps != [] {
      var h', f' := StepInv(y, h, f, steps[0]);
      RunOpens(Next(y, steps[0]), h', f', steps[1..]);
    }
  }

  /** Two-party agreement: from a matching start, in every run over a network that
      reorders, delays and drops, every packet handed over opens to the plaintext that was
      encrypted, across any number of DH steps. */
  lemma Agreement(y: System, ad: Identities, sk: Secret, a: DhKey, b: DhKey, steps: seq<Step>)
    requires Start(y, ad, sk, a, b) && AllAllowed(y, steps)
    ensures AllOpen(y, steps)
  {
    var h := StartInv(y, ad, sk, a, b);
    RunOpens(y, h, Held([], []), steps);
  }

  // ---- What the caches hold in an honest run ----

  function FinalSystem(y: System, steps: seq<Step>): System
    requires AllAllowed(y, steps)
    decreases |steps|
  {
    if steps == [] then y else FinalSystem(Next(y, steps[0]), steps[1..])
  }

  lemma {:induction false} FinalInv(y: System, h: Hist, f: Held, steps: seq<Step>) returns (h': Hist, f': Held)
    requires Inv(y, h, f) && AllAllowed(y, steps)
    ensures Inv(FinalSystem(y, steps), h', f')
    decreases |steps|
  {
    h', f' := h, f;
    if steps != [] {
      h', f' := StepInv(y, h, f, steps[0]);
      h', f' := FinalInv(Next(y, steps[0]), h', f', steps[1..]);
    }
  }

  /** `x` is the key of packet `k`, sent to side `to` and not handed over. */
  predicate KeyOfPending(y: System, to: Side, x: Skipped, k: nat) {
    && k < |y.wire| && k !in y.got && y.wire[k].from == Other(to)
    && var p := y.wire[k].packet;
       x.dh == p.header.dh && x.n == p.header.n && p.body.Sealed? && x.key == p.body.key
  }

  ghost predicate OfPending(y: System, to: Side, x: Skipped) {
    exists k: nat :: KeyOfPending(y, to, x, k)
  }

  lemma HeldPending(y: System, h: Hist, to: Side, has: seq<Coord>, j: nat)
    requires HistInv(y, h) && SideInv(Party(y, to), h, to, has, GotAt(h, y.got))
    requires j < |Party(y, to).skipped|
    ensures OfPending(y, to, Party(y, to).skipped[j])
  {
    var c := has[j];
    var k: nat :| k < |h.at| && h.at[k] == c;
    assert OnWire(h, c, y.wire[k]);
    assert k in y.got ==> c in GotAt(h, y.got);
    assert KeyOfPending(y, to, Party(y, to).skipped[j], k);
  }

  lemma {:induction false} RootDepth(h: Hist, e: nat)
    requires GoodHist(h) && e < |h.roots|
    ensures RatchetSafety.Depth(h.roots[e]) == RatchetSafety.Depth(h.roots[0]) + e
  {
    if e > 0 { RootDepth(h, e - 1); }
  }

  lemma {:induction false} AdvanceInjective(c: Secret, i: nat, d: Secret, j: nat)
    requires c.ChainOf? && d.ChainOf? && Advance(c, i) == Advance(d, j)
    ensures c == d && i == j
  {
    if i > 0 && j > 0 { AdvanceInjective(c, i - 1, d, j - 1); }
  }

  /** No two messages of a conversation have one key. */
  lemma KeysDiffer(h: Hist, c: Coord, d: Coord)
    requires GoodHist(h) && c.chain < |h.chains| && d.chain < |h.chains| && c != d
    ensures KeyAt(h, c) != KeyAt(h, d)
  {
    hide Advance, Dh;
    var e, f := c.chain, d.chain;
    assert h.chains[e] == ChainOf(h.roots[e], Dh(h.keys[e + 1], h.keys[e]));
    assert h.chains[f] == ChainOf(h.roots[f], Dh(h.keys[f + 1], h.keys[f]));
    if KeyAt(h, c) == KeyAt(h, d) {
      AdvanceInjective(h.chains[c.chain], c.i, h.chains[d.chain], d.i);
      RootDepth(h, c.chain);
      RootDepth(h, d.chain);
    }
  }

  /** Every packet on the wire is sealed under a key of its own. */
  predicate SealedApart(z: System) {
    && (forall k :: 0 <= k < |z.wire| ==> z.wire[k].packet.body.Sealed?)
    && (forall j, k :: 0 <= j < k < |z.wire| ==> z.wire[j].packet.body.key != z.wire[k].packet.body.key)
  }

  /** The fixed nonce is sound for the whole conversation: no two packets ever sent, by either
      side, are sealed under one key. */
  lemma NoSharedKeys(y: System, ad: Identities, sk: Secret, a: DhKey, b: DhKey, steps: seq<Step>)
    requires Start(y, ad, sk, a, b) && AllAllowed(y, steps)
    ensures SealedApart(FinalSystem(y, steps))
  {
    hide PartyInv, KeyAt;
    var h0 := StartInv(y, ad, sk, a, b);
    var h, f := FinalInv(y, h0, Held([], []), steps);
    var z := FinalSystem(y, steps);
    hide FinalSystem, AllAllowed;
    forall k | 0 <= k < |z.wire| ensures z.wire[k].packet.body.Sealed? && z.wire[k].packet.body.key == KeyAt(h, h.at[k]) {
      assert OnWire(h, h.at[k], z.wire[k]);
    }
    forall j, k | 0 <= j < k < |z.wire| ensures z.wire[j].packet.body.key != z.wire[k].packet.body.key {
      KeysDiffer(h, h.at[j], h.at[k]);
    }
  }

  /** In every reachable state of an honest run each cached key is the key of one packet
      still on its way, and no two cached keys are equal. */
  lemma CachesHoldPendingKeys(y: System, ad: Identities, sk: Secret, a: DhKey, b: DhKey, steps: seq<Step>, to: Side)
    requires Start(y, ad, sk, a, b) && AllAllowed(y, steps)
    ensures HoldsPending(FinalSystem(y, steps), to)
  {
    hide PartyInv, HistInv;
    var h0 := StartInv(y, ad, sk, a, b);
    var h, f := FinalInv(y, h0, Held([], []), steps);
    var z := FinalSystem(y, steps);
    assert SideInv(Party(z, to), h, to, Has(f, to), GotAt(h, z.got));
    SideHolds(z, h, to, Has(f, to));
  }

  ghost predicate HoldsPending(z: System, to: Side) {
    var cache := Party(z, to).skipped;
    && (forall j :: 0 <= j < |cache| ==> OfPending(z, to, cache[j]))
    && (forall i, j :: 0 <= i < j < |cache| ==> cache[i].key != cache[j].key)
  }

  lemma SideHolds(z: System, h: Hist, to: Side, has: seq<Coord>)
    requires HistInv(z, h) && SideInv(Party(z, to), h, to, has, GotAt(h, z.got))
    ensures HoldsPending(z, to)
  {
    var cache := Party(z, to).skipped;
    forall j | 0 <= j < |cache| ensures OfPending(z, to, cache[j]) {
      HeldPending(z, h, to, has, j);
    }
    forall i, j | 0 <= i < j < |cache| ensures cache[i].key != cache[j].key {
      KeysDiffer(h, has[i], has[j]);
    }
  }

  /** No key of the current receive chain is cached at or beyond its next index. */
  ghost predicate Behind(s: State) {
    forall j :: 0 <= j < |s.skipped| && s.skipped[j].dh == s.dhr ==> s.skipped[j].n < s.nr
  }

  lemma SideBehind(y: System, h: Hist, x: Side, has: seq<Coord>)
    requires HistInv(y, h) && SideInv(Party(y, x), h, x, has, GotAt(h, y.got))
    ensures Behind(Party(y, x))
  {
    var s, e := Party(y, x), EpochOf(x, |h.chains|);
    forall j | 0 <= j < |s.skipped| && s.skipped[j].dh == s.dhr ensures s.skipped[j].n < s.nr {
      assert Passed(h, e, s.nr, has[j]) && s.skipped[j] == EntryAt(h, has[j]);
      assert h.keys[has[j].chain + 1] == h.keys[e];
    }
  }

  lemma CachesBehind(y: System, ad: Identities, sk: Secret, a: DhKey, b: DhKey, steps: seq<Step>, x: Side)
    requires Start(y, ad, sk, a, b) && AllAllowed(y, steps)
    ensures Behind(Party(FinalSystem(y, steps), x))
  {
    hide PartyInv, HistInv;
    var h0 := StartInv(y, ad, sk, a, b);
    var h, f := FinalInv(y, h0, Held([], []), steps);
    SideBehind(FinalSystem(y, steps), h, x, Has(f, x));
  }
}
