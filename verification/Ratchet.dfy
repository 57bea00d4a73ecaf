/**
 The Double Ratchet session (crypto-engine/src/ratchet.cpp): the session state as a
 value, the meaning of every operation on it, and the session object whose methods
 update that state in place.
 */
module Ratchet {
  import opened Symbolic

  const MAX_SKIPPED_KEYS: nat := 1000

  datatype Header = Header(pn: u32, n: u32, dh: DhKey)

  /** The 64-byte session additional data: both Ed25519 identity keys. */
  datatype Identities = Identities(initiator: nat, responder: nat)

  /** Additional data of one message: the session's followed by the header. */
  datatype Bound = Bound(session: Identities, header: Header)

  type Body = Cipher<Bound>

  datatype Packet = Packet(header: Header, body: Body)

  /** What reaches `zia_session_decrypt`: `Malformed` stands for every argument that its
      null and length tests refuse. */
  datatype Delivery = Malformed | Arrived(packet: Packet)

  datatype Skipped = Skipped(dh: DhKey, n: u32, key: Secret)

  /** The fields of `ZiaSession`.  As in the source, a chain key or remote key whose flag
      is false is present but meaningless. */
  datatype State = State(
    ad: Identities,
    dhs: DhKey,
    hasDhr: bool, dhr: DhKey,
    root: Secret,
    hasSend: bool, send: Secret,
    hasRecv: bool, recv: Secret,
    ns: u32, nr: u32, pn: u32,
    skipped: seq<Skipped>)

  // ---- The cache of skipped message keys ----

  /** Appends a key, evicting the oldest when the cache is full. */
  function Store(cache: seq<Skipped>, x: Skipped): seq<Skipped> {
    (if |cache| >= MAX_SKIPPED_KEYS then cache[1..] else cache) + [x]
  }

  /** Position of the first key cached for `(dh, n)`, or the length of the cache. */
  function Find(cache: seq<Skipped>, dh: DhKey, n: u32): (k: nat)
    ensures k <= |cache|
    ensures k < |cache| ==> cache[k].dh == dh && cache[k].n == n
    ensures forall i :: 0 <= i < k ==> !(cache[i].dh == dh && cache[i].n == n)
  {
    if cache == [] || (cache[0].dh == dh && cache[0].n == n) then 0
    else 1 + Find(cache[1..], dh, n)
  }

  function Without(cache: seq<Skipped>, k: nat): seq<Skipped>
    requires k < |cache|
  {
    cache[..k] + cache[k + 1..]
  }

  // ---- Chains ----

  /** Sets the current receive-chain key aside and advances the chain. */
  function SkipOne(s: State): State
    requires s.nr + 1 < U32_LIMIT
  {
    s.(skipped := Store(s.skipped, Skipped(s.dhr, s.nr, MessageOf(s.recv))),
       recv := NextOf(s.recv),
       nr := s.nr + 1)
  }

  function SkipLoop(s: State, until: u32): State
    requires s.nr <= until
    decreases until - s.nr
  {
    if s.nr == until then s else SkipLoop(SkipOne(s), until)
  }

  /** `skip_recv_chain_to`: `None` is the SKIPPED_KEY_LIMIT refusal, which changes nothing. */
  function SkipTo(s: State, until: u32): Option<State> {
    if !s.hasRecv || until <= s.nr then Some(s)
    else if until - s.nr > MAX_SKIPPED_KEYS then None
    else Some(SkipLoop(s, until))
  }

  /** `dh_ratchet_step`, the newly drawn key pair being `drawn`. */
  function DhStep(s: State, theirs: DhKey, drawn: DhKey): State {
    var in1 := Dh(s.dhs, theirs);
    var root1 := RootOf(s.root, in1);
    var in2 := Dh(drawn, theirs);
    s.(pn := s.ns, ns := 0, nr := 0,
       dhr := theirs, hasDhr := true,
       recv := ChainOf(s.root, in1), hasRecv := true,
       dhs := drawn,
       root := RootOf(root1, in2),
       send := ChainOf(root1, in2), hasSend := true)
  }

  function Initiator(ad: Identities, sk: Secret, drawn: DhKey, theirs: DhKey): State {
    var dh := Dh(drawn, theirs);
    State(ad, drawn, true, theirs, RootOf(sk, dh), true, ChainOf(sk, dh), false, Zero, 0, 0, 0, [])
  }

  function Responder(ad: Identities, sk: Secret, mine: DhKey): State {
    State(ad, mine, false, Random(0), sk, false, Zero, false, Zero, 0, 0, 0, [])
  }

  // ---- Encryption and decryption ----

  function Encrypt(s: State, plain: seq<byte>): (State, Result<Packet>) {
    if !s.hasSend then (s, Err(SessionNotFound))
    else
      var h := Header(s.pn, s.ns, s.dhs);
      (s.(send := NextOf(s.send), ns := Succ32(s.ns)),
       Ok(Packet(h, Sealed(MessageOf(s.send), Bound(s.ad, h), plain))))
  }

  function OpenWith(key: Secret, ad: Identities, p: Packet): Result<seq<byte>> {
    match Open(key, Bound(ad, p.header), p.body)
    case Some(plain) => Ok(plain)
    case None => Err(CryptoFailure)
  }

  /** Whether the header announces a remote DH key other than the current one. */
  predicate Turns(s: State, h: Header) { !s.hasDhr || s.dhr != h.dh }

  predicate Cached(s: State, h: Header) { Find(s.skipped, h.dh, h.n) < |s.skipped| }

  /** The source never tests that a receive chain exists before deriving a key from it:
      it must, unless the key comes from the cache or the message opens a chain. */
  predicate ChainExists(s: State, h: Header) { Cached(s, h) || Turns(s, h) || s.hasRecv }

  /** It may not: an initiator that has received nothing yet and gets a header naming the
      responder's first key has no receive chain to derive from. */
  lemma ChainMayBeMissing(ad: Identities, sk: Secret, mine: DhKey, theirs: DhKey, pn: u32, n: u32)
    ensures !ChainExists(Initiator(ad, sk, mine, theirs), Header(pn, n, theirs))
  {
  }

  /** A message of the current receive chain, at or beyond its next index. */
  function Receive(s: State, p: Packet): (State, Result<seq<byte>>) {
    match SkipTo(s, p.header.n)
    case None => (s, Err(SkippedKeyLimit))
    case Some(s') =>
      var r := OpenWith(MessageOf(s'.recv), s'.ad, p);
      (if r.Ok? then s'.(recv := NextOf(s'.recv), nr := Succ32(s'.nr)) else s', r)
  }

  function DecryptPacket(s: State, p: Packet, drawn: DhKey): (State, Result<seq<byte>>)
    requires ChainExists(s, p.header)
  {
    var h := p.header;
    var k := Find(s.skipped, h.dh, h.n);
    if k < |s.skipped| then
      (s.(skipped := Without(s.skipped, k)), OpenWith(s.skipped[k].key, s.ad, p))
    else if s.hasRecv && s.dhr == h.dh && h.n < s.nr then
      (s, Err(ReplayDetected))
    else if Turns(s, h) then
      match SkipTo(s, h.pn)
      case None => (s, Err(SkippedKeyLimit))
      case Some(s') => Receive(DhStep(s', h.dh, drawn), p)
    else
      Receive(s, p)
  }

  function Decrypt(s: State, d: Delivery, drawn: DhKey): (State, Result<seq<byte>>)
    requires d.Arrived? ==> ChainExists(s, d.packet.header)
  {
    if d.Malformed? then (s, Err(InvalidArg)) else DecryptPacket(s, d.packet, drawn)
  }

  // ---- What skipping amounts to ----

  /** The keys of a chain standing at `ck` with index `lo`, up to index `hi` excluded. */
  function Range(dh: DhKey, ck: Secret, lo: nat, hi: nat): (r: seq<Skipped>)
    requires lo <= hi <= U32_LIMIT
  {
    seq(hi - lo, j requires 0 <= j < hi - lo => Skipped(dh, lo + j, MessageOf(Advance(ck, j))))
  }

  lemma RangeCons(dh: DhKey, ck: Secret, lo: nat, hi: nat)
    requires lo < hi <= U32_LIMIT
    ensures Range(dh, ck, lo, hi) == [Skipped(dh, lo, MessageOf(ck))] + Range(dh, NextOf(ck), lo + 1, hi)
  {
    forall j | 0 <= j < hi - lo - 1 ensures Advance(NextOf(ck), j) == Advance(ck, j + 1) {
      AdvanceShift(ck, j);
    }
  }

  /** While nothing has to be evicted, skipping appends exactly the passed-over keys. */
  lemma {:induction false} SkipLoopFits(s: State, until: u32)
    requires s.nr <= until
    requires |s.skipped| + (until - s.nr) <= MAX_SKIPPED_KEYS
    ensures SkipLoop(s, until) ==
            s.(nr := until, recv := Advance(s.recv, until - s.nr),
               skipped := s.skipped + Range(s.dhr, s.recv, s.nr, until))
    decreases until - s.nr
  {
    if s.nr == until {
      assert s.skipped + Range(s.dhr, s.recv, s.nr, until) == s.skipped;
    } else {
      var s1 := SkipOne(s);
      SkipLoopFits(s1, until);
      RangeCons(s.dhr, s.recv, s.nr, until);
      var rest := Range(s1.dhr, s1.recv, s1.nr, until);
      var x := Skipped(s.dhr, s.nr, MessageOf(s.recv));
      assert (s.skipped + [x]) + rest == s.skipped + ([x] + rest);
      AdvanceShift(s.recv, until - s.nr - 1);
    }
  }

  /** The opaque `ZiaSession` handle. */
  class Session {
    var ad: Identities
    var dhs: DhKey
    var hasDhr: bool
    var dhr: DhKey
    var root: Secret
    var hasSend: bool
    var send: Secret
    var hasRecv: bool
    var recv: Secret
    var ns: u32
    var nr: u32
    var pn: u32
    var skipped: seq<Skipped>

    ghost function View(): State
      reads this
    {
      State(ad, dhs, hasDhr, dhr, root, hasSend, send, hasRecv, recv, ns, nr, pn, skipped)
    }

    constructor InitAsInitiator(ad: Identities, sk: Secret, drawn: DhKey, theirs: DhKey)
      ensures View() == Initiator(ad, sk, drawn, theirs)
    {
      this.ad, dhs, hasDhr, dhr := ad, drawn, true, theirs;
      var dh := Dh(drawn, theirs);
      root, send, hasSend := RootOf(sk, dh), ChainOf(sk, dh), true;
      recv, hasRecv := Zero, false;
      ns, nr, pn, skipped := 0, 0, 0, [];
    }

    constructor InitAsResponder(ad: Identities, sk: Secret, mine: DhKey)
      ensures View() == Responder(ad, sk, mine)
    {
      this.ad, dhs, hasDhr, dhr := ad, mine, false, Random(0);
      root, send, hasSend := sk, Zero, false;
      recv, hasRecv := Zero, false;
      ns, nr, pn, skipped := 0, 0, 0, [];
    }

    method StoreSkippedKey(dh: DhKey, n: u32, key: Secret)
      modifies this`skipped
      ensures skipped == Store(old(skipped), Skipped(dh, n, key))
    {
      if |skipped| >= MAX_SKIPPED_KEYS {
        skipped := skipped[1..];
      }
      skipped := skipped + [Skipped(dh, n, key)];
    }

    method TakeSkippedKey(dh: DhKey, n: u32) returns (key: Option<Secret>)
      modifies this`skipped
      ensures var k := Find(old(skipped), dh, n);
              if k < |old(skipped)|
              then key == Some(old(skipped)[k].key) && skipped == Without(old(skipped), k)
              else key == None && skipped == old(skipped)
    {
      var k := 0;
      while k < |skipped| && !(skipped[k].dh == dh && skipped[k].n == n)
        invariant 0 <= k <= |skipped|
        invariant forall i :: 0 <= i < k ==> !(skipped[i].dh == dh && skipped[i].n == n)
      {
        k := k + 1;
      }
      assert k == Find(skipped, dh, n);
      if k == |skipped| {
        return None;
      }
      key := Some(skipped[k].key);
      skipped := skipped[..k] + skipped[k + 1..];
    }

    method SkipRecvChainTo(until: u32) returns (ok: bool)
      modifies this
      ensures ok == SkipTo(old(View()), until).Some?
      ensures View() == if ok then SkipTo(old(View()), until).value else old(View())
    {
      if !hasRecv || until <= nr {
        return true;
      }
      if until - nr > MAX_SKIPPED_KEYS {
        return false;
      }
      while nr < until
        invariant nr <= until
        invariant SkipLoop(View(), until) == SkipLoop(old(View()), until)
      {
        StoreSkippedKey(dhr, nr, MessageOf(recv));
        recv := NextOf(recv);
        nr := nr + 1;
      }
      return true;
    }

    /** The first half of `dh_ratchet_step`: the receive chain of the new remote key. */
    method OpenRecvChain(theirs: DhKey)
      modifies this
      ensures var dh := Dh(old(dhs), theirs);
              View() == old(View()).(pn := old(ns), ns := 0, nr := 0, dhr := theirs, hasDhr := true,
                                     root := RootOf(old(root), dh), recv := ChainOf(old(root), dh), hasRecv := true)
    {
      hide Dh;
      var dh := Dh(dhs, theirs);
      pn, ns, nr := ns, 0, 0;
      dhr, hasDhr := theirs, true;
      root, recv, hasRecv := RootOf(root, dh), ChainOf(root, dh), true;
    }

    /** The second half: a new key pair and its send chain. */
    method OpenSendChain(drawn: DhKey)
      modifies this
      ensures var dh := Dh(drawn, old(dhr));
              View() == old(View()).(dhs := drawn, root := RootOf(old(root), dh), send := ChainOf(old(root), dh), hasSend := true)
    {
      hide Dh;
      var dh := Dh(drawn, dhr);
      dhs := drawn;
      root, send, hasSend := RootOf(root, dh), ChainOf(root, dh), true;
    }

    method DhRatchetStep(theirs: DhKey, drawn: DhKey)
      modifies this
      ensures View() == DhStep(old(View()), theirs, drawn)
    {
      hide Dh;
      OpenRecvChain(theirs);
      OpenSendChain(drawn);
    }

    method EncryptMessage(plain: seq<byte>) returns (r: Result<Packet>)
      modifies this
      ensures (View(), r) == Encrypt(old(View()), plain)
    {
      if !hasSend {
        return Err(SessionNotFound);
      }
      var key, next := MessageOf(send), NextOf(send);
      var header := Header(pn, ns, dhs);
      r := Ok(Packet(header, Sealed(key, Bound(ad, header), plain)));
      send := next;
      ns := Succ32(ns);
    }

    method DecryptMessage(d: Delivery, drawn: DhKey) returns (r: Result<seq<byte>>)
      requires d.Arrived? ==> ChainExists(View(), d.packet.header)
      modifies this
      ensures (View(), r) == Decrypt(old(View()), d, drawn)
    {
      if d.Malformed? {
        return Err(InvalidArg);
      }
      var p := d.packet;
      var h := p.header;
      var cached := TakeSkippedKey(h.dh, h.n);
      if cached.Some? {
        return OpenWith(cached.value, ad, p);
      }
      if hasRecv && dhr == h.dh && h.n < nr {
        return Err(ReplayDetected);
      }
      if !hasDhr || dhr != h.dh {
        var closed := SkipRecvChainTo(h.pn);
        if !closed {
          return Err(SkippedKeyLimit);
        }
        DhRatchetStep(h.dh, drawn);
      }
      var reached := SkipRecvChainTo(h.n);
      if !reached {
        return Err(SkippedKeyLimit);
      }
      var key, next := MessageOf(recv), NextOf(recv);
      r := OpenWith(key, ad, p);
      if r.Ok? {
        recv := next;
        nr := Succ32(nr);
      }
    }
  }
}
