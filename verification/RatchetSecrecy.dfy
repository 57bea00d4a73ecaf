/**
 What a session's secrets give away: forward secrecy and post-compromise security of the Double
 Ratchet, over every run of one session.
 */
module RatchetSecrecy {
  import opened Symbolic
  import opened Ratchet
  import opened RatchetSafety
  import Handshake

  /** Secrets, private Diffie-Hellman keys and private KEM keys in somebody's hands. */
  datatype Knowledge = Knowledge(secrets: set<Secret>, keys: set<DhKey>, kems: set<nat>)

  /** The private keys alone. */
  function Bare(w: Knowledge): Knowledge { w.(secrets := {}) }

  /** What can be computed: every derivation of the ratchet and of the handshake runs forwards,
      one private end gives a shared secret, a KEM key gives what was encapsulated to it. */
  predicate Derives(w: Knowledge, t: Secret)
    decreases t
  {
    t in w.secrets ||
    match t
    case Zero => true
    case Atom(_) => false
    case Shared(ends) => ends * w.keys != {}
    case RootOf(r, d) => Derives(w, r) && Derives(w, d)
    case ChainOf(r, d) => Derives(w, r) && Derives(w, d)
    case NextOf(c) => Derives(w, c)
    case MessageOf(c) => Derives(w, c)
    case Encapsulated(kem, _) => kem in w.kems
    case Rejected(kem, _) => kem in w.kems
    case SessionKey(_, ikm) => forall i :: 0 <= i < |ikm| ==> Derives(w, ikm[i])
  }

  /** Every symmetric secret in the session's memory. */
  function Held(s: State): set<Secret> {
    {s.root} + (if s.hasSend then {s.send} else {}) + (if s.hasRecv then {s.recv} else {}) + CachedKeys(s.skipped)
  }

  function CachedKeys(cache: seq<Skipped>): set<Secret> { set x | x in cache :: x.key }

  // ---- Where a key comes from ----

  predicate IsDh(t: Secret) { t.Zero? || t.Shared? }

  predicate IsInput(t: Secret) { IsDh(t) || t.Encapsulated? || t.Rejected? }

  /** A session key that a handshake derived. */
  predicate IsSessionKey(t: Secret) {
    t.SessionKey? && forall i :: 0 <= i < |t.ikm| ==> IsInput(t.ikm[i])
  }

  /** A root key of a session that started from `sk`. */
  predicate IsRoot(t: Secret, sk: Secret) { t == sk || (t.RootOf? && IsDh(t.dh) && IsRoot(t.root, sk)) }

  predicate IsChain(t: Secret, sk: Secret) {
    (t.ChainOf? && IsDh(t.dh) && IsRoot(t.root, sk)) || (t.NextOf? && IsChain(t.chain, sk))
  }

  predicate IsMessage(t: Secret, sk: Secret) { t.MessageOf? && IsChain(t.chain, sk) }

  /** `b` lies after chain key `c`: nothing on the way to `c` can be computed from it. */
  predicate After(b: Secret, c: Secret, sk: Secret) {
    || (IsRoot(b, sk) && Depth(b) > Generation(c))
    || (IsChain(b, sk) && (Generation(b) != Generation(c) || Turn(b) > Turn(c)))
    || IsMessage(b, sk)
  }

  lemma KindsDiffer(b: Secret, sk: Secret)
    requires IsSessionKey(sk)
    ensures IsRoot(b, sk) ==> !IsChain(b, sk) && !IsMessage(b, sk) && !IsInput(b)
    ensures IsChain(b, sk) ==> !IsMessage(b, sk) && !IsInput(b)
    ensures IsMessage(b, sk) ==> !IsInput(b)
    ensures Depth(sk) == 0
  {
  }

  /** Only the private keys matter for `t`. */
  predicate KeysDecide(w: Knowledge, t: Secret) { Derives(w, t) <==> Derives(Bare(w), t) }

  lemma {:induction false} RootBare(w: Knowledge, r: Secret, sk: Secret)
    requires IsSessionKey(sk) && IsRoot(r, sk)
    requires forall b :: b in w.secrets ==> !IsInput(b) && (!IsRoot(b, sk) || Depth(b) > Depth(r))
    ensures KeysDecide(w, r)
    decreases r
  {
    KindsDiffer(r, sk);
    if r == sk {
    } else {
      RootBare(w, r.root, sk);
    }
  }

  lemma {:induction false} ChainBare(w: Knowledge, c: Secret, sk: Secret)
    requires IsSessionKey(sk) && IsChain(c, sk) && forall b :: b in w.secrets ==> After(b, c, sk)
    ensures KeysDecide(w, c)
    decreases c
  {
    KindsDiffer(c, sk);
    assert !After(c, c, sk);
    if c.NextOf? {
      assert forall b :: b in w.secrets ==> After(b, c.chain, sk);
      ChainBare(w, c.chain, sk);
    } else {
      forall b | b in w.secrets ensures !IsInput(b) && (!IsRoot(b, sk) || Depth(b) > Depth(c.root)) {
        assert After(b, c, sk);
        KindsDiffer(b, sk);
      }
      RootBare(w, c.root, sk);
    }
  }

  lemma MessageBare(w: Knowledge, k: Secret, sk: Secret)
    requires IsSessionKey(sk) && IsMessage(k, sk) && k !in w.secrets && forall b :: b in w.secrets ==> After(b, k.chain, sk)
    ensures KeysDecide(w, k)
  {
    hide IsChain, After;
    ChainBare(w, k.chain, sk);
  }

  // ---- Forward secrecy ----

  /** Keys on the receiving side and keys on the sending side lie in generations of opposite
      parity. */
  predicate KeyOfSide(k: Secret, sk: Secret, depth: nat, side: nat) {
    IsMessage(k, sk) && Generation(k.chain) < depth && (depth - Generation(k.chain)) % 2 == side
  }

  const RECEIVING := 0
  const SENDING := 1

  ghost predicate Lineage(s: State, sk: Secret, heard: set<Secret>, sent: set<Secret>) {
    && IsRoot(s.root, sk)
    && (s.hasSend ==> IsChain(s.send, sk) && Generation(s.send) + 1 == Depth(s.root))
    && (s.hasRecv ==> IsChain(s.recv, sk) && Generation(s.recv) + 2 == Depth(s.root))
    && (!s.hasRecv ==> s.skipped == [])
    && (forall k :: k in heard ==> KeyOfSide(k, sk, Depth(s.root), RECEIVING))
    && (forall k :: k in sent ==> KeyOfSide(k, sk, Depth(s.root), SENDING))
    && (forall i :: 0 <= i < |s.skipped| ==> KeyOfSide(s.skipped[i].key, sk, Depth(s.root), RECEIVING))
  }

  ghost predicate SecrecyInv(s: State, sk: Secret, heard: set<Secret>, sent: set<Secret>) {
    RecvInv(s, heard) && SendInv(s, sent) && Lineage(s, sk, heard, sent)
  }

  /** Of a used key the session's memory says nothing that the private keys do not say. */
  lemma UsedBare(s: State, sk: Secret, heard: set<Secret>, sent: set<Secret>, k: Secret, w: Knowledge)
    requires IsSessionKey(sk) && SecrecyInv(s, sk, heard, sent) && k in heard + sent && w.secrets == Held(s)
    ensures KeysDecide(w, k) && IsMessage(k, sk)
  {
    hide Derives, KeysDecide, IsChain, IsRoot;
    forall b | b in Held(s) ensures After(b, k.chain, sk) {
    }
    assert k !in Held(s) by {
      KindsDiffer(s.root, sk);
      KindsDiffer(s.send, sk);
      KindsDiffer(s.recv, sk);
    }
    MessageBare(w, k, sk);
  }

  lemma {:induction false} SkipLoopLineage(s: State, sk: Secret, until: u32, heard: set<Secret>, sent: set<Secret>)
    requires s.hasRecv && s.nr <= until && Lineage(s, sk, heard, sent)
    ensures Lineage(SkipLoop(s, until), sk, heard, sent)
    decreases until - s.nr
  {
    if s.nr < until {
      hide Lineage;
      SkipOneLineage(s, sk, heard, sent);
      SkipLoopLineage(SkipOne(s), sk, until, heard, sent);
    }
  }

  lemma SkipOneLineage(s: State, sk: Secret, heard: set<Secret>, sent: set<Secret>)
    requires s.hasRecv && s.nr + 1 < U32_LIMIT && Lineage(s, sk, heard, sent)
    ensures SkipOne(s).hasRecv && Lineage(SkipOne(s), sk, heard, sent)
  {
    hide IsRoot;
    assert KeyOfSide(MessageOf(s.recv), sk, Depth(s.root), RECEIVING);
    assert IsChain(NextOf(s.recv), sk) && Generation(NextOf(s.recv)) == Generation(s.recv);
    hide KeyOfSide, IsChain;
  }

  lemma DhStepLineage(s: State, sk: Secret, theirs: DhKey, drawn: DhKey, heard: set<Secret>, sent: set<Secret>)
    requires Lineage(s, sk, heard, sent)
    ensures Lineage(DhStep(s, theirs, drawn), sk, heard, sent)
  {
    var s' := DhStep(s, theirs, drawn);
    assert IsRoot(s'.root.root, sk) && Depth(s'.root.root) == Depth(s.root) + 1;
    assert IsRoot(s'.root, sk) && Depth(s'.root) == Depth(s.root) + 2;
    assert IsChain(s'.send, sk) && IsChain(s'.recv, sk);
    forall k, side: nat | KeyOfSide(k, sk, Depth(s.root), side) ensures KeyOfSide(k, sk, Depth(s'.root), side) {
      assert (Depth(s.root) - Generation(k.chain) + 2) % 2 == (Depth(s.root) - Generation(k.chain)) % 2;
    }
  }

  function UsedKey(p: Packet, r: Result<seq<byte>>): set<Secret> {
    if r.Ok? && p.body.Sealed? then {p.body.key} else {}
  }

  lemma ReceiveLineage(s: State, sk: Secret, p: Packet, heard: set<Secret>, sent: set<Secret>)
    requires s.hasRecv && Lineage(s, sk, heard, sent)
    ensures var (s', r) := Receive(s, p);
            Lineage(s', sk, heard + UsedKey(p, r), sent)
  {
    if s.nr < p.header.n {
      SkipLoopLineage(s, sk, p.header.n, heard, sent);
      SkipLoopFrame(s, p.header.n);
    }
    if SkipTo(s, p.header.n).Some? { AdvanceLineage(SkipTo(s, p.header.n).value, sk, heard, sent); }
  }

  /** The chain key's message key is used and the chain moves on. */
  lemma AdvanceLineage(s: State, sk: Secret, heard: set<Secret>, sent: set<Secret>)
    requires s.hasRecv && Lineage(s, sk, heard, sent)
    ensures Lineage(s.(recv := NextOf(s.recv), nr := Succ32(s.nr)), sk, heard + {MessageOf(s.recv)}, sent)
    ensures heard + {} == heard
  {
    hide IsRoot;
    assert KeyOfSide(MessageOf(s.recv), sk, Depth(s.root), RECEIVING);
  }

  lemma DecryptLineage(s: State, sk: Secret, p: Packet, drawn: DhKey, heard: set<Secret>, sent: set<Secret>)
    requires Lineage(s, sk, heard, sent) && ChainExists(s, p.header)
    ensures var (s', r) := DecryptPacket(s, p, drawn);
            Lineage(s', sk, heard + UsedKey(p, r), sent)
  {
    hide Receive, IsChain, IsRoot;
    var h := p.header;
    if !Cached(s, h) && !(s.hasRecv && s.dhr == h.dh && h.n < s.nr) {
      if Turns(s, h) {
        if SkipTo(s, h.pn).Some? {
          if s.hasRecv && s.nr < h.pn { SkipLoopLineage(s, sk, h.pn, heard, sent); }
          var s1 := SkipTo(s, h.pn).value;
          DhStepLineage(s1, sk, h.dh, drawn, heard, sent);
          ReceiveLineage(DhStep(s1, h.dh, drawn), sk, p, heard, sent);
        }
      } else {
        ReceiveLineage(s, sk, p, heard, sent);
      }
    }
  }

  lemma EncryptLineage(s: State, sk: Secret, heard: set<Secret>, sent: set<Secret>)
    requires s.hasSend && Lineage(s, sk, heard, sent)
    ensures Lineage(s.(send := NextOf(s.send), ns := Succ32(s.ns)), sk, heard, sent + {MessageOf(s.send)})
  {
    hide IsRoot;
    assert KeyOfSide(MessageOf(s.send), sk, Depth(s.root), SENDING);
  }

  lemma EncryptSecrecy(s: State, sk: Secret, plain: seq<byte>, heard: set<Secret>, sent: set<Secret>)
    requires s.hasSend && SecrecyInv(s, sk, heard, sent)
    ensures var (s', r) := Encrypt(s, plain);
            && r.Ok? && r.value.body.Sealed? && r.value.body.key == MessageOf(s.send)
            && SecrecyInv(s', sk, heard, sent + {MessageOf(s.send)})
  {
    hide IsRoot, IsChain;
    EncryptLineage(s, sk, heard, sent);
  }

  lemma DecryptSecrecy(s: State, sk: Secret, p: Packet, drawn: DhKey, heard: set<Secret>, sent: set<Secret>)
    requires SecrecyInv(s, sk, heard, sent) && ChainExists(s, p.header)
    ensures var (s', r) := DecryptPacket(s, p, drawn);
            SecrecyInv(s', sk, heard + UsedKey(p, r), sent) && (r.Ok? ==> p.body.Sealed?)
  {
    hide RecvInv, SendInv, Lineage, DecryptPacket;
    DecryptRecv(s, p, drawn, heard);
    DecryptSend(s, p, drawn, sent);
    DecryptLineage(s, sk, p, drawn, heard, sent);
    assert heard + {} == heard;
  }

  /** The message key of an event. */
  function KeyOf(e: Event): set<Secret> {
    if (e.Sent? || e.Opened?) && e.packet.body.Sealed? then {e.packet.body.key} else {}
  }

  lemma StepSecrecy(s: State, sk: Secret, op: Op, heard: set<Secret>, sent: set<Secret>)
      returns (heard': set<Secret>, sent': set<Secret>)
    requires SecrecyInv(s, sk, heard, sent) && Enabled(s, op)
    ensures var (s', e) := Apply(s, op);
            SecrecyInv(s', sk, heard', sent') && heard' + sent' == heard + sent + KeyOf(e)
  {
    hide SecrecyInv, DecryptPacket;
    heard', sent' := heard, sent;
    match op
    case Send(plain) =>
      if s.hasSend {
        EncryptSecrecy(s, sk, plain, heard, sent);
        sent' := sent + {MessageOf(s.send)};
      }
    case Deliver(d, drawn) =>
      if d.Arrived? {
        DecryptSecrecy(s, sk, d.packet, drawn, heard, sent);
        heard' := heard + UsedKey(d.packet, DecryptPacket(s, d.packet, drawn).1);
      }
  }

  lemma {:induction false} RunSecrecy(s: State, sk: Secret, ops: seq<Op>, heard: set<Secret>, sent: set<Secret>, w: Knowledge)
    requires IsSessionKey(sk) && SecrecyInv(s, sk, heard, sent) && Runs(s, ops) && w.secrets == Held(Final(s, ops))
    ensures forall k :: k in heard + sent ==> KeysDecide(w, k) && IsMessage(k, sk)
    ensures forall i, k :: 0 <= i < |ops| && k in KeyOf(Trace(s, ops)[i]) ==> KeysDecide(w, k) && IsMessage(k, sk)
    decreases |ops|
  {
    hide SecrecyInv, Derives, KeysDecide, Apply, Enabled, Held, KeyOf, IsSessionKey, IsMessage;
    if ops == [] {
      forall k | k in heard + sent ensures KeysDecide(w, k) && IsMessage(k, sk) {
        UsedBare(s, sk, heard, sent, k, w);
      }
    } else {
      var heard', sent' := StepSecrecy(s, sk, ops[0], heard, sent);
      RunSecrecy(Apply(s, ops[0]).0, sk, ops[1..], heard', sent', w);
      assert forall i :: 1 <= i < |ops| ==> Trace(s, ops)[i] == Trace(Apply(s, ops[0]).0, ops[1..])[i - 1];
    }
  }

  /** A new session over the session key `sk`. */
  ghost predicate StartsFrom(s: State, sk: Secret) {
    || (exists ad, mine, theirs :: s == Initiator(ad, sk, mine, theirs))
    || (exists ad, mine :: s == Responder(ad, sk, mine))
  }

  lemma StartSecrecy(s: State, sk: Secret)
    requires IsSessionKey(sk) && StartsFrom(s, sk)
    ensures SecrecyInv(s, sk, {}, {})
  {
    if s.hasSend {
      FirstStep(sk, s.root.dh);
      assert s.root == RootOf(sk, s.root.dh) && s.send == ChainOf(sk, s.root.dh);
    }
  }

  lemma FirstStep(sk: Secret, dh: Secret)
    requires IsSessionKey(sk) && IsDh(dh)
    ensures IsRoot(RootOf(sk, dh), sk) && Depth(RootOf(sk, dh)) == 1
    ensures IsChain(ChainOf(sk, dh), sk) && Generation(ChainOf(sk, dh)) == 0
  {
    assert IsRoot(sk, sk) && Depth(sk) == 0;
  }

  /** The Diffie-Hellman outputs that were mixed in on the way from `sk` to `t`. */
  function Steps(t: Secret, sk: Secret): set<Secret>
    decreases t
  {
    if t == sk then {}
    else
      match t
      case RootOf(r, d) => Steps(r, sk) + {d}
      case ChainOf(r, d) => Steps(r, sk) + {d}
      case NextOf(c) => Steps(c, sk)
      case MessageOf(c) => Steps(c, sk)
      case _ => {}
  }

  /** The private keys include an end of every step. */
  predicate HasEnds(t: Secret, sk: Secret, keys: set<DhKey>) {
    forall x :: x in Steps(t, sk) && x.Shared? ==> x.ends * keys != {}
  }

  /** Private keys give a key of the session exactly when they give its session key and have an
      end of every step in between. */
  lemma {:induction false} WayExact(w: Knowledge, t: Secret, sk: Secret)
    requires w.secrets == {} && IsSessionKey(sk) && (IsRoot(t, sk) || IsChain(t, sk) || IsMessage(t, sk))
    ensures Derives(w, t) <==> Derives(w, sk) && HasEnds(t, sk, w.keys)
    decreases t
  {
    if t != sk {
      match t
      case RootOf(r, d) => WayExact(w, r, sk);
      case ChainOf(r, d) => WayExact(w, r, sk);
      case NextOf(c) => WayExact(w, c, sk);
      case MessageOf(c) => WayExact(w, c, sk);
    }
  }

  /**
   Forward secrecy, exactly.  Over any traffic, what the session still holds adds nothing towards
   the key of a message that was sealed or opened: whoever takes all of its secrets, together
   with any private keys, can compute that key if and only if those private keys give the session
   key and have an end of every DH step between the session key and the message.
   */
  lemma ForwardSecrecy(s: State, sk: Secret, ops: seq<Op>, i: nat, k: Secret, keys: set<DhKey>, kems: set<nat>)
    requires IsSessionKey(sk) && StartsFrom(s, sk) && Runs(s, ops) && i < |ops| && k in KeyOf(Trace(s, ops)[i])
    ensures Derives(Knowledge(Held(Final(s, ops)), keys, kems), k) <==> Derives(Knowledge({}, keys, kems), k)
    ensures Derives(Knowledge(Held(Final(s, ops)), keys, kems), k) <==>
            Derives(Knowledge({}, keys, kems), sk) && HasEnds(k, sk, keys)
  {
    hide Derives, Held, KeyOf, Runs, Trace, Final, SecrecyInv, IsSessionKey, StartsFrom, IsMessage, HasEnds;
    StartSecrecy(s, sk);
    var w := Knowledge(Held(Final(s, ops)), keys, kems);
    RunSecrecy(s, sk, ops, {}, {}, w);
    assert Bare(w) == Knowledge({}, keys, kems);
    assert KeysDecide(w, k);
    WayExact(Bare(w), k, sk);
  }

  // ---- Which private keys give the session key ----

  predicate Meets(a: DhKey, b: DhKey, keys: set<DhKey>) { a in keys || b in keys }

  /** Private keys that give every input of the initiator's handshake: an end of each
      Diffie-Hellman, and the KEM key if there is one. */
  predicate Opens(me: nat, b: Handshake.Bundle, ephemeral: DhKey, keys: set<DhKey>, kems: set<nat>) {
    && Meets(FromIdentity(me), b.spk.key, keys)
    && Meets(ephemeral, FromIdentity(b.identity), keys)
    && Meets(ephemeral, b.spk.key, keys)
    && (b.otpk.Some? ==> Meets(ephemeral, b.otpk.value, keys))
    && (b.pq.Some? ==> b.pq.value.kem in kems)
  }

  lemma SharedKnown(a: DhKey, b: DhKey, keys: set<DhKey>, kems: set<nat>)
    requires !b.SmallOrder?
    ensures Derives(Knowledge({}, keys, kems), Dh(a, b)) <==> Meets(a, b, keys)
  {
    if a in keys { assert a in {a, b} * keys; }
    if b in keys { assert b in {a, b} * keys; }
  }

  lemma SessionKeyNeeds(w: Knowledge, sk: Secret)
    requires w.secrets == {} && sk.SessionKey?
    ensures Derives(w, sk) <==> forall i :: 0 <= i < |sk.ikm| ==> Derives(w, sk.ikm[i])
  {
  }

  lemma InputsKnown(w: Knowledge, dh1: Secret, dh2: Secret, dh3: Secret, dh4: Option<Secret>, ss: Option<Secret>)
    requires w.secrets == {}
    ensures Derives(w, Handshake.Derive(dh1, dh2, dh3, dh4, ss)) <==>
              && Derives(w, dh1) && Derives(w, dh2) && Derives(w, dh3)
              && (dh4.Some? ==> Derives(w, dh4.value)) && (ss.Some? ==> Derives(w, ss.value))
  {
    hide Derives;
    var sk := Handshake.Derive(dh1, dh2, dh3, dh4, ss);
    var ikm := sk.ikm;
    SessionKeyNeeds(w, sk);
    var tail := Handshake.Blocks(Handshake.One(dh4)) + Handshake.Blocks(Handshake.One(ss));
    assert ikm == [dh1, dh2, dh3] + tail;
    assert ikm[0] == dh1 && ikm[1] == dh2 && ikm[2] == dh3;
    assert dh4.Some? ==> ikm[3] == dh4.value;
    assert ss.Some? ==> ikm[|ikm| - 1] == ss.value;
    assert forall i :: 3 <= i < |ikm| ==> (dh4.Some? && ikm[i] == dh4.value) || (ss.Some? && ikm[i] == ss.value);
  }

  /** The session key of a handshake can be computed from private keys exactly when they open
      every one of its inputs. */
  lemma SessionKeyKnown(alice: Handshake.Account, b: Handshake.Bundle, ephemeral: DhKey, ratchetKey: DhKey, coins: nat,
                        keys: set<DhKey>, kems: set<nat>)
    requires Handshake.FromBundle(alice, b, ephemeral, ratchetKey, coins).Ok?
    ensures var sk := Handshake.InitiatorSecret(alice.identity.value, b, ephemeral, coins);
            && IsSessionKey(sk)
            && (Derives(Knowledge({}, keys, kems), sk) <==> Opens(alice.identity.value, b, ephemeral, keys, kems))
  {
    assert IsSessionKey(Handshake.InitiatorSecret(alice.identity.value, b, ephemeral, coins));
    hide Dh, Derives;
    var w, me := Knowledge({}, keys, kems), alice.identity.value;
    SharedKnown(FromIdentity(me), b.spk.key, keys, kems);
    SharedKnown(ephemeral, FromIdentity(b.identity), keys, kems);
    SharedKnown(ephemeral, b.spk.key, keys, kems);
    if b.otpk.Some? { SharedKnown(ephemeral, b.otpk.value, keys, kems); }
    if b.pq.Some? { DecapsulatedKnown(w, b.pq.value.kem, Capsule(b.pq.value.kem, coins)); }
    InputsKnown(w, Dh(FromIdentity(me), b.spk.key), Dh(ephemeral, FromIdentity(b.identity)), Dh(ephemeral, b.spk.key),
                if b.otpk.Some? then Some(Dh(ephemeral, b.otpk.value)) else None,
                if b.pq.Some? then Some(Encapsulated(b.pq.value.kem, coins)) else None);
  }

  /**
   Forward secrecy from the handshake on: whoever takes everything the initiator's session holds
   can compute the key of a message it sealed or opened if and only if the private keys taken
   with it open every input of the handshake and have an end of every DH step up to the message.
   In hybrid mode the former includes the responder's KEM key, so that all the Diffie-Hellman
   keys there are do not suffice.
   */
  lemma HandshakeForwardSecrecy(alice: Handshake.Account, b: Handshake.Bundle, ephemeral: DhKey, ratchetKey: DhKey, coins: nat,
                                ops: seq<Op>, i: nat, k: Secret, keys: set<DhKey>, kems: set<nat>)
    requires var r := Handshake.FromBundle(alice, b, ephemeral, ratchetKey, coins);
             r.Ok? && Runs(r.value.0, ops) && i < |ops| && k in KeyOf(Trace(r.value.0, ops)[i])
    ensures var s := Handshake.FromBundle(alice, b, ephemeral, ratchetKey, coins).value.0;
            var sk := Handshake.InitiatorSecret(alice.identity.value, b, ephemeral, coins);
            Derives(Knowledge(Held(Final(s, ops)), keys, kems), k) <==>
            Opens(alice.identity.value, b, ephemeral, keys, kems) && HasEnds(k, sk, keys)
  {
    hide Derives, Opens, Held, KeyOf, Runs, Trace, Final, HasEnds;
    var s := Handshake.FromBundle(alice, b, ephemeral, ratchetKey, coins).value.0;
    var sk := Handshake.InitiatorSecret(alice.identity.value, b, ephemeral, coins);
    SessionKeyKnown(alice, b, ephemeral, ratchetKey, coins, keys, kems);
    assert StartsFrom(s, sk);
    ForwardSecrecy(s, sk, ops, i, k, keys, kems);
  }

  /** Private keys that give every input of the responder's handshake. */
  predicate ResponderOpens(bob: Handshake.Account, m: Handshake.Material, keys: set<DhKey>, kems: set<nat>)
    requires bob.identity.Some? && bob.spk.Some? && (m.pq.Some? ==> bob.pq.Some?)
  {
    && Meets(bob.spk.value.key, FromIdentity(m.identity), keys)
    && Meets(FromIdentity(bob.identity.value), m.ephemeral, keys)
    && Meets(bob.spk.value.key, m.ephemeral, keys)
    && (m.otpk.Some? ==> Meets(m.otpk.value, m.ephemeral, keys))
    && (m.pq.Some? ==> bob.pq.value.kem in kems)
  }

  lemma ResponderKeyKnown(bob: Handshake.Account, m: Handshake.Material, keys: set<DhKey>, kems: set<nat>)
    requires Handshake.Accept(bob, m).1.Ok?
    ensures var sk := Handshake.ResponderSecret(bob, m).value;
            && IsSessionKey(sk)
            && (Derives(Knowledge({}, keys, kems), sk) <==> ResponderOpens(bob, m, keys, kems))
  {
    assert IsSessionKey(Handshake.ResponderSecret(bob, m).value);
    hide Dh, Derives, Decapsulate;
    var w, spk, me := Knowledge({}, keys, kems), bob.spk.value.key, FromIdentity(bob.identity.value);
    SharedKnown(spk, FromIdentity(m.identity), keys, kems);
    SharedKnown(me, m.ephemeral, keys, kems);
    SharedKnown(spk, m.ephemeral, keys, kems);
    if m.otpk.Some? { SharedKnown(m.otpk.value, m.ephemeral, keys, kems); }
    if m.pq.Some? { DecapsulatedKnown(w, bob.pq.value.kem, m.pq.value); }
    InputsKnown(w, Dh(spk, FromIdentity(m.identity)), Dh(me, m.ephemeral), Dh(spk, m.ephemeral),
                if m.otpk.Some? then Some(Dh(m.otpk.value, m.ephemeral)) else None,
                if m.pq.Some? then Some(Decapsulate(bob.pq.value.kem, m.pq.value)) else None);
  }

  lemma DecapsulatedKnown(w: Knowledge, kem: nat, c: KemCipher)
    requires w.secrets == {}
    ensures Derives(w, Decapsulate(kem, c)) <==> kem in w.kems
  {
  }

  /** The same for the responder, whatever handshake it accepted. */
  lemma ResponderForwardSecrecy(bob: Handshake.Account, m: Handshake.Material,
                                ops: seq<Op>, i: nat, k: Secret, keys: set<DhKey>, kems: set<nat>)
    requires var r := Handshake.Accept(bob, m).1;
             r.Ok? && Runs(r.value, ops) && i < |ops| && k in KeyOf(Trace(r.value, ops)[i])
    ensures Derives(Knowledge(Held(Final(Handshake.Accept(bob, m).1.value, ops)), keys, kems), k) <==>
            ResponderOpens(bob, m, keys, kems) && HasEnds(k, Handshake.ResponderSecret(bob, m).value, keys)
  {
    hide Derives, Held, KeyOf, Runs, Trace, Final, HasEnds, ResponderOpens;
    var s, sk := Handshake.Accept(bob, m).1.value, Handshake.ResponderSecret(bob, m).value;
    ResponderKeyKnown(bob, m, keys, kems);
    assert StartsFrom(s, sk);
    ForwardSecrecy(s, sk, ops, i, k, keys, kems);
  }

  /** The private keys of an engine's identity file.  A consumed one-time prekey is only marked:
      its private half stays. */
  function FileKeys(acc: Handshake.Account): set<DhKey>
    requires acc.identity.Some? && acc.spk.Some?
  {
    {FromIdentity(acc.identity.value), acc.spk.value.key} + set o | o in acc.otpks :: o.key
  }

  function FileKems(acc: Handshake.Account): set<nat> { if acc.pq.Some? then {acc.pq.value.kem} else {} }

  lemma {:induction false} AdvanceKnown(w: Knowledge, c: Secret, n: nat)
    requires Derives(w, c)
    ensures Derives(w, Advance(c, n)) && Derives(w, MessageOf(Advance(c, n)))
  {
    if n != 0 { AdvanceKnown(w, c, n - 1); }
  }

  /** What is not protected: after every handshake that an engine accepts, its identity file
      alone gives the session key and every message key of the first receive chain, as long as
      the signed prekey is in place. */
  lemma FirstChainExposed(bob: Handshake.Account, m: Handshake.Material, theirs: DhKey, drawn: DhKey, n: nat)
    requires Handshake.Accept(bob, m).1.Ok?
    ensures var (after, r) := Handshake.Accept(bob, m);
            && after.identity.Some? && after.spk.Some?
            && ResponderOpens(bob, m, FileKeys(after), FileKems(after))
            && Derives(Knowledge({}, FileKeys(after), FileKems(after)),
                       MessageOf(Advance(DhStep(r.value, theirs, drawn).recv, n)))
  {
    var (after, r) := Handshake.Accept(bob, m);
    var keys, kems := FileKeys(after), FileKems(after);
    var w, spk := Knowledge({}, keys, kems), bob.spk.value.key;
    if m.otpk.Some? {
      var k := Handshake.FindOtpk(bob.otpks, m.otpk.value);
      assert after.otpks[k] == Handshake.OneTime(m.otpk.value, true);
    }
    ResponderKeyKnown(bob, m, keys, kems);
    assert Derives(w, Dh(spk, theirs)) by {
      if !theirs.SmallOrder? { SharedKnown(spk, theirs, keys, kems); }
    }
    AdvanceKnown(w, ChainOf(Handshake.ResponderSecret(bob, m).value, Dh(spk, theirs)), n);
  }

  /** The condition is needed: in classic mode the initiator's own private keys, had they been
      kept, give the key of its first message. */
  lemma ClassicKeysSuffice(alice: Handshake.Account, b: Handshake.Bundle, ephemeral: DhKey, ratchetKey: DhKey, coins: nat,
                           plain: seq<byte>)
    requires Handshake.FromBundle(alice, b, ephemeral, ratchetKey, coins).Ok? && b.pq.None?
    ensures var s := Handshake.FromBundle(alice, b, ephemeral, ratchetKey, coins).value.0;
            var sent := Encrypt(s, plain).1;
            && sent.Ok? && sent.value.body.Sealed?
            && Derives(Knowledge({}, {FromIdentity(alice.identity.value), ephemeral, ratchetKey}, {}), sent.value.body.key)
  {
    var keys := {FromIdentity(alice.identity.value), ephemeral, ratchetKey};
    var sk := Handshake.InitiatorSecret(alice.identity.value, b, ephemeral, coins);
    SessionKeyKnown(alice, b, ephemeral, ratchetKey, coins, keys, {});
    SharedKnown(ratchetKey, b.spk.key, keys, {});
    assert Derives(Knowledge({}, keys, {}), ChainOf(sk, Dh(ratchetKey, b.spk.key)));
  }

  // ---- Post-compromise security ----

  /** `x` went into the derivation of `t`. */
  predicate Needs(t: Secret, x: Secret)
    decreases t
  {
    t == x ||
    match t
    case RootOf(r, d) => Needs(r, x) || Needs(d, x)
    case ChainOf(r, d) => Needs(r, x) || Needs(d, x)
    case NextOf(c) => Needs(c, x)
    case MessageOf(c) => Needs(c, x)
    case SessionKey(_, ikm) => exists i :: 0 <= i < |ikm| && Needs(ikm[i], x)
    case _ => false
  }

  /** `x` is out of reach, and nothing known was derived from it. */
  ghost predicate Unknown(w: Knowledge, x: Secret) { !Derives(w, x) && forall b :: b in w.secrets ==> !Needs(b, x) }

  lemma {:induction false} NeedsUnknown(w: Knowledge, t: Secret, x: Secret)
    requires Needs(t, x) && Unknown(w, x)
    ensures !Derives(w, t)
    decreases t
  {
    if t != x {
      match t
      case RootOf(r, d) => if Needs(r, x) { NeedsUnknown(w, r, x); } else { NeedsUnknown(w, d, x); }
      case ChainOf(r, d) => if Needs(r, x) { NeedsUnknown(w, r, x); } else { NeedsUnknown(w, d, x); }
      case NextOf(c) => NeedsUnknown(w, c, x);
      case MessageOf(c) => NeedsUnknown(w, c, x);
      case SessionKey(_, ikm) =>
        var i :| 0 <= i < |ikm| && Needs(ikm[i], x);
        NeedsUnknown(w, ikm[i], x);
    }
  }

  /** Root and send chain rest on `x`. */
  predicate Healed(s: State, x: Secret) { Needs(s.root, x) && s.hasSend && Needs(s.send, x) }

  lemma DhStepHealed(s: State, theirs: DhKey, drawn: DhKey, x: Secret)
    requires Needs(s.root, x) || x == Dh(drawn, theirs)
    ensures Healed(DhStep(s, theirs, drawn), x)
  {
    hide Dh;
    var r := DhStep(s, theirs, drawn).root;
    assert r.root == RootOf(s.root, Dh(s.dhs, theirs));
    assert Needs(r.root, x) || Needs(r.dh, x);
  }

  lemma ReceiveHealed(s: State, p: Packet, x: Secret)
    requires Healed(s, x)
    ensures Healed(Receive(s, p).0, x)
  {
    hide Needs;
    if s.nr < p.header.n { SkipLoopFrame(s, p.header.n); }
  }

  lemma DecryptHealed(s: State, p: Packet, drawn: DhKey, x: Secret)
    requires ChainExists(s, p.header)
    requires Healed(s, x) || (Opening(s, p.header) && x == Dh(drawn, p.header.dh))
    ensures Healed(DecryptPacket(s, p, drawn).0, x)
  {
    hide Needs, Receive, DhStep, Dh;
    var h := p.header;
    if !Cached(s, h) && !(s.hasRecv && s.dhr == h.dh && h.n < s.nr) {
      if Turns(s, h) {
        if SkipTo(s, h.pn).Some? {
          if s.nr < h.pn { SkipLoopFrame(s, h.pn); }
          var s1 := SkipTo(s, h.pn).value;
          DhStepHealed(s1, h.dh, drawn, x);
          ReceiveHealed(DhStep(s1, h.dh, drawn), p, x);
        }
      } else {
        ReceiveHealed(s, p, x);
      }
    }
  }

  /** A packet with this header makes the session take a DH step. */
  predicate Opening(s: State, h: Header) {
    !Cached(s, h) && Turns(s, h) && (s.hasRecv ==> s.hasDhr) && SkipTo(s, h.pn).Some?
  }

  lemma {:induction false} AdvanceNeeds(c: Secret, n: nat, x: Secret)
    requires Needs(c, x)
    ensures Needs(Advance(c, n), x) && Needs(MessageOf(Advance(c, n)), x)
  {
    if n != 0 { AdvanceNeeds(c, n - 1, x); }
  }

  /** No message key of a chain that starts at `c` is known. */
  ghost predicate ChainUnknown(c: Secret, w: Knowledge) {
    forall n: nat :: !Derives(w, MessageOf(Advance(c, n)))
  }

  lemma NeedsChainUnknown(c: Secret, x: Secret, w: Knowledge)
    requires Needs(c, x) && Unknown(w, x)
    ensures ChainUnknown(c, w)
  {
    hide Derives, Needs;
    forall n: nat ensures !Derives(w, MessageOf(Advance(c, n))) {
      AdvanceNeeds(c, n, x);
      NeedsUnknown(w, MessageOf(Advance(c, n)), x);
    }
  }

  lemma StepHealed(s: State, op: Op, x: Secret)
    requires Healed(s, x) && Enabled(s, op)
    ensures Healed(Apply(s, op).0, x)
    ensures Apply(s, op).1.Sent? ==> var b := Apply(s, op).1.packet.body; b.Sealed? && Needs(b.key, x)
    ensures forall c :: c in ChainOpened(s, op) ==> Needs(c.start, x)
  {
    hide DecryptPacket, Dh;
    if op.Deliver? && op.d.Arrived? { DecryptHealed(s, op.d.packet, op.drawn, x); }
    assert Needs(MessageOf(s.send), x) && Needs(NextOf(s.send), x);
  }

  /** Once a step has gone into the root, it goes into everything that follows. */
  lemma {:induction false} RunHealed(s: State, ops: seq<Op>, x: Secret)
    requires Healed(s, x) && Runs(s, ops)
    ensures forall i :: 0 <= i < |ops| && Trace(s, ops)[i].Sent? ==>
              var b := Trace(s, ops)[i].packet.body; b.Sealed? && Needs(b.key, x)
    ensures forall c :: c in ChainsOpened(s, ops) ==> Needs(c.start, x)
    decreases |ops|
  {
    hide Apply, ChainOpened, Healed, Needs;
    if ops != [] {
      StepHealed(s, ops[0], x);
      RunHealed(Apply(s, ops[0]).0, ops[1..], x);
      assert forall i :: 1 <= i < |ops| ==> Trace(s, ops)[i] == Trace(Apply(s, ops[0]).0, ops[1..])[i - 1];
    }
  }

  /**
   Post-compromise security: let everything about a session be known, all of its secrets and
   private keys and any others.  After one DH step between a newly drawn key and a peer key
   that are not known, no packet the session seals in any later run can be opened with that
   knowledge, and neither can any packet of a receive chain that the run opens.
   */
  lemma PostCompromiseSecurity(s: State, theirs: DhKey, drawn: DhKey, ops: seq<Op>,
                               w: Knowledge)
    requires drawn !in w.keys && theirs !in w.keys && !theirs.SmallOrder?
    requires forall b :: b in w.secrets ==> !Needs(b, Dh(drawn, theirs))
    requires Runs(DhStep(s, theirs, drawn), ops)
    ensures forall i :: 0 <= i < |ops| && Trace(DhStep(s, theirs, drawn), ops)[i].Sent? ==>
              var b := Trace(DhStep(s, theirs, drawn), ops)[i].packet.body; b.Sealed? && !Derives(w, b.key)
    ensures forall c :: c in ChainsOpened(DhStep(s, theirs, drawn), ops) ==> ChainUnknown(c.start, w)
  {
    hide Derives, Needs, Runs, Trace, DhStep, ChainUnknown;
    var x, s' := Dh(drawn, theirs), DhStep(s, theirs, drawn);
    DhStepHealed(s, theirs, drawn, x);
    RunHealed(s', ops, x);
    FreshUnknown(w, drawn, theirs);
    forall i | 0 <= i < |ops| && Trace(s', ops)[i].Sent? ensures !Derives(w, Trace(s', ops)[i].packet.body.key) {
      NeedsUnknown(w, Trace(s', ops)[i].packet.body.key, x);
    }
    forall c | c in ChainsOpened(s', ops) ensures ChainUnknown(c.start, w) {
      NeedsChainUnknown(c.start, x, w);
    }
  }

  lemma FreshUnknown(w: Knowledge, a: DhKey, b: DhKey)
    requires a !in w.keys && b !in w.keys && !b.SmallOrder?
    requires forall t :: t in w.secrets ==> !Needs(t, Dh(a, b))
    ensures Unknown(w, Dh(a, b))
  {
    assert Needs(Dh(a, b), Dh(a, b));
    assert {a, b} * w.keys == {};
  }

  // ---- Forward secrecy when the whole device is taken ----

  lemma {:induction false} RunsSplit(s: State, ops: seq<Op>, j: nat)
    requires Runs(s, ops) && j <= |ops|
    ensures Runs(s, ops[..j]) && Runs(Final(s, ops[..j]), ops[j..])
    ensures Trace(s, ops)[j..] == Trace(Final(s, ops[..j]), ops[j..])
    decreases |ops|
  {
    hide Apply, Enabled;
    if j == 0 {
      assert ops[0..] == ops && ops[..0] == [];
    } else {
      var s', rest := Apply(s, ops[0]).0, ops[1..];
      RunsSplit(s', rest, j - 1);
      assert ops[..j][1..] == rest[..j - 1] && ops[j..] == rest[j - 1..];
      assert Trace(s, ops)[j..] == Trace(s', rest)[j - 1..];
    }
  }

  /** Delivery `j` of the run opens a new receive chain. */
  ghost predicate TakesStep(s: State, ops: seq<Op>, j: nat)
    requires Runs(s, ops) && j < |ops|
  {
    RunsSplit(s, ops, j);
    ops[j].Deliver? && ops[j].d.Arrived? && ChainOpened(Final(s, ops[..j]), ops[j]) != {}
  }

  /** Key `k` seals a packet of step `i`, or belongs to a receive chain opened after step `j`. */
  ghost predicate UsedAfter(s: State, ops: seq<Op>, j: nat, i: nat, k: Secret)
    requires Runs(s, ops) && j < i < |ops|
  {
    RunsSplit(s, ops, j + 1);
    && k in KeyOf(Trace(s, ops)[i])
    && (Trace(s, ops)[i].Sent? ||
        exists c, n: nat :: c in ChainsOpened(Final(s, ops[..j + 1]), ops[j + 1..]) && k == MessageOf(Advance(c.start, n)))
  }

  /**
   Forward secrecy when the whole device is taken.  Let step `j` of any run take a DH step
   between a drawn key and a peer key.  Whatever message was sealed after it, or opened on a
   receive chain opened after it: once both keys are gone, everything the session holds and all
   other private keys there are, those that open the handshake included, do not give its key.
   */
  lemma DeviceForwardSecrecy(s: State, sk: Secret, ops: seq<Op>, j: nat, i: nat, k: Secret, keys: set<DhKey>, kems: set<nat>)
    requires IsSessionKey(sk) && StartsFrom(s, sk) && Runs(s, ops) && j < i < |ops| && UsedAfter(s, ops, j, i, k)
    requires TakesStep(s, ops, j)
    requires var theirs := ops[j].d.packet.header.dh;
             ops[j].drawn !in keys && theirs !in keys && !theirs.SmallOrder?
    ensures !Derives(Knowledge(Held(Final(s, ops)), keys, kems), k)
  {
    var p, drawn := ops[j].d.packet, ops[j].drawn;
    var x, w := Dh(drawn, p.header.dh), Knowledge({}, keys, kems);
    RunsSplit(s, ops, j);
    RunsSplit(s, ops, j + 1);
    StepsOneMore(s, ops, j);
    hide Derives, Needs, Trace, Final, Held, Apply;
    ReachableOpening(s, sk, ops[..j], ops[j]);
    var s2 := Final(s, ops[..j + 1]);
    assert Healed(s2, x);
    RunHealed(s2, ops[j + 1..], x);
    assert Trace(s, ops)[i] == Trace(s, ops)[j + 1..][i - j - 1];
    assert Needs(k, x) by {
      if !Trace(s, ops)[i].Sent? {
        var c, n: nat :| c in ChainsOpened(s2, ops[j + 1..]) && k == MessageOf(Advance(c.start, n));
        AdvanceNeeds(c.start, n, x);
      }
    }
    FreshUnknown(w, drawn, p.header.dh);
    NeedsUnknown(w, k, x);
    ForwardSecrecy(s, sk, ops, i, k, keys, kems);
  }

  lemma StepsOneMore(s: State, ops: seq<Op>, j: nat)
    requires Runs(s, ops) && j < |ops| && Runs(s, ops[..j]) && Runs(s, ops[..j + 1])
    ensures Enabled(Final(s, ops[..j]), ops[j])
    ensures Final(s, ops[..j + 1]) == Apply(Final(s, ops[..j]), ops[j]).0
    decreases |ops|
  {
    hide Apply, Enabled;
    var a := ops[..j + 1];
    if j > 0 {
      RunsSplit(s, ops, 1);
      var s', rest := Apply(s, ops[0]).0, ops[1..];
      assert a[1..] == rest[..j] && ops[..j][1..] == rest[..j - 1];
      StepsOneMore(s', rest, j - 1);
    }
  }

  /** A reachable session that opens a receive chain is healed by the step. */
  lemma ReachableOpening(s: State, sk: Secret, ops: seq<Op>, op: Op)
    requires StartsFrom(s, sk) && Runs(s, ops) && op.Deliver? && op.d.Arrived?
    requires Enabled(Final(s, ops), op) && ChainOpened(Final(s, ops), op) != {}
    ensures Healed(Apply(Final(s, ops), op).0, Dh(op.drawn, op.d.packet.header.dh))
  {
    hide Healed, Final, Dh;
    RunCache(s, ops, {}, true);
    DecryptHealed(Final(s, ops), op.d.packet, op.drawn, Dh(op.drawn, op.d.packet.header.dh));
  }
}
