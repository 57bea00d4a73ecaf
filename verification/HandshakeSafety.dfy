/**
 What the handshake guarantees over runs of the responder's engine: agreement with the
 initiator in all four modes, separation of the modes, and single use of prekeys.
 */
module HandshakeSafety {
  import opened Symbolic
  import opened Handshake
  import Ratchet
  import TwoParty

  // ---- Agreement under interleaving ----

  predicate HonestDraw(draw: Draw) { draw.spk.Random? && draw.otpk.Random? }

  predicate HonestDraws(ops: seq<Op>) {
    forall i :: 0 <= i < |ops| ==>
      (ops[i].DoGenerate? ==> HonestDraw(ops[i].draw)) && (ops[i].DoRotate? ==> HonestDraw(ops[i].draw))
  }

  function NewDevice(id: nat): Device { Device(NO_ACCOUNT.(identity := Some(id)), None) }

  /** Published prekeys carry the engine's own signatures. */
  predicate WellSigned(acc: Account) {
    && (acc.spk.Some? || acc.pq.Some? ==> acc.identity.Some?)
    && (acc.spk.Some? ==> acc.spk.value.key.Random?)
    && (acc.spk.Some? ==> Verified(acc.identity.value, DhPublic(acc.spk.value.key), acc.spk.value.signature))
    && (acc.pq.Some? ==> Verified(acc.identity.value, KemPublic(acc.pq.value.kem), acc.pq.value.signature))
    && (acc.pq.Some? ==> KemWorks(acc.pq.value.kem))
  }

  predicate DeviceSigned(d: Device) { WellSigned(d.acc) && (d.disk.Some? ==> WellSigned(d.disk.value)) }

  lemma StepSigned(d: Device, op: Op)
    requires DeviceSigned(d) && HonestDraws([op])
    ensures DeviceSigned(Apply(d, op).0)
  {
    assert [op][0] == op;
  }

  lemma {:induction false} RunSigned(d: Device, ops: seq<Op>)
    requires DeviceSigned(d) && HonestDraws(ops)
    ensures DeviceSigned(Final(d, ops))
    decreases |ops|
  {
    if ops != [] {
      hide Apply, DeviceSigned;
      StepSigned(d, ops[0]);
      assert forall i :: 0 <= i < |ops[1..]| ==> ops[1..][i] == ops[i + 1];
      RunSigned(Apply(d, ops[0]).0, ops[1..]);
    }
  }

  /** The engine still holds everything a handshake from this bundle needs; on disk too, once it
      has been saved. */
  predicate Serves(d: Device, whole: Bundle, saved: bool) {
    && DeviceSigned(d)
    && AccountServes(d.acc, whole)
    && (saved ==> d.disk.Some? && AccountServes(d.disk.value, whole))
  }

  predicate AccountServes(acc: Account, whole: Bundle) {
    && acc.identity == Some(whole.identity) && acc.spk == Some(whole.spk) && acc.pq.Some? && acc.pq == whole.pq
    && (whole.otpk.Some? ==> OneTime(whole.otpk.value, false) in acc.otpks)
  }

  /** What may happen between publication and handshake: anything but a rotation and another
      handshake on the same one-time prekey. */
  predicate Between(op: Op, whole: Bundle) {
    && !op.DoRotate?
    && (op.DoAccept? && op.m.otpk.Some? ==> op.m.otpk != whole.otpk)
  }

  /** After the step memory and disk agree. */
  predicate Saves(d: Device, op: Op) { Apply(d, op).0.disk == Some(Apply(d, op).0.acc) }

  /** No restart comes before a save has worked. */
  predicate NoEarlyRestart(d: Device, ops: seq<Op>, saved: bool)
    decreases |ops|
  {
    ops == [] || (
      && (ops[0].DoReload? ==> saved)
      && NoEarlyRestart(Apply(d, ops[0]).0, ops[1..], saved || Saves(d, ops[0])))
  }

  lemma KeepsServing(d: Device, op: Op, whole: Bundle, saved: bool)
    requires Serves(d, whole, saved) && Between(op, whole) && (op.DoGenerate? ==> HonestDraw(op.draw))
    requires op.DoReload? ==> saved
    ensures Serves(Apply(d, op).0, whole, saved || Saves(d, op))
  {
    if whole.otpk.Some? {
      var x := OneTime(whole.otpk.value, false);
      if op.DoAccept? && op.m.otpk.Some? {
        var k := FindOtpk(d.acc.otpks, op.m.otpk.value);
        if k < |d.acc.otpks| {
          var i :| 0 <= i < |d.acc.otpks| && d.acc.otpks[i] == x;
          assert d.acc.otpks[k := OneTime(op.m.otpk.value, true)][i] == x;
        }
      }
    }
  }

  lemma {:induction false} RunServes(d: Device, ops: seq<Op>, whole: Bundle, saved: bool)
    requires Serves(d, whole, saved) && HonestDraws(ops) && forall i :: 0 <= i < |ops| ==> Between(ops[i], whole)
    requires NoEarlyRestart(d, ops, saved)
    ensures Serves(Final(d, ops), whole, saved)
    decreases |ops|
  {
    if ops != [] {
      KeepsServing(d, ops[0], whole, saved);
      assert forall i :: 0 <= i < |ops[1..]| ==> ops[1..][i] == ops[i + 1];
      hide Apply, Saves, AccountServes;
      RunServes(Apply(d, ops[0]).0, ops[1..], whole, saved || Saves(d, ops[0]));
    }
  }

  /** `b` is the published bundle, the server having withheld the one-time prekey, the
      post-quantum prekey, both or neither. */
  predicate Served(whole: Bundle, b: Bundle) {
    && b == whole.(otpk := b.otpk, pq := b.pq)
    && (b.otpk == whole.otpk || b.otpk == None) && (b.pq == whole.pq || b.pq == None)
  }

  lemma DhCommutes(a: DhKey, b: DhKey)
    requires !a.SmallOrder? && !b.SmallOrder?
    ensures Dh(a, b) == Dh(b, a)
  {
    assert {a, b} == {b, a};
  }

  /** The responder derives the initiator's session key. */
  lemma SecretsAgree(me: nat, b: Bundle, ephemeral: DhKey, coins: nat, acc: Account, m: Material)
    requires AccountServes(acc, b.(pq := acc.pq, otpk := None)) && acc.spk.value.key.Random? && ephemeral.Random?
    requires b.otpk.Some? ==> b.otpk.value.Random?
    requires b.pq.Some? ==> acc.pq == b.pq
    requires m == Material(me, ephemeral, b.otpk, if b.pq.Some? then Some(Capsule(b.pq.value.kem, coins)) else None)
    ensures ResponderSecret(acc, m) == Some(InitiatorSecret(me, b, ephemeral, coins))
  {
    DhCommutes(b.spk.key, FromIdentity(me));
    DhCommutes(FromIdentity(b.identity), ephemeral);
    DhCommutes(b.spk.key, ephemeral);
    if b.otpk.Some? { DhCommutes(b.otpk.value, ephemeral); }
  }

  lemma ResponderAccepts(d: Device, whole: Bundle, b: Bundle, me: nat, ephemeral: DhKey, coins: nat, works: bool)
    requires Serves(d, whole, false) && Served(whole, b) && ephemeral.Random?
    requires whole.otpk.Some? ==> whole.otpk.value.Random?
    requires (d.acc.requirePq ==> b.pq.Some?) && Converts(me) && Converts(whole.identity)
    ensures var m := Material(me, ephemeral, b.otpk, if b.pq.Some? then Some(Capsule(b.pq.value.kem, coins)) else None);
            AcceptSaving(d, m, works).1 ==
            Ok(Ratchet.Responder(Ratchet.Identities(me, b.identity), InitiatorSecret(me, b, ephemeral, coins), b.spk.key))
  {
    var m := Material(me, ephemeral, b.otpk, if b.pq.Some? then Some(Capsule(b.pq.value.kem, coins)) else None);
    SecretsAgree(me, b, ephemeral, coins, d.acc, m);
    if b.otpk.Some? {
      var i :| 0 <= i < |d.acc.otpks| && d.acc.otpks[i] == OneTime(b.otpk.value, false);
      assert FindOtpk(d.acc.otpks, b.otpk.value) <= i;
    }
  }

  /** Generating a bundle starts serving it, from disk too if the save works. */
  lemma GenerateServes(d: Device, draw: Draw, works: bool)
    requires DeviceSigned(d) && HonestDraw(draw) && Generate(d, draw, works).1.Ok?
    ensures var (d', r) := Generate(d, draw, works); Serves(d', r.value, works) && r.value.otpk == Some(draw.otpk)
  {
    var otpks := Generate(d, draw, works).0.acc.otpks;
    assert otpks[|otpks| - 1] == OneTime(draw.otpk, false);
  }

  /** A bundle published by a responder's engine with any past, what that engine does
      before the handshake reaches it, and an initiator that was served the bundle. */
  datatype Scenario = Scenario(
    id: nat, before: seq<Op>, draw: Draw, saved: bool, between: seq<Op>, b: Bundle,
    alice: Account, ephemeral: DhKey, ratchetKey: DhKey, coins: nat)

  function Published(x: Scenario): (Device, Result<Bundle>) {
    Generate(Final(NewDevice(x.id), x.before), x.draw, x.saved)
  }

  function AtHandshake(x: Scenario): Device { Final(Published(x).0, x.between) }

  /** Every key pair is drawn honestly, both identity keys are proper, the published prekeys are
      on disk before a restart, and neither side insists on a post-quantum component that the
      served bundle lacks. */
  ghost predicate Honest(x: Scenario) {
    && HonestDraws(x.before) && HonestDraws(x.between) && HonestDraw(x.draw)
    && x.ephemeral.Random? && x.ratchetKey.Random?
    && Published(x).1.Ok? && Served(Published(x).1.value, x.b)
    && (forall i :: 0 <= i < |x.between| ==> Between(x.between[i], Published(x).1.value))
    && NoEarlyRestart(Published(x).0, x.between, x.saved)
    && x.alice.identity.Some? && Converts(x.alice.identity.value) && Converts(Published(x).1.value.identity)
    && (x.alice.requirePq || AtHandshake(x).acc.requirePq ==> x.b.pq.Some?)
  }

  function Left(x: Scenario): Result<(Ratchet.State, Material)> {
    FromBundle(x.alice, x.b, x.ephemeral, x.ratchetKey, x.coins)
  }

  function Right(x: Scenario, works: bool): Result<Ratchet.State>
    requires Left(x).Ok?
  {
    AcceptSaving(AtHandshake(x), Left(x).value.1, works).1
  }

  /** Handshake agreement: whatever the responder's engine did before, and whatever bundles,
      other handshakes, settings and restarts come in between, both ends of a handshake on
      a published bundle hold matching sessions in each of the four modes; the first
      receive chain the responder will open is the initiator's send chain. */
  lemma HandshakeAgreement(x: Scenario, works: bool, next: DhKey)
    requires Honest(x)
    ensures Left(x).Ok? && Right(x, works).Ok?
    ensures var ad := Ratchet.Identities(x.alice.identity.value, x.b.identity);
            var sk := InitiatorSecret(x.alice.identity.value, x.b, x.ephemeral, x.coins);
            && Left(x).value.0 == Ratchet.Initiator(ad, sk, x.ratchetKey, x.b.spk.key)
            && Right(x, works).value == Ratchet.Responder(ad, sk, x.b.spk.key)
    ensures Ratchet.DhStep(Right(x, works).value, Left(x).value.0.dhs, next).recv == Left(x).value.0.send
    ensures x.b.spk.key.Random?
  {
    RunSigned(NewDevice(x.id), x.before);
    GenerateServes(Final(NewDevice(x.id), x.before), x.draw, x.saved);
    var whole := Published(x).1.value;
    RunServes(Published(x).0, x.between, whole, x.saved);
    ResponderAccepts(AtHandshake(x), whole, x.b, x.alice.identity.value, x.ephemeral, x.coins, works);
    DhCommutes(x.b.spk.key, x.ratchetKey);
  }

  /** Both sessions as the handshake leaves them, nothing sent yet. */
  function Conversation(x: Scenario, works: bool): TwoParty.System
    requires Left(x).Ok? && Right(x, works).Ok?
  {
    TwoParty.System(Left(x).value.0, Right(x, works).value, [], {}, {x.ratchetKey, x.b.spk.key})
  }

  /** From bundle to messages: after an honest handshake every packet that the network hands
      over opens, in every run of the conversation. */
  lemma HandshakeThenConversation(x: Scenario, works: bool, steps: seq<TwoParty.Step>)
    requires Honest(x) && Left(x).Ok? && Right(x, works).Ok? && x.ratchetKey != x.b.spk.key
    requires TwoParty.AllAllowed(Conversation(x, works), steps)
    ensures TwoParty.AllOpen(Conversation(x, works), steps)
  {
    HandshakeAgreement(x, works, x.ratchetKey);
    TwoParty.Agreement(Conversation(x, works),
                       Ratchet.Identities(x.alice.identity.value, x.b.identity),
                       InitiatorSecret(x.alice.identity.value, x.b, x.ephemeral, x.coins),
                       x.ratchetKey, x.b.spk.key, steps);
  }

  // ---- Mode separation ----

  /** If the responder reads either flag of the handshake differently, then whatever else it
      read, its session key differs and the initiator's first packet does not open. */
  lemma FlagMismatchFails(alice: Account, b: Bundle, ephemeral: DhKey, ratchetKey: DhKey, coins: nat,
                          bob: Account, m: Material, plain: seq<byte>, next: DhKey)
    requires FromBundle(alice, b, ephemeral, ratchetKey, coins).Ok? && Accept(bob, m).1.Ok?
    requires m.otpk.Some? != b.otpk.Some? || m.pq.Some? != b.pq.Some?
    ensures ResponderSecret(bob, m) != Some(InitiatorSecret(alice.identity.value, b, ephemeral, coins))
    ensures var left := FromBundle(alice, b, ephemeral, ratchetKey, coins).value.0;
            var right := Accept(bob, m).1.value;
            var sent := Ratchet.Encrypt(left, plain).1;
            && sent.Ok? && Ratchet.ChainExists(right, sent.value.header)
            && Ratchet.DecryptPacket(right, sent.value, next).1 == Err(CryptoFailure)
  {
    var me := alice.identity.value;
    var spk := bob.spk.value.key;
    var dh4a := if b.otpk.Some? then Some(Dh(ephemeral, b.otpk.value)) else None;
    var ssa := if b.pq.Some? then Some(Encapsulated(b.pq.value.kem, coins)) else None;
    var dh4b := if m.otpk.Some? then Some(Dh(m.otpk.value, m.ephemeral)) else None;
    var ssb := if m.pq.Some? then Some(Decapsulate(bob.pq.value.kem, m.pq.value)) else None;
    if ResponderSecret(bob, m) == Some(InitiatorSecret(me, b, ephemeral, coins)) {
      DeriveInjective(Dh(FromIdentity(me), b.spk.key), Dh(ephemeral, FromIdentity(b.identity)), Dh(ephemeral, b.spk.key), dh4a, ssa,
                      Dh(spk, FromIdentity(m.identity)), Dh(FromIdentity(bob.identity.value), m.ephemeral), Dh(spk, m.ephemeral), dh4b, ssb);
    }
  }

  // ---- One-time prekeys are used once ----

  /** A failing handshake changes nothing, in memory or on disk. */
  lemma FailedAcceptFrames(d: Device, m: Material, works: bool)
    requires AcceptSaving(d, m, works).1.Err?
    ensures AcceptSaving(d, m, works).0 == d
  {
  }

  /** No key is listed twice, and all were generated here. */
  ghost predicate Listed(otpks: seq<OneTime>, minted: set<DhKey>) {
    && (forall i :: 0 <= i < |otpks| ==> otpks[i].key in minted)
    && (forall i, j :: 0 <= i < j < |otpks| ==> otpks[i].key != otpks[j].key)
  }

  /** No usable prekey in memory has been used; one that is usable on disk, but was used, is
      marked as consumed in memory. */
  ghost predicate SpendInv(d: Device, used: set<DhKey>, minted: set<DhKey>) {
    && used <= minted
    && Listed(d.acc.otpks, minted)
    && (forall k :: k in used ==> OneTime(k, false) !in d.acc.otpks)
    && (d.disk.Some? ==> (
          && Listed(d.disk.value.otpks, minted)
          && forall k :: k in used && OneTime(k, false) in d.disk.value.otpks ==> OneTime(k, true) in d.acc.otpks))
  }

  /** Every consumption that memory knows of is on disk, or the disk does not have the key. */
  predicate Recorded(d: Device) {
    d.disk.Some? ==>
      forall i :: 0 <= i < |d.acc.otpks| && d.acc.otpks[i].consumed ==> OneTime(d.acc.otpks[i].key, false) !in d.disk.value.otpks
  }

  /** Every generated one-time prekey is new, and no restart comes while a consumption is not
      on disk yet.  Saves may fail. */
  ghost predicate Careful(d: Device, ops: seq<Op>, minted: set<DhKey>)
    decreases |ops|
  {
    ops == [] || (
      && (ops[0].DoGenerate? ==> ops[0].draw.otpk !in minted)
      && (ops[0].DoReload? ==> Recorded(d))
      && Careful(Apply(d, ops[0]).0, ops[1..], MintedAfter(ops[0], minted)))
  }

  function MintedAfter(op: Op, minted: set<DhKey>): set<DhKey> {
    if op.DoGenerate? then minted + {op.draw.otpk} else minted
  }

  lemma SaveSpends(d: Device, works: bool, used: set<DhKey>, minted: set<DhKey>)
    requires SpendInv(d, used, minted)
    ensures SpendInv(Save(d, works), used, minted)
  {
  }

  lemma AddSpends(d: Device, key: DhKey, used: set<DhKey>, minted: set<DhKey>)
    requires SpendInv(d, used, minted) && key !in minted
    ensures SpendInv(d.(acc := d.acc.(otpks := d.acc.otpks + [OneTime(key, false)])), used, minted + {key})
  {
    var otpks := d.acc.otpks + [OneTime(key, false)];
    assert forall x :: x in d.acc.otpks ==> x in otpks;
    assert forall x :: x in otpks ==> x in d.acc.otpks || x == OneTime(key, false);
  }

  /** Only the list of one-time prekeys matters. */
  lemma OtherSpends(d: Device, acc: Account, used: set<DhKey>, minted: set<DhKey>, more: set<DhKey>)
    requires SpendInv(d, used, minted) && acc.otpks == d.acc.otpks
    ensures SpendInv(d.(acc := acc), used, minted + more) && minted + {} == minted
  {
  }

  lemma RotateSpends(d: Device, draw: Draw, works: bool, used: set<DhKey>, minted: set<DhKey>)
    requires SpendInv(d, used, minted)
    ensures SpendInv(Rotate(d, draw, works).0, used, minted)
  {
    hide SpendInv;
    if d.acc.identity.Some? {
      var me := d.acc.identity.value;
      var acc1 := d.acc.(spk := Some(SignedPrekey(draw.spk, IdSigned(me, DhPublic(draw.spk)))));
      OtherSpends(d, acc1, used, minted, {});
      if draw.kem.Some? && KemWorks(draw.kem.value) {
        var acc2 := acc1.(pq := Some(PqPrekey(draw.kem.value, IdSigned(me, KemPublic(draw.kem.value)))));
        OtherSpends(d, acc2, used, minted, {});
        SaveSpends(d.(acc := acc2), works, used, minted);
      }
    }
  }

  lemma GenerateSpends(d: Device, draw: Draw, works: bool, used: set<DhKey>, minted: set<DhKey>)
    requires SpendInv(d, used, minted) && draw.otpk !in minted
    ensures SpendInv(Generate(d, draw, works).0, used, minted + {draw.otpk})
  {
    hide SpendInv, Rotate;
    OtherSpends(d, d.acc, used, minted, {draw.otpk});
    RotateSpends(d, draw, draw.rotationSaved, used, minted);
    var d1 := if Ready(d.acc) then d else Rotate(d, draw, draw.rotationSaved).0;
    OtherSpends(d1, d1.acc, used, minted, {draw.otpk});
    AddSpends(d1, draw.otpk, used, minted);
    SaveSpends(d1.(acc := d1.acc.(otpks := d1.acc.otpks + [OneTime(draw.otpk, false)])), works, used, minted + {draw.otpk});
  }

  lemma ConsumeSpends(d: Device, k: nat, used: set<DhKey>, minted: set<DhKey>)
    requires SpendInv(d, used, minted) && k < |d.acc.otpks| && !d.acc.otpks[k].consumed
    ensures var key := d.acc.otpks[k].key;
            && key !in used
            && SpendInv(d.(acc := d.acc.(otpks := d.acc.otpks[k := OneTime(key, true)])), used + {key}, minted)
  {
    var key, before := d.acc.otpks[k].key, d.acc.otpks;
    var after := before[k := OneTime(key, true)];
    assert OneTime(key, false) == before[k];
    assert after[k] == OneTime(key, true);
    forall x | x in before && x.key != key ensures x in after {
      var i :| 0 <= i < |before| && before[i] == x;
      assert after[i] == x;
    }
    assert forall x :: x in after ==> x == OneTime(key, true) || (x in before && x.key != key);
  }

  lemma AcceptSpends(d: Device, m: Material, works: bool, used: set<DhKey>, minted: set<DhKey>)
    requires SpendInv(d, used, minted)
    ensures var (d', r) := AcceptSaving(d, m, works);
            if r.Ok? && m.otpk.Some? then m.otpk.value !in used && SpendInv(d', used + {m.otpk.value}, minted)
            else SpendInv(d', used, minted)
  {
    hide SpendInv, ResponderSecret;
    if m.otpk.Some? {
      var k := FindOtpk(d.acc.otpks, m.otpk.value);
      if k < |d.acc.otpks| {
        ConsumeSpends(d, k, used, minted);
        SaveSpends(d.(acc := d.acc.(otpks := d.acc.otpks[k := OneTime(m.otpk.value, true)])), works, used + {m.otpk.value}, minted);
      }
    }
  }

  lemma ReloadSpends(d: Device, used: set<DhKey>, minted: set<DhKey>)
    requires SpendInv(d, used, minted) && Recorded(d)
    ensures SpendInv(Reload(d), used, minted)
  {
    if d.disk.Some? {
      forall k | k in used ensures OneTime(k, false) !in d.disk.value.otpks {
        assert OneTime(k, true) in d.acc.otpks ==> OneTime(k, false) !in d.disk.value.otpks;
      }
    }
  }

  lemma StepSpends(d: Device, op: Op, used: set<DhKey>, minted: set<DhKey>)
    requires SpendInv(d, used, minted) && (op.DoGenerate? ==> op.draw.otpk !in minted) && (op.DoReload? ==> Recorded(d))
    ensures var (d', e) := Apply(d, op);
            && (e.Used? ==> e.otpk !in used)
            && SpendInv(d', if e.Used? then used + {e.otpk} else used, MintedAfter(op, minted))
  {
    hide SpendInv, Generate, AcceptSaving, Rotate, Recorded, Reload;
    match op
    case DoGenerate(draw, works) => GenerateSpends(d, draw, works, used, minted);
    case DoAccept(m, works) => AcceptSpends(d, m, works, used, minted);
    case DoRotate(draw, works) => RotateSpends(d, draw, works, used, minted);
    case DoRequirePq(required) => OtherSpends(d, d.acc.(requirePq := required), used, minted, {});
    case DoReload => ReloadSpends(d, used, minted);
  }

  lemma {:induction false} TraceSpends(d: Device, ops: seq<Op>, used: set<DhKey>, minted: set<DhKey>)
    requires SpendInv(d, used, minted) && Careful(d, ops, minted)
    ensures forall i :: 0 <= i < |ops| && Trace(d, ops)[i].Used? ==> Trace(d, ops)[i].otpk !in used
    ensures forall i, j :: 0 <= i < j < |ops| && Trace(d, ops)[i].Used? && Trace(d, ops)[j].Used? ==>
              Trace(d, ops)[i].otpk != Trace(d, ops)[j].otpk
    decreases |ops|
  {
    hide SpendInv, Apply, Recorded;
    if ops != [] {
      var (d', e) := Apply(d, ops[0]);
      StepSpends(d, ops[0], used, minted);
      TraceSpends(d', ops[1..], if e.Used? then used + {e.otpk} else used, MintedAfter(ops[0], minted));
      assert forall i :: 1 <= i < |ops| ==> Trace(d, ops)[i] == Trace(d', ops[1..])[i - 1];
    }
  }

  /** Single use: over every run of generations, handshakes, rotations, settings and restarts,
      with saves that fail at will, two successful handshakes never rest on the same one-time
      prekey, as long as no restart comes while a consumption is not on disk. */
  lemma SingleUse(id: nat, ops: seq<Op>, i: nat, j: nat)
    requires Careful(NewDevice(id), ops, {}) && i < j < |ops|
    requires Trace(NewDevice(id), ops)[i].Used? && Trace(NewDevice(id), ops)[j].Used?
    ensures Trace(NewDevice(id), ops)[i].otpk != Trace(NewDevice(id), ops)[j].otpk
  {
    TraceSpends(NewDevice(id), ops, {}, {});
  }

  // ---- The condition is exact ----

  /** Whoever has an account has this identity and working keys; with one-time prekeys come
      both others. */
  predicate Equipped(acc: Account, id: nat) {
    && (acc.pq.Some? ==> KemWorks(acc.pq.value.kem))
    && (acc.identity.Some? ==> acc.identity.value == id)
    && (acc.otpks != [] ==> acc.identity.Some? && Ready(acc))
  }

  predicate DeviceEquipped(d: Device, id: nat) { Equipped(d.acc, id) && (d.disk.Some? ==> Equipped(d.disk.value, id)) }

  lemma {:induction false} RunEquipped(d: Device, ops: seq<Op>, id: nat)
    requires DeviceEquipped(d, id)
    ensures DeviceEquipped(Final(d, ops), id)
    decreases |ops|
  {
    if ops != [] {
      hide DeviceEquipped, Apply;
      StepEquipped(d, ops[0], id);
      RunEquipped(Apply(d, ops[0]).0, ops[1..], id);
    }
  }

  lemma StepEquipped(d: Device, op: Op, id: nat)
    requires DeviceEquipped(d, id)
    ensures DeviceEquipped(Apply(d, op).0, id)
  {
    hide ResponderSecret, FindOtpk;
  }

  /** Nothing but a missing prekey can make an engine with this identity refuse it. */
  predicate Proper(m: Material, id: nat) { m.otpk.Some? && !m.ephemeral.SmallOrder? && Converts(m.identity) && Converts(id) }

  /** A handshake that was accepted was proper. */
  lemma {:induction false} UsedMaterial(d: Device, ops: seq<Op>, i: nat, id: nat)
    requires DeviceEquipped(d, id) && i < |ops| && Trace(d, ops)[i].Used?
    ensures ops[i].DoAccept? && ops[i].m.otpk == Some(Trace(d, ops)[i].otpk) && Proper(ops[i].m, id)
    decreases |ops|
  {
    hide ResponderSecret, FindOtpk;
    if i > 0 {
      StepEquipped(d, ops[0], id);
      hide Apply, DeviceEquipped;
      UsedMaterial(Apply(d, ops[0]).0, ops[1..], i - 1, id);
    }
  }

  /** The partner of single use: whatever the engine did before and after it accepted a
      handshake, once it restarts it accepts the very same handshake again if and only if the
      one-time prekey is still unconsumed on disk. */
  lemma RestartReaccepts(id: nat, ops: seq<Op>, i: nat, works: bool)
    requires i < |ops| && Trace(NewDevice(id), ops)[i].Used? && ops[i].DoAccept?
    ensures var d := Final(NewDevice(id), ops);
            AcceptSaving(Reload(d), ops[i].m, works).1.Ok? <==>
            d.disk.Some? && OneTime(Trace(NewDevice(id), ops)[i].otpk, false) in d.disk.value.otpks
  {
    var d := Final(NewDevice(id), ops);
    RunEquipped(NewDevice(id), ops, id);
    UsedMaterial(NewDevice(id), ops, i, id);
  }

  lemma {:induction false} FinalSpends(d: Device, ops: seq<Op>, used: set<DhKey>, minted: set<DhKey>)
      returns (used': set<DhKey>, minted': set<DhKey>)
    requires SpendInv(d, used, minted) && Careful(d, ops, minted)
    ensures SpendInv(Final(d, ops), used', minted')
    ensures used' == used + UsedKeys(d, ops)
    decreases |ops|
  {
    hide SpendInv, Apply, Recorded;
    used', minted' := used, minted;
    if ops != [] {
      StepSpends(d, ops[0], used, minted);
      var (d', e) := Apply(d, ops[0]);
      assert used + UsedBy(e) == if e.Used? then used + {e.otpk} else used;
      used', minted' := FinalSpends(d', ops[1..], used + UsedBy(e), MintedAfter(ops[0], minted));
    }
  }

  function UsedBy(e: Event): set<DhKey> { if e.Used? then {e.otpk} else {} }

  /** The one-time prekeys that backed a handshake of the run. */
  function UsedKeys(d: Device, ops: seq<Op>): set<DhKey>
    decreases |ops|
  {
    if ops == [] then {} else UsedBy(Apply(d, ops[0]).1) + UsedKeys(Apply(d, ops[0]).0, ops[1..])
  }

  lemma {:induction false} UsedAt(d: Device, ops: seq<Op>, k: DhKey) returns (i: nat)
    requires k in UsedKeys(d, ops)
    ensures i < |ops| && Trace(d, ops)[i] == Used(k)
    decreases |ops|
  {
    hide Apply;
    i := 0;
    if k !in UsedBy(Apply(d, ops[0]).1) {
      i := UsedAt(Apply(d, ops[0]).0, ops[1..], k);
      i := i + 1;
    }
  }

  lemma {:induction false} UsedThere(d: Device, ops: seq<Op>, i: nat)
    requires i < |ops| && Trace(d, ops)[i].Used?
    ensures Trace(d, ops)[i].otpk in UsedKeys(d, ops)
    decreases |ops|
  {
    hide Apply;
    if i > 0 { UsedThere(Apply(d, ops[0]).0, ops[1..], i - 1); }
  }

  /** The engine restarts and accepts the handshake of step `i` again. */
  predicate Reaccepts(d: Device, ops: seq<Op>, i: nat, works: bool) {
    && i < |ops| && Trace(d, ops)[i].Used? && ops[i].DoAccept?
    && AcceptSaving(Reload(Final(d, ops)), ops[i].m, works).1.Ok?
  }

  /** A restart after a careful run makes some accepted handshake acceptable once more if and
      only if a consumption that memory knows of is not on disk. */
  lemma RestartReusesExactly(id: nat, ops: seq<Op>, works: bool)
    requires Careful(NewDevice(id), ops, {})
    ensures (exists i: nat :: Reaccepts(NewDevice(id), ops, i, works)) <==> !Recorded(Final(NewDevice(id), ops))
  {
    hide Careful, UsedKeys, Final, Trace, AcceptSaving, Reload, Honoured;
    var d0, d := NewDevice(id), Final(NewDevice(id), ops);
    var used, minted := FinalSpends(d0, ops, {}, {});
    assert used == UsedKeys(d0, ops);
    ConsumedWasUsed(id, ops);
    if Recorded(d) {
      forall i: nat | i < |ops| && Trace(d0, ops)[i].Used? && ops[i].DoAccept? ensures !Reaccepts(d0, ops, i, works) {
        RestartReaccepts(id, ops, i, works);
        UsedThere(d0, ops, i);
        ReloadSpends(d, used, minted);
      }
    } else {
      var k := Unrecorded(d, used);
      var i := UsedAt(d0, ops, k);
      UsedMaterial(d0, ops, i, id);
      RestartReaccepts(id, ops, i, works);
      assert Reaccepts(d0, ops, i, works);
    }
  }

  lemma Unrecorded(d: Device, used: set<DhKey>) returns (k: DhKey)
    requires Honoured(d, used) && !Recorded(d)
    ensures k in used && d.disk.Some? && OneTime(k, false) in d.disk.value.otpks
  {
    var i :| 0 <= i < |d.acc.otpks| && d.acc.otpks[i].consumed && OneTime(d.acc.otpks[i].key, false) in d.disk.value.otpks;
    k := d.acc.otpks[i].key;
  }

  /** Every consumption in memory or on disk stems from a handshake of the run. */
  ghost predicate Honoured(d: Device, used: set<DhKey>) {
    && (forall i :: 0 <= i < |d.acc.otpks| && d.acc.otpks[i].consumed ==> d.acc.otpks[i].key in used)
    && (d.disk.Some? ==>
          forall i :: 0 <= i < |d.disk.value.otpks| && d.disk.value.otpks[i].consumed ==> d.disk.value.otpks[i].key in used)
  }

  lemma StepHonoured(d: Device, op: Op, used: set<DhKey>)
    requires Honoured(d, used)
    ensures Honoured(Apply(d, op).0, used + UsedBy(Apply(d, op).1))
  {
    hide ResponderSecret, Generate, Rotate, AcceptSaving;
    match op
    case DoGenerate(draw, works) => GenerateHonoured(d, draw, works, used);
    case DoAccept(m, works) => AcceptHonoured(d, m, works, used);
    case DoRotate(draw, works) => RotateHonoured(d, draw, works, used);
    case _ =>
  }

  lemma RotateHonoured(d: Device, draw: Draw, works: bool, used: set<DhKey>)
    requires Honoured(d, used)
    ensures Honoured(Rotate(d, draw, works).0, used)
  {
  }

  lemma GenerateHonoured(d: Device, draw: Draw, works: bool, used: set<DhKey>)
    requires Honoured(d, used)
    ensures Honoured(Generate(d, draw, works).0, used)
  {
    hide Rotate;
    RotateHonoured(d, draw, draw.rotationSaved, used);
  }

  lemma AcceptHonoured(d: Device, m: Material, works: bool, used: set<DhKey>)
    requires Honoured(d, used)
    ensures var (d', r) := AcceptSaving(d, m, works);
            Honoured(d', used + if r.Ok? && m.otpk.Some? then {m.otpk.value} else {})
  {
    hide ResponderSecret;
  }

  lemma {:induction false} RunHonoured(d: Device, ops: seq<Op>, used: set<DhKey>)
    requires Honoured(d, used)
    ensures Honoured(Final(d, ops), used + UsedKeys(d, ops))
    decreases |ops|
  {
    hide Honoured, Apply;
    if ops == [] {
      assert used + {} == used;
    } else {
      StepHonoured(d, ops[0], used);
      var (d', e) := Apply(d, ops[0]);
      RunHonoured(d', ops[1..], used + UsedBy(e));
      assert (used + UsedBy(e)) + UsedKeys(d', ops[1..]) == used + UsedKeys(d, ops);
    }
  }

  lemma ConsumedWasUsed(id: nat, ops: seq<Op>)
    ensures Honoured(Final(NewDevice(id), ops), UsedKeys(NewDevice(id), ops))
  {
    hide Final, UsedKeys;
    RunHonoured(NewDevice(id), ops, {});
    assert {} + UsedKeys(NewDevice(id), ops) == UsedKeys(NewDevice(id), ops);
  }

  /** A bundle is published and saved, the handshake on it is accepted and its save fails. */
  function LostSave(draw: Draw, m: Material): seq<Op> { [DoGenerate(draw, true), DoAccept(m, false)] }

  /** The input exists: after this run a consumption is not on disk, and the engine, restarted,
      accepts the same handshake a second time. */
  lemma ReuseReachable(id: nat, draw: Draw, m: Material, works: bool)
    requires Converts(id) && draw.kem.Some? && KemWorks(draw.kem.value)
    requires m.otpk == Some(draw.otpk) && m.pq.None? && !m.ephemeral.SmallOrder? && Converts(m.identity)
    ensures Careful(NewDevice(id), LostSave(draw, m), {})
    ensures Trace(NewDevice(id), LostSave(draw, m))[1] == Used(draw.otpk)
    ensures !Recorded(Final(NewDevice(id), LostSave(draw, m)))
    ensures Reaccepts(NewDevice(id), LostSave(draw, m), 1, works)
  {
    hide ResponderSecret;
    var d0, ops := NewDevice(id), LostSave(draw, m);
    var d1 := Apply(d0, ops[0]).0;
    assert d1.acc.otpks == [OneTime(draw.otpk, false)] && d1.disk == Some(d1.acc);
    var d2 := Apply(d1, ops[1]).0;
    assert d2.acc.otpks == [OneTime(draw.otpk, true)] && d2.disk == Some(d1.acc);
    var tail := ops[1..];
    assert tail[0] == ops[1] && tail[1..] == [];
    assert Final(d2, tail[1..]) == d2 && Final(d1, tail) == d2 && Final(d0, ops) == d2;
    var minted := MintedAfter(ops[0], {});
    assert Careful(d2, tail[1..], MintedAfter(tail[0], minted)) && Careful(d1, tail, minted);
    assert d2.acc.otpks[0].consumed && OneTime(draw.otpk, false) == d1.acc.otpks[0];
    RestartReaccepts(id, ops, 1, works);
  }

  /** The consumption, not its own save, is what has to reach the disk: a generation whose save
      works makes up for a failed save after the handshake. */
  lemma LaterSaveRepairs(d: Device, m: Material, draw: Draw, works: bool, id: nat)
    requires m.otpk.Some? && AcceptSaving(d, m, false).1.Ok? && DeviceEquipped(d, id) && m.otpk != Some(draw.otpk)
    requires forall i, j :: 0 <= i < j < |d.acc.otpks| ==> d.acc.otpks[i].key != d.acc.otpks[j].key
    ensures AcceptSaving(Reload(Generate(AcceptSaving(d, m, false).0, draw, true).0), m, works).1.Err?
  {
    hide ResponderSecret;
    var d1 := AcceptSaving(d, m, false).0;
    var k := FindOtpk(d.acc.otpks, m.otpk.value);
    assert forall i :: 0 <= i < |d1.acc.otpks| ==> d1.acc.otpks[i] != OneTime(m.otpk.value, false);
    assert Equipped(d1.acc, id) && d1.acc.otpks != [];
    var otpks := Generate(d1, draw, true).0.acc.otpks;
    assert otpks == d1.acc.otpks + [OneTime(draw.otpk, false)];
    assert forall i :: 0 <= i < |otpks| ==> otpks[i] != OneTime(m.otpk.value, false);
  }
}
