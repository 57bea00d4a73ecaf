/**
 What the handshake calls accept and refuse, exactly, and what a rotation changes.
 */
module HandshakeOutcome {
  import opened Symbolic
  import opened Handshake
  import opened HandshakeSafety
  import Ratchet

  // ---- The derivation input ----

  /** The label names the post-quantum mode, and the input is the values one behind the other: the
      one-time prekey's before the KEM's. */
  lemma InputLayout<T>(n: nat, dh1: seq<T>, dh2: seq<T>, dh3: seq<T>, dh4: Option<seq<T>>, ss: Option<seq<T>>)
    requires Sized(n, dh1, dh2, dh3, dh4, ss)
    ensures var (info, ikm) := KeyInput(dh1, dh2, dh3, dh4, ss);
            && (info == Pqxdh <==> ss.Some?)
            && |ikm| == 3 * n + (if dh4.Some? then n else 0) + (if ss.Some? then n else 0)
            && ikm[..n] == dh1 && ikm[n..2 * n] == dh2 && ikm[2 * n..3 * n] == dh3
            && (dh4.Some? ==> ikm[3 * n..4 * n] == dh4.value)
            && (ss.Some? ==> ikm[|ikm| - n..] == ss.value)
  {
    var head := dh1 + dh2 + dh3;
    assert head[..n] == dh1 && head[n..2 * n] == dh2 && head[2 * n..] == dh3;
    var ikm := KeyInput(dh1, dh2, dh3, dh4, ss).1;
    assert ikm == head + Blocks(dh4) + Blocks(ss);
    assert ikm[..3 * n] == head;
    assert ikm[..n] == head[..n] && ikm[n..2 * n] == head[n..2 * n] && ikm[2 * n..3 * n] == head[2 * n..];
  }

  // ---- The initiator ----

  predicate SignedBy(identity: nat, x: SignedPrekey) { x.signature == IdSigned(identity, DhPublic(x.key)) }

  predicate PqSignedBy(identity: nat, x: PqPrekey) { x.signature == IdSigned(identity, KemPublic(x.kem)) }

  /** A bundle opens a session exactly when its identity signed what it offers, every key in it is
      usable, and it has the post-quantum component if one is required. */
  lemma BundleAccepted(acc: Account, b: Bundle, ephemeral: DhKey, ratchetKey: DhKey, coins: nat)
    ensures FromBundle(acc, b, ephemeral, ratchetKey, coins).Ok? <==>
              && acc.identity.Some? && Converts(acc.identity.value) && Converts(b.identity)
              && SignedBy(b.identity, b.spk) && !b.spk.key.SmallOrder?
              && (b.otpk.Some? ==> !b.otpk.value.SmallOrder?)
              && (b.pq.Some? ==> PqSignedBy(b.identity, b.pq.value) && KemWorks(b.pq.value.kem))
              && (acc.requirePq ==> b.pq.Some?)
  {
    hide InitiatorSecret;
  }

  /** Which error a refused bundle gets; the signed prekey's signature is tested before anything
      else in the bundle. */
  lemma BundleRefused(acc: Account, b: Bundle, ephemeral: DhKey, ratchetKey: DhKey, coins: nat)
    ensures var r := FromBundle(acc, b, ephemeral, ratchetKey, coins);
            && (acc.identity.None? ==> r == Err(NotInitialized))
            && (acc.identity.Some? && !SignedBy(b.identity, b.spk) ==> r == Err(SignatureInvalid))
            && (acc.identity.Some? && SignedBy(b.identity, b.spk) &&
                (b.spk.key.SmallOrder? || (b.otpk.Some? && b.otpk.value.SmallOrder?)
                 || !Converts(acc.identity.value) || !Converts(b.identity)) ==>
                  r == Err(CryptoFailure))
            && (r == Err(SignatureInvalid) ==>
                  !SignedBy(b.identity, b.spk) || (b.pq.Some? && !PqSignedBy(b.identity, b.pq.value))
                  || (b.pq.None? && acc.requirePq))
  {
    hide InitiatorSecret;
  }

  /** The session and the handshake message that an accepted bundle gives. */
  lemma BundleGives(acc: Account, b: Bundle, ephemeral: DhKey, ratchetKey: DhKey, coins: nat)
    requires FromBundle(acc, b, ephemeral, ratchetKey, coins).Ok?
    ensures var (s, m) := FromBundle(acc, b, ephemeral, ratchetKey, coins).value;
            && s.ad.initiator == acc.identity.value == m.identity && s.ad.responder == b.identity
            && s.dhs == ratchetKey && s.hasDhr && s.dhr == b.spk.key && s.hasSend && !s.hasRecv && s.skipped == []
            && m.ephemeral == ephemeral && m.otpk == b.otpk
            && m.pq == (if b.pq.Some? then Some(Capsule(b.pq.value.kem, coins)) else None)
  {
    hide InitiatorSecret;
  }

  // ---- The responder ----

  /** A handshake is accepted exactly when the engine is ready for it, its keys are usable, the
      one-time prekey it names is listed and unconsumed, and it has the post-quantum component if
      one is required. */
  lemma HandshakeAccepted(acc: Account, m: Material)
    ensures Accept(acc, m).1.Ok? <==>
              && acc.identity.Some? && acc.spk.Some? && Converts(acc.identity.value) && Converts(m.identity)
              && !m.ephemeral.SmallOrder?
              && (m.otpk.Some? ==> OneTime(m.otpk.value, false) in acc.otpks)
              && (m.pq.Some? ==> acc.pq.Some? && KemWorks(acc.pq.value.kem))
              && (acc.requirePq ==> m.pq.Some?)
  {
    hide ResponderSecret;
    if m.otpk.Some? {
      assert OneTime(m.otpk.value, false) in acc.otpks <==> FindOtpk(acc.otpks, m.otpk.value) < |acc.otpks|;
    }
  }

  /** Which error a refused handshake gets. */
  lemma HandshakeRefused(acc: Account, m: Material)
    ensures var r := Accept(acc, m).1;
            && (acc.identity.None? || acc.spk.None? ==> r == Err(NotInitialized))
            && (r == Err(BundleExhausted) ==> m.otpk.Some? && OneTime(m.otpk.value, false) !in acc.otpks)
            && (r == Err(SignatureInvalid) ==> acc.requirePq && m.pq.None?)
            && (acc.identity.Some? && acc.spk.Some? ==>
                  if !Converts(acc.identity.value) || !Converts(m.identity) || m.ephemeral.SmallOrder? then r == Err(CryptoFailure)
                  else if m.otpk.Some? && OneTime(m.otpk.value, false) !in acc.otpks then r == Err(BundleExhausted)
                  else acc.requirePq && m.pq.None? ==> r == Err(SignatureInvalid))
  {
    hide ResponderSecret;
    if m.otpk.Some? {
      assert OneTime(m.otpk.value, false) in acc.otpks <==> FindOtpk(acc.otpks, m.otpk.value) < |acc.otpks|;
    }
  }

  /** What acceptance does: the session is bound to both identities and stands on the signed prekey,
      and exactly one entry, the first that matches, is marked as consumed. */
  lemma HandshakeGives(acc: Account, m: Material, k: nat)
    requires Accept(acc, m).1.Ok?
    requires m.otpk.Some? ==> k < |acc.otpks| && acc.otpks[k] == OneTime(m.otpk.value, false)
                              && OneTime(m.otpk.value, false) !in acc.otpks[..k]
    ensures var (acc', r) := Accept(acc, m);
            && r.value.ad.initiator == m.identity && r.value.ad.responder == acc.identity.value
            && r.value.dhs == acc.spk.value.key && !r.value.hasSend && !r.value.hasRecv && !r.value.hasDhr
            && acc' == acc.(otpks := acc'.otpks) && |acc'.otpks| == |acc.otpks|
            && forall i :: 0 <= i < |acc.otpks| ==>
                 acc'.otpks[i] == if m.otpk.Some? && i == k then OneTime(m.otpk.value, true) else acc.otpks[i]
  {
    hide ResponderSecret;
    if m.otpk.Some? {
      assert forall i :: 0 <= i < k ==> acc.otpks[..k][i] == acc.otpks[i];
      assert FindOtpk(acc.otpks, m.otpk.value) == k;
    }
  }

  // ---- The post-quantum requirement ----

  /** Restarting and setting the requirement are the only steps that change it. */
  lemma StepKeepsRequirement(d: Device, op: Op)
    requires !op.DoReload? && !op.DoRequirePq?
    ensures Apply(d, op).0.acc.requirePq == d.acc.requirePq
  {
    hide ResponderSecret, FindOtpk;
  }

  lemma {:induction false} RunKeepsRequirement(d: Device, ops: seq<Op>)
    requires forall i :: 0 <= i < |ops| ==> !ops[i].DoReload? && !ops[i].DoRequirePq?
    ensures Final(d, ops).acc.requirePq == d.acc.requirePq
    decreases |ops|
  {
    hide Apply;
    if ops != [] {
      StepKeepsRequirement(d, ops[0]);
      assert forall i :: 0 <= i < |ops[1..]| ==> ops[1..][i] == ops[i + 1];
      RunKeepsRequirement(Apply(d, ops[0]).0, ops[1..]);
    }
  }

  /** Once the requirement is set, whatever the engine does short of a restart or of setting it
      again, it opens no classic session at either end; once it is withdrawn, it refuses none for
      that reason. A restart withdraws it, the file not holding it. */
  lemma RequirementHolds(d: Device, required: bool, ops: seq<Op>, b: Bundle, ephemeral: DhKey, ratchetKey: DhKey, coins: nat, m: Material)
    requires forall i :: 0 <= i < |ops| ==> !ops[i].DoReload? && !ops[i].DoRequirePq?
    ensures var d' := Final(Apply(d, DoRequirePq(required)).0, ops);
            && d'.acc.requirePq == required && !Apply(d', DoReload).0.acc.requirePq
            && (required && b.pq.None? ==> FromBundle(d'.acc, b, ephemeral, ratchetKey, coins).Err?)
            && (required && m.pq.None? ==> Accept(d'.acc, m).1.Err?)
  {
    var d' := Final(Apply(d, DoRequirePq(required)).0, ops);
    RunKeepsRequirement(Apply(d, DoRequirePq(required)).0, ops);
    BundleAccepted(d'.acc, b, ephemeral, ratchetKey, coins);
    HandshakeAccepted(d'.acc, m);
  }

  // ---- Rotation ----

  predicate CanRotate(d: Device, draw: Draw) { d.acc.identity.Some? && draw.kem.Some? && KemWorks(draw.kem.value) }

  /** Every rotation installs the pairs just drawn under the engine's own signatures, whatever was
      there before, touches nothing else, and saves. */
  lemma RotationInstalls(d: Device, draw: Draw, works: bool)
    ensures Rotate(d, draw, works).1.Ok? <==> CanRotate(d, draw)
    ensures CanRotate(d, draw) ==>
              var d' := Rotate(d, draw, works).0;
              && d'.acc.spk.Some? && d'.acc.spk.value.key == draw.spk && SignedBy(d.acc.identity.value, d'.acc.spk.value)
              && d'.acc.pq.Some? && d'.acc.pq.value.kem == draw.kem.value && PqSignedBy(d.acc.identity.value, d'.acc.pq.value)
              && d'.acc.identity == d.acc.identity && d'.acc.otpks == d.acc.otpks && d'.acc.requirePq == d.acc.requirePq
              && d'.disk == if works then Some(d'.acc) else d.disk
    ensures !CanRotate(d, draw) ==>
              var (d', r) := Rotate(d, draw, works);
              if d.acc.identity.None? then (d', r) == (d, Err(NotInitialized))
              else r == Err(CryptoFailure) && d'.acc.spk.Some? && d'.acc.spk.value.key == draw.spk
                   && d'.acc == d.acc.(spk := d'.acc.spk) && d'.disk == d.disk
  {
  }

  /** A bundle generation succeeds exactly when the prekeys are there or can be drawn; it leaves
      present prekeys alone, publishes what the account holds and adds one one-time prekey. */
  lemma GenerationGives(d: Device, draw: Draw, works: bool)
    ensures var (d', r) := Generate(d, draw, works);
            var present := d.acc.spk.Some? && d.acc.pq.Some?;
            && (r.Ok? <==> d.acc.identity.Some? && (present || CanRotate(d, draw)))
            && (r.Ok? ==>
                  && r.value == Bundle(d.acc.identity.value, d'.acc.spk.value, Some(draw.otpk), d'.acc.pq)
                  && d'.acc.otpks == d.acc.otpks + [OneTime(draw.otpk, false)] && d'.acc.pq.Some?
                  && (present ==> d'.acc.spk == d.acc.spk && d'.acc.pq == d.acc.pq)
                  && (!present ==> d'.acc.spk.value.key == draw.spk && d'.acc.pq.value.kem == draw.kem.value)
                  && (works ==> d'.disk == Some(d'.acc)))
            && (d.acc.identity.None? ==> (d', r) == (d, Err(NotInitialized)))
            && (r.Err? && d.acc.identity.Some? ==>
                  r == Err(CryptoFailure) && d'.disk == d.disk
                  && d'.acc.spk.Some? && d'.acc.spk.value.key == draw.spk && d'.acc == d.acc.(spk := d'.acc.spk))
  {
    if d.acc.identity.Some? && !(d.acc.spk.Some? && d.acc.pq.Some?) { RotationInstalls(d, draw, draw.rotationSaved); }
  }

  /** Over runs: whatever the engine does after a rotation, short of another rotation and of a
      restart before a save has worked, every bundle it publishes carries the rotated keys. */
  lemma RotatedBundle(id: nat, before: seq<Op>, draw: Draw, works: bool, ops: seq<Op>, next: Draw, saved: bool)
    requires HonestDraws(before) && HonestDraw(draw) && HonestDraws(ops)
    requires var d := Final(NewDevice(id), before);
             CanRotate(d, draw) && NoEarlyRestart(Rotate(d, draw, works).0, ops, works)
    requires forall i :: 0 <= i < |ops| ==> !ops[i].DoRotate?
    ensures var d := Final(Rotate(Final(NewDevice(id), before), draw, works).0, ops);
            var r := Generate(d, next, saved).1;
            r.Ok? && r.value.spk.key == draw.spk && r.value.pq.Some? && r.value.pq.value.kem == draw.kem.value
            && SignedBy(r.value.identity, r.value.spk) && PqSignedBy(r.value.identity, r.value.pq.value)
  {
    var d := Final(NewDevice(id), before);
    var d1 := Rotate(d, draw, works).0;
    RunSigned(NewDevice(id), before);
    RotationInstalls(d, draw, works);
    var whole := Bundle(d.acc.identity.value, d1.acc.spk.value, None, d1.acc.pq);
    assert Serves(d1, whole, works) by { RotateSigned(d, draw, works); }
    hide Final, Rotate, Generate, DeviceSigned, NoEarlyRestart;
    assert forall i :: 0 <= i < |ops| ==> Between(ops[i], whole);
    RunServes(d1, ops, whole, works);
    GenerationGives(Final(d1, ops), next, saved);
  }

  lemma RotateSigned(d: Device, draw: Draw, works: bool)
    requires DeviceSigned(d) && HonestDraw(draw)
    ensures DeviceSigned(Rotate(d, draw, works).0)
  {
  }

  /** After a rotation a handshake on the old signed prekey no longer agrees: whatever the engine
      read, its session key differs and the initiator's first packet does not open. */
  lemma OldPrekeyDisagrees(alice: Account, b: Bundle, ephemeral: DhKey, ratchetKey: DhKey, coins: nat,
                           d: Device, draw: Draw, works: bool, m: Material, plain: seq<byte>, next: DhKey)
    requires FromBundle(alice, b, ephemeral, ratchetKey, coins).Ok? && CanRotate(d, draw)
    requires b.spk.key.Random? && draw.spk.Random? && b.spk.key != draw.spk
    requires Accept(Rotate(d, draw, works).0.acc, m).1.Ok?
    ensures var bob := Rotate(d, draw, works).0.acc;
            ResponderSecret(bob, m) != Some(InitiatorSecret(alice.identity.value, b, ephemeral, coins))
    ensures var left := FromBundle(alice, b, ephemeral, ratchetKey, coins).value.0;
            var right := Accept(Rotate(d, draw, works).0.acc, m).1.value;
            var sent := Ratchet.Encrypt(left, plain).1;
            && sent.Ok? && Ratchet.ChainExists(right, sent.value.header)
            && Ratchet.DecryptPacket(right, sent.value, next).1 == Err(CryptoFailure)
  {
    var bob := Rotate(d, draw, works).0.acc;
    var me, spk := alice.identity.value, bob.spk.value.key;
    RotationInstalls(d, draw, works);
    hide Rotate;
    if ResponderSecret(bob, m) == Some(InitiatorSecret(me, b, ephemeral, coins)) {
      DeriveInjective(Dh(FromIdentity(me), b.spk.key), Dh(ephemeral, FromIdentity(b.identity)), Dh(ephemeral, b.spk.key),
                      if b.otpk.Some? then Some(Dh(ephemeral, b.otpk.value)) else None,
                      if b.pq.Some? then Some(Encapsulated(b.pq.value.kem, coins)) else None,
                      Dh(spk, FromIdentity(m.identity)), Dh(FromIdentity(bob.identity.value), m.ephemeral), Dh(spk, m.ephemeral),
                      if m.otpk.Some? then Some(Dh(m.otpk.value, m.ephemeral)) else None,
                      if m.pq.Some? then Some(Decapsulate(bob.pq.value.kem, m.pq.value)) else None);
      EndsTell(FromIdentity(me), b.spk.key, spk, FromIdentity(m.identity));
    }
  }

  /** A shared secret tells its random end. */
  lemma EndsTell(a: DhKey, b: DhKey, c: DhKey, d: DhKey)
    requires b.Random? && d.FromIdentity? && Dh(a, b) == Dh(c, d)
    ensures b == c
  {
    assert b in {a, b};
    assert {a, b} == {c, d};
  }

  // ---- Saving ----

  /** A handshake that used a one-time prekey is followed by a save; any other leaves the file. */
  lemma AcceptanceSaves(d: Device, m: Material, works: bool)
    ensures var (d', r) := AcceptSaving(d, m, works);
            && d'.acc == Accept(d.acc, m).0 && r == Accept(d.acc, m).1
            && d'.disk == if r.Ok? && m.otpk.Some? && works then Some(d'.acc) else d.disk
  {
    hide Accept;
  }

  /** Every save works and every generated one-time prekey is new. */
  predicate Saving(op: Op) {
    && (op.DoGenerate? ==> op.works) && (op.DoAccept? ==> op.works) && (op.DoRotate? ==> op.works)
  }

  predicate AllSaving(ops: seq<Op>, minted: set<DhKey>)
    decreases |ops|
  {
    ops == [] || (
      && Saving(ops[0]) && (ops[0].DoGenerate? ==> ops[0].draw.otpk !in minted)
      && AllSaving(ops[1..], MintedAfter(ops[0], minted)))
  }

  /** Memory and disk list the same one-time prekeys. */
  predicate InStep(d: Device) { d.acc.otpks == if d.disk.Some? then d.disk.value.otpks else [] }

  lemma StepInStep(d: Device, op: Op)
    requires InStep(d) && Saving(op)
    ensures InStep(Apply(d, op).0)
  {
    hide Accept, Rotate;
    match op
    case DoGenerate(draw, works) =>
      if d.acc.identity.Some? { RotationInstalls(d, draw, draw.rotationSaved); }
    case DoAccept(m, works) => AcceptKeepsList(d.acc, m);
    case DoRotate(draw, works) => RotationInstalls(d, draw, works);
    case _ =>
  }

  lemma AcceptKeepsList(acc: Account, m: Material)
    ensures m.otpk.None? || Accept(acc, m).1.Err? ==> Accept(acc, m).0 == acc
  {
    hide ResponderSecret;
  }

  lemma InStepRecorded(d: Device, used: set<DhKey>, minted: set<DhKey>)
    requires InStep(d) && SpendInv(d, used, minted)
    ensures Recorded(d)
  {
  }

  lemma {:induction false} SavingIsCareful(d: Device, ops: seq<Op>, used: set<DhKey>, minted: set<DhKey>)
    requires InStep(d) && SpendInv(d, used, minted) && AllSaving(ops, minted)
    ensures Careful(d, ops, minted)
    decreases |ops|
  {
    hide InStep, SpendInv, Apply, Recorded, Saving;
    if ops != [] {
      InStepRecorded(d, used, minted);
      StepInStep(d, ops[0]);
      StepSpends(d, ops[0], used, minted);
      var (d', e) := Apply(d, ops[0]);
      SavingIsCareful(d', ops[1..], if e.Used? then used + {e.otpk} else used, MintedAfter(ops[0], minted));
    }
  }

  /** Single use without looking at the disk: when every save works, no one-time prekey ever backs
      two handshakes, whatever restarts come in between. */
  lemma SingleUseWhenSaved(id: nat, ops: seq<Op>, i: nat, j: nat)
    requires AllSaving(ops, {}) && i < j < |ops|
    requires Trace(NewDevice(id), ops)[i].Used? && Trace(NewDevice(id), ops)[j].Used?
    ensures Trace(NewDevice(id), ops)[i].otpk != Trace(NewDevice(id), ops)[j].otpk
  {
    SavingIsCareful(NewDevice(id), ops, {}, {});
    hide Careful, Trace;
    SingleUse(id, ops, i, j);
  }
}
