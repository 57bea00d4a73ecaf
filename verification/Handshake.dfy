/**
 The X3DH / PQXDH handshake (crypto-engine/src/x3dh.cpp): bundles, both ends of the
 handshake, and the prekeys that an engine keeps in memory and on disk.
 */
module Handshake {
  import opened Symbolic
  import Ratchet

  // ---- Keys and messages ----

  datatype Signable = DhPublic(key: DhKey) | KemPublic(kem: nat)

  /** Ed25519 signatures by an identity key. */
  datatype IdSignature = IdSigned(identity: nat, content: Signable) | IdForged(id: nat)

  datatype SignedPrekey = SignedPrekey(key: DhKey, signature: IdSignature)

  datatype PqPrekey = PqPrekey(kem: nat, signature: IdSignature)

  datatype OneTime = OneTime(key: DhKey, consumed: bool)

  datatype Account = Account(
    identity: Option<nat>,
    spk: Option<SignedPrekey>,
    pq: Option<PqPrekey>,
    otpks: seq<OneTime>,
    requirePq: bool)

  datatype Bundle = Bundle(identity: nat, spk: SignedPrekey, otpk: Option<DhKey>, pq: Option<PqPrekey>)

  datatype Material = Material(identity: nat, ephemeral: DhKey, otpk: Option<DhKey>, pq: Option<KemCipher>)

  // ---- The derivation input ----

  function Blocks<T>(x: Option<seq<T>>): seq<T> { if x.Some? then x.value else [] }

  /** HKDF label and input keying material, over any alphabet of which a 32-byte value is
      one block. */
  function KeyInput<T>(dh1: seq<T>, dh2: seq<T>, dh3: seq<T>, dh4: Option<seq<T>>, ss: Option<seq<T>>): (Label, seq<T>) {
    (if ss.Some? then Pqxdh else X3dh, dh1 + dh2 + dh3 + Blocks(dh4) + Blocks(ss))
  }

  ghost predicate Sized<T>(n: nat, dh1: seq<T>, dh2: seq<T>, dh3: seq<T>, dh4: Option<seq<T>>, ss: Option<seq<T>>) {
    && |dh1| == |dh2| == |dh3| == n
    && (dh4.Some? ==> |dh4.value| == n) && (ss.Some? ==> |ss.value| == n)
  }

  lemma Split<T>(a: seq<T>, b: seq<T>, x: seq<T>, y: seq<T>)
    requires a + b == x + y && |b| == |y|
    ensures a == x && b == y
  {
    assert |a| == |x|;
    assert a == (a + b)[..|a|] && x == (x + y)[..|a|];
    assert b == (a + b)[|a|..] && y == (x + y)[|a|..];
  }

  /** Mode separation: although two of the four modes hash 128 bytes, label and input
      together determine every one of the five values and which of them were present. */
  lemma KeyInputInjective<T>(n: nat, a1: seq<T>, a2: seq<T>, a3: seq<T>, a4: Option<seq<T>>, a5: Option<seq<T>>,
                             b1: seq<T>, b2: seq<T>, b3: seq<T>, b4: Option<seq<T>>, b5: Option<seq<T>>)
    requires n > 0 && Sized(n, a1, a2, a3, a4, a5) && Sized(n, b1, b2, b3, b4, b5)
    requires KeyInput(a1, a2, a3, a4, a5) == KeyInput(b1, b2, b3, b4, b5)
    ensures a1 == b1 && a2 == b2 && a3 == b3 && a4 == b4 && a5 == b5
  {
    Split(a1 + a2 + a3 + Blocks(a4), Blocks(a5), b1 + b2 + b3 + Blocks(b4), Blocks(b5));
    assert a4.Some? == b4.Some?;
    Split(a1 + a2 + a3, Blocks(a4), b1 + b2 + b3, Blocks(b4));
    Split(a1 + a2, a3, b1 + b2, b3);
    Split(a1, a2, b1, b2);
  }

  method CopyBlock(buffer: array<byte>, offset: nat, block: seq<byte>)
    requires offset + |block| <= buffer.Length
    modifies buffer
    ensures buffer[..offset] == old(buffer[..offset])
    ensures buffer[offset..offset + |block|] == block
  {
    var i := 0;
    while i < |block|
      invariant 0 <= i <= |block|
      invariant buffer[..offset] == old(buffer[..offset])
      invariant buffer[offset..offset + i] == block[..i]
    {
      buffer[offset + i] := block[i];
      i := i + 1;
    }
  }

  /** The 160-byte buffer of `derive_shared_secret`, filled behind a moving offset. */
  method FillInput(dh1: seq<byte>, dh2: seq<byte>, dh3: seq<byte>, dh4: Option<seq<byte>>, ss: Option<seq<byte>>)
      returns (info: Label, ikm: seq<byte>)
    requires Sized(32, dh1, dh2, dh3, dh4, ss)
    ensures (info, ikm) == KeyInput(dh1, dh2, dh3, dh4, ss)
    ensures |ikm| == 96 + (if dh4.Some? then 32 else 0) + (if ss.Some? then 32 else 0)
  {
    var buffer := new byte[160](_ => 0);
    var offset := 0;
    CopyBlock(buffer, offset, dh1);
    offset := offset + 32;
    assert buffer[..offset] == dh1;
    CopyBlock(buffer, offset, dh2);
    offset := offset + 32;
    assert buffer[..offset] == dh1 + dh2;
    CopyBlock(buffer, offset, dh3);
    offset := offset + 32;
    assert buffer[..offset] == dh1 + dh2 + dh3;
    if dh4.Some? {
      CopyBlock(buffer, offset, dh4.value);
      offset := offset + 32;
    }
    assert buffer[..offset] == dh1 + dh2 + dh3 + Blocks(dh4);
    if ss.Some? {
      CopyBlock(buffer, offset, ss.value);
      offset := offset + 32;
    }
    assert buffer[..offset] == dh1 + dh2 + dh3 + Blocks(dh4) + Blocks(ss);
    info, ikm := if ss.Some? then Pqxdh else X3dh, buffer[..offset];
  }

  function One(x: Option<Secret>): Option<seq<Secret>> { if x.Some? then Some([x.value]) else None }

  function Derive(dh1: Secret, dh2: Secret, dh3: Secret, dh4: Option<Secret>, ss: Option<Secret>): Secret {
    var (info, ikm) := KeyInput([dh1], [dh2], [dh3], One(dh4), One(ss));
    SessionKey(info, ikm)
  }

  /** Different inputs, or the same inputs in another mode, never give one session key. */
  lemma DeriveInjective(a1: Secret, a2: Secret, a3: Secret, a4: Option<Secret>, a5: Option<Secret>,
                        b1: Secret, b2: Secret, b3: Secret, b4: Option<Secret>, b5: Option<Secret>)
    requires Derive(a1, a2, a3, a4, a5) == Derive(b1, b2, b3, b4, b5)
    ensures a1 == b1 && a2 == b2 && a3 == b3 && a4 == b4 && a5 == b5
  {
    KeyInputInjective(1, [a1], [a2], [a3], One(a4), One(a5), [b1], [b2], [b3], One(b4), One(b5));
    assert forall x: Secret, y: Secret :: [x] == [y] ==> [x][0] == [y][0];
    assert [a1][0] == [b1][0] && [a2][0] == [b2][0] && [a3][0] == [b3][0];
    assert a4.Some? ==> One(a4).value[0] == One(b4).value[0];
    assert a5.Some? ==> One(a5).value[0] == One(b5).value[0];
  }

  // ---- The initiator ----

  predicate Verified(identity: nat, content: Signable, s: IdSignature) { s == IdSigned(identity, content) }

  /** The session key the initiator computes from a bundle it has checked. */
  function InitiatorSecret(me: nat, b: Bundle, ephemeral: DhKey, coins: nat): Secret {
    var dh4 := if b.otpk.Some? then Some(Dh(ephemeral, b.otpk.value)) else None;
    var ss := if b.pq.Some? then Some(Encapsulated(b.pq.value.kem, coins)) else None;
    Derive(Dh(FromIdentity(me), b.spk.key), Dh(ephemeral, FromIdentity(b.identity)), Dh(ephemeral, b.spk.key), dh4, ss)
  }

  /** `zia_session_from_bundle`; the key pairs and encapsulation coins drawn are arguments.
      X25519 fails exactly on a small-order peer key. */
  function FromBundle(acc: Account, b: Bundle, ephemeral: DhKey, ratchetKey: DhKey, coins: nat)
    : Result<(Ratchet.State, Material)>
  {
    if acc.identity.None? then Err(NotInitialized)
    else if !Verified(b.identity, DhPublic(b.spk.key), b.spk.signature) then Err(SignatureInvalid)
    else
      var me := acc.identity.value;
      if !Converts(me) || !Converts(b.identity) then Err(CryptoFailure)
      else if b.spk.key.SmallOrder? then Err(CryptoFailure)
      else if b.otpk.Some? && b.otpk.value.SmallOrder? then Err(CryptoFailure)
      else if b.pq.Some? && !Verified(b.identity, KemPublic(b.pq.value.kem), b.pq.value.signature) then Err(SignatureInvalid)
      else if b.pq.Some? && !KemWorks(b.pq.value.kem) then Err(CryptoFailure)
      else if b.pq.None? && acc.requirePq then Err(SignatureInvalid)
      else
        var ad := Ratchet.Identities(me, b.identity);
        Ok((Ratchet.Initiator(ad, InitiatorSecret(me, b, ephemeral, coins), ratchetKey, b.spk.key),
            Material(me, ephemeral, b.otpk, if b.pq.Some? then Some(Capsule(b.pq.value.kem, coins)) else None)))
  }

  // ---- The responder ----

  /** Position of the first unconsumed one-time prekey with this public key, or the length. */
  function FindOtpk(otpks: seq<OneTime>, key: DhKey): (k: nat)
    ensures k <= |otpks|
    ensures k < |otpks| ==> otpks[k] == OneTime(key, false)
    ensures forall i :: 0 <= i < k ==> otpks[i] != OneTime(key, false)
  {
    if otpks == [] || otpks[0] == OneTime(key, false) then 0 else 1 + FindOtpk(otpks[1..], key)
  }

  /** The session key the responder computes; `None` where X25519 refuses a key. */
  function ResponderSecret(acc: Account, m: Material): Option<Secret>
    requires acc.identity.Some? && acc.spk.Some? && (m.pq.Some? ==> acc.pq.Some?)
  {
    if m.ephemeral.SmallOrder? then None
    else
      var spk := acc.spk.value.key;
      var dh4 := if m.otpk.Some? then Some(Dh(m.otpk.value, m.ephemeral)) else None;
      var ss := if m.pq.Some? then Some(Decapsulate(acc.pq.value.kem, m.pq.value)) else None;
      Some(Derive(Dh(spk, FromIdentity(m.identity)), Dh(FromIdentity(acc.identity.value), m.ephemeral),
                  Dh(spk, m.ephemeral), dh4, ss))
  }

  /** `zia_session_accept_handshake` without the save that follows a consumed prekey. */
  function Accept(acc: Account, m: Material): (Account, Result<Ratchet.State>) {
    if acc.identity.None? || acc.spk.None? then (acc, Err(NotInitialized))
    else if !Converts(acc.identity.value) || !Converts(m.identity) then (acc, Err(CryptoFailure))
    else if m.ephemeral.SmallOrder? then (acc, Err(CryptoFailure))
    else if m.otpk.Some? && FindOtpk(acc.otpks, m.otpk.value) == |acc.otpks| then (acc, Err(BundleExhausted))
    else if m.pq.Some? && acc.pq.None? then (acc, Err(NotInitialized))
    else if m.pq.Some? && !KemWorks(acc.pq.value.kem) then (acc, Err(CryptoFailure))
    else if m.pq.None? && acc.requirePq then (acc, Err(SignatureInvalid))
    else
      var sk := ResponderSecret(acc, m).value;
      var ad := Ratchet.Identities(m.identity, acc.identity.value);
      var acc' := if m.otpk.None? then acc
                  else var k := FindOtpk(acc.otpks, m.otpk.value);
                       acc.(otpks := acc.otpks[k := OneTime(m.otpk.value, true)]);
      (acc', Ok(Ratchet.Responder(ad, sk, acc.spk.value.key)))
  }

  // ---- The engine and its identity file ----

  /** The account in memory and the one last saved. */
  datatype Device = Device(acc: Account, disk: Option<Account>)

  /** Saving may fail; the callers ignore it. */
  function Save(d: Device, works: bool): Device { if works then d.(disk := Some(d.acc)) else d }

  const NO_ACCOUNT := Account(None, None, None, [], false)

  /** A restart: the PQ requirement is not part of the file. */
  function Reload(d: Device): Device {
    d.(acc := (if d.disk.Some? then d.disk.value else NO_ACCOUNT).(requirePq := false))
  }

  /** What a key generation draws, the KEM pair missing when randomness is, and whether the save
      of a rotation inside it works. */
  datatype Draw = Draw(spk: DhKey, kem: Option<nat>, otpk: DhKey, rotationSaved: bool)

  function Rotate(d: Device, draw: Draw, works: bool): (Device, Result<()>) {
    if d.acc.identity.None? then (d, Err(NotInitialized))
    else
      var me := d.acc.identity.value;
      var d1 := d.(acc := d.acc.(spk := Some(SignedPrekey(draw.spk, IdSigned(me, DhPublic(draw.spk))))));
      if draw.kem.None? || !KemWorks(draw.kem.value) then (d1, Err(CryptoFailure))
      else
        var pq := PqPrekey(draw.kem.value, IdSigned(me, KemPublic(draw.kem.value)));
        (Save(d1.(acc := d1.acc.(pq := Some(pq))), works), Ok(()))
  }

  predicate Ready(acc: Account) { acc.spk.Some? && acc.pq.Some? }

  function Generate(d: Device, draw: Draw, works: bool): (Device, Result<Bundle>) {
    if d.acc.identity.None? then (d, Err(NotInitialized))
    else
      var (d1, r) := if Ready(d.acc) then (d, Ok(())) else Rotate(d, draw, draw.rotationSaved);
      if r.Err? then (d1, Err(r.status))
      else
        var d2 := Save(d1.(acc := d1.acc.(otpks := d1.acc.otpks + [OneTime(draw.otpk, false)])), works);
        (d2, Ok(Bundle(d2.acc.identity.value, d2.acc.spk.value, Some(draw.otpk), d2.acc.pq)))
  }

  function AcceptSaving(d: Device, m: Material, works: bool): (Device, Result<Ratchet.State>) {
    var (acc, r) := Accept(d.acc, m);
    if r.Ok? && m.otpk.Some? then (Save(d.(acc := acc), works), r) else (d.(acc := acc), r)
  }

  datatype Op =
    | DoGenerate(draw: Draw, works: bool)
    | DoAccept(m: Material, works: bool)
    | DoRotate(draw: Draw, works: bool)
    | DoRequirePq(required: bool)
    | DoReload

  /** The one-time prekey that backed a successful handshake. */
  datatype Event = Used(otpk: DhKey) | Quiet

  function Apply(d: Device, op: Op): (Device, Event) {
    match op
    case DoGenerate(draw, works) => (Generate(d, draw, works).0, Quiet)
    case DoAccept(m, works) =>
      var (d', r) := AcceptSaving(d, m, works);
      (d', if r.Ok? && m.otpk.Some? then Used(m.otpk.value) else Quiet)
    case DoRotate(draw, works) => (Rotate(d, draw, works).0, Quiet)
    case DoRequirePq(required) => (d.(acc := d.acc.(requirePq := required)), Quiet)
    case DoReload => (Reload(d), Quiet)
  }

  function Final(d: Device, ops: seq<Op>): Device
    decreases |ops|
  {
    if ops == [] then d else Final(Apply(d, ops[0]).0, ops[1..])
  }

  function Trace(d: Device, ops: seq<Op>): (t: seq<Event>)
    ensures |t| == |ops|
    decreases |ops|
  {
    if ops == [] then [] else [Apply(d, ops[0]).1] + Trace(Apply(d, ops[0]).0, ops[1..])
  }

  /** The engine's prekey fields and identity file. */
  class PrekeyStore {
    var identity: Option<nat>
    var spk: Option<SignedPrekey>
    var pq: Option<PqPrekey>
    var otpks: seq<OneTime>
    var requirePq: bool
    var disk: Option<Account>

    ghost function View(): Device
      reads this
    {
      Device(Account(identity, spk, pq, otpks, requirePq), disk)
    }

    constructor (identity: Option<nat>)
      ensures View() == Device(NO_ACCOUNT.(identity := identity), None)
    {
      this.identity, spk, pq, otpks, requirePq, disk := identity, None, None, [], false, None;
    }

    method SaveIdentity(works: bool)
      modifies this`disk
      ensures View() == Save(old(View()), works)
    {
      if works {
        disk := Some(Account(identity, spk, pq, otpks, requirePq));
      }
    }

    method RotatePrekeys(draw: Draw, works: bool) returns (r: Result<()>)
      modifies this
      ensures (View(), r) == Rotate(old(View()), draw, works)
    {
      if identity.None? {
        return Err(NotInitialized);
      }
      spk := Some(SignedPrekey(draw.spk, IdSigned(identity.value, DhPublic(draw.spk))));
      if draw.kem.None? || !KemWorks(draw.kem.value) {
        return Err(CryptoFailure);
      }
      pq := Some(PqPrekey(draw.kem.value, IdSigned(identity.value, KemPublic(draw.kem.value))));
      SaveIdentity(works);
      r := Ok(());
    }

    method GenerateBundle(draw: Draw, works: bool) returns (r: Result<Bundle>)
      modifies this
      ensures (View(), r) == Generate(old(View()), draw, works)
    {
      if identity.None? {
        return Err(NotInitialized);
      }
      if spk.None? || pq.None? {
        var rc := RotatePrekeys(draw, draw.rotationSaved);
        if rc.Err? {
          return Err(rc.status);
        }
      }
      otpks := otpks + [OneTime(draw.otpk, false)];
      SaveIdentity(works);
      r := Ok(Bundle(identity.value, spk.value, Some(otpks[|otpks| - 1].key), pq));
    }

    method AcceptHandshake(m: Material, works: bool) returns (r: Result<Ratchet.State>)
      modifies this
      ensures (View(), r) == AcceptSaving(old(View()), m, works)
    {
      if identity.None? || spk.None? {
        return Err(NotInitialized);
      }
      if !Converts(identity.value) || !Converts(m.identity) {
        return Err(CryptoFailure);
      }
      if m.ephemeral.SmallOrder? {
        return Err(CryptoFailure);
      }
      var k := 0;
      if m.otpk.Some? {
        while k < |otpks| && !(!otpks[k].consumed && otpks[k].key == m.otpk.value)
          invariant 0 <= k <= |otpks|
          invariant forall i :: 0 <= i < k ==> otpks[i] != OneTime(m.otpk.value, false)
        {
          k := k + 1;
        }
        if k == |otpks| {
          return Err(BundleExhausted);
        }
      }
      if m.pq.Some? && pq.None? {
        return Err(NotInitialized);
      }
      if m.pq.Some? && !KemWorks(pq.value.kem) {
        return Err(CryptoFailure);
      }
      if m.pq.None? && requirePq {
        return Err(SignatureInvalid);
      }
      var sk := ResponderSecret(Account(identity, spk, pq, otpks, requirePq), m);
      r := Ok(Ratchet.Responder(Ratchet.Identities(m.identity, identity.value), sk.value, spk.value.key));
      if m.otpk.Some? {
        otpks := otpks[k := otpks[k].(consumed := true)];
        SaveIdentity(works);
      }
    }
  }
}
