/**
 A restart reads the identity file: what the handshake model keeps on disk, as the bytes of
 crypto-engine/src/storage/identity_store.cpp.
 */
module PrekeyFile {
  import opened Symbolic
  import opened Handshake
  import opened HandshakeSafety
  import IdentityCodec

  /** A reading of byte strings as keys and signatures: any functions whatever. */
  datatype Reading = Reading(
    identity: seq<byte> -> nat, dh: seq<byte> -> DhKey, kem: seq<byte> -> nat, signature: seq<byte> -> IdSignature)

  function OneTimes(xs: seq<IdentityCodec.RawOneTime>, i: Reading): seq<OneTime> {
    seq(|xs|, j requires 0 <= j < |xs| => OneTime(i.dh(xs[j].pub), xs[j].consumed))
  }

  /** The account that the persistent fields describe. */
  function Meaning(e: IdentityCodec.RawIdentity, i: Reading): Account {
    Account(if e.has then Some(i.identity(e.pub)) else None,
            if e.spk.Some? then Some(SignedPrekey(i.dh(e.spk.value.pub), i.signature(e.spk.value.signature))) else None,
            if e.pq.Some? then Some(PqPrekey(i.kem(e.pq.value.pub), i.signature(e.pq.value.signature))) else None,
            OneTimes(e.otpks, i), false)
  }

  /** Whatever the bytes stand for, a restart puts into memory what reading back the file gives. */
  lemma RestartReadsFile(e: IdentityCodec.RawIdentity, priv0: seq<byte>, i: Reading, d: Device)
    requires IdentityCodec.Valid(e) && d.disk.Some? && d.disk.value == Meaning(e, i).(requirePq := d.disk.value.requirePq)
    ensures var back := IdentityCodec.Deserialize(IdentityCodec.Serialize(e), priv0);
            back.Some? && Reload(d) == d.(acc := Meaning(back.value, i))
  {
    hide IdentityCodec.Serialize, IdentityCodec.Deserialize, IdentityCodec.Valid, OneTimes;
    IdentityCodec.RoundTrip(e, priv0);
  }

  /** An entry of the file for this one-time prekey whose `consumed` byte is zero. */
  predicate Unconsumed(e: IdentityCodec.RawIdentity, i: Reading, key: DhKey) {
    exists j :: 0 <= j < |e.otpks| && i.dh(e.otpks[j].pub) == key && !e.otpks[j].consumed
  }

  /** Single use rests on one byte: an engine restarted from its file accepts a proper handshake
      on a one-time prekey exactly when the file lists that prekey with a zero `consumed` byte. */
  lemma ConsumedByteDecides(e: IdentityCodec.RawIdentity, priv0: seq<byte>, i: Reading, d: Device, m: Material, id: nat)
    requires IdentityCodec.Valid(e) && d.disk.Some? && d.disk.value == Meaning(e, i).(requirePq := d.disk.value.requirePq)
    requires DeviceEquipped(d, id) && Proper(m, id)
    ensures var back := IdentityCodec.Deserialize(IdentityCodec.Serialize(e), priv0);
            && back.Some?
            && (Accept(Meaning(back.value, i), m).1.Ok? <==> Unconsumed(e, i, m.otpk.value))
  {
    hide IdentityCodec.Serialize, IdentityCodec.Deserialize, IdentityCodec.Valid, ResponderSecret;
    RestartReadsFile(e, priv0, i, d);
    var list, x := OneTimes(e.otpks, i), OneTime(m.otpk.value, false);
    assert x in list <==> Unconsumed(e, i, m.otpk.value) by {
      if x in list {
        var j :| 0 <= j < |list| && list[j] == x;
        assert i.dh(e.otpks[j].pub) == m.otpk.value && !e.otpks[j].consumed;
      }
      if Unconsumed(e, i, m.otpk.value) {
        var j :| 0 <= j < |e.otpks| && i.dh(e.otpks[j].pub) == m.otpk.value && !e.otpks[j].consumed;
        assert list[j] == x;
      }
    }
  }
}
