/**
 Where every field of a session file and of an identity file lies, and which byte strings are
 accepted: stated by offsets, without the readers.
 */
module FileLayout {
  import opened Symbolic
  import opened Bytes
  import SessionCodec
  import IdentityCodec

  /** The bytes of a 32-bit number, lowest first. */
  lemma U32Bytes(v: u32)
    ensures U32(v) == [v % 256, v / 256 % 256, v / 0x1_0000 % 256, v / 0x100_0000]
  {
    var a := v / 256;
    var b := a / 256;
    var c := b / 256;
    assert LittleEndian(c, 1) == [c % 256] + LittleEndian(c / 256, 0);
    assert LittleEndian(b, 2) == [b % 256] + LittleEndian(c, 1);
    assert LittleEndian(a, 3) == [a % 256] + LittleEndian(b, 2);
  }

  /** Reading `n` bytes behind the first `off`. */
  lemma TakeAt(b: seq<byte>, off: nat, n: nat)
    requires off <= |b|
    ensures Take(b[off..], n) == if off + n <= |b| then Some((b[off..off + n], b[off + n..])) else None
  {
    if off + n <= |b| { assert b[off..][..n] == b[off..off + n] && b[off..][n..] == b[off + n..]; }
  }

  lemma FlagAt(b: seq<byte>, off: nat)
    requires off <= |b|
    ensures TakeFlag(b[off..]) == if off < |b| then Some((b[off] != 0, b[off + 1..])) else None
  {
    TakeAt(b, off, 1);
  }

  lemma U32At(b: seq<byte>, off: nat)
    requires off <= |b|
    ensures off + 4 <= |b| ==> Value(b[off..off + 4]) < U32_LIMIT
    ensures TakeU32(b[off..]) == if off + 4 <= |b| then Some((Value(b[off..off + 4]), b[off + 4..])) else None
  {
    TakeAt(b, off, 4);
    if off + 4 <= |b| {
      LittleEndianOfValue(b[off..off + 4]);
      Pow256Of4();
    }
  }

  lemma Pow256Of4()
    ensures Pow256(4) == U32_LIMIT
  {
    assert Pow256(3) == 256 * Pow256(2) && Pow256(2) == 256 * Pow256(1) && Pow256(1) == 256;
  }

  // ---- Session files ----

  const SESSION_HEAD := 275
  const SESSION_ENTRY := 68

  /** The entry at an offset. */
  function EntryAt(b: seq<byte>, off: nat): SessionCodec.RawSkipped
    requires off + SESSION_ENTRY <= |b| && Value(b[off + 32..off + 36]) < U32_LIMIT
  {
    SessionCodec.RawSkipped(b[off..off + 32], Value(b[off + 32..off + 36]), b[off + 36..off + 68])
  }

  lemma EntryReads(b: seq<byte>, off: nat)
    requires off <= |b|
    ensures off + SESSION_ENTRY <= |b| ==> Value(b[off + 32..off + 36]) < U32_LIMIT
    ensures SessionCodec.DecodeEntry(b[off..]) ==
            if off + SESSION_ENTRY <= |b| then Some((EntryAt(b, off), b[off + SESSION_ENTRY..])) else None
  {
    hide Take, TakeU32, Value;
    TakeAt(b, off, 32);
    if off + 32 <= |b| {
      U32At(b, off + 32);
      if off + 36 <= |b| { TakeAt(b, off + 36, 32); }
    }
  }

  lemma {:induction false} EntriesRead(b: seq<byte>, off: nat, count: nat)
    requires off <= |b|
    ensures SessionCodec.DecodeEntries(b[off..], count).Some? <==> off + SESSION_ENTRY * count <= |b|
    ensures off + SESSION_ENTRY * count <= |b| ==>
              var (xs, rest) := SessionCodec.DecodeEntries(b[off..], count).value;
              && |xs| == count && rest == b[off + SESSION_ENTRY * count..]
              && forall j :: 0 <= j < count ==>
                   Value(b[off + SESSION_ENTRY * j + 32..off + SESSION_ENTRY * j + 36]) < U32_LIMIT
                   && xs[j] == EntryAt(b, off + SESSION_ENTRY * j)
    decreases count
  {
    hide SessionCodec.DecodeEntry, EntryAt, Value;
    if count != 0 {
      EntryReads(b, off);
      if off + SESSION_ENTRY <= |b| {
        EntriesRead(b, off + SESSION_ENTRY, count - 1);
        if off + SESSION_ENTRY * count <= |b| {
          var tail := SessionCodec.DecodeEntries(b[off + SESSION_ENTRY..], count - 1).value.0;
          forall j | 0 < j < count
            ensures Value(b[off + SESSION_ENTRY * j + 32..off + SESSION_ENTRY * j + 36]) < U32_LIMIT
                    && tail[j - 1] == EntryAt(b, off + SESSION_ENTRY * j)
          {
            assert off + SESSION_ENTRY + SESSION_ENTRY * (j - 1) == off + SESSION_ENTRY * j;
          }
        }
      }
    }
  }

  lemma KeysRead(b: seq<byte>)
    ensures SessionCodec.DecodeKeys(b) ==
            if |b| < 193 then None
            else Some((SessionCodec.Keys(b[..64], b[64..96], b[96..128], b[128] != 0, b[129..161], b[161..193]), b[193..]))
  {
    hide Take, TakeFlag;
    assert b[0..] == b;
    TakeAt(b, 0, 64);
    if |b| >= 64 { TakeAt(b, 64, 32); }
    if |b| >= 96 { TakeAt(b, 96, 32); }
    if |b| >= 128 { FlagAt(b, 128); }
    if |b| >= 129 { TakeAt(b, 129, 32); }
    if |b| >= 161 { TakeAt(b, 161, 32); }
  }

  lemma ChainRead(b: seq<byte>, off: nat)
    requires off <= |b|
    ensures SessionCodec.DecodeChain(b[off..]) ==
            if |b| < off + 33 then None else Some(((b[off] != 0, b[off + 1..off + 33]), b[off + 33..]))
  {
    hide Take, TakeFlag;
    FlagAt(b, off);
    if off < |b| { TakeAt(b, off + 1, 32); }
  }

  lemma CountersRead(b: seq<byte>, off: nat)
    requires off <= |b|
    ensures |b| < off + 12 ==> SessionCodec.DecodeCounters(b[off..]).None?
    ensures |b| >= off + 12 ==>
              && Value(b[off..off + 4]) < U32_LIMIT && Value(b[off + 4..off + 8]) < U32_LIMIT && Value(b[off + 8..off + 12]) < U32_LIMIT
              && SessionCodec.DecodeCounters(b[off..]) ==
                 Some(((Value(b[off..off + 4]), Value(b[off + 4..off + 8]), Value(b[off + 8..off + 12])), b[off + 12..]))
  {
    hide TakeU32, Value;
    U32At(b, off);
    if off + 4 <= |b| { U32At(b, off + 4); }
    if off + 8 <= |b| { U32At(b, off + 8); }
  }

  /** A byte string is a session file exactly when its length is that of the fixed part and of as
      many entries as it announces. */
  predicate SessionSized(b: seq<byte>) { |b| >= SESSION_HEAD && |b| == SESSION_HEAD + SESSION_ENTRY * Value(b[271..275]) }

  /** The fixed fields of a session lie at these offsets; any non-zero flag byte means present. */
  predicate SessionFields(b: seq<byte>, s: SessionCodec.RawSession)
    requires |b| >= SESSION_HEAD
  {
    && s.ad == b[..64] && s.dhsPublic == b[64..96] && s.dhsPrivate == b[96..128]
    && s.hasDhr == (b[128] != 0) && s.dhr == b[129..161] && s.root == b[161..193]
    && s.hasSend == (b[193] != 0) && s.send == b[194..226]
    && s.hasRecv == (b[226] != 0) && s.recv == b[227..259]
    && s.ns == Value(b[259..263]) && s.nr == Value(b[263..267]) && s.pn == Value(b[267..271])
  }

  /** The skipped keys follow, entry by entry. */
  ghost predicate SessionEntries(b: seq<byte>, xs: seq<SessionCodec.RawSkipped>)
    requires SessionSized(b)
  {
    && |xs| == Value(b[271..275])
    && forall j :: 0 <= j < |xs| ==>
         var off := SESSION_HEAD + SESSION_ENTRY * j;
         Value(b[off + 32..off + 36]) < U32_LIMIT && xs[j] == EntryAt(b, off)
  }

  lemma SessionReads(b: seq<byte>)
    ensures SessionCodec.Deserialize(b).Some? <==> SessionSized(b)
    ensures SessionSized(b) ==>
              SessionFields(b, SessionCodec.Deserialize(b).value) && SessionEntries(b, SessionCodec.Deserialize(b).value.skipped)
  {
    hide Take, TakeU32, TakeFlag, Value, SessionCodec.DecodeKeys, SessionCodec.DecodeChain, SessionCodec.DecodeCounters,
      SessionCodec.DecodeEntries, EntryAt;
    KeysRead(b);
    if |b| >= 193 { ChainRead(b, 193); }
    if |b| >= 226 { ChainRead(b, 226); }
    if |b| >= 259 { CountersRead(b, 259); }
    if |b| >= 271 { U32At(b, 271); }
    if |b| >= SESSION_HEAD {
      EntriesRead(b, SESSION_HEAD, Value(b[271..275]));
    }
  }

  /** What the writer puts where. */
  lemma SessionLayout(s: SessionCodec.RawSession)
    requires SessionCodec.Valid(s)
    ensures var b := SessionCodec.Serialize(s);
            && SessionSized(b) && SessionFields(b, SessionCodec.Normal(s)) && SessionEntries(b, s.skipped)
            && b[128] == (if s.hasDhr then 1 else 0) && b[193] == (if s.hasSend then 1 else 0) && b[226] == (if s.hasRecv then 1 else 0)
  {
    hide SessionCodec.Serialize, SessionCodec.Deserialize, SessionSized, SessionFields, SessionEntries, SessionCodec.Valid;
    SessionCodec.RoundTrip(s);
    SessionReads(SessionCodec.Serialize(s));
    FlagsWritten(s);
  }

  lemma FlagsWritten(s: SessionCodec.RawSession)
    requires SessionCodec.Valid(s)
    ensures var b := SessionCodec.Serialize(s);
            && |b| >= SESSION_HEAD
            && b[128] == (if s.hasDhr then 1 else 0) && b[193] == (if s.hasSend then 1 else 0) && b[226] == (if s.hasRecv then 1 else 0)
  {
    var k := SessionCodec.EncodeKeys(s);
    assert |k| == 193 && k[128] == (if s.hasDhr then 1 else 0);
    var c := SessionCodec.EncodeChain(s.hasSend, s.send);
    var d := SessionCodec.EncodeChain(s.hasRecv, s.recv);
    assert |c| == 33 && |d| == 33;
    hide SessionCodec.EncodeKeys, SessionCodec.EncodeChain, SessionCodec.EncodeEntries;
    var b := SessionCodec.Serialize(s);
    assert b == k + c + d + SessionCodec.EncodeCounters(s) + SessionCodec.EncodeSkipped(s.skipped);
    assert b[128] == k[128] && b[193] == c[0] && b[226] == d[0];
  }

  // ---- Identity files ----

  /** Where the signed prekey, the post-quantum prekey and the list start, as the flag bytes before
      them tell; format 1 has no post-quantum prekey. */
  function PrekeyStart(b: seq<byte>): nat { if |b| > 1 && b[1] != 0 then 98 else 34 }

  function PqStart(b: seq<byte>): nat {
    var at := PrekeyStart(b);
    at + 1 + if at < |b| && b[at] != 0 then 128 else 0
  }

  function ListStart(b: seq<byte>): nat {
    var at := PqStart(b);
    if |b| > 0 && b[0] == 1 then at else at + 1 + if at < |b| && b[at] != 0 then 3648 else 0
  }

  /** A byte string is an identity file exactly when its version is 1 or 2 and its length is what its
      flags and its announced number of one-time prekeys call for. */
  predicate IdentitySized(b: seq<byte>) {
    && |b| > 0 && 1 <= b[0] <= 2
    && var at := ListStart(b);
       |b| >= at + 4 && |b| == at + 4 + 65 * Value(b[at..at + 4])
  }

  function OneTimeAt(b: seq<byte>, off: nat): IdentityCodec.RawOneTime
    requires off + 65 <= |b|
  {
    IdentityCodec.RawOneTime(b[off..off + 32], b[off + 32..off + 64], b[off + 64] != 0)
  }

  lemma OneTimeReads(b: seq<byte>, off: nat)
    requires off <= |b|
    ensures IdentityCodec.DecodeOneTime(b[off..]) == if off + 65 <= |b| then Some((OneTimeAt(b, off), b[off + 65..])) else None
  {
    hide Take, TakeFlag;
    TakeAt(b, off, 32);
    if off + 32 <= |b| { TakeAt(b, off + 32, 32); }
    if off + 64 <= |b| { FlagAt(b, off + 64); }
  }

  lemma {:induction false} OneTimesRead(b: seq<byte>, off: nat, count: nat)
    requires off <= |b|
    ensures IdentityCodec.DecodeOneTimes(b[off..], count).Some? <==> off + 65 * count <= |b|
    ensures off + 65 * count <= |b| ==>
              var (xs, rest) := IdentityCodec.DecodeOneTimes(b[off..], count).value;
              && |xs| == count && rest == b[off + 65 * count..]
              && forall j :: 0 <= j < count ==> xs[j] == OneTimeAt(b, off + 65 * j)
    decreases count
  {
    hide IdentityCodec.DecodeOneTime, OneTimeAt;
    if count != 0 {
      OneTimeReads(b, off);
      if off + 65 <= |b| {
        OneTimesRead(b, off + 65, count - 1);
        if off + 65 * count <= |b| {
          var tail := IdentityCodec.DecodeOneTimes(b[off + 65..], count - 1).value.0;
          forall j | 0 < j < count ensures tail[j - 1] == OneTimeAt(b, off + 65 * j) {
            assert off + 65 + 65 * (j - 1) == off + 65 * j;
          }
        }
      }
    }
  }

  lemma PrekeyRead(b: seq<byte>, off: nat, pub: nat, priv: nat)
    requires off <= |b|
    ensures IdentityCodec.DecodePrekey(b[off..], pub, priv) ==
            if |b| <= off then None
            else if b[off] == 0 then Some((None, b[off + 1..]))
            else
              var at := off + 1;
              if |b| < at + pub + priv + 64 then None
              else Some((Some(IdentityCodec.RawPrekey(b[at..at + pub], b[at + pub..at + pub + priv],
                                                      b[at + pub + priv..at + pub + priv + 64])),
                         b[at + pub + priv + 64..]))
  {
    hide Take, TakeFlag;
    FlagAt(b, off);
    if off < |b| {
      var at := off + 1;
      TakeAt(b, at, pub);
      if at + pub <= |b| { TakeAt(b, at + pub, priv); }
      if at + pub + priv <= |b| { TakeAt(b, at + pub + priv, 64); }
    }
  }

  lemma OwnerRead(b: seq<byte>, priv0: seq<byte>)
    requires |b| > 0
    ensures IdentityCodec.DecodeOwner(b[1..], priv0) ==
            if |b| < PrekeyStart(b) then None
            else Some(((b[1] != 0, b[2..34], if b[1] != 0 then b[34..98] else priv0), b[PrekeyStart(b)..]))
  {
    hide Take, TakeFlag;
    FlagAt(b, 1);
    if |b| >= 2 { TakeAt(b, 2, 32); }
    if |b| >= 34 { TakeAt(b, 34, 64); }
  }

  /** The fields of an identity lie at these offsets. */
  predicate IdentityFields(b: seq<byte>, e: IdentityCodec.RawIdentity, priv0: seq<byte>)
    requires IdentitySized(b)
  {
    var p, q, l := PrekeyStart(b), PqStart(b), ListStart(b);
    && e.has == (b[1] != 0) && e.pub == b[2..34] && e.priv == (if e.has then b[34..98] else priv0)
    && e.spk == (if b[p] == 0 then None
                 else Some(IdentityCodec.RawPrekey(b[p + 1..p + 33], b[p + 33..p + 65], b[p + 65..p + 129])))
    && e.pq == (if b[0] == 1 || b[q] == 0 then None
                else Some(IdentityCodec.RawPrekey(b[q + 1..q + 1185], b[q + 1185..q + 3585], b[q + 3585..q + 3649])))
    && |e.otpks| == Value(b[l..l + 4])
    && forall j :: 0 <= j < |e.otpks| ==> e.otpks[j] == OneTimeAt(b, l + 4 + 65 * j)
  }

  lemma ListRead(b: seq<byte>, l: nat)
    requires l <= |b|
    ensures var r := IdentityCodec.DecodeList(b[l..]);
            && (r.Some? && r.value.1 == [] <==> |b| >= l + 4 && |b| == l + 4 + 65 * Value(b[l..l + 4]))
            && (r.Some? && r.value.1 == [] ==>
                  && |r.value.0| == Value(b[l..l + 4])
                  && forall j :: 0 <= j < |r.value.0| ==> r.value.0[j] == OneTimeAt(b, l + 4 + 65 * j))
  {
    hide TakeU32, Value, OneTimeAt, IdentityCodec.DecodeOneTimes;
    U32At(b, l);
    if l + 4 <= |b| { OneTimesRead(b, l + 4, Value(b[l..l + 4])); }
  }

  lemma PqRead(b: seq<byte>, version: byte)
    requires |b| > 0 && version == b[0] && 1 <= version <= 2 && PqStart(b) <= |b|
    ensures var q, l := PqStart(b), ListStart(b);
            IdentityCodec.DecodePq(b[q..], version) ==
            if |b| < l then None
            else if version == 1 then Some((None, b[l..]))
            else if b[q] == 0 then Some((None, b[l..]))
            else Some((Some(IdentityCodec.RawPrekey(b[q + 1..q + 1185], b[q + 1185..q + 3585], b[q + 3585..q + 3649])), b[l..]))
  {
    hide IdentityCodec.DecodePrekey;
    PrekeyRead(b, PqStart(b), IdentityCodec.PQ_PUB, IdentityCodec.PQ_PRIV);
  }

  /** Exactly these byte strings are accepted as identity files, and this is what they say. */
  lemma IdentityReads(b: seq<byte>, priv0: seq<byte>)
    ensures IdentityCodec.Deserialize(b, priv0).Some? <==> IdentitySized(b)
    ensures IdentitySized(b) ==> IdentityFields(b, IdentityCodec.Deserialize(b, priv0).value, priv0)
  {
    hide Take, TakeU32, TakeFlag, Value, IdentityCodec.DecodeOwner, IdentityCodec.DecodePrekey, IdentityCodec.DecodePq,
      IdentityCodec.DecodeList, OneTimeAt;
    if |b| > 0 && 1 <= b[0] <= 2 {
      var p, q, l := PrekeyStart(b), PqStart(b), ListStart(b);
      OwnerRead(b, priv0);
      if p <= |b| {
        PrekeyRead(b, p, IdentityCodec.SPK_PUB, IdentityCodec.SPK_PRIV);
        if q <= |b| {
          PqRead(b, b[0]);
          if l <= |b| { ListRead(b, l); }
        }
      }
    }
  }

  /** What the writer puts where: format 2, every field at its offset. */
  lemma IdentityLayout(e: IdentityCodec.RawIdentity)
    requires IdentityCodec.Valid(e)
    ensures var b := IdentityCodec.Serialize(e);
            IdentitySized(b) && b[0] == 2 && IdentityFields(b, e, e.priv)
  {
    IdentityCodec.RoundTrip(e, e.priv);
    IdentityReads(IdentityCodec.Serialize(e), e.priv);
  }
}
