/**
 The plaintext of an exported backup (crypto-engine/src/backup.cpp): the identity and every
 vault entry, written in a loop and read back entry by entry.
 */
module Backup {
  import opened Symbolic
  import opened Bytes
  import IdentityCodec

  type Name = seq<byte>

  type Vault = map<Name, seq<byte>>

  /** A file of the vault directory; `content` is missing when `secure_read` fails on it. */
  datatype Listed = Listed(name: Name, content: Option<seq<byte>>)

  datatype Entry = Entry(kind: byte, name: Name, data: seq<byte>)

  const KIND_IDENTITY: byte := 0
  const KIND_VAULT: byte := 1

  /** `valid_name`: letters, digits, dot, underscore and hyphen, at most 128 of them. */
  predicate ValidName(name: Name) {
    && 0 < |name| <= 128
    && forall i :: 0 <= i < |name| ==>
         var c := name[i];
         48 <= c <= 57 || 65 <= c <= 90 || 97 <= c <= 122 || c == 46 || c == 95 || c == 45
  }

  /** Both `secure_read` and `secure_write` refuse other names. */
  predicate Listing(listed: seq<Listed>) {
    forall i :: 0 <= i < |listed| && listed[i].content.Some? ==> ValidName(listed[i].name)
  }

  predicate AllRead(listed: seq<Listed>) {
    forall i :: 0 <= i < |listed| ==> listed[i].content.Some?
  }

  // ---- Export ----

  function EncodeEntry(x: Entry): seq<byte> {
    [x.kind] + (U32(|x.name| % U32_LIMIT) + (x.name + (U32(|x.data| % U32_LIMIT) + x.data)))
  }

  /** Entries that do not read back are left out, but have been counted. */
  function EncodeVault(listed: seq<Listed>): seq<byte> {
    if listed == [] then []
    else (if listed[0].content.Some? then EncodeEntry(Entry(KIND_VAULT, listed[0].name, listed[0].content.value)) else [])
         + EncodeVault(listed[1..])
  }

  function IdentityEntry(e: IdentityCodec.RawIdentity): Entry { Entry(KIND_IDENTITY, [], IdentityCodec.Serialize(e)) }

  function Export(e: IdentityCodec.RawIdentity, listed: seq<Listed>): seq<byte> {
    U32((1 + |listed|) % U32_LIMIT) + (EncodeEntry(IdentityEntry(e)) + EncodeVault(listed))
  }

  // ---- Import ----

  function DecodeEntry(b: seq<byte>): Read<Entry> {
    var (kind, b) :- Take(b, 1);
    var (nameLen, b) :- TakeU32(b);
    var (name, b) :- Take(b, nameLen);
    var (dataLen, b) :- TakeU32(b);
    var (data, b) :- Take(b, dataLen);
    Some((Entry(kind[0], name, data), b))
  }

  /** The engine being restored, and whether an identity has been met. */
  datatype Target = Target(identity: IdentityCodec.RawIdentity, vault: Vault, seen: bool)

  /** `None` when the entry is refused; entries of an unknown kind are passed over. */
  function ApplyEntry(t: Target, x: Entry, writable: bool): Option<Target> {
    if x.kind == KIND_IDENTITY then
      var e :- IdentityCodec.Deserialize(x.data, t.identity.priv);
      Some(t.(identity := e, seen := true))
    else if x.kind == KIND_VAULT then
      if writable && ValidName(x.name) then Some(t.(vault := t.vault[x.name := x.data])) else None
    else Some(t)
  }

  function Works(fails: set<nat>, count: nat): bool { count !in fails }

  /** `fails` are the entries, counted from the last, whose write to the vault fails. */
  function ImportEntries(b: seq<byte>, count: nat, t: Target, fails: set<nat>): Option<Target>
    decreases count
  {
    if count == 0 then Some(t)
    else
      var (x, b) :- DecodeEntry(b);
      var t' :- ApplyEntry(t, x, Works(fails, count));
      ImportEntries(b, count - 1, t', fails)
  }

  /** The plaintext part of `zia_backup_import`; what a refused import leaves behind is not
      described. */
  function Import(b: seq<byte>, identity: IdentityCodec.RawIdentity, vault: Vault, fails: set<nat>): Option<Target> {
    var (count, b) :- TakeU32(b);
    var t :- ImportEntries(b, count, Target(identity, vault, false), fails);
    if t.seen then Some(t) else None
  }

  // ---- Export then import ----

  predicate Fits(x: Entry) { |x.name| < U32_LIMIT && |x.data| < U32_LIMIT }

  /** Every size fits the 32-bit field that carries it. */
  predicate AllFit(e: IdentityCodec.RawIdentity, listed: seq<Listed>) {
    && |IdentityCodec.Serialize(e)| < U32_LIMIT && 1 + |listed| < U32_LIMIT
    && SmallContents(listed)
  }

  /** The vault overridden by the listed entries. */
  function Override(vault: Vault, listed: seq<Listed>): Vault
    decreases |listed|
  {
    if listed == [] then vault
    else Override(if listed[0].content.Some? then vault[listed[0].name := listed[0].content.value] else vault, listed[1..])
  }

  lemma EntryConcat(x: Entry, q: seq<byte>)
    requires Fits(x)
    ensures DecodeEntry(EncodeEntry(x) + q) == Some((x, q))
  {
    hide Take, TakeU32, U32;
    var b4 := x.data + q;
    var b3 := U32(|x.data|) + b4;
    var b2 := x.name + b3;
    var b1 := U32(|x.name|) + b2;
    assert EncodeEntry(x) + q == [x.kind] + b1 by {
      Regroup([x.kind], U32(|x.name|) + (x.name + (U32(|x.data|) + x.data)), q);
      Regroup(U32(|x.name|), x.name + (U32(|x.data|) + x.data), q);
      Regroup(x.name, U32(|x.data|) + x.data, q);
      Regroup(U32(|x.data|), x.data, q);
    }
    TakeConcat([x.kind], b1);
    TakeU32Concat(|x.name|, b2);
    TakeConcat(x.name, b3);
    TakeU32Concat(|x.data|, b4);
    TakeConcat(x.data, q);
  }

  lemma ImportStep(x: Entry, rest: seq<byte>, count: nat, t: Target, fails: set<nat>)
    requires Fits(x) && count > 0
    ensures ImportEntries(EncodeEntry(x) + rest, count, t, fails) ==
            match ApplyEntry(t, x, Works(fails, count))
            case None => None
            case Some(t') => ImportEntries(rest, count - 1, t', fails)
  {
    hide DecodeEntry, EncodeEntry, ApplyEntry;
    EntryConcat(x, rest);
  }

  predicate AllWork(fails: set<nat>, count: nat) { forall c: nat :: 1 <= c <= count ==> Works(fails, c) }

  /** One vault entry in front of the others. */
  lemma VaultStep(x: Listed, rest: seq<byte>, count: nat, t: Target, fails: set<nat>)
    requires x.content.Some? && ValidName(x.name) && |x.content.value| < U32_LIMIT && count > 0
    ensures ImportEntries(EncodeEntry(Entry(KIND_VAULT, x.name, x.content.value)) + rest, count, t, fails) ==
            if !Works(fails, count) then None
            else ImportEntries(rest, count - 1, t.(vault := t.vault[x.name := x.content.value]), fails)
  {
    hide EncodeEntry, ImportEntries, Works;
    ImportStep(Entry(KIND_VAULT, x.name, x.content.value), rest, count, t, fails);
  }

  predicate SmallContents(listed: seq<Listed>) {
    forall i :: 0 <= i < |listed| && listed[i].content.Some? ==> |listed[i].content.value| < U32_LIMIT
  }

  lemma {:induction false} VaultConcat(listed: seq<Listed>, t: Target, fails: set<nat>)
    requires Listing(listed) && AllRead(listed) && SmallContents(listed) && AllWork(fails, |listed|)
    ensures ImportEntries(EncodeVault(listed), |listed|, t, fails) == Some(t.(vault := Override(t.vault, listed)))
    decreases |listed|
  {
    hide EncodeEntry, DecodeEntry, ApplyEntry;
    if listed != [] {
      VaultStep(listed[0], EncodeVault(listed[1..]), |listed|, t, fails);
      VaultConcat(listed[1..], t.(vault := t.vault[listed[0].name := listed[0].content.value]), fails);
    }
  }

  lemma NothingToRead(count: nat, t: Target, fails: set<nat>)
    requires count > 0
    ensures ImportEntries([], count, t, fails).None?
  {
    assert DecodeEntry([]).None?;
  }

  /** A counted entry that was left out makes the reader run off the end, unless a write that
      fails stops it first. */
  lemma {:induction false} VaultShort(listed: seq<Listed>, count: nat, t: Target, fails: set<nat>)
    requires Listing(listed) && SmallContents(listed) && |listed| <= count
    requires |listed| < count || !AllRead(listed) || !AllWork(fails, count)
    ensures ImportEntries(EncodeVault(listed), count, t, fails).None?
    decreases |listed|
  {
    hide EncodeEntry, ImportEntries, ValidName;
    if listed == [] {
      NothingToRead(count, t, fails);
    } else {
      var rest := EncodeVault(listed[1..]);
      if listed[0].content.Some? {
        VaultStep(listed[0], rest, count, t, fails);
        if Works(fails, count) {
          VaultShort(listed[1..], count - 1, t.(vault := t.vault[listed[0].name := listed[0].content.value]), fails);
        }
      } else {
        assert [] + rest == rest;
        VaultShort(listed[1..], count, t, fails);
      }
    }
  }

  /** Importing an export on any engine succeeds exactly when every listed vault entry was
      read by the export and written by the import; it then restores the identity and overrides the vault with those entries. */
  lemma RoundTrip(e: IdentityCodec.RawIdentity, listed: seq<Listed>, identity: IdentityCodec.RawIdentity, vault: Vault,
                  fails: set<nat>)
    requires IdentityCodec.Valid(e) && e.has && Listing(listed) && AllFit(e, listed)
    ensures Import(Export(e, listed), identity, vault, fails) ==
            if AllRead(listed) && AllWork(fails, |listed|) then Some(Target(e, Override(vault, listed), true)) else None
  {
    hide TakeU32, U32, DecodeEntry, EncodeEntry, IdentityCodec.Serialize, IdentityCodec.Deserialize, EncodeVault;
    var rest := EncodeVault(listed);
    TakeU32Concat(1 + |listed|, EncodeEntry(IdentityEntry(e)) + rest);
    ImportStep(IdentityEntry(e), rest, 1 + |listed|, Target(identity, vault, false), fails);
    IdentityCodec.RoundTrip(e, identity.priv);
    var t := Target(e, vault, true);
    if AllRead(listed) && AllWork(fails, |listed|) {
      VaultConcat(listed, t, fails);
    } else {
      VaultShort(listed, |listed|, t, fails);
    }
  }

  /** Override keeps every other entry and, names being distinct, holds each listed one. */
  lemma {:induction false} OverrideExact(vault: Vault, listed: seq<Listed>)
    requires forall i, j :: 0 <= i < j < |listed| ==> listed[i].name != listed[j].name
    ensures forall i :: 0 <= i < |listed| && listed[i].content.Some? ==>
              listed[i].name in Override(vault, listed) && Override(vault, listed)[listed[i].name] == listed[i].content.value
    ensures forall n :: (forall i :: 0 <= i < |listed| ==> listed[i].name != n) ==>
              (n in Override(vault, listed) <==> n in vault) && (n in vault ==> Override(vault, listed)[n] == vault[n])
    decreases |listed|
  {
    if listed != [] {
      var vault' := if listed[0].content.Some? then vault[listed[0].name := listed[0].content.value] else vault;
      assert forall i :: 0 <= i < |listed[1..]| ==> listed[1..][i] == listed[i + 1];
      OverrideExact(vault', listed[1..]);
      assert forall i :: 1 <= i < |listed| ==> listed[i] == listed[1..][i - 1];
    }
  }

  /** The characters alone decide: two dots are a proper name, whatever the comment beside the test
      says; what is written is the name with an extension. */
  lemma DotsAreProper()
    ensures ValidName([46, 46]) && !ValidName([]) && !ValidName([46, 46, 47, 120])
  {
    assert [46, 46, 47, 120][2] == 47;
  }

  // ---- Arbitrary input ----

  /** All entries that the plaintext declares, if they are all there. */
  function Entries(b: seq<byte>, count: nat): Option<seq<Entry>>
    decreases count
  {
    if count == 0 then Some([])
    else
      var (x, b) :- DecodeEntry(b);
      var xs :- Entries(b, count - 1);
      Some([x] + xs)
  }

  /** An identity entry reads back; a vault entry has a proper name and its write works; entries of
      other kinds are always fine. `at` is the entry's number from the last. */
  predicate Acceptable(x: Entry, at: nat, fails: set<nat>) {
    && (x.kind == 0 ==> IdentityCodec.Deserialize(x.data, []).Some?)
    && (x.kind == 1 ==> ValidName(x.name) && at !in fails)
  }

  /** What the vault entries leave in the vault, a later one replacing an earlier one. */
  function Written(vault: Vault, xs: seq<Entry>): Vault
    decreases |xs|
  {
    if xs == [] then vault
    else Written(if xs[0].kind == 1 then vault[xs[0].name := xs[0].data] else vault, xs[1..])
  }

  ghost predicate AllAcceptable(xs: seq<Entry>, fails: set<nat>) {
    forall i :: 0 <= i < |xs| ==> Acceptable(xs[i], |xs| - i, fails)
  }

  lemma AcceptableTail(xs: seq<Entry>, fails: set<nat>)
    requires xs != []
    ensures AllAcceptable(xs, fails) <==> Acceptable(xs[0], |xs|, fails) && AllAcceptable(xs[1..], fails)
  {
    hide Acceptable;
    assert forall i :: 0 <= i < |xs[1..]| ==> xs[1..][i] == xs[i + 1] && |xs[1..]| - i == |xs| - (i + 1);
    if Acceptable(xs[0], |xs|, fails) && AllAcceptable(xs[1..], fails) {
      forall i | 0 <= i < |xs| ensures Acceptable(xs[i], |xs| - i, fails) {
        if i > 0 { assert xs[i] == xs[1..][i - 1]; }
      }
    }
    if AllAcceptable(xs, fails) {
      forall i | 0 <= i < |xs[1..]| ensures Acceptable(xs[1..][i], |xs[1..]| - i, fails) {
        assert Acceptable(xs[i + 1], |xs| - (i + 1), fails);
      }
    }
  }

  /** Whether an identity reads back does not depend on the engine that reads it. */
  lemma ReadsAnywhere(b: seq<byte>, priv0: seq<byte>)
    ensures IdentityCodec.Deserialize(b, priv0).Some? <==> IdentityCodec.Deserialize(b, []).Some?
  {
    if b != [] {
      hide IdentityCodec.DecodeBody;
      if IdentityCodec.DecodeBody(b[1..], b[0], priv0).Some? { IdentityCodec.BodyAny(b[1..], b[0], priv0, []); }
      if IdentityCodec.DecodeBody(b[1..], b[0], []).Some? { IdentityCodec.BodyAny(b[1..], b[0], [], priv0); }
    }
  }

  lemma StepExactly(t: Target, x: Entry, at: nat, fails: set<nat>)
    ensures var r := ApplyEntry(t, x, Works(fails, at));
            && (r.Some? <==> Acceptable(x, at, fails))
            && (r.Some? ==> r.value.vault == Written(t.vault, [x]) && (r.value.seen <==> t.seen || x.kind == 0))
  {
    hide IdentityCodec.Deserialize, ValidName;
    ReadsAnywhere(x.data, t.identity.priv);
    assert [x][1..] == [];
  }

  lemma {:induction false} EntriesExactly(b: seq<byte>, count: nat, t: Target, fails: set<nat>)
    ensures var r, xs := ImportEntries(b, count, t, fails), Entries(b, count);
            && (xs.Some? ==> |xs.value| == count)
            && (r.Some? <==> xs.Some? && AllAcceptable(xs.value, fails))
            && (r.Some? ==> r.value.vault == Written(t.vault, xs.value)
                            && (r.value.seen <==> t.seen || exists i :: 0 <= i < count && xs.value[i].kind == 0))
    decreases count
  {
    hide DecodeEntry, ApplyEntry, Acceptable, AllAcceptable, Works;
    if count == 0 {
      NoneIsAcceptable(fails);
    } else if DecodeEntry(b).Some? {
      var (x, rest) := DecodeEntry(b).value;
      StepExactly(t, x, count, fails);
      var t' := ApplyEntry(t, x, Works(fails, count));
      var tail := Entries(rest, count - 1);
      EntriesExactly(rest, count - 1, if t'.Some? then t'.value else t, fails);
      if tail.Some? {
        var xs := [x] + tail.value;
        assert xs[1..] == tail.value;
        AcceptableTail(xs, fails);
        WrittenStep(t.vault, x, tail.value);
        SeenStep(x, tail.value);
      }
    }
  }

  lemma NoneIsAcceptable(fails: set<nat>)
    ensures AllAcceptable([], fails)
  {
  }

  lemma WrittenStep(vault: Vault, x: Entry, xs: seq<Entry>)
    ensures Written(vault, [x] + xs) == Written(Written(vault, [x]), xs)
  {
    assert ([x] + xs)[1..] == xs && [x][1..] == [];
  }

  lemma SeenStep(x: Entry, xs: seq<Entry>)
    ensures (exists i :: 0 <= i < |xs| + 1 && ([x] + xs)[i].kind == 0) <==>
            x.kind == 0 || exists i :: 0 <= i < |xs| && xs[i].kind == 0
  {
    if x.kind == 0 { assert ([x] + xs)[0].kind == 0; }
    if i :| 0 <= i < |xs| && xs[i].kind == 0 { assert ([x] + xs)[i + 1].kind == 0; }
    if i :| 0 < i < |xs| + 1 && ([x] + xs)[i].kind == 0 { assert xs[i - 1].kind == 0; }
  }

  /** Importing any plaintext whatever succeeds exactly when every declared entry is there and
      acceptable and one of them is an identity; the vault then holds what the vault entries left. */
  lemma ImportExactly(b: seq<byte>, identity: IdentityCodec.RawIdentity, vault: Vault, fails: set<nat>)
    ensures var r := Import(b, identity, vault, fails);
            var count := if |b| < 4 then 0 else Value(b[..4]);
            var xs := if |b| < 4 then None else Entries(b[4..], count);
            && (r.Some? <==> |b| >= 4 && xs.Some? && AllAcceptable(xs.value, fails)
                             && exists i :: 0 <= i < |xs.value| && xs.value[i].kind == 0)
            && (r.Some? ==> r.value.vault == Written(vault, xs.value))
  {
    hide Acceptable, AllAcceptable, ImportEntries;
    if |b| >= 4 {
      LittleEndianOfValue(b[..4]);
      EntriesExactly(b[4..], Value(b[..4]), Target(identity, vault, false), fails);
    }
  }

  /** No import writes an entry under a name with a slash in it, without a name, or with too long a
      name: what is new in the vault has a proper name. */
  lemma {:induction false} WrittenNames(vault: Vault, xs: seq<Entry>, fails: set<nat>)
    requires AllAcceptable(xs, fails)
    ensures forall n :: n in Written(vault, xs) ==> n in vault || (0 < |n| <= 128 && 47 !in n && 92 !in n && 0 !in n)
    decreases |xs|
  {
    if xs != [] {
      AcceptableTail(xs, fails);
      hide IdentityCodec.Deserialize;
      WrittenNames(if xs[0].kind == 1 then vault[xs[0].name := xs[0].data] else vault, xs[1..], fails);
    }
  }

  /** How many entries are read completely before the input or the count runs out. */
  function Completed(b: seq<byte>, count: nat): nat
    decreases count
  {
    if count == 0 || DecodeEntry(b).None? then 0 else 1 + Completed(DecodeEntry(b).value.1, count - 1)
  }

  lemma EntryConsumes(b: seq<byte>)
    requires DecodeEntry(b).Some?
    ensures var (x, rest) := DecodeEntry(b).value;
            && |b| == 9 + |x.name| + |x.data| + |rest|
            && rest == b[|b| - |rest|..]
  {
    var b1 := b[1..];
    var n: int := TakeU32(b1).value.0;
    var b2 := b1[4..];
    var b3 := b2[n..];
    var m: int := TakeU32(b3).value.0;
    var b4 := b3[4..];
    assert b4[m..] == b[9 + n + m..];
  }

  /** Whatever count is declared, no more than a ninth of the bytes can be entries. */
  lemma {:induction false} EntriesBounded(b: seq<byte>, count: nat)
    ensures 9 * Completed(b, count) <= |b|
    decreases count
  {
    hide DecodeEntry;
    if count != 0 && DecodeEntry(b).Some? {
      EntryConsumes(b);
      EntriesBounded(DecodeEntry(b).value.1, count - 1);
    }
  }

  // ---- The code ----

  /** `put_u32` and `put_u64`: one byte per turn, lowest first. */
  method PutInteger(out: seq<byte>, v: nat, width: nat) returns (out': seq<byte>)
    ensures out' == out + LittleEndian(v, width)
  {
    out' := out;
    var rest, i := v, 0;
    while i < width
      invariant 0 <= i <= width
      invariant out' + LittleEndian(rest, width - i) == out + LittleEndian(v, width)
    {
      ghost var before := out';
      ghost var next := LittleEndian(rest / 256, width - i - 1);
      Regroup(before, [rest % 256], next);
      out' := out' + [rest % 256];
      rest := rest / 256;
      i := i + 1;
    }
    assert out' + [] == out';
  }

  /** `u64` of the reader: from the last byte down. */
  method GetInteger(b: seq<byte>) returns (v: nat)
    ensures v == Value(b)
  {
    v := 0;
    var k := |b|;
    while k > 0
      invariant 0 <= k <= |b|
      invariant v == Value(b[k..])
    {
      k := k - 1;
      assert b[k..][1..] == b[k + 1..];
      v := v * 256 + b[k];
    }
    assert b[0..] == b;
  }

  method AppendEntry(out: seq<byte>, x: Entry) returns (out': seq<byte>)
    ensures out' == out + EncodeEntry(x)
  {
    hide LittleEndian;
    ghost var k, n, d := [x.kind], U32(|x.name| % U32_LIMIT), U32(|x.data| % U32_LIMIT);
    out' := out + [x.kind];
    out' := PutInteger(out', |x.name| % U32_LIMIT, 4);
    out' := out' + x.name;
    out' := PutInteger(out', |x.data| % U32_LIMIT, 4);
    out' := out' + x.data;
    Regroup(out + k + n + x.name, d, x.data);
    Regroup(out + k + n, x.name, d + x.data);
    Regroup(out + k, n, x.name + (d + x.data));
    Regroup(out, k, n + (x.name + (d + x.data)));
  }

  lemma {:induction false} VaultAppend(listed: seq<Listed>, x: Listed)
    ensures EncodeVault(listed + [x]) == EncodeVault(listed) +
              if x.content.Some? then EncodeEntry(Entry(KIND_VAULT, x.name, x.content.value)) else []
  {
    hide EncodeEntry;
    if listed == [] {
      assert listed + [x] == [x];
    } else {
      VaultAppend(listed[1..], x);
      assert (listed + [x])[1..] == listed[1..] + [x];
    }
  }

  /** The entry-writing part of `zia_backup_export`. */
  method ExportPlain(e: IdentityCodec.RawIdentity, listed: seq<Listed>) returns (plain: seq<byte>)
    ensures plain == Export(e, listed)
  {
    hide EncodeEntry, LittleEndian;
    var identity := IdentityCodec.SerializeIdentity(e);
    plain := PutInteger([], (1 + |listed|) % U32_LIMIT, 4);
    assert plain == U32((1 + |listed|) % U32_LIMIT);
    ghost var count := plain;
    plain := AppendEntry(plain, Entry(KIND_IDENTITY, [], identity));
    ghost var head := plain;
    var i := 0;
    while i < |listed|
      invariant 0 <= i <= |listed|
      invariant plain == head + EncodeVault(listed[..i])
    {
      VaultAppend(listed[..i], listed[i]);
      assert listed[..i + 1] == listed[..i] + [listed[i]];
      if listed[i].content.Some? {
        plain := AppendEntry(plain, Entry(KIND_VAULT, listed[i].name, listed[i].content.value));
      }
      i := i + 1;
    }
    assert listed[..i] == listed;
    Regroup(count, EncodeEntry(IdentityEntry(e)), EncodeVault(listed));
  }

  method ReadEntry(r: Reader) returns (x: Option<Entry>)
    requires r.Valid()
    modifies r`offset
    ensures r.Valid()
    ensures x.Some? == DecodeEntry(old(r.Rest())).Some?
    ensures x.Some? ==> DecodeEntry(old(r.Rest())) == Some((x.value, r.Rest()))
  {
    hide TakeU32;
    x := None;
    var kind := r.ReadBytes(1);
    if kind.None? { return; }
    var nameLen := r.ReadU32();
    if nameLen.None? { return; }
    var name := r.ReadBytes(nameLen.value);
    if name.None? { return; }
    var dataLen := r.ReadU32();
    if dataLen.None? { return; }
    var data := r.ReadBytes(dataLen.value);
    if data.None? { return; }
    x := Some(Entry(kind.value[0], name.value, data.value));
  }

  /** The engine and its vault on the importing machine. */
  class Device {
    var identity: IdentityCodec.RawIdentity
    var vault: Vault

    constructor (identity: IdentityCodec.RawIdentity, vault: Vault)
      ensures this.identity == identity && this.vault == vault
    {
      this.identity, this.vault := identity, vault;
    }

    /** The entry-reading loop of `zia_backup_import`. */
    method ImportPlain(plain: seq<byte>, fails: set<nat>) returns (ok: bool)
      modifies this
      ensures ok == Import(plain, old(identity), old(vault), fails).Some?
      ensures ok ==> Import(plain, old(identity), old(vault), fails) == Some(Target(identity, vault, true))
    {
      hide TakeU32, DecodeEntry, ApplyEntry;
      var r := new Reader(plain);
      var count := r.ReadU32();
      if count.None? { return false; }
      var seen := false;
      var i := 0;
      ghost var whole := ImportEntries(r.Rest(), count.value, Target(identity, vault, false), fails);
      while i < count.value
        invariant 0 <= i <= count.value && r.Valid()
        invariant whole == ImportEntries(r.Rest(), count.value - i, Target(identity, vault, seen), fails)
      {
        var x := ReadEntry(r);
        if x.None? { return false; }
        var t := ApplyEntry(Target(identity, vault, seen), x.value, Works(fails, count.value - i));
        if t.None? { return false; }
        identity, vault, seen := t.value.identity, t.value.vault, t.value.seen;
        i := i + 1;
      }
      ok := seen;
    }
  }
}
