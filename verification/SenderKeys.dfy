/**
 Group sender keys (crypto-engine/src/sender_keys.cpp): one entry per (group, sender), the
 meaning of every operation, and the engine whose entry vector the operations update.
 */
module SenderKeys {
  import opened Symbolic

  /** Both `kMaxSkip` and `kMaxSkippedKeys`. */
  const MAX_SKIP: nat := 2000

  /** A group ciphertext; the group identifier is its additional data. */
  type GroupBody = Cipher<string>

  /** Ed25519 over the header and ciphertext, keys being named by numbers. */
  datatype Signature = Signed(signer: nat, iteration: u32, body: GroupBody) | Forged(id: nat)

  /** `Garbled` stands for any message that the length and magic tests refuse. */
  datatype Message = Garbled | Message(iteration: u32, body: GroupBody, signature: Signature)

  /** `Unreadable` stands for any distribution that the length and magic tests refuse. */
  datatype Distribution = Unreadable | Distribution(iteration: u32, chain: Secret, verify: nat)

  /** A message key kept for a late message. */
  datatype Kept = Kept(iteration: u32, key: Secret)

  /** An entry; an empty `sender` names our own key, the only one with a signing half. */
  datatype SenderKey = SenderKey(
    group: string, sender: string,
    chain: Secret, iteration: u32,
    verify: nat, signing: Option<nat>,
    skipped: seq<Kept>)

  // ---- One entry ----

  function Keep(kept: seq<Kept>, x: Kept): seq<Kept> {
    (if |kept| >= MAX_SKIP then kept[1..] else kept) + [x]
  }

  /** Position of the first key kept for `iteration`, or the length of the list. */
  function FindKept(kept: seq<Kept>, iteration: u32): (k: nat)
    ensures k <= |kept|
    ensures k < |kept| ==> kept[k].iteration == iteration
    ensures forall i :: 0 <= i < k ==> kept[i].iteration != iteration
  {
    if kept == [] || kept[0].iteration == iteration then 0 else 1 + FindKept(kept[1..], iteration)
  }

  function PassOne(st: SenderKey): SenderKey
    requires st.iteration + 1 < U32_LIMIT
  {
    st.(skipped := Keep(st.skipped, Kept(st.iteration, MessageOf(st.chain))),
        chain := NextOf(st.chain), iteration := st.iteration + 1)
  }

  function CatchUp(st: SenderKey, target: u32): SenderKey
    requires st.iteration <= target
    decreases target - st.iteration
  {
    if st.iteration == target then st else CatchUp(PassOne(st), target)
  }

  function Sign(signing: Option<nat>, iteration: u32, body: GroupBody): Signature {
    if signing.Some? then Signed(signing.value, iteration, body) else Forged(0)
  }

  predicate Authentic(verify: nat, m: Message) {
    m.Message? && m.signature == Signed(verify, m.iteration, m.body)
  }

  function NewOwn(group: string, chain: Secret, signer: nat): SenderKey {
    SenderKey(group, "", chain, 0, signer, Some(signer), [])
  }

  function NewPeer(group: string, sender: string, d: Distribution): SenderKey
    requires d.Distribution?
  {
    SenderKey(group, sender, d.chain, d.iteration, d.verify, None, [])
  }

  function EncryptEntry(st: SenderKey, plain: seq<byte>): (SenderKey, Message) {
    var body := Sealed(MessageOf(st.chain), st.group, plain);
    (st.(chain := NextOf(st.chain), iteration := Succ32(st.iteration)),
     Message(st.iteration, body, Sign(st.signing, st.iteration, body)))
  }

  function OpenBody(key: Secret, group: string, body: GroupBody): Result<seq<byte>> {
    match Open(key, group, body)
    case Some(plain) => Ok(plain)
    case None => Err(CryptoFailure)
  }

  /** The signature, replay and distance tests all come before any change. */
  function DecryptEntry(st: SenderKey, m: Message): (SenderKey, Result<seq<byte>>)
    requires m.Message?
  {
    if !Authentic(st.verify, m) then (st, Err(SignatureInvalid))
    else if m.iteration < st.iteration then
      var k := FindKept(st.skipped, m.iteration);
      if k == |st.skipped| then (st, Err(ReplayDetected))
      else (st.(skipped := st.skipped[..k] + st.skipped[k + 1..]), OpenBody(st.skipped[k].key, st.group, m.body))
    else if m.iteration - st.iteration > MAX_SKIP then (st, Err(SkippedKeyLimit))
    else
      var t := CatchUp(st, m.iteration);
      (t.(chain := NextOf(t.chain), iteration := Succ32(t.iteration)), OpenBody(MessageOf(t.chain), t.group, m.body))
  }

  // ---- The vector of entries ----

  type Table = seq<SenderKey>

  /** `trouver`: position of the first entry for `(group, sender)`, or the length. */
  function Locate(t: Table, group: string, sender: string): (k: nat)
    ensures k <= |t|
    ensures k < |t| ==> t[k].group == group && t[k].sender == sender
    ensures forall i :: 0 <= i < k ==> !(t[i].group == group && t[i].sender == sender)
  {
    if t == [] || (t[0].group == group && t[0].sender == sender) then 0 else 1 + Locate(t[1..], group, sender)
  }

  /** Replaces the entry under the key of `e`, or appends it. */
  function Put(t: Table, e: SenderKey): Table {
    var k := Locate(t, e.group, e.sender);
    if k < |t| then t[k := e] else t + [e]
  }

  /** Calls of the sender-key interface.  Random chain and signing keys are arguments. */
  datatype Call =
    | Create(group: string, chain: Secret, signer: nat)
    | Process(group: string, sender: string, d: Distribution)
    | EncryptFor(group: string, plain: seq<byte>)
    | DecryptFrom(group: string, sender: string, m: Message)

  datatype Reply = Distributed(d: Distribution) | Done | Said(m: Message) | Heard(plain: seq<byte>) | Failed(status: Status)

  function Answer(r: Result<seq<byte>>): Reply {
    match r case Ok(plain) => Heard(plain) case Err(e) => Failed(e)
  }

  function Apply(t: Table, c: Call): (Table, Reply) {
    match c
    case Create(group, chain, signer) =>
      if group == "" then (t, Failed(InvalidArg))
      else (Put(t, NewOwn(group, chain, signer)), Distributed(Distribution(0, chain, signer)))
    case Process(group, sender, d) =>
      if d.Unreadable? || group == "" || sender == "" then (t, Failed(InvalidArg))
      else (Put(t, NewPeer(group, sender, d)), Done)
    case EncryptFor(group, plain) =>
      var k := Locate(t, group, "");
      if k == |t| then (t, Failed(SessionNotFound))
      else var (e, m) := EncryptEntry(t[k], plain); (t[k := e], Said(m))
    case DecryptFrom(group, sender, m) =>
      var k := Locate(t, group, sender);
      if m.Garbled? then (t, Failed(InvalidArg))
      else if k == |t| then (t, Failed(SessionNotFound))
      else var (e, r) := DecryptEntry(t[k], m); (t[k := e], Answer(r))
  }

  // ---- The vector refines a map ----

  type Entries = map<(string, string), SenderKey>

  predicate Unique(t: Table) {
    forall i, j :: 0 <= i < j < |t| ==> !(t[i].group == t[j].group && t[i].sender == t[j].sender)
  }

  function Abs(t: Table): Entries {
    if t == [] then map[]
    else Abs(t[..|t| - 1])[(t[|t| - 1].group, t[|t| - 1].sender) := t[|t| - 1]]
  }

  /** The same interface over a map: no search, no order, no duplicates. */
  function ApplyMap(m: Entries, c: Call): (Entries, Reply) {
    match c
    case Create(group, chain, signer) =>
      if group == "" then (m, Failed(InvalidArg))
      else (m[(group, "") := NewOwn(group, chain, signer)], Distributed(Distribution(0, chain, signer)))
    case Process(group, sender, d) =>
      if d.Unreadable? || group == "" || sender == "" then (m, Failed(InvalidArg))
      else (m[(group, sender) := NewPeer(group, sender, d)], Done)
    case EncryptFor(group, plain) =>
      if (group, "") !in m then (m, Failed(SessionNotFound))
      else var (e, msg) := EncryptEntry(m[(group, "")], plain); (m[(group, "") := e], Said(msg))
    case DecryptFrom(group, sender, msg) =>
      if msg.Garbled? then (m, Failed(InvalidArg))
      else if (group, sender) !in m then (m, Failed(SessionNotFound))
      else var (e, r) := DecryptEntry(m[(group, sender)], msg); (m[(group, sender) := e], Answer(r))
  }

  lemma {:induction false} AbsLookup(t: Table, group: string, sender: string)
    requires Unique(t)
    ensures (group, sender) in Abs(t) <==> Locate(t, group, sender) < |t|
    ensures (group, sender) in Abs(t) ==> Abs(t)[(group, sender)] == t[Locate(t, group, sender)]
  {
    if t != [] {
      var n := |t| - 1;
      AbsLookup(t[..n], group, sender);
      assert forall i :: 0 <= i < n ==> t[..n][i] == t[i];
    }
  }

  lemma {:induction false} AbsUpdate(t: Table, k: nat, e: SenderKey)
    requires Unique(t) && k < |t| && e.group == t[k].group && e.sender == t[k].sender
    ensures Unique(t[k := e]) && Abs(t[k := e]) == Abs(t)[(e.group, e.sender) := e]
  {
    var n := |t| - 1;
    if k < n {
      AbsUpdate(t[..n], k, e);
      assert t[k := e][..n] == t[..n][k := e];
    } else {
      assert t[k := e][..n] == t[..n];
    }
  }

  lemma AbsPut(t: Table, e: SenderKey)
    requires Unique(t)
    ensures Unique(Put(t, e)) && Abs(Put(t, e)) == Abs(t)[(e.group, e.sender) := e]
  {
    var k := Locate(t, e.group, e.sender);
    if k < |t| {
      AbsUpdate(t, k, e);
    } else {
      assert (t + [e])[..|t|] == t;
    }
  }

  lemma {:induction false} CatchUpKeepsName(st: SenderKey, target: u32)
    requires st.iteration <= target
    ensures var t := CatchUp(st, target);
            t == st.(chain := t.chain, iteration := target, skipped := t.skipped)
    decreases target - st.iteration
  {
    if st.iteration < target { CatchUpKeepsName(PassOne(st), target); }
  }

  lemma DecryptKeepsName(st: SenderKey, m: Message)
    requires m.Message?
    ensures var t := DecryptEntry(st, m).0;
            t == st.(chain := t.chain, iteration := t.iteration, skipped := t.skipped)
  {
    if st.iteration <= m.iteration { CatchUpKeepsName(st, m.iteration); }
  }

  lemma StepRefines(t: Table, c: Call)
    requires Unique(t)
    ensures var (t', r) := Apply(t, c); Unique(t') && (Abs(t'), r) == ApplyMap(Abs(t), c)
  {
    match c
    case Create(group, chain, signer) => AbsPut(t, NewOwn(group, chain, signer));
    case Process(group, sender, d) => if d.Distribution? { AbsPut(t, NewPeer(group, sender, d)); }
    case EncryptFor(group, plain) =>
      AbsLookup(t, group, "");
      var k := Locate(t, group, "");
      if k < |t| { AbsUpdate(t, k, EncryptEntry(t[k], plain).0); }
    case DecryptFrom(group, sender, m) =>
      AbsLookup(t, group, sender);
      var k := Locate(t, group, sender);
      if k < |t| && m.Message? {
        DecryptKeepsName(t[k], m);
        AbsUpdate(t, k, DecryptEntry(t[k], m).0);
      }
  }

  function Replies(t: Table, calls: seq<Call>): seq<Reply>
    decreases |calls|
  {
    if calls == [] then [] else [Apply(t, calls[0]).1] + Replies(Apply(t, calls[0]).0, calls[1..])
  }

  function MapReplies(m: Entries, calls: seq<Call>): seq<Reply>
    decreases |calls|
  {
    if calls == [] then [] else [ApplyMap(m, calls[0]).1] + MapReplies(ApplyMap(m, calls[0]).0, calls[1..])
  }

  lemma {:induction false} RunRefines(t: Table, calls: seq<Call>)
    requires Unique(t)
    ensures Replies(t, calls) == MapReplies(Abs(t), calls)
    decreases |calls|
  {
    if calls != [] {
      StepRefines(t, calls[0]);
      RunRefines(Apply(t, calls[0]).0, calls[1..]);
    }
  }

  /** From an empty engine, every run answers as a map keyed by (group, sender) would. */
  lemma TableRefinesMap(calls: seq<Call>)
    ensures Replies([], calls) == MapReplies(map[], calls)
  {
    RunRefines([], calls);
  }

  // ---- Frames and epochs ----

  /** The one key a call may touch. */
  function Target(c: Call): (string, string) {
    match c
    case Create(group, _, _) => (group, "")
    case Process(group, sender, _) => (group, sender)
    case EncryptFor(group, _) => (group, "")
    case DecryptFrom(group, sender, _) => (group, sender)
  }

  /** A call leaves every entry but its target's alone, and a distribution, whatever names
      it comes under, never reaches one of our own entries. */
  lemma CallFrames(t: Table, c: Call, group: string, sender: string)
    requires Unique(t)
    requires (group, sender) != Target(c) || (c.Process? && sender == "")
    ensures var m, m' := Abs(t), Abs(Apply(t, c).0);
            && ((group, sender) in m <==> (group, sender) in m')
            && ((group, sender) in m ==> m'[(group, sender)] == m[(group, sender)])
  {
    StepRefines(t, c);
  }

  function Final(t: Table, calls: seq<Call>): Table
    decreases |calls|
  {
    if calls == [] then t else Final(Apply(t, calls[0]).0, calls[1..])
  }

  /** The verification key of the last distribution that the run installed for the name. */
  function Epoch(calls: seq<Call>, group: string, sender: string): Option<nat>
    decreases |calls|
  {
    if calls == [] then None
    else
      var n := |calls| - 1;
      match calls[n]
      case Create(g, _, signer) =>
        if g != "" && g == group && sender == "" then Some(signer) else Epoch(calls[..n], group, sender)
      case Process(g, s, d) =>
        if d.Distribution? && g != "" && s != "" && g == group && s == sender then Some(d.verify)
        else Epoch(calls[..n], group, sender)
      case _ => Epoch(calls[..n], group, sender)
  }

  lemma {:induction false} FinalLast(t: Table, calls: seq<Call>)
    requires calls != []
    ensures Final(t, calls) == Apply(Final(t, calls[..|calls| - 1]), calls[|calls| - 1]).0
    decreases |calls|
  {
    var n := |calls| - 1;
    if n > 0 {
      FinalLast(Apply(t, calls[0]).0, calls[1..]);
      assert calls[1..][..n - 1] == calls[..n][1..];
    } else {
      assert calls[1..] == [] && calls[..n] == [];
    }
  }

  lemma {:induction false} FinalEpoch(calls: seq<Call>, group: string, sender: string)
    ensures Unique(Final([], calls))
    ensures var m := Abs(Final([], calls));
            if (group, sender) in m then Epoch(calls, group, sender) == Some(m[(group, sender)].verify)
            else Epoch(calls, group, sender) == None
    decreases |calls|
  {
    hide DecryptEntry, EncryptEntry, Apply;
    if calls != [] {
      var n := |calls| - 1;
      var t := Final([], calls[..n]);
      FinalEpoch(calls[..n], group, sender);
      FinalLast([], calls);
      StepRefines(t, calls[n]);
      if calls[n].EncryptFor? || calls[n].DecryptFrom? { EpochStep(Abs(t), calls[n], group, sender); }
    }
  }

  /** Encrypting and decrypting keep the verification key. */
  lemma EpochStep(m: Entries, c: Call, group: string, sender: string)
    requires c.EncryptFor? || c.DecryptFrom?
    ensures var m' := ApplyMap(m, c).0;
            && ((group, sender) in m' <==> (group, sender) in m)
            && ((group, sender) in m ==> m'[(group, sender)].verify == m[(group, sender)].verify)
  {
    if c.DecryptFrom? && c.m.Message? && (c.group, c.sender) in m {
      DecryptKeepsName(m[(c.group, c.sender)], c.m);
    }
  }

  /** Epoch isolation: after any run, a message opens only if it carries a signature of the
      epoch last installed for its sender; any other message leaves the engine unchanged. */
  lemma EpochIsolation(calls: seq<Call>, group: string, sender: string, m: Message)
    requires m.Message?
    ensures var t := Final([], calls);
            var (t', r) := Apply(t, DecryptFrom(group, sender, m));
            var epoch := Epoch(calls, group, sender);
            && (r.Heard? ==> epoch.Some? && Authentic(epoch.value, m))
            && (epoch.None? || !Authentic(epoch.value, m) ==>
                  t' == t && r == Failed(if epoch.None? then SessionNotFound else SignatureInvalid))
  {
    FinalEpoch(calls, group, sender);
    AbsLookup(Final([], calls), group, sender);
  }

  /** The part of the engine that holds sender keys. */
  class Engine {
    var senderKeys: seq<SenderKey>

    constructor ()
      ensures senderKeys == []
    {
      senderKeys := [];
    }

    method FindEntry(group: string, sender: string) returns (k: nat)
      ensures k == Locate(senderKeys, group, sender)
    {
      k := 0;
      while k < |senderKeys| && !(senderKeys[k].group == group && senderKeys[k].sender == sender)
        invariant 0 <= k <= |senderKeys|
        invariant forall i :: 0 <= i < k ==> !(senderKeys[i].group == group && senderKeys[i].sender == sender)
      {
        k := k + 1;
      }
    }

    method CreateKey(group: string, chain: Secret, signer: nat) returns (r: Reply)
      modifies this
      ensures (senderKeys, r) == Apply(old(senderKeys), Create(group, chain, signer))
    {
      if group == "" {
        return Failed(InvalidArg);
      }
      var k := FindEntry(group, "");
      if k < |senderKeys| {
        senderKeys := senderKeys[k := senderKeys[k].(chain := chain, iteration := 0, verify := signer,
                                                     signing := Some(signer), skipped := [])];
      } else {
        senderKeys := senderKeys + [SenderKey(group, "", chain, 0, signer, Some(signer), [])];
      }
      r := Distributed(Distribution(senderKeys[k].iteration, senderKeys[k].chain, senderKeys[k].verify));
    }

    method ProcessDistribution(group: string, sender: string, d: Distribution) returns (r: Reply)
      modifies this
      ensures (senderKeys, r) == Apply(old(senderKeys), Process(group, sender, d))
    {
      if d.Unreadable? || group == "" || sender == "" {
        return Failed(InvalidArg);
      }
      var k := FindEntry(group, sender);
      if k == |senderKeys| {
        senderKeys := senderKeys + [SenderKey(group, sender, Zero, 0, 0, None, [])];
      } else {
        senderKeys := senderKeys[k := senderKeys[k].(skipped := [])];
      }
      senderKeys := senderKeys[k := senderKeys[k].(chain := d.chain, iteration := d.iteration,
                                                   verify := d.verify, signing := None)];
      assert senderKeys == Put(old(senderKeys), NewPeer(group, sender, d));
      r := Done;
    }

    method EncryptMessage(group: string, plain: seq<byte>) returns (r: Reply)
      modifies this
      ensures (senderKeys, r) == Apply(old(senderKeys), EncryptFor(group, plain))
    {
      var k := FindEntry(group, "");
      if k == |senderKeys| {
        return Failed(SessionNotFound);
      }
      var st := senderKeys[k];
      var body := Sealed(MessageOf(st.chain), group, plain);
      r := Said(Message(st.iteration, body, Sign(st.signing, st.iteration, body)));
      senderKeys := senderKeys[k := st.(chain := NextOf(st.chain), iteration := Succ32(st.iteration))];
    }

    method CatchUpTo(k: nat, target: u32)
      requires k < |senderKeys| && senderKeys[k].iteration <= target
      modifies this
      ensures senderKeys == old(senderKeys)[k := CatchUp(old(senderKeys)[k], target)]
    {
      while senderKeys[k].iteration < target
        invariant |senderKeys| == |old(senderKeys)| && senderKeys[k].iteration <= target
        invariant senderKeys == old(senderKeys)[k := senderKeys[k]]
        invariant CatchUp(senderKeys[k], target) == CatchUp(old(senderKeys)[k], target)
        decreases target - senderKeys[k].iteration
      {
        var st := senderKeys[k];
        var kept := if |st.skipped| >= MAX_SKIP then st.skipped[1..] else st.skipped;
        kept := kept + [Kept(st.iteration, MessageOf(st.chain))];
        senderKeys := senderKeys[k := st.(skipped := kept, chain := NextOf(st.chain), iteration := st.iteration + 1)];
      }
    }

    method DecryptMessage(group: string, sender: string, m: Message) returns (r: Reply)
      modifies this
      ensures (senderKeys, r) == Apply(old(senderKeys), DecryptFrom(group, sender, m))
    {
      if m.Garbled? {
        return Failed(InvalidArg);
      }
      var k := FindEntry(group, sender);
      if k == |senderKeys| {
        return Failed(SessionNotFound);
      }
      var st := senderKeys[k];
      assert senderKeys[k := st] == senderKeys;
      if !Authentic(st.verify, m) {
        return Failed(SignatureInvalid);
      }
      var key;
      if m.iteration < st.iteration {
        var j := FindKept(st.skipped, m.iteration);
        if j == |st.skipped| {
          return Failed(ReplayDetected);
        }
        key := st.skipped[j].key;
        senderKeys := senderKeys[k := st.(skipped := st.skipped[..j] + st.skipped[j + 1..])];
      } else {
        if m.iteration - st.iteration > MAX_SKIP {
          return Failed(SkippedKeyLimit);
        }
        CatchUpKeepsName(st, m.iteration);
        CatchUpTo(k, m.iteration);
        st := senderKeys[k];
        key := MessageOf(st.chain);
        senderKeys := senderKeys[k := st.(chain := NextOf(st.chain), iteration := Succ32(st.iteration))];
        assert senderKeys == old(senderKeys)[k := senderKeys[k]];
      }
      r := Answer(OpenBody(key, group, m.body));
    }
  }
}
