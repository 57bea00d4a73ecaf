/**
 What an engine answers to a group message, branch by branch and without its loops, and that a
 message of one group opens in no other.
 */
module GroupOutcome {
  import opened Symbolic
  import opened SenderKeys

  /** The answer is the plaintext exactly when the body was sealed with this key for this group; it
      is CRYPTO_FAILURE otherwise. */
  ghost predicate AnswersUnder(r: Result<seq<byte>>, key: Secret, group: string, body: GroupBody) {
    && (forall plain :: r == Ok(plain) <==> body == Sealed(key, group, plain))
    && (r.Err? ==> r.status == CryptoFailure)
  }

  /** The message carries the signature of the entry's sender over its iteration and body. */
  predicate SignedFor(st: SenderKey, m: Message) { m.Message? && m.signature == Signed(st.verify, m.iteration, m.body) }

  /** No key is kept for the iteration. */
  predicate NotKept(kept: seq<Kept>, iteration: u32) { forall i :: 0 <= i < |kept| ==> kept[i].iteration != iteration }

  lemma {:induction false} CatchUpChain(st: SenderKey, target: u32)
    requires st.iteration <= target
    ensures CatchUp(st, target) ==
            st.(iteration := target, chain := Advance(st.chain, target - st.iteration), skipped := CatchUp(st, target).skipped)
    decreases target - st.iteration
  {
    if st.iteration < target {
      CatchUpChain(PassOne(st), target);
      AdvanceShift(st.chain, target - st.iteration - 1);
    }
  }

  /** The three refusals, all before any change: a bad signature, an iteration that was read or never
      kept, and one more than two thousand ahead. */
  lemma EntryRefuses(st: SenderKey, m: Message)
    requires m.Message?
    ensures !SignedFor(st, m) ==> DecryptEntry(st, m) == (st, Err(SignatureInvalid))
    ensures SignedFor(st, m) && m.iteration < st.iteration && NotKept(st.skipped, m.iteration) ==>
              DecryptEntry(st, m) == (st, Err(ReplayDetected))
    ensures SignedFor(st, m) && m.iteration >= st.iteration && m.iteration - st.iteration > 2000 ==>
              DecryptEntry(st, m) == (st, Err(SkippedKeyLimit))
  {
  }

  /** A late message: the key kept for it decides, and is used up either way. */
  lemma LateAnswer(st: SenderKey, m: Message, k: nat)
    requires SignedFor(st, m) && m.iteration < st.iteration
    requires k < |st.skipped| && st.skipped[k].iteration == m.iteration && NotKept(st.skipped[..k], m.iteration)
    ensures var (st', r) := DecryptEntry(st, m);
            && st' == st.(skipped := st.skipped[..k] + st.skipped[k + 1..])
            && AnswersUnder(r, st.skipped[k].key, st.group, m.body)
  {
    assert forall i :: 0 <= i < k ==> st.skipped[..k][i] == st.skipped[i];
    assert FindKept(st.skipped, m.iteration) == k;
  }

  /** A message at or ahead of the iteration: the key at its place of the chain decides, and the
      chain moves beyond it either way. */
  lemma AheadAnswer(st: SenderKey, m: Message)
    requires SignedFor(st, m) && st.iteration <= m.iteration <= st.iteration + 2000
    ensures var (st', r) := DecryptEntry(st, m);
            var c := Advance(st.chain, m.iteration - st.iteration);
            && st' == st.(chain := NextOf(c), iteration := Succ32(m.iteration), skipped := st'.skipped)
            && AnswersUnder(r, MessageOf(c), st.group, m.body)
  {
    CatchUpChain(st, m.iteration);
  }

  // ---- The group is authenticated ----

  /** The message was sealed for this group. */
  predicate SealedFor(m: Message, group: string, plain: seq<byte>) {
    m.Message? && m.body.Sealed? && m.body.ad == group && m.body.plain == plain
  }

  lemma EntryAuthentic(st: SenderKey, m: Message)
    requires m.Message?
    ensures DecryptEntry(st, m).1.Ok? ==> SignedFor(st, m) && SealedFor(m, st.group, DecryptEntry(st, m).1.value)
  {
    if st.iteration <= m.iteration { CatchUpChain(st, m.iteration); }
  }

  lemma CallAuthentic(t: Table, c: Call)
    ensures c.DecryptFrom? && Apply(t, c).1.Heard? ==> SealedFor(c.m, c.group, Apply(t, c).1.plain)
    ensures c.EncryptFor? && Apply(t, c).1.Said? ==> SealedFor(Apply(t, c).1.m, c.group, c.plain)
  {
    if c.DecryptFrom? && c.m.Message? {
      var k := Locate(t, c.group, c.sender);
      if k < |t| { EntryAuthentic(t[k], c.m); }
    }
  }

  lemma {:induction false} RunAuthentic(t: Table, calls: seq<Call>)
    ensures |Replies(t, calls)| == |calls|
    ensures forall i :: 0 <= i < |calls| && calls[i].DecryptFrom? && Replies(t, calls)[i].Heard? ==>
              SealedFor(calls[i].m, calls[i].group, Replies(t, calls)[i].plain)
    ensures forall i :: 0 <= i < |calls| && calls[i].EncryptFor? && Replies(t, calls)[i].Said? ==>
              SealedFor(Replies(t, calls)[i].m, calls[i].group, calls[i].plain)
    decreases |calls|
  {
    hide Apply, SealedFor;
    if calls != [] {
      var (t', r) := Apply(t, calls[0]);
      CallAuthentic(t, calls[0]);
      RunAuthentic(t', calls[1..]);
      assert forall i :: 1 <= i < |calls| ==> Replies(t, calls)[i] == Replies(t', calls[1..])[i - 1] && calls[i] == calls[1..][i - 1];
    }
  }

  /** No message said for one group is ever heard under another, by any engine and whatever
      distributions either of them processed; under its own group it gives what was said. */
  lemma GroupsStayApart(saying: seq<Call>, i: nat, hearing: seq<Call>, j: nat)
    requires i < |saying| && saying[i].EncryptFor? && i < |Replies([], saying)| && Replies([], saying)[i].Said?
    requires j < |hearing| && hearing[j].DecryptFrom? && j < |Replies([], hearing)|
    requires hearing[j].m == Replies([], saying)[i].m
    ensures Replies([], hearing)[j].Heard? ==>
              hearing[j].group == saying[i].group && Replies([], hearing)[j].plain == saying[i].plain
  {
    RunAuthentic([], saying);
    RunAuthentic([], hearing);
  }

  // ---- Creating and distributing ----

  lemma {:induction false} PutFinds(t: Table, e: SenderKey)
    ensures var k := Locate(Put(t, e), e.group, e.sender); k < |Put(t, e)| && Put(t, e)[k] == e
  {
    var u, k := Put(t, e), Locate(Put(t, e), e.group, e.sender);
    var j := Locate(t, e.group, e.sender);
    assert u[j] == e;
    assert forall i :: 0 <= i < j ==> u[i] == t[i];
  }

  /** What a creation hands out is what it installs: whoever processes the distribution stands
      where the creator stands, on a chain without skipped keys, and checks the creator's key. */
  lemma DistributionCarriesChain(t: Table, group: string, chain: Secret, signer: nat, u: Table, sender: string)
    requires group != "" && sender != ""
    ensures var (t', r) := Apply(t, Create(group, chain, signer));
            && r.Distributed?
            && var (u', done) := Apply(u, Process(group, sender, r.d));
            var i, j := Locate(t', group, ""), Locate(u', group, sender);
            && done == Done && i < |t'| && j < |u'|
            && t'[i].chain == u'[j].chain == chain && t'[i].iteration == u'[j].iteration
            && t'[i].verify == u'[j].verify == signer && t'[i].signing == Some(signer) && u'[j].signing == None
            && t'[i].skipped == [] && u'[j].skipped == []
  {
    hide Put, Locate;
    var (t', r) := Apply(t, Create(group, chain, signer));
    PutFinds(t, NewOwn(group, chain, signer));
    PutFinds(u, NewPeer(group, sender, r.d));
  }

  // ---- Calls that are refused ----

  /** No entry under these names. */
  predicate NoEntry(t: Table, group: string, sender: string) {
    forall k :: 0 <= k < |t| ==> !(t[k].group == group && t[k].sender == sender)
  }

  /** Arguments that name nothing, messages that cannot be read and senders without a key. */
  lemma CallRefused(t: Table, c: Call)
    ensures c.Create? && c.group == "" ==> Apply(t, c) == (t, Failed(InvalidArg))
    ensures c.Process? && (c.d.Unreadable? || c.group == "" || c.sender == "") ==> Apply(t, c) == (t, Failed(InvalidArg))
    ensures c.EncryptFor? && NoEntry(t, c.group, "") ==> Apply(t, c) == (t, Failed(SessionNotFound))
    ensures c.DecryptFrom? && c.m.Garbled? ==> Apply(t, c) == (t, Failed(InvalidArg))
    ensures c.DecryptFrom? && c.m.Message? && NoEntry(t, c.group, c.sender) ==> Apply(t, c) == (t, Failed(SessionNotFound))
  {
  }
}
