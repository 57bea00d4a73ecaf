/**
 What a session answers to a packet, branch by branch and without its loops: which key the packet
 must have been sealed with, under which header and identities, and which error it gets otherwise.
 */
module RatchetOutcome {
  import opened Symbolic
  import opened Ratchet
  import opened RatchetSafety

  /** Nothing is cached under these coordinates. */
  predicate Free(cache: seq<Skipped>, dh: DhKey, n: u32) {
    forall i :: 0 <= i < |cache| ==> !(cache[i].dh == dh && cache[i].n == n)
  }

  lemma FreeIsUncached(s: State, h: Header)
    ensures Cached(s, h) <==> !Free(s.skipped, h.dh, h.n)
  {
  }

  /** The answer is the plaintext exactly when the packet was sealed with this key, for its own
      header and these identities; it is CRYPTO_FAILURE otherwise. */
  ghost predicate AnswersUnder(r: Result<seq<byte>>, key: Secret, ad: Identities, p: Packet) {
    && (forall plain :: r == Ok(plain) <==> p.body == Sealed(key, Bound(ad, p.header), plain))
    && (r.Err? ==> r.status == CryptoFailure)
  }

  lemma {:induction false} SkipLoopChain(s: State, until: u32)
    requires s.nr <= until
    ensures SkipLoop(s, until).recv == Advance(s.recv, until - s.nr)
    decreases until - s.nr
  {
    if s.nr < until {
      SkipLoopChain(SkipOne(s), until);
      AdvanceShift(s.recv, until - s.nr - 1);
    }
  }

  /** Skipping caches no key under coordinates that it does not pass. */
  lemma {:induction false} SkipLoopFree(s: State, until: u32, dh: DhKey, n: u32)
    requires s.nr <= until && Free(s.skipped, dh, n) && (s.dhr != dh || n >= until)
    ensures Free(SkipLoop(s, until).skipped, dh, n)
    decreases until - s.nr
  {
    if s.nr < until { SkipLoopFree(SkipOne(s), until, dh, n); }
  }

  // ---- The answers ----

  /** A late message: the first key cached for it decides, and leaves the cache either way. */
  lemma CachedAnswer(s: State, p: Packet, drawn: DhKey, k: nat)
    requires k < |s.skipped| && s.skipped[k].dh == p.header.dh && s.skipped[k].n == p.header.n
    requires Free(s.skipped[..k], p.header.dh, p.header.n)
    ensures var (s', r) := DecryptPacket(s, p, drawn);
            && s' == s.(skipped := s.skipped[..k] + s.skipped[k + 1..])
            && AnswersUnder(r, s.skipped[k].key, s.ad, p)
  {
    assert forall i :: 0 <= i < k ==> s.skipped[..k][i] == s.skipped[i];
    assert Find(s.skipped, p.header.dh, p.header.n) == k;
  }

  /** A message of the current chain behind its index, its key no longer cached: a replay. */
  lemma ReplayAnswer(s: State, p: Packet, drawn: DhKey)
    requires Free(s.skipped, p.header.dh, p.header.n)
    requires s.hasRecv && s.dhr == p.header.dh && p.header.n < s.nr
    ensures DecryptPacket(s, p, drawn) == (s, Err(ReplayDetected))
  {
    FreeIsUncached(s, p.header);
  }

  /** The receive chain stands at index `n` with key `c`, or just beyond once it was read. */
  predicate Moved(s': State, c: Secret, n: u32, read: bool) {
    s'.recv == (if read then NextOf(c) else c) && s'.nr == (if read then Succ32(n) else n)
  }

  lemma ReceiveAnswer(s: State, p: Packet)
    requires s.hasRecv && s.nr <= p.header.n
    ensures var (s', r) := Receive(s, p);
            var c := Advance(s.recv, p.header.n - s.nr);
            if p.header.n - s.nr > 1000 then (s', r) == (s, Err(SkippedKeyLimit))
            else AnswersUnder(r, MessageOf(c), s.ad, p) && Moved(s', c, p.header.n, r.Ok?)
  {
    SkipLoopChain(s, p.header.n);
    SkipLoopFrame(s, p.header.n);
  }

  /** A message of the current chain at or ahead of its index: the key at its place of the chain
      decides, unless it is more than a thousand places ahead. */
  lemma CurrentAnswer(s: State, p: Packet, drawn: DhKey)
    requires Free(s.skipped, p.header.dh, p.header.n)
    requires s.hasDhr && s.hasRecv && s.dhr == p.header.dh && p.header.n >= s.nr
    ensures var (s', r) := DecryptPacket(s, p, drawn);
            var c := Advance(s.recv, p.header.n - s.nr);
            if p.header.n - s.nr > 1000 then (s', r) == (s, Err(SkippedKeyLimit))
            else AnswersUnder(r, MessageOf(c), s.ad, p) && Moved(s', c, p.header.n, r.Ok?)
  {
    hide AnswersUnder, Moved;
    FreeIsUncached(s, p.header);
    ReceiveAnswer(s, p);
  }

  /** The old chain would have to skip more than a thousand keys to its announced end. */
  predicate TooFar(s: State, pn: u32) { s.hasRecv && pn > s.nr && pn - s.nr > 1000 }

  /** A message under a new remote key: refused without change when the old chain cannot be closed;
      otherwise the step is taken, and the key at its place of the new chain decides. */
  lemma TurningAnswer(s: State, p: Packet, drawn: DhKey)
    requires Free(s.skipped, p.header.dh, p.header.n) && (s.hasRecv ==> s.hasDhr)
    requires !s.hasDhr || s.dhr != p.header.dh
    ensures var (s', r) := DecryptPacket(s, p, drawn);
            var c := ChainOf(s.root, Dh(s.dhs, p.header.dh));
            if TooFar(s, p.header.pn) then (s', r) == (s, Err(SkippedKeyLimit))
            else
              && s'.hasDhr && s'.hasRecv && s'.dhr == p.header.dh && s'.dhs == drawn && s'.pn == s.ns && s'.ns == 0
              && (if p.header.n > 1000 then r == Err(SkippedKeyLimit) && Moved(s', c, 0, false)
                  else AnswersUnder(r, MessageOf(Advance(c, p.header.n)), s.ad, p)
                       && Moved(s', Advance(c, p.header.n), p.header.n, r.Ok?))
  {
    hide AnswersUnder, Dh;
    FreeIsUncached(s, p.header);
    if !TooFar(s, p.header.pn) {
      if s.hasRecv && s.nr < p.header.pn { SkipLoopFrame(s, p.header.pn); }
      var t := DhStep(SkipTo(s, p.header.pn).value, p.header.dh, drawn);
      ReceiveAnswer(t, p);
      if p.header.n <= 1000 { SkipLoopFrame(t, p.header.n); }
    }
  }

  /** Without a send chain nothing is encrypted, and arguments that the tests refuse change nothing. */
  lemma RefusedArguments(s: State, plain: seq<byte>, drawn: DhKey)
    ensures !s.hasSend ==> Encrypt(s, plain) == (s, Err(SessionNotFound))
    ensures Decrypt(s, Malformed, drawn) == (s, Err(InvalidArg))
  {
  }

  // ---- The header and the identities are authenticated ----

  /** The packet was sealed for its own header and these identities. */
  predicate Authenticated(p: Packet, ad: Identities, plain: seq<byte>) {
    p.body.Sealed? && p.body.ad == Bound(ad, p.header) && p.body.plain == plain
  }

  lemma DecryptAuthentic(s: State, p: Packet, drawn: DhKey)
    requires ChainExists(s, p.header)
    ensures var (s', r) := DecryptPacket(s, p, drawn);
            s'.ad == s.ad && (r.Ok? ==> Authenticated(p, s.ad, r.value))
  {
    hide Dh, Advance;
    var h := p.header;
    if !Cached(s, h) && !(s.hasRecv && s.dhr == h.dh && h.n < s.nr) {
      if Turns(s, h) {
        if SkipTo(s, h.pn).Some? {
          if s.nr < h.pn { SkipLoopFrame(s, h.pn); }
          var t := DhStep(SkipTo(s, h.pn).value, h.dh, drawn);
          if t.nr < h.n { SkipLoopFrame(t, h.n); }
        }
      } else if s.nr < h.n {
        SkipLoopFrame(s, h.n);
      }
    }
  }

  lemma StepAuthentic(s: State, op: Op)
    requires Enabled(s, op)
    ensures var (s', e) := Apply(s, op);
            s'.ad == s.ad && (e.Opened? ==> Authenticated(e.packet, s.ad, e.plain))
  {
    if op.Deliver? && op.d.Arrived? { DecryptAuthentic(s, op.d.packet, op.drawn); }
  }

  /** Over any traffic, every packet that opens was sealed for the very header it carries and for
      the identities of the session, and opens to what was sealed. */
  lemma {:induction false} TraceAuthentic(s: State, ops: seq<Op>)
    requires Runs(s, ops)
    ensures forall i :: 0 <= i < |ops| && Trace(s, ops)[i].Opened? ==>
              Authenticated(Trace(s, ops)[i].packet, s.ad, Trace(s, ops)[i].plain)
    decreases |ops|
  {
    hide Apply;
    if ops != [] {
      StepAuthentic(s, ops[0]);
      TraceAuthentic(Apply(s, ops[0]).0, ops[1..]);
      assert forall i :: 1 <= i < |ops| ==> Trace(s, ops)[i] == Trace(Apply(s, ops[0]).0, ops[1..])[i - 1];
    }
  }

  /** A header changed on the way, in any field, is refused by every session in every state. */
  lemma ChangedHeaderRefused(sender: State, plain: seq<byte>, h: Header, s: State, drawn: DhKey)
    requires sender.hasSend
    requires var sent := Encrypt(sender, plain).1; sent.Ok? && h != sent.value.header && ChainExists(s, h)
    ensures DecryptPacket(s, Encrypt(sender, plain).1.value.(header := h), drawn).1.Err?
  {
    hide DecryptPacket;
    DecryptAuthentic(s, Encrypt(sender, plain).1.value.(header := h), drawn);
  }

  // ---- Repeats ----

  /** A packet that was read from a chain and comes again: a replay, and nothing changes. */
  lemma RepeatIsReplay(s: State, p: Packet, drawn: DhKey, again: DhKey)
    requires Free(s.skipped, p.header.dh, p.header.n) && (s.hasRecv ==> s.hasDhr) && ChainExists(s, p.header)
    requires p.header.n + 1 < U32_LIMIT && DecryptPacket(s, p, drawn).1.Ok?
    ensures var s' := DecryptPacket(s, p, drawn).0;
            ChainExists(s', p.header) && DecryptPacket(s', p, again) == (s', Err(ReplayDetected))
  {
    var h := p.header;
    var s' := DecryptPacket(s, p, drawn).0;
    FreeIsUncached(s, h);
    ReadLeaves(s, p, drawn);
    hide DecryptPacket;
    ReplayAnswer(s', p, again);
  }

  lemma ReadLeaves(s: State, p: Packet, drawn: DhKey)
    requires Free(s.skipped, p.header.dh, p.header.n) && (s.hasRecv ==> s.hasDhr) && ChainExists(s, p.header)
    requires p.header.n + 1 < U32_LIMIT && DecryptPacket(s, p, drawn).1.Ok?
    ensures var s' := DecryptPacket(s, p, drawn).0;
            s'.hasRecv && s'.dhr == p.header.dh && p.header.n < s'.nr && Free(s'.skipped, p.header.dh, p.header.n)
  {
    hide Dh, Free, OpenWith;
    var h := p.header;
    FreeIsUncached(s, h);
    var t := s;
    if Turns(s, h) {
      if s.hasRecv && s.nr < h.pn { SkipLoopFree(s, h.pn, h.dh, h.n); SkipLoopFrame(s, h.pn); }
      t := DhStep(SkipTo(s, h.pn).value, h.dh, drawn);
    }
    SkipLoopFree(t, h.n, h.dh, h.n);
    SkipLoopFrame(t, h.n);
  }

  /** The same for a late packet of the current chain whose key came from the cache. */
  lemma LateRepeatIsReplay(s: State, p: Packet, drawn: DhKey, again: DhKey, k: nat)
    requires s.hasRecv && s.dhr == p.header.dh && p.header.n < s.nr
    requires k < |s.skipped| && s.skipped[k].dh == p.header.dh && s.skipped[k].n == p.header.n
    requires Free(s.skipped[..k], p.header.dh, p.header.n) && Free(s.skipped[k + 1..], p.header.dh, p.header.n)
    ensures var s' := DecryptPacket(s, p, drawn).0;
            ChainExists(s', p.header) && DecryptPacket(s', p, again) == (s', Err(ReplayDetected))
  {
    CachedAnswer(s, p, drawn, k);
    hide DecryptPacket;
    var s' := DecryptPacket(s, p, drawn).0;
    assert Free(s'.skipped, p.header.dh, p.header.n) by {
      forall i | 0 <= i < |s'.skipped|
        ensures s'.skipped[i] == if i < k then s.skipped[..k][i] else s.skipped[k + 1..][i - k]
      {
      }
    }
    ReplayAnswer(s', p, again);
  }
}
