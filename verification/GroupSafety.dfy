/**
 Group keys over whole runs: no message key of an engine seals two messages, and none opens two.
 */
module GroupSafety {
  import opened Symbolic
  import opened SenderKeys

  // ---- Receiving: any traffic between two distributions ----

  /** `used` are the keys that opened a message.  They and the kept ones lie behind the chain;
      no kept key was used or is kept twice. */
  ghost predicate HearInv(st: SenderKey, used: set<Secret>) {
    && (forall k :: k in used ==> Behind(k, st.chain))
    && (forall i :: 0 <= i < |st.skipped| ==> Behind(st.skipped[i].key, st.chain) && st.skipped[i].key !in used)
    && (forall i, j :: 0 <= i < j < |st.skipped| ==> st.skipped[i].key != st.skipped[j].key)
  }

  predicate Behind(k: Secret, chain: Secret) { k.MessageOf? && Turn(k.chain) < Turn(chain) }

  lemma {:induction false} CatchUpHears(st: SenderKey, target: u32, used: set<Secret>)
    requires st.iteration <= target && HearInv(st, used)
    ensures HearInv(CatchUp(st, target), used)
    decreases target - st.iteration
  {
    if st.iteration < target { CatchUpHears(PassOne(st), target, used); }
  }

  lemma TakeHears(st: SenderKey, k: nat, used: set<Secret>)
    requires HearInv(st, used) && k < |st.skipped|
    ensures var key, st' := st.skipped[k].key, st.(skipped := st.skipped[..k] + st.skipped[k + 1..]);
            key !in used && HearInv(st', used) && HearInv(st', used + {key})
  {
    var kept := st.skipped[..k] + st.skipped[k + 1..];
    forall i | 0 <= i < |kept| ensures kept[i] == st.skipped[if i < k then i else i + 1] {
    }
  }

  lemma ReadHears(st: SenderKey, next: u32, used: set<Secret>)
    requires HearInv(st, used)
    ensures var key, st' := MessageOf(st.chain), st.(chain := NextOf(st.chain), iteration := next);
            key !in used && HearInv(st', used) && HearInv(st', used + {key})
  {
  }

  lemma DecryptHears(st: SenderKey, m: Message, used: set<Secret>)
    requires m.Message? && HearInv(st, used)
    ensures var (st', r) := DecryptEntry(st, m);
            if r.Ok? then m.body.Sealed? && m.body.key !in used && HearInv(st', used + {m.body.key})
            else HearInv(st', used)
  {
    hide CatchUp, HearInv;
    if m.iteration < st.iteration {
      var k := FindKept(st.skipped, m.iteration);
      if k < |st.skipped| { TakeHears(st, k, used); }
    } else {
      CatchUpHears(st, m.iteration, used);
      var t := CatchUp(st, m.iteration);
      ReadHears(t, Succ32(t.iteration), used);
    }
  }

  /** The answers to a sequence of messages. */
  function Answers(st: SenderKey, ms: seq<Message>): (r: seq<Result<seq<byte>>>)
    requires forall i :: 0 <= i < |ms| ==> ms[i].Message?
    ensures |r| == |ms|
    decreases |ms|
  {
    if ms == [] then [] else [DecryptEntry(st, ms[0]).1] + Answers(DecryptEntry(st, ms[0]).0, ms[1..])
  }

  lemma {:induction false} AnswersOnce(st: SenderKey, ms: seq<Message>, used: set<Secret>)
    requires (forall i :: 0 <= i < |ms| ==> ms[i].Message?) && HearInv(st, used)
    ensures forall i :: 0 <= i < |ms| && Answers(st, ms)[i].Ok? ==> ms[i].body.Sealed? && ms[i].body.key !in used
    ensures forall i, j :: 0 <= i < j < |ms| && Answers(st, ms)[i].Ok? && Answers(st, ms)[j].Ok? ==>
              ms[i].body.key != ms[j].body.key
    decreases |ms|
  {
    hide DecryptEntry, HearInv;
    if ms != [] {
      DecryptHears(st, ms[0], used);
      var (st', r) := DecryptEntry(st, ms[0]);
      AnswersOnce(st', ms[1..], if r.Ok? then used + {ms[0].body.key} else used);
      assert forall i :: 1 <= i < |ms| ==> Answers(st, ms)[i] == Answers(st', ms[1..])[i - 1] && ms[i] == ms[1..][i - 1];
    }
  }

  /** Accept-once: whatever arrives after a distribution, signed or forged, in whatever order
      and however often, no ciphertext is opened twice; nor is any message key, even when the
      iteration wraps. */
  lemma GroupAcceptOnce(group: string, sender: string, d: Distribution, ms: seq<Message>, i: nat, j: nat)
    requires d.Distribution? && (forall i :: 0 <= i < |ms| ==> ms[i].Message?) && i < j < |ms|
    requires Answers(NewPeer(group, sender, d), ms)[i].Ok? && Answers(NewPeer(group, sender, d), ms)[j].Ok?
    ensures ms[i].body.Sealed? && ms[j].body.Sealed? && ms[i].body.key != ms[j].body.key && ms[i].body != ms[j].body
  {
    AnswersOnce(NewPeer(group, sender, d), ms, {});
  }

  // ---- Sending: the fixed nonce ----

  /** The chain key a chain started from. */
  function Origin(c: Secret): Secret { if c.NextOf? then Origin(c.chain) else c }

  lemma {:induction false} CatchUpMoves(st: SenderKey, target: u32)
    requires st.iteration <= target
    ensures Origin(CatchUp(st, target).chain) == Origin(st.chain) && Turn(CatchUp(st, target).chain) >= Turn(st.chain)
    decreases target - st.iteration
  {
    if st.iteration < target { CatchUpMoves(PassOne(st), target); }
  }

  lemma DecryptMoves(st: SenderKey, m: Message)
    requires m.Message?
    ensures Origin(DecryptEntry(st, m).0.chain) == Origin(st.chain) && Turn(DecryptEntry(st, m).0.chain) >= Turn(st.chain)
  {
    if st.iteration <= m.iteration { CatchUpMoves(st, m.iteration); }
  }

  predicate Drawn(c: Secret, drawn: set<nat>) { Origin(c).Atom? && Origin(c).id in drawn }

  /** `used` are the keys our messages were sealed with.  Our entries stem from different draws,
      and every used key lies behind the entry of its draw, if that still exists. */
  ghost predicate SayInv(m: Entries, used: set<Secret>, drawn: set<nat>) {
    && (forall g :: (g, "") in m ==> Drawn(m[(g, "")].chain, drawn))
    && (forall g, h :: (g, "") in m && (h, "") in m && g != h ==> Origin(m[(g, "")].chain) != Origin(m[(h, "")].chain))
    && (forall k :: k in used ==> k.MessageOf? && Drawn(k.chain, drawn))
    && (forall k, g :: k in used && (g, "") in m && Origin(m[(g, "")].chain) == Origin(k.chain) ==> Behind(k, m[(g, "")].chain))
  }

  function DrawnAfter(c: Call, drawn: set<nat>): set<nat> {
    if c.Create? && c.chain.Atom? then drawn + {c.chain.id} else drawn
  }

  /** Every chain key we create is newly drawn. */
  predicate NewChains(calls: seq<Call>, drawn: set<nat>)
    decreases |calls|
  {
    calls == [] || (
      && (calls[0].Create? ==> calls[0].chain.Atom? && calls[0].chain.id !in drawn)
      && NewChains(calls[1..], DrawnAfter(calls[0], drawn)))
  }

  function Sealing(r: Reply): set<Secret> {
    if r.Said? && r.m.Message? && r.m.body.Sealed? then {r.m.body.key} else {}
  }

  /** One of our entries moves along its chain. */
  lemma MoveSays(m: Entries, g: string, e: SenderKey, used: set<Secret>, drawn: set<nat>)
    requires SayInv(m, used, drawn) && (g, "") in m
    requires Origin(e.chain) == Origin(m[(g, "")].chain) && Turn(e.chain) >= Turn(m[(g, "")].chain)
    ensures SayInv(m[(g, "") := e], used, drawn)
  {
  }

  lemma EncryptSays(m: Entries, g: string, plain: seq<byte>, used: set<Secret>, drawn: set<nat>)
    requires SayInv(m, used, drawn) && (g, "") in m
    ensures var (e, msg) := EncryptEntry(m[(g, "")], plain);
            && msg.Message? && msg.body.Sealed? && msg.body.key !in used
            && SayInv(m[(g, "") := e], used + {msg.body.key}, drawn)
  {
    var (e, msg) := EncryptEntry(m[(g, "")], plain);
    MoveSays(m, g, e, used, drawn);
  }

  lemma PeerSays(m: Entries, g: string, sender: string, e: SenderKey, used: set<Secret>, drawn: set<nat>)
    requires SayInv(m, used, drawn) && sender != ""
    ensures SayInv(m[(g, sender) := e], used, drawn)
  {
  }

  lemma CreateSays(m: Entries, g: string, id: nat, signer: nat, used: set<Secret>, drawn: set<nat>)
    requires SayInv(m, used, drawn) && id !in drawn
    ensures SayInv(m[(g, "") := NewOwn(g, Atom(id), signer)], used, drawn + {id})
    ensures SayInv(m, used, drawn + {id})
  {
  }

  lemma StepSays(m: Entries, c: Call, used: set<Secret>, drawn: set<nat>)
    requires SayInv(m, used, drawn) && (c.Create? ==> c.chain.Atom? && c.chain.id !in drawn)
    ensures var (m', r) := ApplyMap(m, c);
            && (r.Said? ==> r.m.Message? && r.m.body.Sealed? && r.m.body.key !in used)
            && SayInv(m', used + Sealing(r), DrawnAfter(c, drawn))
  {
    hide SayInv, DecryptEntry;
    assert used + {} == used;
    match c
    case Create(g, chain, signer) =>
      CreateSays(m, g, chain.id, signer, used, drawn);
    case Process(g, sender, d) =>
      if d.Distribution? && sender != "" { PeerSays(m, g, sender, NewPeer(g, sender, d), used, drawn); }
    case EncryptFor(g, plain) =>
      if (g, "") in m { EncryptSays(m, g, plain, used, drawn); }
    case DecryptFrom(g, sender, msg) =>
      if msg.Message? && (g, sender) in m {
        DecryptMoves(m[(g, sender)], msg);
        var e := DecryptEntry(m[(g, sender)], msg).0;
        if sender == "" { MoveSays(m, g, e, used, drawn); } else { PeerSays(m, g, sender, e, used, drawn); }
      }
  }

  lemma {:induction false} RunSays(m: Entries, calls: seq<Call>, used: set<Secret>, drawn: set<nat>)
    requires SayInv(m, used, drawn) && NewChains(calls, drawn)
    ensures |MapReplies(m, calls)| == |calls|
    ensures forall i :: 0 <= i < |calls| && MapReplies(m, calls)[i].Said? ==>
              var x := MapReplies(m, calls)[i].m; x.Message? && x.body.Sealed? && x.body.key !in used
    ensures forall i, j :: 0 <= i < j < |calls| && MapReplies(m, calls)[i].Said? && MapReplies(m, calls)[j].Said? ==>
              MapReplies(m, calls)[i].m.body.key != MapReplies(m, calls)[j].m.body.key
    decreases |calls|
  {
    hide ApplyMap, SayInv;
    if calls != [] {
      var (m', r) := ApplyMap(m, calls[0]);
      StepSays(m, calls[0], used, drawn);
      RunSays(m', calls[1..], used + Sealing(r), DrawnAfter(calls[0], drawn));
      assert forall i :: 1 <= i < |calls| ==> MapReplies(m, calls)[i] == MapReplies(m', calls[1..])[i - 1];
    }
  }

  /** The fixed all-zero nonce is sound for groups: over every run of an engine that draws its
      chain keys, with any distributions processed and any messages decrypted, under our own
      name too, no two messages it encrypts for any groups are sealed under one key. */
  lemma GroupNonceNeverReused(calls: seq<Call>, i: nat, j: nat)
    requires NewChains(calls, {}) && i < j < |Replies([], calls)|
    requires Replies([], calls)[i].Said? && Replies([], calls)[j].Said?
    ensures var a, b := Replies([], calls)[i].m, Replies([], calls)[j].m;
            a.Message? && b.Message? && a.body.Sealed? && b.body.Sealed? && a.body.key != b.body.key
  {
    TableRefinesMap(calls);
    RunSays(map[], calls, {}, {});
  }
}
