/**
 One sender and any number of members.  The shape of a member's cache of late keys under
 any traffic, and correct delivery under reordering, loss and duplication.
 */
module GroupBroadcast {
  import opened Symbolic
  import opened SenderKeys

  // ---- Iterations passed over and not read ----

  /** The iterations from `lo` up to `hi` excluded that are not in `taken`, in order. */
  function Missing(lo: nat, hi: nat, taken: set<nat>): seq<nat>
    requires lo <= hi
    decreases hi
  {
    if lo == hi then [] else Missing(lo, hi - 1, taken) + if hi - 1 in taken then [] else [hi - 1]
  }

  lemma {:induction false} MissingSorted(lo: nat, hi: nat, taken: set<nat>)
    requires lo <= hi
    ensures forall j :: 0 <= j < |Missing(lo, hi, taken)| ==> lo <= Missing(lo, hi, taken)[j] < hi && Missing(lo, hi, taken)[j] !in taken
    ensures forall i, j :: 0 <= i < j < |Missing(lo, hi, taken)| ==> Missing(lo, hi, taken)[i] < Missing(lo, hi, taken)[j]
    decreases hi
  {
    if lo < hi { MissingSorted(lo, hi - 1, taken); }
  }

  lemma {:induction false} MissingIgnores(lo: nat, hi: nat, taken: set<nat>, i: nat)
    requires lo <= hi <= i
    ensures Missing(lo, hi, taken + {i}) == Missing(lo, hi, taken)
    decreases hi
  {
    if lo < hi { MissingIgnores(lo, hi - 1, taken, i); }
  }

  lemma {:induction false} MissingRemove(lo: nat, hi: nat, taken: set<nat>, i: nat) returns (a: seq<nat>, b: seq<nat>)
    requires lo <= i < hi && i !in taken
    ensures Missing(lo, hi, taken) == a + [i] + b
    ensures Missing(lo, hi, taken + {i}) == a + b
    decreases hi
  {
    if i == hi - 1 {
      a, b := Missing(lo, i, taken), [];
      MissingIgnores(lo, i, taken, i);
    } else {
      a, b := MissingRemove(lo, hi - 1, taken, i);
      b := b + if hi - 1 in taken then [] else [hi - 1];
    }
  }

  // ---- The shape of an entry ----

  /** The key of iteration `i` of the chain that stood at `start` with iteration `lo`. */
  function KeptAt(start: Secret, lo: nat, i: nat): Kept
    requires lo <= i < U32_LIMIT
  {
    Kept(i, MessageOf(Advance(start, i - lo)))
  }

  /** The keys of the iterations passed over and not taken. */
  function Unread(start: Secret, lo: nat, hi: nat, taken: set<nat>): seq<Kept>
    requires lo <= hi <= U32_LIMIT
  {
    MissingSorted(lo, hi, taken);
    KeysAt(start, lo, Missing(lo, hi, taken))
  }

  function KeysAt(start: Secret, lo: nat, ms: seq<nat>): seq<Kept>
    requires forall j :: 0 <= j < |ms| ==> lo <= ms[j] < U32_LIMIT
  {
    seq(|ms|, j requires 0 <= j < |ms| => KeptAt(start, lo, ms[j]))
  }

  ghost predicate IsSuffix(a: seq<Kept>, b: seq<Kept>) {
    |a| <= |b| && a == b[|b| - |a|..]
  }

  /** The entry follows the chain distributed at iteration `lo` with key `start`; `taken`
      are the iterations whose keys were used up. */
  ghost predicate Shape(st: SenderKey, start: Secret, lo: nat, taken: set<nat>) {
    && lo <= st.iteration
    && st.chain == Advance(start, st.iteration - lo)
    && (forall i :: i in taken ==> lo <= i < st.iteration)
    && |st.skipped| <= MAX_SKIP
    && IsSuffix(st.skipped, Unread(start, lo, st.iteration, taken))
  }

  lemma UnreadPush(start: Secret, lo: nat, hi: nat, taken: set<nat>)
    requires lo <= hi < U32_LIMIT && hi !in taken
    ensures Unread(start, lo, hi + 1, taken) == Unread(start, lo, hi, taken) + [KeptAt(start, lo, hi)]
  {
    assert Missing(lo, hi + 1, taken) == Missing(lo, hi, taken) + [hi];
  }

  lemma SuffixPush(a: seq<Kept>, b: seq<Kept>, x: Kept)
    requires IsSuffix(a, b) && |a| <= MAX_SKIP
    ensures IsSuffix(Keep(a, x), b + [x]) && |Keep(a, x)| <= MAX_SKIP
    ensures |a| < MAX_SKIP ==> |Keep(a, x)| == |a| + 1
  {
  }

  lemma {:induction false} CatchUpShape(st: SenderKey, target: u32, start: Secret, lo: nat, taken: set<nat>)
    requires st.iteration <= target && Shape(st, start, lo, taken)
    ensures Shape(CatchUp(st, target), start, lo, taken)
    ensures |st.skipped| + (target - st.iteration) <= MAX_SKIP ==>
              |CatchUp(st, target).skipped| == |st.skipped| + (target - st.iteration)
    decreases target - st.iteration
  {
    if st.iteration < target {
      hide Shape, Keep;
      PassOneShape(st, start, lo, taken);
      CatchUpShape(PassOne(st), target, start, lo, taken);
    }
  }

  lemma PassOneShape(st: SenderKey, start: Secret, lo: nat, taken: set<nat>)
    requires st.iteration + 1 < U32_LIMIT && Shape(st, start, lo, taken)
    ensures Shape(PassOne(st), start, lo, taken)
    ensures |st.skipped| < MAX_SKIP ==> |PassOne(st).skipped| == |st.skipped| + 1
  {
    hide Unread, IsSuffix, Keep;
    var n := st.iteration;
    assert n !in taken;
    assert st.chain == Advance(start, n - lo) && NextOf(st.chain) == Advance(start, n + 1 - lo);
    assert KeptAt(start, lo, n) == Kept(n, MessageOf(st.chain));
    hide Advance;
    UnreadPush(start, lo, n, taken);
    SuffixPush(st.skipped, Unread(start, lo, n, taken), KeptAt(start, lo, n));
  }

  lemma {:induction false} CatchUpMissing(st: SenderKey, target: nat, lo: nat, taken: set<nat>)
    requires lo <= st.iteration <= target && forall i :: i in taken ==> i < st.iteration
    ensures |Missing(lo, target, taken)| == |Missing(lo, st.iteration, taken)| + (target - st.iteration)
    decreases target
  {
    if st.iteration < target { CatchUpMissing(st, target - 1, lo, taken); }
  }

  lemma ReadShape(st: SenderKey, start: Secret, lo: nat, taken: set<nat>)
    requires Shape(st, start, lo, taken) && st.iteration + 1 < U32_LIMIT
    ensures Shape(st.(chain := NextOf(st.chain), iteration := st.iteration + 1), start, lo, taken + {st.iteration})
    ensures Missing(lo, st.iteration + 1, taken + {st.iteration}) == Missing(lo, st.iteration, taken)
  {
    hide KeysAt, IsSuffix;
    MissingIgnores(lo, st.iteration, taken, st.iteration);
    assert Missing(lo, st.iteration + 1, taken + {st.iteration}) == Missing(lo, st.iteration, taken);
  }

  lemma KeptSorted(st: SenderKey, start: Secret, lo: nat, taken: set<nat>)
    requires Shape(st, start, lo, taken)
    ensures forall j :: 0 <= j < |st.skipped| ==>
              lo <= st.skipped[j].iteration < st.iteration && st.skipped[j].iteration !in taken
              && st.skipped[j] == KeptAt(start, lo, st.skipped[j].iteration)
    ensures forall i, j :: 0 <= i < j < |st.skipped| ==> st.skipped[i].iteration < st.skipped[j].iteration
  {
    MissingSorted(lo, st.iteration, taken);
    var all := Unread(start, lo, st.iteration, taken);
    assert forall j :: 0 <= j < |st.skipped| ==> st.skipped[j] == all[|all| - |st.skipped| + j];
  }

  lemma UnreadRemove(start: Secret, lo: nat, hi: nat, taken: set<nat>, at: nat)
    requires lo <= hi <= U32_LIMIT && at < |Unread(start, lo, hi, taken)|
    ensures var all := Unread(start, lo, hi, taken);
            Unread(start, lo, hi, taken + {all[at].iteration}) == all[..at] + all[at + 1..]
  {
    MissingSorted(lo, hi, taken);
    var ms := Missing(lo, hi, taken);
    var i := ms[at];
    var a, b := MissingRemove(lo, hi, taken, i);
    assert ms[|a|] == i;
    assert |a| == at;
  }

  lemma TakeShape(st: SenderKey, k: nat, start: Secret, lo: nat, taken: set<nat>)
    requires Shape(st, start, lo, taken) && k < |st.skipped|
    ensures var i := st.skipped[k].iteration;
            && Shape(st.(skipped := st.skipped[..k] + st.skipped[k + 1..]), start, lo, taken + {i})
            && |Unread(start, lo, st.iteration, taken + {i})| == |Unread(start, lo, st.iteration, taken)| - 1
  {
    KeptSorted(st, start, lo, taken);
    var all := Unread(start, lo, st.iteration, taken);
    var at := |all| - |st.skipped| + k;
    assert all[at] == st.skipped[k];
    UnreadRemove(start, lo, st.iteration, taken, at);
  }

  /** The iterations used up once the entry has handled `m`. */
  function TakenAfter(st: SenderKey, m: Message, taken: set<nat>): set<nat>
    requires m.Message?
  {
    if DecryptEntry(st, m).0 == st then taken else taken + {m.iteration}
  }

  lemma DecryptShape(st: SenderKey, m: Message, start: Secret, lo: nat, taken: set<nat>)
    requires m.Message? && m.iteration + 1 < U32_LIMIT && Shape(st, start, lo, taken)
    ensures Shape(DecryptEntry(st, m).0, start, lo, TakenAfter(st, m, taken))
  {
    hide CatchUp, IsSuffix, Unread, Advance;
    if Authentic(st.verify, m) {
      if m.iteration < st.iteration {
        var k := FindKept(st.skipped, m.iteration);
        if k < |st.skipped| { TakeShape(st, k, start, lo, taken); }
      } else if m.iteration - st.iteration <= MAX_SKIP {
        CatchUpShape(st, m.iteration, start, lo, taken);
        CatchUpKeepsName(st, m.iteration);
        ReadShape(CatchUp(st, m.iteration), start, lo, taken);
      }
    }
  }

  // ---- Any traffic between two distributions ----

  function HearAll(st: SenderKey, ms: seq<Message>): SenderKey
    requires forall i :: 0 <= i < |ms| ==> ms[i].Message?
    decreases |ms|
  {
    if ms == [] then st else HearAll(DecryptEntry(st, ms[0]).0, ms[1..])
  }

  function TakenAll(st: SenderKey, ms: seq<Message>, taken: set<nat>): set<nat>
    requires forall i :: 0 <= i < |ms| ==> ms[i].Message?
    decreases |ms|
  {
    if ms == [] then taken else TakenAll(DecryptEntry(st, ms[0]).0, ms[1..], TakenAfter(st, ms[0], taken))
  }

  lemma {:induction false} RunShape(st: SenderKey, ms: seq<Message>, start: Secret, lo: nat, taken: set<nat>)
    requires forall i :: 0 <= i < |ms| ==> ms[i].Message? && ms[i].iteration + 1 < U32_LIMIT
    requires Shape(st, start, lo, taken)
    ensures Shape(HearAll(st, ms), start, lo, TakenAll(st, ms, taken))
    decreases |ms|
  {
    if ms != [] {
      DecryptShape(st, ms[0], start, lo, taken);
      RunShape(DecryptEntry(st, ms[0]).0, ms[1..], start, lo, TakenAfter(st, ms[0], taken));
    }
  }

  /** Whatever arrives after a distribution, forged or signed, the kept keys stay strictly
      increasing, below the current iteration, at most 2000, each the key at its own place
      of the distributed chain, and they are a suffix of the skipped but unread ones. */
  lemma CacheShape(group: string, sender: string, d: Distribution, ms: seq<Message>)
    requires d.Distribution?
    requires forall i :: 0 <= i < |ms| ==> ms[i].Message? && ms[i].iteration + 1 < U32_LIMIT
    ensures var st := HearAll(NewPeer(group, sender, d), ms);
            && |st.skipped| <= MAX_SKIP && d.iteration <= st.iteration
            && (forall i, j :: 0 <= i < j < |st.skipped| ==> st.skipped[i].iteration < st.skipped[j].iteration)
            && (forall j :: 0 <= j < |st.skipped| ==> (
                  && d.iteration <= st.skipped[j].iteration < st.iteration
                  && st.skipped[j] == KeptAt(d.chain, d.iteration, st.skipped[j].iteration)))
            && IsSuffix(st.skipped,
                        Unread(d.chain, d.iteration, st.iteration, TakenAll(NewPeer(group, sender, d), ms, {})))
  {
    var st0 := NewPeer(group, sender, d);
    assert Unread(d.chain, d.iteration, d.iteration, {}) == [];
    RunShape(st0, ms, d.chain, d.iteration, {});
    KeptSorted(HearAll(st0, ms), d.chain, d.iteration, TakenAll(st0, ms, {}));
  }

  // ---- Broadcast over rotations ----

  /** One distribution of the sender. */
  datatype Epoch = Epoch(chain: Secret, signer: nat)

  /** Message number `n` of an epoch. */
  datatype Spoken = Spoken(epoch: nat, n: nat, m: Message, plain: seq<byte>)

  /** A member before any distribution, or with the entry of the epoch it processed last and the
      messages of that epoch it was handed since. */
  datatype Member = Nobody | Holds(epoch: nat, st: SenderKey, heard: set<nat>)

  /** The sender's own entry, its distributions, all it said, and the members. */
  datatype Group = Group(own: SenderKey, epochs: seq<Epoch>, said: seq<Spoken>, members: seq<Member>)

  datatype Step =
    | Say(plain: seq<byte>)
    | Rotate(chain: Secret, signer: nat)
    | Install(r: nat, e: nat, sender: string)
    | Hear(r: nat, k: nat)

  /** The sender rotates at any time to a new signing key.  A member processes any distribution
      at any time and may be handed any message any number of times, as long as it never has more
      than 2000 skipped iterations outstanding. */
  predicate Allowed(g: Group, step: Step) {
    match step
    case Say(_) => g.own.iteration + 1 < U32_LIMIT
    case Rotate(_, signer) => forall e :: 0 <= e < |g.epochs| ==> g.epochs[e].signer != signer
    case Install(r, e, _) => r < |g.members| && e < |g.epochs|
    case Hear(r, k) => r < |g.members| && k < |g.said| && g.said[k].m.Message? && Bounded(g.members[r], g.said[k], k)
  }

  predicate Bounded(x: Member, said: Spoken, k: nat) {
    x.Holds? && x.epoch == said.epoch && k !in x.heard ==>
      |x.st.skipped| + (if said.n > x.st.iteration then said.n - x.st.iteration else 0) <= MAX_SKIP
  }

  function HeardBy(x: Member, said: Spoken, k: nat): Member
    requires said.m.Message?
  {
    if x.Nobody? then x
    else x.(st := DecryptEntry(x.st, said.m).0, heard := if x.epoch == said.epoch then x.heard + {k} else x.heard)
  }

  function Latest(g: Group): nat { if g.epochs == [] then 0 else |g.epochs| - 1 }

  function Next(g: Group, step: Step): Group
    requires Allowed(g, step)
  {
    match step
    case Say(plain) =>
      var (own, m) := EncryptEntry(g.own, plain);
      g.(own := own, said := g.said + [Spoken(Latest(g), g.own.iteration, m, plain)])
    case Rotate(chain, signer) =>
      g.(own := NewOwn(g.own.group, chain, signer), epochs := g.epochs + [Epoch(chain, signer)])
    case Install(r, e, sender) =>
      var d := Distribution(0, g.epochs[e].chain, g.epochs[e].signer);
      g.(members := g.members[r := Holds(e, NewPeer(g.own.group, sender, d), {})])
    case Hear(r, k) => g.(members := g.members[r := HeardBy(g.members[r], g.said[k], k)])
  }

  ghost predicate AllAllowed(g: Group, steps: seq<Step>)
    decreases |steps|
  {
    steps == [] || (Allowed(g, steps[0]) && AllAllowed(Next(g, steps[0]), steps[1..]))
  }

  /** Of the epoch a member holds, a first hearing opens to the plaintext and a repeat is a replay
      that changes nothing; of any other epoch, nothing opens and nothing changes. */
  ghost predicate HeardRight(x: Member, said: Spoken, k: nat)
    requires said.m.Message?
  {
    x.Holds? ==>
      var (st, answer) := DecryptEntry(x.st, said.m);
      if x.epoch != said.epoch then st == x.st && answer == Err(SignatureInvalid)
      else if k in x.heard then st == x.st && answer == Err(ReplayDetected)
      else answer == Ok(said.plain)
  }

  ghost predicate AllHeard(g: Group, steps: seq<Step>)
    requires AllAllowed(g, steps)
    decreases |steps|
  {
    steps == [] || (
      && (steps[0].Hear? ==> HeardRight(g.members[steps[0].r], g.said[steps[0].k], steps[0].k))
      && AllHeard(Next(g, steps[0]), steps[1..]))
  }

  /** The sender has created its key, and nobody has processed it yet. */
  ghost predicate Start(g: Group, name: string, chain: Secret, signer: nat) {
    && g.own == NewOwn(name, chain, signer) && g.epochs == [Epoch(chain, signer)] && g.said == []
    && forall r :: 0 <= r < |g.members| ==> g.members[r].Nobody?
  }

  function SaidAt(name: string, chain: Secret, signer: nat, k: u32, plain: seq<byte>): Message {
    var body := Sealed(MessageOf(Advance(chain, k)), name, plain);
    Message(k, body, Signed(signer, k, body))
  }

  /** A member that has missed nothing it could still need. */
  ghost predicate MemberInv(st: SenderKey, name: string, chain: Secret, signer: nat, heard: set<nat>) {
    && st.group == name && st.verify == signer
    && Shape(st, chain, 0, heard)
    && |st.skipped| == |Missing(0, st.iteration, heard)|
  }

  /** Each message is the one its epoch and number name, and an epoch's numbers increase. */
  ghost predicate SaidInv(said: seq<Spoken>, epochs: seq<Epoch>, name: string) {
    && (forall k :: 0 <= k < |said| ==> (
          && said[k].epoch < |epochs| && said[k].n + 1 < U32_LIMIT
          && said[k].m == SaidAt(name, epochs[said[k].epoch].chain, epochs[said[k].epoch].signer, said[k].n, said[k].plain)))
    && (forall j, k :: 0 <= j < k < |said| && said[j].epoch == said[k].epoch ==> said[j].n < said[k].n)
  }

  function Numbers(said: seq<Spoken>, heard: set<nat>): set<nat> { set k | k in heard && k < |said| :: said[k].n }

  ghost predicate HolderInv(x: Member, said: seq<Spoken>, epochs: seq<Epoch>, name: string) {
    x.Holds? ==>
      && x.epoch < |epochs|
      && (forall k :: k in x.heard ==> k < |said| && said[k].epoch == x.epoch)
      && MemberInv(x.st, name, epochs[x.epoch].chain, epochs[x.epoch].signer, Numbers(said, x.heard))
  }

  ghost predicate Inv(g: Group, name: string) {
    && g.epochs != []
    && (forall e, f :: 0 <= e < f < |g.epochs| ==> g.epochs[e].signer != g.epochs[f].signer)
    && (var last := g.epochs[Latest(g)];
        g.own == NewOwn(name, last.chain, last.signer).(chain := Advance(last.chain, g.own.iteration), iteration := g.own.iteration))
    && SaidInv(g.said, g.epochs, name)
    && (forall k :: 0 <= k < |g.said| && g.said[k].epoch == Latest(g) ==> g.said[k].n < g.own.iteration)
    && (forall r :: 0 <= r < |g.members| ==> HolderInv(g.members[r], g.said, g.epochs, name))
  }

  lemma HearLate(st: SenderKey, name: string, chain: Secret, signer: nat, heard: set<nat>, k: u32, plain: seq<byte>)
    requires MemberInv(st, name, chain, signer, heard) && k < st.iteration && k !in heard
    ensures var (st', answer) := DecryptEntry(st, SaidAt(name, chain, signer, k, plain));
            answer == Ok(plain) && MemberInv(st', name, chain, signer, heard + {k})
  {
    KeptSorted(st, chain, 0, heard);
    var all := Unread(chain, 0, st.iteration, heard);
    assert st.skipped == all;
    var a, b := MissingRemove(0, st.iteration, heard, k);
    assert Missing(0, st.iteration, heard)[|a|] == k;
    assert st.skipped[|a|].iteration == k;
    var at := FindKept(st.skipped, k);
    assert at <= |a|;
    TakeShape(st, at, chain, 0, heard);
  }

  lemma HearNew(st: SenderKey, name: string, chain: Secret, signer: nat, heard: set<nat>, k: u32, plain: seq<byte>)
    requires MemberInv(st, name, chain, signer, heard) && st.iteration <= k && k + 1 < U32_LIMIT
    requires |st.skipped| + (k - st.iteration) <= MAX_SKIP
    ensures var (st', answer) := DecryptEntry(st, SaidAt(name, chain, signer, k, plain));
            answer == Ok(plain) && MemberInv(st', name, chain, signer, heard + {k})
  {
    hide DecryptEntry, CatchUp, IsSuffix, Advance;
    CatchUpShape(st, k, chain, 0, heard);
    CatchUpKeepsName(st, k);
    CatchUpMissing(st, k, 0, heard);
    ReadShape(CatchUp(st, k), chain, 0, heard);
    DecryptNew(st, SaidAt(name, chain, signer, k, plain));
  }

  lemma DecryptNew(st: SenderKey, m: Message)
    requires m.Message? && Authentic(st.verify, m) && st.iteration <= m.iteration <= st.iteration + MAX_SKIP
    ensures var t := CatchUp(st, m.iteration);
            DecryptEntry(st, m) == (t.(chain := NextOf(t.chain), iteration := Succ32(t.iteration)),
                                    OpenBody(MessageOf(t.chain), t.group, m.body))
  {
  }

  lemma HearAgain(st: SenderKey, name: string, chain: Secret, signer: nat, heard: set<nat>, k: u32, plain: seq<byte>)
    requires MemberInv(st, name, chain, signer, heard) && k in heard
    ensures DecryptEntry(st, SaidAt(name, chain, signer, k, plain)) == (st, Err(ReplayDetected))
  {
    KeptSorted(st, chain, 0, heard);
  }

  lemma HearHolder(x: Member, said: seq<Spoken>, epochs: seq<Epoch>, name: string, k: nat)
    requires SaidInv(said, epochs, name) && HolderInv(x, said, epochs, name) && k < |said| && Bounded(x, said[k], k)
    requires forall e, f :: 0 <= e < f < |epochs| ==> epochs[e].signer != epochs[f].signer
    ensures said[k].m.Message? && HeardRight(x, said[k], k)
    ensures HolderInv(HeardBy(x, said[k], k), said, epochs, name)
  {
    hide DecryptEntry, Shape, MemberInv;
    if x.Holds? {
      var y, heard := said[k], Numbers(said, x.heard);
      var chain, signer := epochs[x.epoch].chain, epochs[x.epoch].signer;
      if x.epoch != y.epoch {
        ForeignRefused(x.st, name, chain, signer, heard, y.m);
      } else {
        assert y.m == SaidAt(name, chain, signer, y.n, y.plain);
        assert Numbers(said, x.heard + {k}) == heard + {y.n};
        if k in x.heard {
          HearAgain(x.st, name, chain, signer, heard, y.n, y.plain);
          assert x.heard + {k} == x.heard;
        } else {
          assert y.n !in heard;
          HearFirst(x.st, name, chain, signer, heard, y.n, y.plain);
        }
      }
    }
  }

  lemma ForeignRefused(st: SenderKey, name: string, chain: Secret, signer: nat, heard: set<nat>, m: Message)
    requires MemberInv(st, name, chain, signer, heard) && m.Message? && !Authentic(signer, m)
    ensures DecryptEntry(st, m) == (st, Err(SignatureInvalid))
  {
  }

  lemma HearFirst(st: SenderKey, name: string, chain: Secret, signer: nat, heard: set<nat>, k: u32, plain: seq<byte>)
    requires MemberInv(st, name, chain, signer, heard) && k !in heard && k + 1 < U32_LIMIT
    requires |st.skipped| + (if k > st.iteration then k - st.iteration else 0) <= MAX_SKIP
    ensures var (st', answer) := DecryptEntry(st, SaidAt(name, chain, signer, k, plain));
            answer == Ok(plain) && MemberInv(st', name, chain, signer, heard + {k})
  {
    hide DecryptEntry, MemberInv;
    if k < st.iteration {
      HearLate(st, name, chain, signer, heard, k, plain);
    } else {
      HearNew(st, name, chain, signer, heard, k, plain);
    }
  }

  /** A longer record of messages and epochs takes nothing from a member. */
  lemma MoreSaid(x: Member, said: seq<Spoken>, epochs: seq<Epoch>, name: string, said': seq<Spoken>, epochs': seq<Epoch>)
    requires HolderInv(x, said, epochs, name) && said <= said' && epochs <= epochs'
    ensures HolderInv(x, said', epochs', name)
  {
    hide MemberInv;
    if x.Holds? { assert Numbers(said', x.heard) == Numbers(said, x.heard); }
  }

  lemma SayInv(g: Group, name: string, plain: seq<byte>)
    requires Inv(g, name) && Allowed(g, Say(plain))
    ensures Inv(Next(g, Say(plain)), name)
  {
    hide HolderInv;
    var g' := Next(g, Say(plain));
    forall r | 0 <= r < |g'.members| ensures HolderInv(g'.members[r], g'.said, g'.epochs, name) {
      MoreSaid(g.members[r], g.said, g.epochs, name, g'.said, g'.epochs);
    }
  }

  lemma RotateInv(g: Group, name: string, chain: Secret, signer: nat)
    requires Inv(g, name) && Allowed(g, Rotate(chain, signer))
    ensures Inv(Next(g, Rotate(chain, signer)), name)
  {
    hide HolderInv;
    var g' := Next(g, Rotate(chain, signer));
    forall r | 0 <= r < |g'.members| ensures HolderInv(g'.members[r], g'.said, g'.epochs, name) {
      MoreSaid(g.members[r], g.said, g.epochs, name, g'.said, g'.epochs);
    }
  }

  lemma InstallInv(g: Group, name: string, r: nat, e: nat, sender: string)
    requires Inv(g, name) && Allowed(g, Install(r, e, sender))
    ensures Inv(Next(g, Install(r, e, sender)), name)
  {
    var x := Next(g, Install(r, e, sender)).members[r];
    assert Numbers(g.said, {}) == {};
    assert Unread(g.epochs[e].chain, 0, 0, {}) == [];
    assert HolderInv(x, g.said, g.epochs, name);
  }

  lemma {:induction false} RunHeard(g: Group, name: string, steps: seq<Step>)
    requires Inv(g, name) && AllAllowed(g, steps)
    ensures AllHeard(g, steps)
    decreases |steps|
  {
    hide DecryptEntry, HolderInv, SaidInv;
    if steps != [] {
      match steps[0] {
        case Say(plain) => SayInv(g, name, plain);
        case Rotate(chain, signer) => RotateInv(g, name, chain, signer);
        case Install(r, e, sender) => InstallInv(g, name, r, e, sender);
        case Hear(r, k) => HearHolder(g.members[r], g.said, g.epochs, name, k);
      }
      hide Inv;
      RunHeard(Next(g, steps[0]), name, steps[1..]);
    }
  }

  /** Group broadcast: the sender rotates its key and each member processes the distributions
      whenever they please.  Every member opens, of the messages it is handed, exactly those of
      the epoch it holds, on first hearing, in every order and with any losses; it answers
      repeats with REPLAY_DETECTED and other epochs with SIGNATURE_INVALID, changing nothing. */
  lemma Broadcast(g: Group, name: string, chain: Secret, signer: nat, steps: seq<Step>)
    requires Start(g, name, chain, signer) && AllAllowed(g, steps)
    ensures AllHeard(g, steps)
  {
    RunHeard(g, name, steps);
  }
}
