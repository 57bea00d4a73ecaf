/**
 The presence index over whole runs: sockets come and go, handlers interleave, and database
 answers arrive in any order, with any content, long after they were asked for.
 */
module PresenceSafety {
  import opened Presence

  // ---- One handler ----

  /** `Accurate` in terms of the visible devices alone. */
  predicate Faithful(g: State, s: Socket)
    requires s in g.views
  {
    forall d :: d in At(g.subs, s) ==> (d in g.views[s] <==> d in g.visible)
  }

  lemma OnlineIsVisible(g: State)
    requires Attached(g)
    ensures forall d :: Online(g, d) <==> d in g.visible
  {
    forall d | d in g.visible ensures Online(g, d) {
      var s :| s in g.byDevice[d];
      assert s in At(g.byDevice, d);
    }
  }

  lemma AccurateIsFaithful(g: State)
    requires Attached(g)
    ensures forall s :: s in g.open ==> (Accurate(g, s) <==> Faithful(g, s))
  {
    hide Online;
    OnlineIsVisible(g);
    forall s | s in g.open ensures Accurate(g, s) <==> Faithful(g, s) {
      if Accurate(g, s) {
        forall d | d in At(g.subs, s) ensures d in g.views[s] <==> d in g.visible {
          assert d in g.views[s] * At(g.subs, s) <==> d in Snapshot(g, At(g.subs, s));
        }
      }
    }
  }

  ghost predicate AllFaithful(g: State) { forall s :: s in g.open ==> s in g.views && Faithful(g, s) }

  lemma ConsistentParts(g: State)
    ensures Consistent(g) <==> Indexed(g) && Attached(g) && AllFaithful(g)
  {
    if Attached(g) { AccurateIsFaithful(g); }
  }

  lemma UnsubscribeAt(g: State, s: Socket)
    requires Indexed(g)
    ensures forall t :: At(Unsubscribe(g, s).subs, t) == if t == s then {} else At(g.subs, t)
    ensures forall d :: At(Unsubscribe(g, s).observers, d) == At(g.observers, d) - {s}
    ensures Indexed(Unsubscribe(g, s).(holders := g.holders - {s}))
  {
    hide Restrict;
    var keep := (d: Device, t: Socket) => t != s;
    RestrictAt(g.observers, keep);
    assert Unsubscribe(g, s).observers == Restrict(g.observers, keep);
    forall d ensures Kept(g.observers, d, keep) == At(g.observers, d) - {s} {
    }
  }

  lemma ConnectKeeps(g: State, s: Socket, h: Holder)
    requires Consistent(g) && s !in g.holders
    ensures Consistent(Connect(g, s, h))
  {
    hide Accurate, Online;
    ConsistentParts(g);
    var g' := Connect(g, s, h);
    assert forall d :: At(g'.byDevice, d) == if d == h.device then At(g.byDevice, d) + {s} else At(g.byDevice, d);
    assert Indexed(g');
    assert Attached(g');
    assert AllFaithful(g');
    ConsistentParts(g');
  }

  lemma DetachKeeps(g: State, d: Device, s: Socket)
    requires Consistent(g) && (s in g.holders ==> g.holders[s].device == d)
    ensures Consistent(Detach(g, d, s))
  {
    hide Accurate, Online, Restrict, Remove, Attached;
    ConsistentParts(g);
    DetachAttached(g, d, s);
    UnsubscribeAt(g, s);
    var g1 := Unsubscribe(g.(holders := g.holders - {s}, open := g.open - {s}), s);
    ConsistentParts(Detach(g, d, s));
  }

  lemma DetachAttached(g: State, d: Device, s: Socket)
    requires Attached(g) && (s in g.holders ==> g.holders[s].device == d)
    ensures Attached(Detach(g, d, s))
  {
    hide Attached, Restrict, Remove;
    var left := Remove(g.byDevice, d, s);
    RemoveAttached(g, d, s);
    RemoveKeys(g.byDevice, d, s);
    AttachedParts(Detach(g, d, s), g.(byDevice := left, holders := g.holders - {s}, open := g.open - {s},
                                       visible := if d in left then g.visible else g.visible - {d}));
  }

  /** Subscriptions and the contents of the views play no part. */
  lemma AttachedParts(g: State, g': State)
    requires Attached(g') && g.byDevice == g'.byDevice && g.holders == g'.holders && g.open == g'.open
    requires g.visible == g'.visible && g.views.Keys == g'.views.Keys
    ensures Attached(g)
  {
  }

  lemma RemoveAttached(g: State, d: Device, s: Socket)
    requires Attached(g) && (s in g.holders ==> g.holders[s].device == d)
    ensures d !in g.byDevice ==> g.visible - {d} == g.visible
    ensures var left := Remove(g.byDevice, d, s);
            Attached(g.(byDevice := left, holders := g.holders - {s}, open := g.open - {s},
                        visible := if d in left then g.visible else g.visible - {d}))
  {
    hide Remove;
    RemoveAt(g.byDevice, d, s);
    RemoveKeys(g.byDevice, d, s);
  }

  lemma DisconnectKeeps(g: State, d: Device)
    requires Consistent(g)
    ensures Consistent(Disconnect(g, d))
  {
    hide Accurate, Online, Attached;
    if d in g.byDevice {
      ConsistentParts(g);
      DisconnectAttached(g, d);
      ConsistentParts(Disconnect(g, d));
    }
  }

  lemma DisconnectAttached(g: State, d: Device)
    requires Attached(g) && d in g.byDevice
    ensures Attached(Disconnect(g, d))
  {
    hide Attached;
    CloseAttached(g, d);
    AttachedParts(Disconnect(g, d), g.(open := g.open - g.byDevice[d], byDevice := g.byDevice - {d},
                                       visible := g.visible - {d}));
  }

  lemma CloseAttached(g: State, d: Device)
    requires Attached(g) && d in g.byDevice
    ensures Attached(g.(open := g.open - g.byDevice[d], byDevice := g.byDevice - {d}, visible := g.visible - {d}))
  {
    var left := g.byDevice - {d};
    assert At(g.byDevice, d) == g.byDevice[d];
    forall e ensures At(left, e) == if e == d then {} else At(g.byDevice, e) {
    }
    forall e, t | t in At(left, e)
      ensures t in g.open && t !in g.byDevice[d] && t in g.holders && g.holders[t].device == e
    {
      assert t in At(g.byDevice, e);
    }
    forall t | t in g.open && t !in g.byDevice[d] ensures t in At(left, g.holders[t].device) {
      assert t in At(g.byDevice, g.holders[t].device);
    }
  }

  /** Declaring visibility keeps the index consistent exactly when the device is connected. */
  lemma VisibilityNeedsConnection(g: State, d: Device, visible: bool)
    requires Consistent(g)
    ensures Consistent(DeclareVisible(g, d, visible)) <==> (visible ==> d in g.byDevice)
  {
    hide Accurate, Online;
    ConsistentParts(g);
    ConsistentParts(DeclareVisible(g, d, visible));
  }

  lemma WatchIndexed(g: State, s: Socket, allowed: set<Device>)
    requires Indexed(g) && s in g.holders && At(g.subs, s) == {} && allowed != {}
    ensures Indexed(Watch(g, s, allowed))
  {
    var w := Watch(g, s, allowed);
    forall d ensures At(w.observers, d) == At(g.observers, d) + (if d in allowed then {s} else {}) {
    }
    forall t ensures At(w.subs, t) == if t == s then allowed else At(g.subs, t) {
    }
    forall t, d ensures d in At(w.subs, t) <==> t in At(w.observers, d) {
      assert d in At(g.subs, t) <==> t in At(g.observers, d);
    }
  }

  /** A snapshot depends on the visible devices only. */
  lemma SnapshotSame(g: State, g': State, allowed: set<Device>)
    requires Attached(g) && Attached(g') && g.visible == g'.visible
    ensures Snapshot(g, allowed) == Snapshot(g', allowed)
    ensures forall d :: d in Snapshot(g, allowed) <==> d in allowed && d in g.visible
  {
    hide Online, Attached;
    OnlineIsVisible(g);
    OnlineIsVisible(g');
  }

  /** The subscription replaces the previous one, and the client gets a snapshot of it. */
  lemma SubscribeExact(g: State, s: Socket, allowed: set<Device>)
    requires Indexed(g) && Attached(g) && s in g.holders
    ensures Indexed(Subscribe(g, s, allowed)) && Attached(Subscribe(g, s, allowed))
    ensures forall t :: At(Subscribe(g, s, allowed).subs, t) == if t == s then allowed else At(g.subs, t)
    ensures s in g.open ==> Subscribe(g, s, allowed).views[s] == Snapshot(g, allowed)
    ensures forall t :: t in g.open && t != s ==> Subscribe(g, s, allowed).views[t] == g.views[t]
  {
    hide Online, Restrict, AddAll, Inverse;
    UnsubscribeAt(g, s);
    var g1 := Unsubscribe(g, s);
    if allowed != {} { WatchIndexed(g1, s, allowed); }
    SnapshotSame(g, if allowed == {} then g1 else Watch(g1, s, allowed), allowed);
  }

  lemma SubscribeKeeps(g: State, s: Socket, allowed: set<Device>)
    requires Consistent(g)
    ensures Consistent(Subscribe(g, s, allowed))
  {
    if s in g.holders {
      hide Accurate, Online, Indexed, Attached;
      ConsistentParts(g);
      SubscribeExact(g, s, allowed);
      SnapshotSame(g, g, allowed);
      SubscribeOpen(g, s, allowed);
      assert AllFaithful(Subscribe(g, s, allowed)) by { hide Subscribe; }
      ConsistentParts(Subscribe(g, s, allowed));
    }
  }

  /** Once accounts `a` and `b` are separated, no holder of one may watch a device of the other. */
  predicate Barred(h: Holder, d: Device, a: User, b: User, ofA: set<Device>, ofB: set<Device>) {
    (h.user == a && d in ofB) || (h.user == b && a != b && d in ofA)
  }

  /** A revocation takes exactly the forbidden pairs out of both maps and tells nobody. */
  lemma RevokeExact(g: State, a: User, b: User, ofA: set<Device>, ofB: set<Device>)
    requires Consistent(g)
    ensures Consistent(Revoke(g, a, b, ofA, ofB)) && Revoke(g, a, b, ofA, ofB).views == g.views
    ensures forall s, d :: d in At(Revoke(g, a, b, ofA, ofB).subs, s) <==>
                           d in At(g.subs, s) && !(s in g.holders && Barred(g.holders[s], d, a, b, ofA, ofB))
  {
    hide Consistent, Revoke;
    RevokePairs(g, a, b, ofA, ofB);
    assert forall s, d :: MayWatch(g, s, d, a, b, ofA, ofB) <==> !(s in g.holders && Barred(g.holders[s], d, a, b, ofA, ofB));
  }

  lemma RevokePairs(g: State, a: User, b: User, ofA: set<Device>, ofB: set<Device>)
    requires Consistent(g)
    ensures Consistent(Revoke(g, a, b, ofA, ofB)) && Revoke(g, a, b, ofA, ofB).views == g.views
    ensures forall s, d :: d in At(Revoke(g, a, b, ofA, ofB).subs, s) <==>
                           d in At(g.subs, s) && MayWatch(g, s, d, a, b, ofA, ofB)
  {
    hide Accurate, Online, Restrict, MayWatch;
    ConsistentParts(g);
    var keep := (s: Socket, d: Device) => MayWatch(g, s, d, a, b, ofA, ofB);
    var keep' := (d: Device, s: Socket) => MayWatch(g, s, d, a, b, ofA, ofB);
    var r := Revoke(g, a, b, ofA, ofB);
    RestrictAt(g.subs, keep);
    RestrictAt(g.observers, keep');
    assert r.subs == Restrict(g.subs, keep) && r.observers == Restrict(g.observers, keep');
    forall s, d
      ensures d in At(r.subs, s) <==> d in At(g.subs, s) && MayWatch(g, s, d, a, b, ofA, ofB)
      ensures s in At(r.observers, d) <==> s in At(g.observers, d) && MayWatch(g, s, d, a, b, ofA, ofB)
    {
      assert d in At(r.subs, s) <==> d in Kept(g.subs, s, keep);
      assert s in At(r.observers, d) <==> s in Kept(g.observers, d, keep');
    }
    forall s | s in r.subs ensures s in g.holders {
      assert At(r.subs, s) != {};
      var d :| d in At(r.subs, s);
      assert d in At(g.subs, s);
    }
    ConsistentParts(r);
  }

  // ---- Runs ----

  /** The gateway with its history: sockets ever seen, questions under way, sockets closed. */
  datatype World = World(
    g: State,
    born: map<Socket, Holder>,
    asked: multiset<Socket>,
    granted: map<Socket, set<Device>>,
    gone: set<Socket>)

  datatype Step =
    | Arrive(s: Socket, h: Holder)
    | Leave(s: Socket)
    | Mode(s: Socket, visible: bool)
    | Ask(s: Socket)
    | Reply(s: Socket, allowed: set<Device>)
    | Block(a: User, b: User, ofA: set<Device>, ofB: set<Device>)
    | Ban(d: Device)

  /**
   A socket arrives once; its close and error events may come at any time and repeatedly;
   messages come from attached sockets; an answer comes for every question at most once.
   */
  predicate Enabled(w: World, step: Step) {
    match step
    case Arrive(s, _) => s !in w.born
    case Leave(s) => s in w.born
    case Mode(s, _) => s in w.g.open && s in w.g.holders
    case Ask(s) => s in w.g.open
    case Reply(s, _) => s in w.asked
    case Block(_, _, _, _) => true
    case Ban(_) => true
  }

  function Next(w: World, step: Step): World
    requires Enabled(w, step)
  {
    match step
    case Arrive(s, h) =>
      w.(g := Connect(w.g, s, h), born := w.born[s := h], granted := w.granted[s := {}])
    case Leave(s) => w.(g := Detach(w.g, w.born[s].device, s), gone := w.gone + {s})
    case Mode(s, visible) => w.(g := DeclareVisible(w.g, w.g.holders[s].device, visible))
    case Ask(s) => if s in w.g.holders then w.(asked := w.asked + multiset{s}) else w
    case Reply(s, allowed) =>
      w.(g := Subscribe(w.g, s, allowed), asked := w.asked - multiset{s}, granted := w.granted[s := allowed])
    case Block(a, b, ofA, ofB) => w.(g := Revoke(w.g, a, b, ofA, ofB))
    case Ban(d) => w.(g := Disconnect(w.g, d))
  }

  predicate Runs(w: World, steps: seq<Step>)
    decreases |steps|
  {
    steps == [] || (Enabled(w, steps[0]) && Runs(Next(w, steps[0]), steps[1..]))
  }

  function Final(w: World, steps: seq<Step>): World
    requires Runs(w, steps)
    decreases |steps|
  {
    if steps == [] then w else Final(Next(w, steps[0]), steps[1..])
  }

  function Empty(): World {
    World(State(map[], map[], map[], map[], {}, {}, map[]), map[], multiset{}, map[], {})
  }

  predicate Absent(g: State, s: Socket) {
    && s !in g.holders && s !in g.subs && s !in g.open
    && (forall d :: d in g.byDevice ==> s !in g.byDevice[d])
    && (forall d :: d in g.observers ==> s !in g.observers[d])
  }

  /** The history agrees with the state; closed sockets are in none of the maps. */
  ghost predicate Inv(w: World) {
    && Consistent(w.g)
    && (forall s :: s in w.g.holders ==> s in w.born && w.born[s] == w.g.holders[s])
    && w.g.holders.Keys <= w.g.views.Keys
    && w.gone <= w.born.Keys && w.gone !! w.g.holders.Keys
  }

  lemma GoneIsAbsent(g: State, s: Socket)
    requires Consistent(g) && s !in g.holders
    ensures Absent(g, s)
  {
    forall d | d in g.byDevice ensures s !in g.byDevice[d] {
      assert At(g.byDevice, d) == g.byDevice[d];
    }
    forall d | d in g.observers ensures s !in g.observers[d] {
      assert At(g.subs, s) == {};
      assert d !in At(g.subs, s) && At(g.observers, d) == g.observers[d];
    }
  }

  lemma NextKeeps(w: World, step: Step)
    requires Inv(w) && Enabled(w, step)
    ensures Inv(Next(w, step))
  {
    hide Consistent, Remove, Restrict, Detach;
    match step
    case Arrive(s, h) => ConnectKeeps(w.g, s, h);
    case Leave(s) => LeaveInv(w, s);
    case Mode(s, visible) =>
      OpenIsConnected(w.g, s);
      VisibilityNeedsConnection(w.g, w.g.holders[s].device, visible);
    case Ask(s) =>
    case Reply(s, allowed) => SubscribeKeeps(w.g, s, allowed);
    case Block(a, b, ofA, ofB) => RevokeExact(w.g, a, b, ofA, ofB);
    case Ban(d) => DisconnectKeeps(w.g, d);
  }

  lemma LeaveInv(w: World, s: Socket)
    requires Inv(w) && s in w.born
    ensures Inv(Next(w, Leave(s)))
  {
    hide Consistent, Remove, Restrict;
    DetachKeeps(w.g, w.born[s].device, s);
  }

  lemma OpenIsConnected(g: State, s: Socket)
    requires Consistent(g) && s in g.open
    ensures s in g.holders && g.holders[s].device in g.byDevice
  {
  }

  lemma {:induction false} RunKeeps(w: World, steps: seq<Step>)
    requires Inv(w) && Runs(w, steps)
    ensures Inv(Final(w, steps))
    decreases |steps|
  {
    hide Inv, Enabled, Next;
    if steps != [] {
      NextKeeps(w, steps[0]);
      RunKeeps(Next(w, steps[0]), steps[1..]);
    }
  }

  /**
   In every run from the start: the subscription maps are exact inverses without empty sets,
   and every open client shows, on its subscription, exactly the devices on line.
   */
  lemma PresenceConsistent(steps: seq<Step>)
    requires Runs(Empty(), steps)
    ensures Consistent(Final(Empty(), steps).g)
    ensures Inv(Final(Empty(), steps))
  {
    StartInv();
    RunKeeps(Empty(), steps);
  }

  lemma StartInv()
    ensures Inv(Empty()) && Whole(Empty())
  {
    ConsistentParts(Empty().g);
  }

  lemma {:induction false} GoneGrows(w: World, steps: seq<Step>)
    requires Runs(w, steps)
    ensures w.gone <= Final(w, steps).gone
    decreases |steps|
  {
    hide Connect, Detach, DeclareVisible, Subscribe, Revoke, Disconnect;
    if steps != [] { GoneGrows(Next(w, steps[0]), steps[1..]); }
  }

  /** A closed socket is in no map again, whatever answers were still under way for it. */
  lemma ClosedForGood(steps: seq<Step>, s: Socket, more: seq<Step>)
    requires Runs(Empty(), steps) && Enabled(Final(Empty(), steps), Leave(s))
    requires Runs(Next(Final(Empty(), steps), Leave(s)), more)
    ensures Absent(Final(Next(Final(Empty(), steps), Leave(s)), more).g, s)
  {
    hide Detach, Absent, Runs, Final;
    var w := Final(Empty(), steps);
    PresenceConsistent(steps);
    NextKeeps(w, Leave(s));
    var w' := Next(w, Leave(s));
    RunKeeps(w', more);
    GoneGrows(w', more);
    GoneIsAbsent(Final(w', more).g, s);
  }

  // ---- Without a block, the view is the whole truth ----

  predicate Blocks(step: Step) { step.Block? }

  /** Every open socket watches all it was last granted, and shows nothing else. */
  ghost predicate Whole(w: World) {
    forall s :: s in w.g.open ==> WholeAt(w, s)
  }

  ghost predicate WholeAt(w: World, s: Socket) {
    s in w.granted && s in w.g.views && At(w.g.subs, s) == w.granted[s] && w.g.views[s] <= w.granted[s]
  }

  lemma NextWhole(w: World, step: Step)
    requires Inv(w) && Enabled(w, step) && Whole(w) && !Blocks(step)
    ensures Whole(Next(w, step))
  {
    hide Remove, Restrict, Accurate, Attached, Subscribe, Detach;
    match step
    case Arrive(t, h) => GoneIsAbsent(w.g, t);
    case Leave(t) => LeaveWhole(w, t);
    case Mode(t, visible) =>
      forall s | s in w.g.open ensures WholeAt(Next(w, step), s) {
      }
    case Ask(t) =>
    case Reply(t, allowed) => ReplyWhole(w, t, allowed);
    case Ban(d) =>
      forall s | s in Next(w, step).g.open ensures WholeAt(Next(w, step), s) {
      }
  }

  lemma LeaveWhole(w: World, t: Socket)
    requires Inv(w) && Whole(w) && t in w.born
    ensures Whole(Next(w, Leave(t)))
  {
    hide Detach, Consistent;
    forall s | s in w.g.open && s != t ensures WholeAt(Next(w, Leave(t)), s) {
      LeaveWithin(w.g, w.born[t].device, t, s);
    }
    LeaveOpen(w.g, w.born[t].device, t);
  }

  lemma ReplyWhole(w: World, t: Socket, allowed: set<Device>)
    requires Inv(w) && Whole(w) && t in w.asked
    ensures Whole(Next(w, Reply(t, allowed)))
  {
    hide Subscribe, Indexed, Attached, Accurate;
    if t in w.g.holders { SubscribeExact(w.g, t, allowed); }
    SubscribeOpen(w.g, t, allowed);
    if t in w.g.open { OpenIsConnected(w.g, t); }
  }

  lemma LeaveOpen(g: State, d: Device, t: Socket)
    ensures Detach(g, d, t).open == g.open - {t}
  {
    hide Restrict, Remove;
  }

  lemma SubscribeOpen(g: State, t: Socket, allowed: set<Device>)
    ensures Subscribe(g, t, allowed).open == g.open && Subscribe(g, t, allowed).visible == g.visible
    ensures Subscribe(g, t, allowed).holders == g.holders
    ensures g.views.Keys <= Subscribe(g, t, allowed).views.Keys
    ensures t !in g.holders ==> Subscribe(g, t, allowed) == g
    ensures forall s :: s != t && s in g.views ==> Subscribe(g, t, allowed).views[s] == g.views[s]
    ensures forall s :: s != t ==> At(Subscribe(g, t, allowed).subs, s) == At(g.subs, s)
  {
    hide Restrict, AddAll;
  }

  lemma LeaveWithin(g: State, d: Device, t: Socket, s: Socket)
    requires Consistent(g) && s != t && s in g.views && g.views[s] <= At(g.subs, s)
    ensures s in Detach(g, d, t).views && At(Detach(g, d, t).subs, s) == At(g.subs, s)
    ensures Detach(g, d, t).views[s] <= At(g.subs, s)
  {
    hide Restrict, Remove, Accurate;
    UnsubscribeAt(g, t);
  }

  lemma {:induction false} RunWhole(w: World, steps: seq<Step>)
    requires Inv(w) && Whole(w) && Runs(w, steps) && (forall i :: 0 <= i < |steps| ==> !Blocks(steps[i]))
    ensures Inv(Final(w, steps)) && Whole(Final(w, steps))
    decreases |steps|
  {
    hide Inv, Whole, Enabled, Next;
    if steps != [] {
      NextKeeps(w, steps[0]);
      NextWhole(w, steps[0]);
      RunWhole(Next(w, steps[0]), steps[1..]);
    }
  }

  /** As long as nobody is blocked, a client shows exactly the granted devices that are on line. */
  lemma ViewExact(steps: seq<Step>, s: Socket)
    requires Runs(Empty(), steps) && (forall i :: 0 <= i < |steps| ==> !Blocks(steps[i]))
    requires s in Final(Empty(), steps).g.open
    ensures var w := Final(Empty(), steps);
            s in w.granted && s in w.g.views && w.g.views[s] == Snapshot(w.g, w.granted[s])
  {
    hide Runs, Final;
    StartInv();
    RunWhole(Empty(), steps);
    var w := Final(Empty(), steps);
    assert Accurate(w.g, s);
    assert w.g.views[s] * At(w.g.subs, s) == w.g.views[s];
  }

  // ---- After a block, silence ----

  /** `s` does not watch `d`, and shows of it what it showed at `shown`. */
  ghost predicate Silent(w: World, s: Socket, d: Device, shown: bool) {
    s in w.born && s in w.g.views && d !in At(w.g.subs, s) && (d in w.g.views[s] <==> shown)
  }

  lemma AnnounceSilent(g: State, e: Device, online: bool, s: Socket, d: Device)
    requires Inverse(g.subs, g.observers) && s in g.views && d !in At(g.subs, s)
    ensures d in Announce(g, e, online).views[s] <==> d in g.views[s]
  {
  }

  lemma LeaveSilent(g: State, e: Device, t: Socket, s: Socket, d: Device)
    requires Consistent(g) && s in g.views && d !in At(g.subs, s)
    ensures s in Detach(g, e, t).views && d !in At(Detach(g, e, t).subs, s)
    ensures d in Detach(g, e, t).views[s] <==> d in g.views[s]
  {
    hide Restrict, Remove, Accurate, Attached;
    UnsubscribeAt(g, t);
  }

  lemma NextSilent(w: World, step: Step, s: Socket, d: Device, shown: bool)
    requires Inv(w) && Enabled(w, step) && Silent(w, s, d, shown)
    requires step.Reply? ==> step.s != s
    ensures Silent(Next(w, step), s, d, shown)
  {
    hide Remove, Restrict, Accurate, Attached, Subscribe, Detach, Revoke;
    match step
    case Arrive(t, h) =>
    case Leave(t) => LeaveSilent(w.g, w.born[t].device, t, s, d);
    case Mode(t, visible) => AnnounceSilent(w.g, w.g.holders[t].device, visible, s, d);
    case Ask(t) =>
    case Reply(t, allowed) => SubscribeOpen(w.g, t, allowed);
    case Block(a, b, ofA, ofB) =>
      RevokeExact(w.g, a, b, ofA, ofB);
    case Ban(e) => AnnounceSilent(w.g, e, false, s, d);
  }

  lemma {:induction false} RunSilent(w: World, steps: seq<Step>, s: Socket, d: Device, shown: bool)
    requires Inv(w) && Runs(w, steps) && Silent(w, s, d, shown)
    requires forall i :: 0 <= i < |steps| ==> (steps[i].Reply? ==> steps[i].s != s)
    ensures Silent(Final(w, steps), s, d, shown)
    decreases |steps|
  {
    hide Inv, Silent, Enabled, Next;
    if steps != [] {
      NextKeeps(w, steps[0]);
      NextSilent(w, steps[0], s, d, shown);
      RunSilent(Next(w, steps[0]), steps[1..], s, d, shown);
    }
  }

  /**
   After a block, a client of one account watches no device of the other and hears nothing
   more about it, until an answer to one of its own subscription requests arrives.
   */
  lemma BlockSilences(steps: seq<Step>, block: Step, more: seq<Step>, s: Socket, d: Device)
    requires Runs(Empty(), steps) && block.Block?
    requires var w := Final(Empty(), steps);
             && s in w.g.holders
             && Barred(w.g.holders[s], d, block.a, block.b, block.ofA, block.ofB)
             && Runs(Next(w, block), more)
    requires forall i :: 0 <= i < |more| ==> (more[i].Reply? ==> more[i].s != s)
    ensures var w := Final(Empty(), steps);
            s in w.g.views && Silent(Final(Next(w, block), more), s, d, d in w.g.views[s])
  {
    hide Runs, Final, Revoke;
    var w := Final(Empty(), steps);
    PresenceConsistent(steps);
    NextKeeps(w, block);
    RevokeExact(w.g, block.a, block.b, block.ofA, block.ofB);
    RunSilent(Next(w, block), more, s, d, d in w.g.views[s]);
  }

  // ---- A message from a closing socket ----

  /** What happens when a device that is not connected declares itself visible: an open client
      that watches it is told that it is on line, which no snapshot confirms, and is not told
      otherwise when the closing socket is gone. */
  lemma ClosingSocketMisleads(g: State, d: Device, s: Socket, t: Socket, allowed: set<Device>)
    requires Consistent(g) && d !in g.byDevice && t in g.open && s != t && d in At(g.subs, t)
    ensures var g' := DeclareVisible(g, d, true);
            && t in g'.views && d in g'.views[t] && !Online(g', d)
            && d !in Snapshot(g', allowed)
            && t in Detach(g', d, s).views && d in Detach(g', d, s).views[t] && !Online(Detach(g', d, s), d)
  {
    hide Accurate, Restrict;
    var g' := DeclareVisible(g, d, true);
    assert t in At(g.observers, d);
    assert d !in g.visible;
  }

  /** Two devices connect, the second subscribes to the first, and the first is disconnected. */
  function BanRun(d: Device, o: Device, u: User, v: User): seq<Step> {
    [Arrive(1, Holder(d, u)), Arrive(2, Holder(o, v)), Ask(2), Reply(2, {d}), Ban(d)]
  }

  lemma RunPrefix(w: World, steps: seq<Step>)
    requires steps != [] && Enabled(w, steps[0]) && Runs(Next(w, steps[0]), steps[1..])
    ensures Runs(w, steps) && Final(w, steps) == Final(Next(w, steps[0]), steps[1..])
    ensures steps[1..] == [] ==> Final(w, steps) == Next(w, steps[0])
  {
  }

  /** Two sockets of different devices are open and the second watches the first's device. */
  ghost predicate Watching(g: State, d: Device, o: Device, u: User, v: User) {
    && Consistent(g) && d != o
    && g.byDevice == map[d := {1}, o := {2}] && g.holders == map[1 := Holder(d, u), 2 := Holder(o, v)]
    && g.open == {1, 2} && d in At(g.subs, 2) && g.visible == {}
  }

  lemma BanLeaves(g: State, d: Device, o: Device, u: User, v: User)
    requires Watching(g, d, o, u, v)
    ensures var g' := Disconnect(g, d);
            && g'.holders == g.holders && d !in g'.byDevice && 1 !in g'.open && 2 in g'.open && d in At(g'.subs, 2)
  {
  }

  lemma ReplyWatches(g: State, d: Device, o: Device, u: User, v: User)
    requires Consistent(g) && d != o && g.visible == {}
    requires g.byDevice == map[d := {1}, o := {2}] && g.holders == map[1 := Holder(d, u), 2 := Holder(o, v)] && g.open == {1, 2}
    ensures Watching(Subscribe(g, 2, {d}), d, o, u, v)
  {
    hide Accurate, Online, Restrict, AddAll, Indexed, Attached;
    SubscribeKeeps(g, 2, {d});
    SubscribeExact(g, 2, {d});
  }

  lemma Arrivals(d: Device, o: Device, u: User, v: User)
    requires d != o
    ensures var w1 := Next(Empty(), Arrive(1, Holder(d, u)));
            Enabled(w1, Arrive(2, Holder(o, v)))
    ensures var g := Next(Next(Empty(), Arrive(1, Holder(d, u))), Arrive(2, Holder(o, v))).g;
            && g.byDevice == map[d := {1}, o := {2}] && g.holders == map[1 := Holder(d, u), 2 := Holder(o, v)]
            && g.open == {1, 2} && g.visible == {} && Consistent(g)
  {
    StartInv();
    ConnectKeeps(Empty().g, 1, Holder(d, u));
    ConnectKeeps(Connect(Empty().g, 1, Holder(d, u)), 2, Holder(o, v));
    var g := Connect(Connect(Empty().g, 1, Holder(d, u)), 2, Holder(o, v));
    assert At(Empty().g.byDevice, d) + {1} == {1};
    assert At(Connect(Empty().g, 1, Holder(d, u)).byDevice, o) + {2} == {2};
    assert g.byDevice == map[d := {1}, o := {2}];
  }

  /** The input exists: after this run the disconnected device still has a socket whose message
      would be handled in its name, and declaring it visible breaks the index. */
  lemma MisleadReachable(d: Device, o: Device, u: User, v: User)
    requires d != o
    ensures Runs(Empty(), BanRun(d, o, u, v))
    ensures var g := Final(Empty(), BanRun(d, o, u, v)).g;
            && 1 in g.holders && g.holders[1].device == d && 1 !in g.open && d !in g.byDevice
            && !Consistent(DeclareVisible(g, d, true))
            && 2 in DeclareVisible(g, d, true).views && d in DeclareVisible(g, d, true).views[2]
            && !Online(DeclareVisible(g, d, true), d)
  {
    hide Connect, Disconnect, Subscribe, Final, Consistent, Online, DeclareVisible;
    var steps := BanRun(d, o, u, v);
    var w1 := Next(Empty(), steps[0]);
    Arrivals(d, o, u, v);
    var w2 := Next(w1, steps[1]);
    var w3 := Next(w2, steps[2]);
    var w4 := Next(w3, steps[3]);
    var w5 := Next(w4, steps[4]);
    ReplyWatches(w3.g, d, o, u, v);
    BanLeaves(w4.g, d, o, u, v);
    DisconnectKeeps(w4.g, d);
    assert Runs(w5, []);
    hide Runs;
    assert steps[4..] == [steps[4]] && steps[3..][1..] == steps[4..] && steps[2..][1..] == steps[3..] && steps[1..][1..] == steps[2..];
    RunPrefix(w4, steps[4..]);
    RunPrefix(w3, steps[3..]);
    RunPrefix(w2, steps[2..]);
    RunPrefix(w1, steps[1..]);
    RunPrefix(Empty(), steps);
    ClosingSocketMisleads(w5.g, d, 1, 2, {});
    VisibilityNeedsConnection(w5.g, d, true);
  }

}
