/**
 A reference for the presence index, computed from the history of steps alone: who holds which
 socket, which sockets are open, what each socket may watch, and which devices are shown.
 */
module PresenceReference {
  import opened Presence
  import opened PresenceSafety

  /** `shown`: the last declaration since the device was last without an open socket was "visible".
      `watch`: what the socket was last granted, less what was revoked since. */
  datatype Record = Record(holders: map<Socket, Holder>, open: set<Socket>, shown: set<Device>, watch: map<Socket, set<Device>>)

  /** The device has an open socket. */
  predicate Connected(holders: map<Socket, Holder>, open: set<Socket>, d: Device) {
    exists s :: s in open && s in holders && holders[s].device == d
  }

  /** Who goes without a socket is no longer shown. */
  function StillShown(r: Record): Record { r.(shown := set d | d in r.shown && Connected(r.holders, r.open, d)) }

  function Recorded(r: Record, step: Step): Record {
    match step
    case Arrive(s, h) => r.(holders := r.holders[s := h], open := r.open + {s}, watch := r.watch[s := {}])
    case Leave(s) => StillShown(r.(holders := r.holders - {s}, open := r.open - {s}, watch := r.watch - {s}))
    case Mode(s, visible) =>
      if s !in r.holders then r
      else if visible then r.(shown := r.shown + {r.holders[s].device})
      else r.(shown := r.shown - {r.holders[s].device})
    case Ask(_) => r
    case Reply(s, allowed) => if s in r.holders then r.(watch := r.watch[s := allowed]) else r
    case Block(a, b, ofA, ofB) =>
      r.(watch := map s | s in r.watch ::
           set d | d in r.watch[s] && !(s in r.holders && Barred(r.holders[s], d, a, b, ofA, ofB)))
    case Ban(d) => StillShown(r.(open := set s | s in r.open && !(s in r.holders && r.holders[s].device == d)))
  }

  function History(r: Record, steps: seq<Step>): Record
    decreases |steps|
  {
    if steps == [] then r else History(Recorded(r, steps[0]), steps[1..])
  }

  const NOTHING := Record(map[], {}, {}, map[])

  /** The gateway agrees with the record. */
  ghost predicate Agrees(g: State, r: Record) {
    && g.holders == r.holders && g.open == r.open && g.visible == r.shown
    && g.holders.Keys == r.watch.Keys
    && forall s :: s in r.watch ==> At(g.subs, s) == r.watch[s]
  }

  /** In a consistent state, who is visible is connected. */
  lemma VisibleConnected(g: State)
    requires Attached(g)
    ensures forall d :: d in g.visible ==> Connected(g.holders, g.open, d)
    ensures forall d :: Connected(g.holders, g.open, d) ==> d in g.byDevice
  {
    forall d | d in g.visible ensures Connected(g.holders, g.open, d) {
      var s :| s in g.byDevice[d];
      assert s in At(g.byDevice, d);
      assert s in g.open && g.holders[s].device == d;
    }
  }

  /** What a declaration does: exactly this device is visible or not from now on. */
  lemma DeclarationDecides(g: State, d: Device, visible: bool)
    ensures var g' := DeclareVisible(g, d, visible);
            && (d in g'.visible <==> visible)
            && (forall e :: e != d ==> (e in g'.visible <==> e in g.visible))
            && g' == g.(visible := g'.visible, views := g'.views)
  {
  }

  /** What hiding a device does to the visible ones. */
  lemma DetachVisible(g: State, d: Device, s: Socket)
    ensures var g' := Detach(g, d, s);
            && g'.holders == g.holders - {s} && g'.open == g.open - {s} && g'.subs == g.subs - {s}
            && (g'.visible == g.visible || (g'.visible == g.visible - {d} && d !in g'.byDevice))
  {
    hide Restrict, Remove;
  }

  lemma DisconnectVisible(g: State, d: Device)
    ensures var g' := Disconnect(g, d);
            && g'.holders == g.holders && g'.subs == g.subs && g'.open == g.open - At(g.byDevice, d)
            && g'.visible == if d in g.byDevice then g.visible - {d} else g.visible
  {
  }

  lemma LeaveAgrees(w: World, r: Record, s: Socket)
    requires Inv(w) && Agrees(w.g, r) && s in w.born
    ensures Agrees(Next(w, Leave(s)).g, Recorded(r, Leave(s)))
  {
    hide Detach, Accurate;
    var d, g' := w.born[s].device, Next(w, Leave(s)).g;
    NextKeeps(w, Leave(s));
    DetachVisible(w.g, d, s);
    VisibleConnected(g');
    assert g'.visible == Recorded(r, Leave(s)).shown;
  }

  lemma BanAgrees(w: World, r: Record, d: Device)
    requires Inv(w) && Agrees(w.g, r)
    ensures Agrees(Next(w, Ban(d)).g, Recorded(r, Ban(d)))
  {
    hide Disconnect, Accurate;
    var g' := Next(w, Ban(d)).g;
    NextKeeps(w, Ban(d));
    DisconnectVisible(w.g, d);
    VisibleConnected(w.g);
    VisibleConnected(g');
    assert g'.open == Recorded(r, Ban(d)).open;
    assert g'.visible == Recorded(r, Ban(d)).shown;
  }

  lemma StepAgrees(w: World, r: Record, step: Step)
    requires Inv(w) && Enabled(w, step) && Agrees(w.g, r)
    ensures Agrees(Next(w, step).g, Recorded(r, step))
  {
    hide Detach, Disconnect, Subscribe, Revoke, DeclareVisible, Accurate, Attached;
    match step
    case Arrive(s, h) => GoneIsAbsent(w.g, s);
    case Leave(s) => LeaveAgrees(w, r, s);
    case Mode(s, visible) => DeclarationDecides(w.g, w.g.holders[s].device, visible);
    case Ask(s) =>
    case Reply(s, allowed) => ReplyAgrees(w, r, s, allowed);
    case Block(a, b, ofA, ofB) => BlockAgrees(w, r, a, b, ofA, ofB);
    case Ban(d) => BanAgrees(w, r, d);
  }

  lemma ReplyAgrees(w: World, r: Record, s: Socket, allowed: set<Device>)
    requires Inv(w) && Agrees(w.g, r) && s in w.asked
    ensures Agrees(Next(w, Reply(s, allowed)).g, Recorded(r, Reply(s, allowed)))
  {
    hide Subscribe, Accurate, Indexed, Attached;
    SubscribeOpen(w.g, s, allowed);
    if s in w.g.holders { SubscribeExact(w.g, s, allowed); }
  }

  lemma BlockAgrees(w: World, r: Record, a: User, b: User, ofA: set<Device>, ofB: set<Device>)
    requires Inv(w) && Agrees(w.g, r)
    ensures Agrees(Next(w, Block(a, b, ofA, ofB)).g, Recorded(r, Block(a, b, ofA, ofB)))
  {
    hide Revoke, Consistent, Barred;
    RevokeExact(w.g, a, b, ofA, ofB);
    RevokeKeeps(w.g, a, b, ofA, ofB);
  }

  lemma RevokeKeeps(g: State, a: User, b: User, ofA: set<Device>, ofB: set<Device>)
    ensures var g' := Revoke(g, a, b, ofA, ofB);
            g' == g.(subs := g'.subs, observers := g'.observers)
  {
    hide Restrict;
  }

  lemma {:induction false} RunAgrees(w: World, r: Record, steps: seq<Step>)
    requires Inv(w) && Agrees(w.g, r) && Runs(w, steps)
    ensures Inv(Final(w, steps)) && Agrees(Final(w, steps).g, History(r, steps))
    decreases |steps|
  {
    hide Inv, Agrees, Enabled, Next, Recorded;
    if steps != [] {
      NextKeeps(w, steps[0]);
      StepAgrees(w, r, steps[0]);
      RunAgrees(Next(w, steps[0]), Recorded(r, steps[0]), steps[1..]);
    }
  }

  /**
   Presence, from the history alone.  In every run exactly those devices are on line that last
   declared themselves visible since they were last without a socket; every socket watches what
   it was last granted, less what was revoked since; and every open client shows, of what it
   watches, exactly those devices.
   */
  lemma PresenceFollowsHistory(steps: seq<Step>)
    requires Runs(Empty(), steps)
    ensures var g, r := Final(Empty(), steps).g, History(NOTHING, steps);
            && g.holders == r.holders && g.open == r.open
            && (forall d :: Online(g, d) <==> d in r.shown)
            && (forall s :: s in r.watch ==> At(g.subs, s) == r.watch[s])
            && (forall s :: s in r.open ==> s in r.watch && s in g.views && g.views[s] * r.watch[s] == r.shown * r.watch[s])
  {
    StartInv();
    RunAgrees(Empty(), NOTHING, steps);
    var g, r := Final(Empty(), steps).g, History(NOTHING, steps);
    OnlineIsVisible(g);
    AccurateIsFaithful(g);
    hide Online, Accurate;
    forall s | s in r.open ensures s in r.watch && s in g.views && g.views[s] * r.watch[s] == r.shown * r.watch[s] {
      assert Faithful(g, s);
    }
  }

  /** A snapshot lists, of what was granted, exactly the devices that the history shows. */
  lemma SnapshotFollowsHistory(steps: seq<Step>, s: Socket, allowed: set<Device>)
    requires Runs(Empty(), steps) && s in Final(Empty(), steps).g.open
    ensures var g := Subscribe(Final(Empty(), steps).g, s, allowed);
            s in g.views && g.views[s] == allowed * History(NOTHING, steps).shown
  {
    PresenceFollowsHistory(steps);
    PresenceConsistent(steps);
    hide Online, Accurate, Subscribe;
    var g := Final(Empty(), steps).g;
    OpenIsConnected(g, s);
    SubscribeExact(g, s, allowed);
    SubscribeOpen(g, s, allowed);
    assert forall d :: d in Snapshot(g, allowed) <==> d in allowed * History(NOTHING, steps).shown;
  }
}
