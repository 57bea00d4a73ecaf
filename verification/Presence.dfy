/**
 The presence index of the realtime gateway (server/src/ws/gateway.ts): who is connected, who
 accepts to be seen, who watches whom, and what each client has been told. The five maps and
 sets of `RealtimeGateway` are fields; `open` stands for the sockets whose `readyState` is OPEN
 and `views` for what each client shows (its last snapshot, then the events since).
 */
module Presence {

  type Socket = nat
  type Device = string
  type User = string

  datatype Holder = Holder(device: Device, user: User)

  // ---- Maps of sets ----

  function At<K, V>(m: map<K, set<V>>, k: K): set<V> { if k in m then m[k] else {} }

  predicate NoEmpty<K, V>(m: map<K, set<V>>) { forall k :: k in m ==> m[k] != {} }

  function Add<K, V>(m: map<K, set<V>>, k: K, v: V): map<K, set<V>> { m[k := At(m, k) + {v}] }

  /** The set loses `v`; when nothing is left the key goes too. */
  function Remove<K, V>(m: map<K, set<V>>, k: K, v: V): map<K, set<V>> {
    if k !in m then m
    else if m[k] - {v} == {} then m - {k}
    else m[k := m[k] - {v}]
  }

  lemma RemoveAt<K, V>(m: map<K, set<V>>, k: K, v: V)
    requires NoEmpty(m)
    ensures NoEmpty(Remove(m, k, v))
    ensures forall j :: At(Remove(m, k, v), j) == if j == k then At(m, k) - {v} else At(m, j)
  {
  }

  lemma RemoveKeys<K, V>(m: map<K, set<V>>, k: K, v: V)
    ensures forall j :: j in Remove(m, k, v) <==> j in m && (j == k ==> m[k] - {v} != {})
  {
  }

  /** `v` joins the sets of all of `keys`. */
  function AddAll<K, V>(m: map<K, set<V>>, keys: set<K>, v: V): map<K, set<V>> {
    map k | k in m.Keys + keys :: At(m, k) + (if k in keys then {v} else {})
  }

  lemma AddAllStep<K, V>(m: map<K, set<V>>, keys: set<K>, k: K, v: V)
    ensures Add(AddAll(m, keys, v), k, v) == AddAll(m, keys + {k}, v)
  {
    var x, y := Add(AddAll(m, keys, v), k, v), AddAll(m, keys + {k}, v);
    assert x.Keys == y.Keys;
    forall j | j in x.Keys ensures x[j] == y[j] {
    }
  }

  lemma AddNone<K, V>(m: map<K, set<V>>, v: V)
    ensures AddAll(m, {}, v) == m
  {
    forall k | k in m ensures AddAll(m, {}, v)[k] == m[k] {
      assert At(m, k) + {} == m[k];
    }
    assert AddAll(m, {}, v).Keys == m.Keys;
  }

  /** Without empty sets, the sets decide the map. */
  lemma SameIndex<K, V>(m: map<K, set<V>>, n: map<K, set<V>>)
    requires NoEmpty(m) && NoEmpty(n)
    requires forall k :: At(m, k) == At(n, k)
    ensures m == n
  {
    forall k
      ensures k in m <==> k in n
      ensures k in m && k in n ==> m[k] == n[k]
    {
      assert At(m, k) == At(n, k);
    }
  }

  /** Keep of every set what `keep` accepts, and no empty set. */
  function Restrict<K, V>(m: map<K, set<V>>, keep: (K, V) -> bool): map<K, set<V>> {
    map k | k in m && Kept(m, k, keep) != {} :: Kept(m, k, keep)
  }

  function Kept<K, V>(m: map<K, set<V>>, k: K, keep: (K, V) -> bool): set<V> {
    set v | v in At(m, k) && keep(k, v)
  }

  lemma RestrictAt<K, V>(m: map<K, set<V>>, keep: (K, V) -> bool)
    ensures NoEmpty(Restrict(m, keep))
    ensures forall k :: At(Restrict(m, keep), k) == Kept(m, k, keep)
  {
    forall k ensures At(Restrict(m, keep), k) == Kept(m, k, keep) {
      if k !in m { assert Kept(m, k, keep) == {}; }
    }
  }

  // ---- State and handlers ----

  datatype State = State(
    byDevice: map<Device, set<Socket>>,
    holders: map<Socket, Holder>,
    subs: map<Socket, set<Device>>,
    observers: map<Device, set<Socket>>,
    visible: set<Device>,
    open: set<Socket>,
    views: map<Socket, set<Device>>)

  /** Some socket of the device is open, and it declared itself visible. */
  predicate Online(g: State, d: Device) {
    d in g.visible && exists s :: s in At(g.byDevice, d) && s in g.open
  }

  /** `attach`, and the holder recorded with it. */
  function Connect(g: State, s: Socket, h: Holder): State {
    g.(byDevice := Add(g.byDevice, h.device, s), holders := g.holders[s := h],
       open := g.open + {s}, views := g.views[s := {}])
  }

  /** What a client shows after the event `d` goes on line or off line. */
  function Told(view: set<Device>, d: Device, online: bool): set<Device> {
    if online then view + {d} else view - {d}
  }

  /** Tell the open observers of `d`. */
  function Announce(g: State, d: Device, online: bool): State {
    g.(views := map s | s in g.views ::
      if s in At(g.observers, d) && s in g.open then Told(g.views[s], d, online) else g.views[s])
  }

  /** The socket watches nothing any more. */
  function Unsubscribe(g: State, s: Socket): State {
    g.(subs := g.subs - {s}, observers := Restrict(g.observers, (d: Device, t: Socket) => t != s))
  }

  /** The device is no longer visible; its observers are told if it was. */
  function Hide(g: State, d: Device): State {
    if d in g.visible then Announce(g.(visible := g.visible - {d}), d, false) else g
  }

  /** `detach`: the socket is closed. */
  function Detach(g: State, d: Device, s: Socket): State {
    var g1 := Unsubscribe(g.(holders := g.holders - {s}, open := g.open - {s}), s);
    var g2 := g1.(byDevice := Remove(g1.byDevice, d, s));
    if d in g1.byDevice && d !in g2.byDevice then Hide(g2, d) else g2
  }

  function DeclareVisible(g: State, d: Device, visible: bool): State {
    if visible == (d in g.visible) then g
    else if visible then Announce(g.(visible := g.visible + {d}), d, true)
    else Hide(g, d)
  }

  /** `abonnerPresence` from its `await` on; `allowed` is what the authorisation returned. */
  function Subscribe(g: State, s: Socket, allowed: set<Device>): State {
    if s !in g.holders then g else
    var g1 := Unsubscribe(g, s);
    var g2 := if allowed == {} then g1 else Watch(g1, s, allowed);
    if s !in g2.open then g2
    else g2.(views := g2.views[s := Snapshot(g2, allowed)])
  }

  function Watch(g: State, s: Socket, allowed: set<Device>): State {
    g.(subs := g.subs[s := allowed],
       observers := AddAll(g.observers, allowed, s))
  }

  function Snapshot(g: State, allowed: set<Device>): set<Device> {
    set d | d in allowed && Online(g, d)
  }

  /** Devices a holder may no longer watch once accounts `a` and `b` are separated. */
  function Forbidden(h: Holder, a: User, b: User, ofA: set<Device>, ofB: set<Device>): set<Device> {
    if h.user == a then ofB else if h.user == b then ofA else {}
  }

  predicate MayWatch(g: State, s: Socket, d: Device, a: User, b: User, ofA: set<Device>, ofB: set<Device>) {
    s in g.holders ==> d !in Forbidden(g.holders[s], a, b, ofA, ofB)
  }

  /** `revoquerPresence` from its `await` on. */
  function Revoke(g: State, a: User, b: User, ofA: set<Device>, ofB: set<Device>): State {
    g.(subs := Restrict(g.subs, (s: Socket, d: Device) => MayWatch(g, s, d, a, b, ofA, ofB)),
       observers := Restrict(g.observers, (d: Device, s: Socket) => MayWatch(g, s, d, a, b, ofA, ofB)))
  }

  /** `deconnecterAppareil`: the sockets start closing; `detach` follows for each of them. */
  function Disconnect(g: State, d: Device): State {
    if d !in g.byDevice then g
    else Hide(g.(open := g.open - g.byDevice[d], byDevice := g.byDevice - {d}), d)
  }

  // ---- What every handler keeps ----

  ghost predicate Inverse(subs: map<Socket, set<Device>>, observers: map<Device, set<Socket>>) {
    forall s, d :: d in At(subs, s) <==> s in At(observers, d)
  }

  /** The two subscription maps say the same thing, without empty sets, of known sockets. */
  ghost predicate Indexed(g: State) {
    && Inverse(g.subs, g.observers)
    && NoEmpty(g.subs) && NoEmpty(g.observers)
    && g.subs.Keys <= g.holders.Keys
  }

  /** `byDevice` holds exactly the open sockets, under their own device. */
  ghost predicate Attached(g: State) {
    && NoEmpty(g.byDevice)
    && (forall d, s :: s in At(g.byDevice, d) ==> s in g.open && s in g.holders && g.holders[s].device == d)
    && (forall s :: s in g.open ==> s in g.holders && s in g.views && s in At(g.byDevice, g.holders[s].device))
    && g.visible <= g.byDevice.Keys
  }

  /** On its subscription, the client shows exactly the devices on line. */
  predicate Accurate(g: State, s: Socket)
    requires s in g.views
  {
    g.views[s] * At(g.subs, s) == Snapshot(g, At(g.subs, s))
  }

  ghost predicate Consistent(g: State) {
    && Indexed(g)
    && Attached(g)
    && (forall s :: s in g.open ==> Accurate(g, s))
  }

  // ---- The code ----

  class Gateway {
    var byDevice: map<Device, set<Socket>>
    var holders: map<Socket, Holder>
    var subs: map<Socket, set<Device>>
    var observers: map<Device, set<Socket>>
    var visible: set<Device>
    var open: set<Socket>
    var views: map<Socket, set<Device>>

    function Now(): State
      reads this
    {
      State(byDevice, holders, subs, observers, visible, open, views)
    }

    constructor ()
      ensures Now() == State(map[], map[], map[], map[], {}, {}, map[])
    {
      byDevice, holders, subs, observers, visible, open, views := map[], map[], map[], map[], {}, {}, map[];
    }

    method Attach(s: Socket, h: Holder)
      modifies this
      ensures Now() == Connect(old(Now()), s, h)
    {
      byDevice := byDevice[h.device := At(byDevice, h.device) + {s}];
      holders := holders[s := h];
      open, views := open + {s}, views[s := {}];
    }

    /** `desabonner`: only the sets of the socket's own targets are visited. */
    method Desubscribe(s: Socket)
      requires Inverse(subs, observers) && NoEmpty(observers)
      modifies this`subs, this`observers
      ensures Now() == Unsubscribe(old(Now()), s)
    {
      hide Remove, Restrict, PartlySwept;
      var before, targets := observers, At(subs, s);
      var todo := targets;
      SweepOne(before, before, s, {}, "");
      assert targets - todo == {};
      while todo != {}
        invariant unchanged(this`subs) && todo <= targets
        invariant PartlySwept(before, observers, s, targets - todo)
        decreases |todo|
      {
        var d :| d in todo;
        SweepOne(before, observers, s, targets - todo, d);
        assert targets - (todo - {d}) == (targets - todo) + {d};
        observers := Remove(observers, d, s);
        todo := todo - {d};
      }
      assert targets - todo == targets;
      Swept(before, observers, s, targets);
      subs := subs - {s};
    }

    /** `diffuserPresence`. */
    method Broadcast(d: Device, online: bool)
      requires forall s :: s in open ==> s in views
      modifies this`views
      ensures Now() == Announce(old(Now()), d, online)
    {
      var before := views;
      var todo := At(observers, d);
      while todo != {}
        invariant views.Keys == before.Keys && todo <= At(observers, d)
        invariant forall s :: s in before ==>
          views[s] == if s in At(observers, d) - todo && s in open then Told(before[s], d, online) else before[s]
        decreases |todo|
      {
        var s :| s in todo;
        if s in open {
          views := views[s := Told(views[s], d, online)];
        }
        todo := todo - {s};
      }
    }

    method Detached(d: Device, s: Socket)
      requires Inverse(subs, observers) && NoEmpty(observers)
      requires forall s :: s in open ==> s in views
      modifies this
      ensures Now() == Detach(old(Now()), d, s)
    {
      open, holders := open - {s}, holders - {s};
      Desubscribe(s);
      if d in byDevice {
        byDevice := Remove(byDevice, d, s);
        if d !in byDevice && d in visible {
          visible := visible - {d};
          Broadcast(d, false);
        }
      }
    }

    method DeclareVisibility(d: Device, accepts: bool)
      requires forall s :: s in open ==> s in views
      modifies this
      ensures Now() == DeclareVisible(old(Now()), d, accepts)
    {
      if accepts == (d in visible) {
        return;
      }
      visible := if accepts then visible + {d} else visible - {d};
      Broadcast(d, accepts);
    }

    method IsOnline(d: Device) returns (online: bool)
      ensures online == Online(Now(), d)
    {
      if d !in visible {
        return false;
      }
      var todo := At(byDevice, d);
      while todo != {}
        invariant todo <= At(byDevice, d)
        invariant forall s :: s in At(byDevice, d) - todo ==> s !in open
        decreases |todo|
      {
        var s :| s in todo;
        if s in open {
          return true;
        }
        todo := todo - {s};
      }
      return false;
    }

    method Answer(s: Socket, allowed: set<Device>)
      requires Inverse(subs, observers) && NoEmpty(observers)
      modifies this
      ensures Now() == Subscribe(old(Now()), s, allowed)
    {
      if s !in holders {
        return;
      }
      Desubscribe(s);
      if allowed != {} {
        WatchAll(s, allowed);
      }
      if s in open {
        var snapshot := TakeSnapshot(allowed);
        views := views[s := snapshot];
      }
    }

    method WatchAll(s: Socket, allowed: set<Device>)
      modifies this`subs, this`observers
      ensures Now() == Watch(old(Now()), s, allowed)
    {
      hide Add, AddAll;
      var before := observers;
      subs := subs[s := allowed];
      var todo := allowed;
      AddNone(before, s);
      assert allowed - todo == {};
      while todo != {}
        invariant todo <= allowed && subs == old(subs)[s := allowed]
        invariant observers == AddAll(before, allowed - todo, s)
        decreases |todo|
      {
        var d :| d in todo;
        AddAllStep(before, allowed - todo, d, s);
        assert allowed - (todo - {d}) == (allowed - todo) + {d};
        observers := Add(observers, d, s);
        todo := todo - {d};
      }
      assert allowed - todo == allowed;
    }

    method TakeSnapshot(allowed: set<Device>) returns (online: set<Device>)
      ensures online == Snapshot(Now(), allowed)
    {
      online := {};
      var todo := allowed;
      while todo != {}
        invariant todo <= allowed
        invariant online == Snapshot(Now(), allowed - todo)
        decreases |todo|
      {
        var d :| d in todo;
        var shown := IsOnline(d);
        assert Snapshot(Now(), allowed - (todo - {d})) == online + if Online(Now(), d) then {d} else {};
        if shown {
          online := online + {d};
        }
        todo := todo - {d};
      }
      assert allowed - todo == allowed;
    }

    method Revoked(a: User, b: User, ofA: set<Device>, ofB: set<Device>)
      requires Indexed(Now())
      modifies this`subs, this`observers
      ensures Now() == Revoke(old(Now()), a, b, ofA, ofB)
    {
      ghost var before := Now();
      var todo := holders.Keys;
      while todo != {}
        invariant todo <= holders.Keys && Indexed(Now())
        invariant forall s, d :: d in At(subs, s) <==>
          d in At(before.subs, s) && (s in todo || MayWatch(before, s, d, a, b, ofA, ofB))
        decreases |todo|
      {
        var s :| s in todo;
        Cut(s, Forbidden(holders[s], a, b, ofA, ofB));
        todo := todo - {s};
      }
      RevokedExactly(before, subs, observers, a, b, ofA, ofB);
    }

    /** The inner loop of `revoquerPresence` for one socket. */
    method Cut(s: Socket, forbidden: set<Device>)
      requires Indexed(Now())
      modifies this`subs, this`observers
      ensures Indexed(Now())
      ensures forall t :: At(subs, t) == if t == s then old(At(subs, s)) - forbidden else old(At(subs, t))
    {
      hide Inverse, Remove, NoEmpty;
      if s !in subs {
        return;
      }
      ghost var before := subs;
      var targets := subs[s];
      assert before[s := targets] == before;
      var todo := forbidden;
      while todo != {}
        invariant todo <= forbidden && subs == before
        invariant forall d :: d in targets <==> d in before[s] && (d in forbidden ==> d in todo)
        invariant NoEmpty(observers)
        invariant Inverse(before[s := targets], observers)
        decreases |todo|
      {
        var d :| d in todo;
        if d in targets {
          RemovePair(before, observers, s, targets, d);
          targets := targets - {d};
          observers := Remove(observers, d, s);
        }
        todo := todo - {d};
      }
      assert targets == before[s] - forbidden;
      StoredAt(subs, observers, s, targets);
      subs := Stored(subs, s, targets);
    }

    method Disconnected(d: Device)
      requires forall s :: s in open ==> s in views
      modifies this
      ensures Now() == Disconnect(old(Now()), d)
    {
      if d !in byDevice {
        return;
      }
      var todo := byDevice[d];
      while todo != {}
        invariant d in byDevice && todo <= byDevice[d]
        invariant open == old(open) - (byDevice[d] - todo)
        invariant unchanged(this`byDevice) && unchanged(this`holders) && unchanged(this`subs)
        invariant unchanged(this`visible) && unchanged(this`observers) && unchanged(this`views)
        decreases |todo|
      {
        var s :| s in todo;
        open := open - {s};
        todo := todo - {s};
      }
      byDevice := byDevice - {d};
      if d in visible {
        visible := visible - {d};
        Broadcast(d, false);
      }
    }
  }

  /** The socket has been taken out of the sets of the devices in `done`. */
  ghost predicate PartlySwept(before: map<Device, set<Socket>>, observers: map<Device, set<Socket>>, s: Socket, done: set<Device>) {
    NoEmpty(observers) && forall d :: At(observers, d) == if d in done then At(before, d) - {s} else At(before, d)
  }

  lemma SweepOne(before: map<Device, set<Socket>>, observers: map<Device, set<Socket>>, s: Socket, done: set<Device>, d: Device)
    requires NoEmpty(before)
    ensures PartlySwept(before, before, s, {})
    ensures PartlySwept(before, observers, s, done) ==> PartlySwept(before, Remove(observers, d, s), s, done + {d})
  {
    hide Remove;
    if NoEmpty(observers) { RemoveAt(observers, d, s); }
  }

  /** Visiting the sets that hold the socket sweeps it out of all of them. */
  lemma Swept(before: map<Device, set<Socket>>, observers: map<Device, set<Socket>>, s: Socket, targets: set<Device>)
    requires NoEmpty(before) && PartlySwept(before, observers, s, targets)
    requires forall d :: s in At(before, d) ==> d in targets
    ensures observers == Restrict(before, (d: Device, t: Socket) => t != s)
  {
    hide NoEmpty, Restrict;
    var keep := (d: Device, t: Socket) => t != s;
    RestrictAt(before, keep);
    forall d ensures At(observers, d) == At(Restrict(before, keep), d) {
      assert Kept(before, d, keep) == At(before, d) - {s};
    }
    SameIndex(observers, Restrict(before, keep));
  }

  lemma RemovePair(subs: map<Socket, set<Device>>, observers: map<Device, set<Socket>>,
                   s: Socket, targets: set<Device>, d: Device)
    requires Inverse(subs[s := targets], observers) && NoEmpty(observers)
    ensures Inverse(subs[s := targets - {d}], Remove(observers, d, s)) && NoEmpty(Remove(observers, d, s))
  {
    hide Remove, NoEmpty;
    RemoveAt(observers, d, s);
    forall t, e ensures e in At(subs[s := targets - {d}], t) <==> t in At(Remove(observers, d, s), e) {
      assert e in At(subs[s := targets], t) <==> t in At(observers, e);
    }
  }

  /** Storing no empty set, the socket ends with `targets`. */
  function Stored(subs: map<Socket, set<Device>>, s: Socket, targets: set<Device>): map<Socket, set<Device>> {
    if targets == {} then subs - {s} else subs[s := targets]
  }

  lemma StoredAt(subs: map<Socket, set<Device>>, observers: map<Device, set<Socket>>, s: Socket, targets: set<Device>)
    requires NoEmpty(subs) && Inverse(subs[s := targets], observers)
    ensures NoEmpty(Stored(subs, s, targets)) && Inverse(Stored(subs, s, targets), observers)
    ensures forall t :: At(Stored(subs, s, targets), t) == if t == s then targets else At(subs, t)
  {
    forall t ensures At(Stored(subs, s, targets), t) == At(subs[s := targets], t) {
    }
  }

  /** Cutting socket by socket amounts to filtering both maps at once. */
  lemma RevokedExactly(g: State, subs: map<Socket, set<Device>>, observers: map<Device, set<Socket>>,
                       a: User, b: User, ofA: set<Device>, ofB: set<Device>)
    requires Indexed(g) && NoEmpty(subs) && NoEmpty(observers) && Inverse(subs, observers)
    requires forall s, d :: d in At(subs, s) <==> d in At(g.subs, s) && MayWatch(g, s, d, a, b, ofA, ofB)
    ensures g.(subs := subs, observers := observers) == Revoke(g, a, b, ofA, ofB)
  {
    hide MayWatch;
    var keep := (s: Socket, d: Device) => MayWatch(g, s, d, a, b, ofA, ofB);
    var keep' := (d: Device, s: Socket) => MayWatch(g, s, d, a, b, ofA, ofB);
    RestrictAt(g.subs, keep);
    RestrictAt(g.observers, keep');
    SameIndex(subs, Restrict(g.subs, keep));
    forall d ensures At(observers, d) == At(Restrict(g.observers, keep'), d) {
      forall s ensures s in At(observers, d) <==> s in Kept(g.observers, d, keep') {
        assert s in At(observers, d) <==> d in At(subs, s);
        assert s in At(g.observers, d) <==> d in At(g.subs, s);
      }
    }
    SameIndex(observers, Restrict(g.observers, keep'));
    assert Revoke(g, a, b, ofA, ofB) == g.(subs := Restrict(g.subs, keep), observers := Restrict(g.observers, keep'));
  }
}
