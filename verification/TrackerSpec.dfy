// The fake object tracker (testing/fixture.go) on values: what it stores, what it sends to
// watchers, and the list+watch contract between the two.
module TrackerSpec {
  import opened Wrappers

  datatype GVR = GVR(group: Text, version: Text, resource: Text)

  datatype NamespacedName = NamespacedName(namespace: Text, name: Text)

  // What meta.Accessor sees of an object, the rest of it, and whether it is a Status object that
  // reports a failure.
  datatype Value = Value(namespace: Text, name: Text, content: nat, failedStatus: bool)
  {
    function Name(): NamespacedName {
      NamespacedName(namespace, name)
    }
  }

  datatype Event = Added(value: Value) | Modified(value: Value) | Deleted(value: Value)

  datatype Error = BadRequest | AlreadyExists | NotFound | StatusFailure

  type Objects = map<NamespacedName, Value>

  // A watcher is known by its number; seats[id] says what it watches and holds what it was sent.
  datatype Seat = Seat(gvr: GVR, namespace: Text, log: seq<Event>)

  datatype Tracker = Tracker(
    objects: map<GVR, Objects>,
    watchers: map<GVR, map<Text, seq<nat>>>,
    seats: seq<Seat>)

  const EmptyTracker := Tracker(map[], map[], [])

  // The namespace that stands for all namespaces, and for no namespace.
  const NamespaceAll := Text("")

  function ObjectsOf(t: Tracker, gvr: GVR): Objects {
    if gvr in t.objects then t.objects[gvr] else map[]
  }

  function WatchersAt(watchers: map<GVR, map<Text, seq<nat>>>, gvr: GVR, ns: Text): seq<nat> {
    if gvr in watchers && ns in watchers[gvr] then watchers[gvr][ns] else []
  }

  // getWatches
  function GetWatches(watchers: map<GVR, map<Text, seq<nat>>>, gvr: GVR, ns: Text): seq<nat> {
    WatchersAt(watchers, gvr, ns) + if ns != NamespaceAll then WatchersAt(watchers, gvr, NamespaceAll) else []
  }

  function Send(seats: seq<Seat>, ids: seq<nat>, e: Event): (r: seq<Seat>)
    ensures |r| == |seats|
    decreases |ids|
  {
    if ids == [] then seats
    else
      var id := ids[0];
      Send(if id < |seats| then seats[id := seats[id].(log := seats[id].log + [e])] else seats, ids[1..], e)
  }

  function WatchOp(t: Tracker, gvr: GVR, ns: Text): Tracker {
    var byNamespace := if gvr in t.watchers then t.watchers[gvr] else map[];
    var here := if ns in byNamespace then byNamespace[ns] else [];
    var id: nat := |t.seats|;
    t.(watchers := t.watchers[gvr := byNamespace[ns := here + [id]]],
       seats := t.seats + [Seat(gvr, ns, [])])
  }

  // The object as it is stored: a missing namespace is filled in from the request.
  function Placed(v: Value, ns: Text): Value {
    if v.namespace == Text("") then v.(namespace := ns) else v
  }

  // add, which Create and Update share.
  function AddOp(t: Tracker, gvr: GVR, v: Value, ns: Text, replaceExisting: bool): (Tracker, Option<Error>) {
    var obj := Placed(v, ns);
    if ns != obj.namespace then (t, Some(BadRequest))
    else
      var objs := ObjectsOf(t, gvr);
      var t1 := t.(objects := t.objects[gvr := objs]);
      var name := obj.Name();
      if name in objs then
        if replaceExisting then
          (t1.(objects := t.objects[gvr := objs[name := obj]],
               seats := Send(t.seats, GetWatches(t.watchers, gvr, ns), Modified(obj))), None)
        else (t1, Some(AlreadyExists))
      else if replaceExisting then (t1, Some(NotFound))
      else
        (t1.(objects := t.objects[gvr := objs[name := obj]],
             seats := Send(t.seats, GetWatches(t.watchers, gvr, ns), Added(obj))), None)
  }

  function DeleteOp(t: Tracker, gvr: GVR, ns: Text, name: Text): (Tracker, Option<Error>) {
    var key := NamespacedName(ns, name);
    if key !in ObjectsOf(t, gvr) then (t, Some(NotFound))
    else
      var obj := t.objects[gvr][key];
      (t.(objects := t.objects[gvr := t.objects[gvr] - {key}],
          seats := Send(t.seats, GetWatches(t.watchers, gvr, ns), Deleted(obj))), None)
  }

  function GetOp(t: Tracker, gvr: GVR, ns: Text, name: Text): Result<Value, Error> {
    var key := NamespacedName(ns, name);
    if key !in ObjectsOf(t, gvr) then Err(NotFound)
    else
      var v := ObjectsOf(t, gvr)[key];
      if v.failedStatus then Err(StatusFailure) else Ok(v)
  }

  // ---- Runs ----

  datatype Op =
    | Create(gvr: GVR, value: Value, ns: Text)
    | Update(gvr: GVR, value: Value, ns: Text)
    | Delete(gvr: GVR, ns: Text, name: Text)
    | Watch(gvr: GVR, ns: Text)

  function Step(t: Tracker, op: Op): Tracker {
    match op
    case Create(gvr, v, ns) => AddOp(t, gvr, v, ns, false).0
    case Update(gvr, v, ns) => AddOp(t, gvr, v, ns, true).0
    case Delete(gvr, ns, name) => DeleteOp(t, gvr, ns, name).0
    case Watch(gvr, ns) => WatchOp(t, gvr, ns)
  }

  function Run(t: Tracker, ops: seq<Op>): Tracker
    decreases |ops|
  {
    if ops == [] then t else Run(Step(t, ops[0]), ops[1..])
  }

  // ---- What a client may rely on ----

  // The part of a resource that a namespace shows.
  function Visible(m: Objects, ns: Text): Objects {
    map n | n in m && (ns == NamespaceAll || m[n].namespace == ns) :: m[n]
  }

  // A client's copy after one event; None if the event makes no sense for the copy.
  function ReplayOne(m: Objects, e: Event): Option<Objects> {
    match e
    case Added(v) => if v.Name() !in m then Some(m[v.Name() := v]) else None
    case Modified(v) => if v.Name() in m then Some(m[v.Name() := v]) else None
    case Deleted(v) => if v.Name() in m && m[v.Name()] == v then Some(m - {v.Name()}) else None
  }

  function Replay(m: Objects, log: seq<Event>): Option<Objects>
    decreases |log|
  {
    if log == [] then Some(m)
    else match ReplayOne(m, log[0]) case None => None case Some(m1) => Replay(m1, log[1..])
  }

  ghost predicate Interested(s: Seat, gvr: GVR, ns: Text) {
    s.gvr == gvr && (s.namespace == ns || s.namespace == NamespaceAll)
  }

  // Objects are filed under their own names.
  ghost predicate Filed(m: Objects) {
    forall n :: n in m ==> m[n].Name() == n
  }

  // A watcher list holds exactly the watchers seated there, each once.
  ghost predicate Seated(t: Tracker, g: GVR, ns: Text) {
    && Distinct(WatchersAt(t.watchers, g, ns))
    && forall id: nat :: id in WatchersAt(t.watchers, g, ns) <==>
         id < |t.seats| && t.seats[id].gvr == g && t.seats[id].namespace == ns
  }

  ghost predicate Inv(t: Tracker) {
    && (forall g :: Filed(ObjectsOf(t, g)))
    && (forall g, ns :: Seated(t, g, ns))
  }

  // getWatches lists every interested watcher exactly once.
  lemma GetWatchesExact(t: Tracker, gvr: GVR, ns: Text)
    requires Inv(t)
    ensures Distinct(GetWatches(t.watchers, gvr, ns))
    ensures forall id: nat ::
              id in GetWatches(t.watchers, gvr, ns) <==> id < |t.seats| && Interested(t.seats[id], gvr, ns)
  {
    var a, b := WatchersAt(t.watchers, gvr, ns), WatchersAt(t.watchers, gvr, NamespaceAll);
    assert Seated(t, gvr, ns) && Seated(t, gvr, NamespaceAll);
    if ns != NamespaceAll {
      forall i, j | 0 <= i < j < |a + b| ensures (a + b)[i] != (a + b)[j] {
        if i < |a| <= j { assert (a + b)[i] in a && (a + b)[j] in b; }
      }
      assert forall id: nat :: id in a + b <==> id in a || id in b;
    } else {
      assert a + [] == a;
    }
  }

  // Sending to distinct watchers gives each of them the event once and nobody else anything.
  lemma {:induction false} SendExact(seats: seq<Seat>, ids: seq<nat>, e: Event)
    requires Distinct(ids)
    ensures forall id :: 0 <= id < |seats| ==>
              Send(seats, ids, e)[id] == if id in ids then seats[id].(log := seats[id].log + [e]) else seats[id]
    decreases |ids|
  {
    if ids != [] {
      var id0 := ids[0];
      var s1 := if id0 < |seats| then seats[id0 := seats[id0].(log := seats[id0].log + [e])] else seats;
      SendExact(s1, ids[1..], e);
      assert forall id :: id in ids <==> id == id0 || id in ids[1..];
      assert id0 !in ids[1..];
    }
  }

  // What one operation does to the objects of every resource and to every watcher.
  ghost predicate Broadcast(t: Tracker, u: Tracker, gvr: GVR, ns: Text, e: Event) {
    && |u.seats| == |t.seats|
    && e.value.namespace == ns
    && (forall id :: 0 <= id < |t.seats| ==>
          u.seats[id]
          == if Interested(t.seats[id], gvr, ns) then t.seats[id].(log := t.seats[id].log + [e]) else t.seats[id])
    && ReplayOne(ObjectsOf(t, gvr), e) == Some(ObjectsOf(u, gvr))
    && (forall g :: g != gvr ==> ObjectsOf(u, g) == ObjectsOf(t, g))
  }

  // The operation did not change any object and sent nothing.
  ghost predicate Silent(t: Tracker, u: Tracker) {
    && (forall g :: ObjectsOf(u, g) == ObjectsOf(t, g))
    && t.seats <= u.seats
  }

  lemma BroadcastFrom(t: Tracker, u: Tracker, gvr: GVR, ns: Text, e: Event)
    requires Inv(t) && u.watchers == t.watchers && u.seats == Send(t.seats, GetWatches(t.watchers, gvr, ns), e)
    requires e.value.namespace == ns
    requires ReplayOne(ObjectsOf(t, gvr), e).Some?
    requires u.objects == t.objects[gvr := ReplayOne(ObjectsOf(t, gvr), e).value]
    ensures Broadcast(t, u, gvr, ns, e) && Inv(u)
  {
    GetWatchesExact(t, gvr, ns);
    SendExact(t.seats, GetWatches(t.watchers, gvr, ns), e);
    SameSeating(t, u);
    assert Filed(ObjectsOf(t, gvr));
    forall g ensures Filed(ObjectsOf(u, g)) {
      if g != gvr { assert ObjectsOf(u, g) == ObjectsOf(t, g) && Filed(ObjectsOf(t, g)); }
    }
  }

  // What is sent to the watchers does not move them.
  lemma SameSeating(t: Tracker, u: Tracker)
    requires forall g, ns :: Seated(t, g, ns)
    requires u.watchers == t.watchers && |u.seats| == |t.seats|
    requires forall id :: 0 <= id < |t.seats| ==>
               u.seats[id].gvr == t.seats[id].gvr && u.seats[id].namespace == t.seats[id].namespace
    ensures forall g, ns :: Seated(u, g, ns)
  {
    forall g, ns ensures Seated(u, g, ns) {
      assert Seated(t, g, ns) && WatchersAt(u.watchers, g, ns) == WatchersAt(t.watchers, g, ns);
    }
  }

  // A successful change is announced by one event that fits the objects before it: an add of an
  // absent object, a modification of a present one, the deletion of the object as it was stored.
  lemma AddEffect(t: Tracker, gvr: GVR, v: Value, ns: Text, replaceExisting: bool)
    requires Inv(t)
    ensures var (u, err) := AddOp(t, gvr, v, ns, replaceExisting);
            && Inv(u)
            && (err.None? <==>
                  Placed(v, ns).namespace == ns && (Placed(v, ns).Name() in ObjectsOf(t, gvr) <==> replaceExisting))
            && (err.Some? ==> Silent(t, u))
            && (err.None? ==>
                  Broadcast(t, u, gvr, ns, if replaceExisting then Modified(Placed(v, ns)) else Added(Placed(v, ns))))
  {
    var (u, err) := AddOp(t, gvr, v, ns, replaceExisting);
    var obj := Placed(v, ns);
    if err.None? {
      BroadcastFrom(t, u, gvr, ns, if replaceExisting then Modified(obj) else Added(obj));
    } else {
      SameSeating(t, u);
      forall g ensures ObjectsOf(u, g) == ObjectsOf(t, g) {}
      forall g ensures Filed(ObjectsOf(u, g)) { assert Filed(ObjectsOf(t, g)); }
    }
  }

  lemma DeleteEffect(t: Tracker, gvr: GVR, ns: Text, name: Text)
    requires Inv(t)
    ensures var (u, err) := DeleteOp(t, gvr, ns, name);
            && Inv(u)
            && (err.None? <==> NamespacedName(ns, name) in ObjectsOf(t, gvr))
            && (err.Some? ==> u == t)
            && (err.None? ==> Broadcast(t, u, gvr, ns, Deleted(ObjectsOf(t, gvr)[NamespacedName(ns, name)])))
  {
    var (u, err) := DeleteOp(t, gvr, ns, name);
    if err.None? {
      BroadcastFrom(t, u, gvr, ns, Deleted(t.objects[gvr][NamespacedName(ns, name)]));
    }
  }

  lemma WatchEffect(t: Tracker, gvr: GVR, ns: Text)
    requires Inv(t)
    ensures var u := WatchOp(t, gvr, ns);
            Inv(u) && Silent(t, u) && u.seats == t.seats + [Seat(gvr, ns, [])]
  {
    var u := WatchOp(t, gvr, ns);
    forall g, n ensures Seated(u, g, n) { WatchSeated(t, gvr, ns, g, n); }
    forall g ensures Filed(ObjectsOf(u, g)) { assert Filed(ObjectsOf(t, g)); }
  }

  lemma WatchSeated(t: Tracker, gvr: GVR, ns: Text, g: GVR, n: Text)
    requires Seated(t, g, n)
    ensures Seated(WatchOp(t, gvr, ns), g, n)
  {
    var u := WatchOp(t, gvr, ns);
    var id0: nat := |t.seats|;
    var before := WatchersAt(t.watchers, g, n);
    assert WatchersAt(u.watchers, g, n) == before + if g == gvr && n == ns then [id0] else [];
    forall i | 0 <= i < |before| ensures before[i] < id0 { assert before[i] in before; }
    forall id: nat ensures id in WatchersAt(u.watchers, g, n) <==>
      id < |u.seats| && u.seats[id].gvr == g && u.seats[id].namespace == n
    {
      assert id in WatchersAt(u.watchers, g, n) <==> id in before || (id == id0 && g == gvr && n == ns);
      if id < id0 { assert u.seats[id] == t.seats[id]; }
    }
  }

  // An event about a namespace moves what every interested watcher sees exactly as it moves the
  // objects, and leaves alone what the others see.
  lemma VisibleMoves(m: Objects, e: Event, ns: Text)
    requires ReplayOne(m, e).Some? && forall n :: n in m ==> m[n].Name() == n
    ensures var m1 := ReplayOne(m, e).value;
            if ns == NamespaceAll || ns == e.value.namespace
            then ReplayOne(Visible(m, ns), e) == Some(Visible(m1, ns))
            else Visible(m1, ns) == Visible(m, ns)
  {
    var m1, v, k := ReplayOne(m, e).value, Visible(m, ns), e.value.Name();
    if ns == NamespaceAll || ns == e.value.namespace {
      assert k in m ==> m[k].namespace == e.value.namespace;
      match e
      case Added(x) => assert v[k := x] == Visible(m1, ns);
      case Modified(x) => assert v[k := x] == Visible(m1, ns);
      case Deleted(x) => assert v - {k} == Visible(m1, ns);
    } else {
      assert k in m ==> m[k].namespace == e.value.namespace;
      assert k !in Visible(m1, ns) && k !in v;
    }
  }

  // What a watcher has been sent between two states.
  function Sent(t: Tracker, u: Tracker, id: nat): seq<Event>
    requires id < |t.seats| <= |u.seats| && t.seats[id].log <= u.seats[id].log
  {
    u.seats[id].log[|t.seats[id].log|..]
  }

  // A client that has the objects visible to its watcher in state t, and replays what the watcher
  // is sent until state u, has the objects visible in u.
  ghost predicate InStep(t: Tracker, u: Tracker, id: nat)
    requires id < |t.seats|
  {
    && |t.seats| <= |u.seats|
    && u.seats[id].gvr == t.seats[id].gvr && u.seats[id].namespace == t.seats[id].namespace
    && t.seats[id].log <= u.seats[id].log
    && Replay(Visible(ObjectsOf(t, t.seats[id].gvr), t.seats[id].namespace), Sent(t, u, id))
       == Some(Visible(ObjectsOf(u, t.seats[id].gvr), t.seats[id].namespace))
  }

  lemma SilentInStep(t: Tracker, u: Tracker, id: nat)
    requires Silent(t, u) && id < |t.seats|
    ensures InStep(t, u, id)
  {
    assert u.seats[id] == t.seats[id];
    assert Sent(t, u, id) == [];
  }

  lemma BroadcastInStep(t: Tracker, u: Tracker, gvr: GVR, ns: Text, e: Event, id: nat)
    requires Inv(t) && Broadcast(t, u, gvr, ns, e) && id < |t.seats|
    ensures InStep(t, u, id)
  {
    var s := t.seats[id];
    if s.gvr == gvr {
      assert Filed(ObjectsOf(t, gvr));
      VisibleMoves(ObjectsOf(t, gvr), e, s.namespace);
    }
    if Interested(s, gvr, ns) {
      assert Sent(t, u, id) == [e] && [e][1..] == [];
      var m1 := ReplayOne(Visible(ObjectsOf(t, gvr), s.namespace), e).value;
      assert Replay(m1, []) == Some(m1);
    } else {
      assert Sent(t, u, id) == [];
    }
  }

  lemma StepInStep(t: Tracker, op: Op, id: nat)
    requires Inv(t) && id < |t.seats|
    ensures Inv(Step(t, op)) && InStep(t, Step(t, op), id)
  {
    var u := Step(t, op);
    match op
    case Create(gvr, v, ns) =>
      AddEffect(t, gvr, v, ns, false);
      if AddOp(t, gvr, v, ns, false).1.None? { BroadcastInStep(t, u, gvr, ns, Added(Placed(v, ns)), id); }
      else { SilentInStep(t, u, id); }
    case Update(gvr, v, ns) =>
      AddEffect(t, gvr, v, ns, true);
      if AddOp(t, gvr, v, ns, true).1.None? { BroadcastInStep(t, u, gvr, ns, Modified(Placed(v, ns)), id); }
      else { SilentInStep(t, u, id); }
    case Delete(gvr, ns, name) =>
      DeleteEffect(t, gvr, ns, name);
      if DeleteOp(t, gvr, ns, name).1.None? {
        BroadcastInStep(t, u, gvr, ns, Deleted(ObjectsOf(t, gvr)[NamespacedName(ns, name)]), id);
      } else { SilentInStep(t, u, id); }
    case Watch(gvr, ns) =>
      WatchEffect(t, gvr, ns);
      SilentInStep(t, u, id);
  }

  lemma {:induction false} ReplayAppend(m: Objects, a: seq<Event>, b: seq<Event>)
    ensures Replay(m, a + b) == if Replay(m, a).Some? then Replay(Replay(m, a).value, b) else None
    decreases |a|
  {
    if a == [] {
      assert a + b == b;
    } else {
      assert (a + b)[1..] == a[1..] + b;
      var r := ReplayOne(m, a[0]);
      if r.Some? { ReplayAppend(r.value, a[1..], b); }
    }
  }

  lemma InStepTransitive(t: Tracker, m: Tracker, u: Tracker, id: nat)
    requires id < |t.seats| && InStep(t, m, id) && InStep(m, u, id)
    ensures InStep(t, u, id)
  {
    assert Sent(t, u, id) == Sent(t, m, id) + Sent(m, u, id);
    ReplayAppend(Visible(ObjectsOf(t, t.seats[id].gvr), t.seats[id].namespace), Sent(t, m, id), Sent(m, u, id));
  }

  lemma {:induction false} RunInStep(t: Tracker, ops: seq<Op>, id: nat)
    requires Inv(t) && id < |t.seats|
    ensures Inv(Run(t, ops)) && InStep(t, Run(t, ops), id)
    decreases |ops|
  {
    if ops == [] {
      SilentInStep(t, t, id);
    } else {
      var m := Step(t, ops[0]);
      StepInStep(t, ops[0], id);
      RunInStep(m, ops[1..], id);
      InStepTransitive(t, m, Run(t, ops), id);
    }
  }

  // List and watch: start a watch, take the list at that moment, and apply whatever the watcher is
  // sent. After any run of operations the result is exactly the list of the moment, for a single
  // namespace and for all of them.
  lemma ListWatch(t: Tracker, gvr: GVR, ns: Text, ops: seq<Op>)
    requires Inv(t)
    ensures var id, w := |t.seats|, WatchOp(t, gvr, ns);
            var u := Run(w, ops);
            && id < |u.seats|
            && Replay(Visible(ObjectsOf(t, gvr), ns), u.seats[id].log) == Some(Visible(ObjectsOf(u, gvr), ns))
  {
    WatchEffect(t, gvr, ns);
    RunInStep(WatchOp(t, gvr, ns), ops, |t.seats|);
    var u := Run(WatchOp(t, gvr, ns), ops);
    assert u.seats[|t.seats|].log == Sent(WatchOp(t, gvr, ns), u, |t.seats|);
  }

  lemma EmptyTrackerInv()
    ensures Inv(EmptyTracker)
  {
  }

  lemma StepInv(t: Tracker, op: Op)
    requires Inv(t)
    ensures Inv(Step(t, op))
  {
    match op
    case Create(gvr, v, ns) => AddEffect(t, gvr, v, ns, false);
    case Update(gvr, v, ns) => AddEffect(t, gvr, v, ns, true);
    case Delete(gvr, ns, name) => DeleteEffect(t, gvr, ns, name);
    case Watch(gvr, ns) => WatchEffect(t, gvr, ns);
  }

  lemma {:induction false} RunInv(t: Tracker, ops: seq<Op>)
    requires Inv(t)
    ensures Inv(Run(t, ops))
    decreases |ops|
  {
    if ops != [] {
      StepInv(t, ops[0]);
      RunInv(Step(t, ops[0]), ops[1..]);
    }
  }

  // ---- Reading back ----

  // An object of this namespace and name is stored.
  ghost predicate Holds(t: Tracker, gvr: GVR, ns: Text, name: Text, v: Value) {
    v.namespace == ns && v.name == name && exists n :: n in ObjectsOf(t, gvr) && ObjectsOf(t, gvr)[n] == v
  }

  // Get finds exactly the stored object with the given namespace and name, of which there is at most
  // one. It answers NotFound if there is none and an error for a failed status, and nothing else.
  lemma GetFinds(t: Tracker, gvr: GVR, ns: Text, name: Text)
    requires Inv(t)
    ensures var r := GetOp(t, gvr, ns, name);
            && (r == Err(NotFound) <==> forall v :: !Holds(t, gvr, ns, name, v))
            && (forall v :: Holds(t, gvr, ns, name, v) ==> r == if v.failedStatus then Err(StatusFailure) else Ok(v))
            && (r.Ok? ==> Holds(t, gvr, ns, name, r.value))
  {
    assert Filed(ObjectsOf(t, gvr));
    var key := NamespacedName(ns, name);
    if key in ObjectsOf(t, gvr) { assert Holds(t, gvr, ns, name, ObjectsOf(t, gvr)[key]); }
  }

  // What is visible in a namespace, or in all of them, is what Get finds there.
  lemma GetAgreesWithList(t: Tracker, gvr: GVR, ns: Text, v: Value)
    requires Inv(t) && !v.failedStatus
    ensures GetOp(t, gvr, v.namespace, v.name) == Ok(v) && (ns == Text("") || ns == v.namespace)
            <==> v.Name() in Visible(ObjectsOf(t, gvr), ns) && Visible(ObjectsOf(t, gvr), ns)[v.Name()] == v
  {
  }

  // What Create and Update answer and what a Get of the same object finds afterwards. The namespace is
  // that of the request, and an object that names another one is a bad request; Create needs the name
  // to be free, Update needs it taken. Whatever else is stored is as before.
  lemma WriteThenRead(t: Tracker, gvr: GVR, v: Value, ns: Text, replaceExisting: bool)
    requires Inv(t)
    ensures var (u, err) := AddOp(t, gvr, v, ns, replaceExisting);
            var taken := GetOp(t, gvr, ns, v.name) != Err(NotFound);
            var wrong := v.namespace != Text("") && v.namespace != ns;
            && (err == Some(BadRequest) <==> wrong)
            && (err == Some(AlreadyExists) <==> !wrong && !replaceExisting && taken)
            && (err == Some(NotFound) <==> !wrong && replaceExisting && !taken)
            && (err.None? <==> !wrong && (taken <==> replaceExisting))
            && (err.Some? ==> forall g, n, m :: GetOp(u, g, n, m) == GetOp(t, g, n, m))
            && (err.None? ==>
                  && (forall g, n, m :: (g, n, m) != (gvr, ns, v.name) ==> GetOp(u, g, n, m) == GetOp(t, g, n, m))
                  && GetOp(u, gvr, ns, v.name)
                     == if v.failedStatus then Err(StatusFailure) else Ok(Value(ns, v.name, v.content, false)))
  {
    AddEffect(t, gvr, v, ns, replaceExisting);
  }

  // Delete answers NotFound exactly where Get does, and afterwards Get does.
  lemma DeleteThenRead(t: Tracker, gvr: GVR, ns: Text, name: Text)
    requires Inv(t)
    ensures var (u, err) := DeleteOp(t, gvr, ns, name);
            && err == (if GetOp(t, gvr, ns, name) == Err(NotFound) then Some(NotFound) else None)
            && GetOp(u, gvr, ns, name) == Err(NotFound)
            && (forall g, n, m :: (g, n, m) != (gvr, ns, name) ==> GetOp(u, g, n, m) == GetOp(t, g, n, m))
  {
    DeleteEffect(t, gvr, ns, name);
  }

  // So after every run Get finds exactly what is stored.
  lemma GetAfterRun(ops: seq<Op>, gvr: GVR, ns: Text, name: Text)
    ensures var t := Run(EmptyTracker, ops);
            var r := GetOp(t, gvr, ns, name);
            && (r == Err(NotFound) <==> forall v :: !Holds(t, gvr, ns, name, v))
            && (forall v :: Holds(t, gvr, ns, name, v) ==> r == if v.failedStatus then Err(StatusFailure) else Ok(v))
  {
    EmptyTrackerInv();
    RunInv(EmptyTracker, ops);
    GetFinds(Run(EmptyTracker, ops), gvr, ns, name);
  }
}
