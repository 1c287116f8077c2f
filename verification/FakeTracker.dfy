// The fake object tracker (testing/fixture.go) on the heap. Objects are references, so what is
// proved here besides the behaviour is that no object is ever stored and on its way to a client, and
// that an event waiting in a channel says what it was meant to say.
module FakeTracker {
  import opened Wrappers
  import opened TrackerSpec
  import opened TrackerList

  class Obj {
    var namespace: Text
    var name: Text
    var content: nat
    var failedStatus: bool

    function Val(): Value
      reads this
    {
      Value(namespace, name, content, failedStatus)
    }

    constructor (v: Value)
      ensures Val() == v
    {
      namespace, name, content, failedStatus := v.namespace, v.name, v.content, v.failedStatus;
    }

    // What any holder of the reference may do.
    method Scribble(v: Value)
      modifies this
      ensures Val() == v
    {
      namespace, name, content, failedStatus := v.namespace, v.name, v.content, v.failedStatus;
    }

    method DeepCopyObject() returns (copy: Obj)
      ensures fresh(copy) && copy.Val() == Val()
    {
      copy := new Obj(Value(namespace, name, content, failedStatus));
    }
  }

  // What travels through a watcher's channel.
  datatype WatchEvent = AddedObj(obj: Obj) | ModifiedObj(obj: Obj) | DeletedObj(obj: Obj)
  {
    // What the event says at the moment; whoever holds the object can change it later.
    function Says(): Event
      reads obj
    {
      match this
      case AddedObj(_) => Added(obj.Val())
      case ModifiedObj(_) => Modified(obj.Val())
      case DeletedObj(_) => Deleted(obj.Val())
    }
  }

  // events is everything ever sent to the watcher; its channel holds those not yet received.
  class FakeWatcher {
    var events: seq<WatchEvent>
    var received: nat

    constructor ()
      ensures events == [] && received == 0
    {
      events := [];
      received := 0;
    }

    method Push(e: WatchEvent)
      modifies this`events
      ensures events == old(events) + [e]
    {
      events := events + [e];
    }

    method Receive() returns (e: WatchEvent)
      requires received < |events|
      modifies this`received
      ensures e == events[old(received)] && received == old(received) + 1
    {
      e := events[received];
      received := received + 1;
    }
  }

  // ---- filterByNamespace ----

  ghost function Vals(s: seq<Obj>): (r: seq<Value>)
    reads s
    ensures |r| == |s| && forall i :: 0 <= i < |s| ==> r[i] == s[i].Val()
  {
    seq(|s|, i requires 0 <= i < |s| reads s => s[i].Val())
  }

  // One step of an insertion sort: an element into an already sorted list.
  method InsertSorted(s: seq<Obj>, o: Obj) returns (r: seq<Obj>)
    requires Sorted(Vals(s)) && forall i :: 0 <= i < |s| ==> s[i].Val().Name() != o.Val().Name()
    ensures Sorted(Vals(r))
    ensures forall x :: x in r <==> x in s || x == o
  {
    var i := 0;
    while i < |s| && Less(s[i].Val(), o.Val())
      invariant 0 <= i <= |s|
      invariant forall j :: 0 <= j < i ==> Less(s[j].Val(), o.Val())
    {
      i := i + 1;
    }
    forall j | i <= j < |s| ensures Less(o.Val(), s[j].Val()) {
      LessTotal(s[i].Val(), o.Val());
      if j > i {
        assert Less(Vals(s)[i], Vals(s)[j]);
        LessTransitive(o.Val(), s[i].Val(), s[j].Val());
      }
    }
    r := s[..i] + [o] + s[i..];
    assert forall x :: x in s <==> x in s[..i] || x in s[i..] by { assert s == s[..i] + s[i..]; }
    forall j, k | 0 <= j < k < |r| ensures Less(Vals(r)[j], Vals(r)[k]) {
      if j < i < k { assert Less(Vals(s)[j], Vals(s)[k - 1]); }
      else if k < i { assert Less(Vals(s)[j], Vals(s)[k]); }
      else if j > i { assert Less(Vals(s)[j - 1], Vals(s)[k - 1]); }
    }
  }

  // The map is iterated in any order and the result is sorted.
  method FilterByNamespace(objs: map<NamespacedName, Obj>, ns: Text, ghost m: Objects) returns (res: seq<Obj>)
    requires objs.Keys == m.Keys && Filed(m) && forall n :: n in objs ==> objs[n].Val() == m[n]
    ensures IsListing(m, ns, Vals(res))
  {
    res := [];
    var rest := objs.Keys;
    while rest != {}
      invariant rest <= objs.Keys
      invariant Sorted(Vals(res))
      invariant forall o :: o in res ==> o.Val().Name() in m && o.Val().Name() !in rest && o.Val() == m[o.Val().Name()]
      invariant forall o :: o in res ==> ns == NamespaceAll || o.Val().namespace == ns
      invariant forall n :: n in objs && n !in rest && (ns == NamespaceAll || m[n].namespace == ns) ==> objs[n] in res
    {
      var n :| n in rest;
      rest := rest - {n};
      var obj := objs[n];
      if ns == NamespaceAll || obj.namespace == ns {
        forall i | 0 <= i < |res| ensures res[i].Val().Name() != n { assert res[i] in res; }
        res := InsertSorted(res, obj);
      }
    }
    forall v ensures v in Vals(res) <==> v.Name() in Visible(m, ns) && Visible(m, ns)[v.Name()] == v {
      if v in Vals(res) {
        var i :| 0 <= i < |res| && Vals(res)[i] == v;
        assert res[i] in res;
      }
      if v.Name() in Visible(m, ns) && Visible(m, ns)[v.Name()] == v {
        var i :| 0 <= i < |res| && res[i] == objs[v.Name()];
        assert Vals(res)[i] == v;
      }
    }
  }

  // ---- The tracker ----

  // Position index of the channel of watcher number seat.
  datatype Place = Place(seat: nat, index: nat)

  class ObjectTracker {
    var objects: map<GVR, map<NamespacedName, Obj>>
    var watchers: map<GVR, map<Text, seq<FakeWatcher>>>

    // All watchers by number and as a set, and the values of objects and watchers and of what was sent.
    ghost var roster: seq<FakeWatcher>
    ghost var crew: set<FakeWatcher>
    ghost var vals: map<GVR, Objects>
    ghost var ids: map<GVR, map<Text, seq<nat>>>
    ghost var seats: seq<Seat>

    // stored includes every object the tracker holds, unread is every object in a channel. Each object
    // in a channel has one place there.
    ghost var stored: set<Obj>
    ghost var unread: set<Obj>
    ghost var place: map<Obj, Place>

    ghost function Model(): Tracker
      reads this`vals, this`ids, this`seats
    {
      Tracker(vals, ids, seats)
    }

    ghost predicate ObjectsAgree()
      reads this`objects, this`vals, this`stored, stored
    {
      && objects.Keys == vals.Keys
      && (forall g :: g in objects ==> objects[g].Keys == vals[g].Keys)
      && forall g, n :: g in objects && n in objects[g] ==> objects[g][n] in stored && objects[g][n].Val() == vals[g][n]
    }

    ghost predicate Resolves(numbers: seq<nat>, ws: seq<FakeWatcher>)
      reads this`roster
    {
      |numbers| == |ws| && forall i :: 0 <= i < |numbers| ==> numbers[i] < |roster| && ws[i] == roster[numbers[i]]
    }

    ghost predicate WatchersAgree()
      reads this`watchers, this`ids, this`roster
    {
      && watchers.Keys == ids.Keys
      && (forall g :: g in watchers ==> watchers[g].Keys == ids[g].Keys)
      && forall g, ns :: g in watchers && ns in watchers[g] ==> Resolves(ids[g][ns], watchers[g][ns])
    }

    // Event k of watcher id waits in the channel and says what the watcher was meant to be told.
    ghost predicate Waits(id: nat, k: nat)
      requires id < |roster| && id < |seats|
      reads this`roster, this`seats, this`unread, this`place, roster[id], unread
    {
      && k < |roster[id].events| && k < |seats[id].log|
      && roster[id].events[k].obj in unread
      && roster[id].events[k].obj in place && place[roster[id].events[k].obj] == Place(id, k)
      && roster[id].events[k].Says() == seats[id].log[k]
    }

    // Watcher id was sent as many events as it should have been, and those it has not received yet
    // are in its channel.
    ghost predicate Served(id: nat)
      requires id < |roster| && id < |seats|
      reads this`roster, this`seats, this`unread, this`place, roster[id], unread
    {
      && roster[id].received <= |roster[id].events| == |seats[id].log|
      && forall k: nat :: roster[id].received <= k < |roster[id].events| ==> Waits(id, k)
    }

    ghost predicate Enrolled()
      reads this`roster, this`seats, this`crew
    {
      && |roster| == |seats|
      && (forall id :: 0 <= id < |roster| ==> roster[id] in crew)
      && (forall i, j :: 0 <= i < j < |roster| ==> roster[i] != roster[j])
    }

    ghost predicate ChannelsAgree()
      reads this`roster, this`seats, this`crew, this`unread, this`place, crew, unread
    {
      Enrolled() && forall id: nat :: id < |roster| ==> Served(id)
    }

    // The heap holds what the model says, and no object is both stored and on its way to a client.
    ghost predicate Agrees()
      reads this, stored, unread, crew
    {
      ObjectsAgree() && WatchersAgree() && ChannelsAgree() && stored !! unread
    }

    ghost predicate Valid()
      reads this, stored, unread, crew
    {
      Agrees() && Inv(Model())
    }

    constructor ()
      ensures Valid() && Model() == EmptyTracker && stored == {} && unread == {} && crew == {}
    {
      objects, watchers, roster, crew := map[], map[], [], {};
      vals, ids, seats := map[], map[], [];
      stored, unread, place := {}, {}, map[];
    }

    // Gives a new watcher the next number.
    ghost method Enroll(w: FakeWatcher, gvr: GVR, ns: Text)
      requires Agrees() && w !in crew && w.received == 0 && w.events == []
      modifies this`roster, this`seats, this`crew
      ensures Agrees() && roster == old(roster) + [w] && crew == old(crew) + {w}
      ensures seats == old(seats) + [Seat(gvr, ns, [])]
    {
      roster := roster + [w];
      crew := crew + {w};
      seats := seats + [Seat(gvr, ns, [])];
      forall id: nat | id < |roster| ensures Served(id) {
        if id < |old(roster)| {
          assert old(Served(id));
          forall k: nat | roster[id].received <= k < |roster[id].events| ensures Waits(id, k) {
            assert old(Waits(id, k));
          }
        }
      }
    }

    // Puts a watcher into the list of its resource and namespace.
    method Subscribe(w: FakeWatcher, ghost id: nat, gvr: GVR, ns: Text)
      requires Agrees() && id < |roster| && roster[id] == w
      modifies this`watchers, this`ids
      ensures Agrees()
      ensures var byNamespace := if gvr in old(ids) then old(ids)[gvr] else map[];
              var here := if ns in byNamespace then byNamespace[ns] else [];
              ids == old(ids)[gvr := byNamespace[ns := here + [id]]]
    {
      AppendWatcher(w, id, gvr, ns);
      assert ObjectsAgree() && ChannelsAgree();
    }

    method AppendWatcher(w: FakeWatcher, ghost id: nat, gvr: GVR, ns: Text)
      requires WatchersAgree() && id < |roster| && roster[id] == w
      modifies this`watchers, this`ids
      ensures WatchersAgree()
      ensures var byNamespace := if gvr in old(ids) then old(ids)[gvr] else map[];
              var here := if ns in byNamespace then byNamespace[ns] else [];
              ids == old(ids)[gvr := byNamespace[ns := here + [id]]]
    {
      var byNamespace := if gvr in watchers then watchers[gvr] else map[];
      var here := if ns in byNamespace then byNamespace[ns] else [];
      ghost var idsByNamespace := if gvr in ids then ids[gvr] else map[];
      ghost var idsHere := if ns in idsByNamespace then idsByNamespace[ns] else [];
      assert Resolves(idsHere + [id], here + [w]) by { assert Resolves(idsHere, here); }
      watchers := watchers[gvr := byNamespace[ns := here + [w]]];
      ids := ids[gvr := idsByNamespace[ns := idsHere + [id]]];
    }

    method Watch(gvr: GVR, ns: Text) returns (w: FakeWatcher)
      requires Valid()
      modifies this`watchers, this`roster, this`crew, this`ids, this`seats
      ensures Valid() && fresh(w) && w.events == [] && w.received == 0
      ensures Model() == WatchOp(old(Model()), gvr, ns)
      ensures roster == old(roster) + [w] && crew == old(crew) + {w}
    {
      WatchEffect(Model(), gvr, ns);
      w := new FakeWatcher();
      Enroll(w, gvr, ns);
      Subscribe(w, |roster| - 1, gvr, ns);
    }

    method GetWatches(gvr: GVR, ns: Text) returns (ws: seq<FakeWatcher>)
      requires WatchersAgree()
      ensures Resolves(TrackerSpec.GetWatches(ids, gvr, ns), ws)
    {
      ws := [];
      if gvr in watchers {
        if ns in watchers[gvr] { ws := ws + watchers[gvr][ns]; }
        if ns != NamespaceAll {
          if NamespaceAll in watchers[gvr] { ws := ws + watchers[gvr][NamespaceAll]; }
        }
      }
    }

    // The watcher gets an event with a copy of its own, which says what obj says now.
    method PushCopy(ghost id: nat, w: FakeWatcher, kind: EventKind, obj: Obj)
      requires Agrees() && id < |roster| && w == roster[id]
      modifies this`seats, this`unread, this`place, w`events
      ensures Agrees() && old(unread) <= unread && fresh(unread - old(unread))
      ensures seats == old(seats)[id := old(seats)[id].(log := old(seats)[id].log + [kind.Event(obj.Val())])]
    {
      var copy := obj.DeepCopyObject();
      SendTo(id, w, kind.Wrap(copy));
      assert ObjectsAgree() && WatchersAgree();
    }

    method SendTo(ghost id: nat, w: FakeWatcher, e: WatchEvent)
      requires ChannelsAgree() && id < |roster| && w == roster[id] && e.obj !in unread
      modifies this`seats, this`unread, this`place, w`events
      ensures ChannelsAgree() && unread == old(unread) + {e.obj}
      ensures seats == old(seats)[id := old(seats)[id].(log := old(seats)[id].log + [e.Says()])]
    {
      w.Push(e);
      seats := seats[id := seats[id].(log := seats[id].log + [e.Says()])];
      place := place[e.obj := Place(id, |w.events| - 1)];
      unread := unread + {e.obj};
      forall j: nat | j < |roster| ensures Served(j) {
        assert old(Served(j));
        forall k: nat | roster[j].received <= k < |roster[j].events| ensures Waits(j, k) {
          if k < |old(roster[j].events)| { assert old(Waits(j, k)); }
        }
      }
    }

    // Sending one event to a list of watchers.
    method NotifyAll(ws: seq<FakeWatcher>, kind: EventKind, obj: Obj, ghost numbers: seq<nat>)
      requires Agrees() && Resolves(numbers, ws)
      modifies this`seats, this`unread, this`place, crew`events
      ensures Agrees() && old(unread) <= unread && fresh(unread - old(unread))
      ensures seats == Send(old(seats), numbers, kind.Event(obj.Val()))
    {
      var i := 0;
      assert numbers[0..] == numbers;
      while i < |ws|
        invariant 0 <= i <= |ws|
        invariant Agrees() && old(unread) <= unread && fresh(unread - old(unread))
        invariant Send(old(seats), numbers, kind.Event(obj.Val())) == Send(seats, numbers[i..], kind.Event(obj.Val()))
      {
        assert numbers[i..][0] == numbers[i] && numbers[i..][1..] == numbers[i + 1..];
        PushCopy(numbers[i], ws[i], kind, obj);
        i := i + 1;
      }
    }

    method Notify(gvr: GVR, ns: Text, kind: EventKind, obj: Obj)
      requires Agrees()
      modifies this`seats, this`unread, this`place, crew`events
      ensures Agrees() && old(unread) <= unread && fresh(unread - old(unread))
      ensures seats == Send(old(seats), TrackerSpec.GetWatches(ids, gvr, ns), kind.Event(obj.Val()))
    {
      var ws := GetWatches(gvr, ns);
      NotifyAll(ws, kind, obj, TrackerSpec.GetWatches(ids, gvr, ns));
    }

    // The holder of a watcher takes the next event out of its channel. It is what the watcher was meant
    // to be told, whatever has happened since it was sent, and nobody else holds its object.
    method Receive(ghost id: nat, w: FakeWatcher) returns (e: WatchEvent)
      requires Agrees() && id < |roster| && w == roster[id] && w.received < |w.events|
      modifies this`unread, this`place, w`received
      ensures Agrees()
      ensures old(w.received) < |seats[id].log| && e.Says() == seats[id].log[old(w.received)]
      ensures w.received == old(w.received) + 1
      ensures e.obj in old(unread) && unread == old(unread) - {e.obj}
    {
      assert Served(id) && Waits(id, w.received);
      e := w.Receive();
      unread := unread - {e.obj};
      place := place - {e.obj};
      forall j: nat | j < |roster| ensures Served(j) {
        assert old(Served(j));
        forall k: nat | roster[j].received <= k < |roster[j].events| ensures Waits(j, k) {
          assert old(Waits(j, k));
        }
      }
    }

    method EnsureResource(gvr: GVR)
      requires Agrees()
      modifies this`objects, this`vals
      ensures Agrees() && gvr in objects
      ensures vals == old(vals)[gvr := ObjectsOf(old(Model()), gvr)]
    {
      if gvr !in objects {
        objects := objects[gvr := map[]];
        vals := vals[gvr := map[]];
      }
    }

    method StoreAt(gvr: GVR, name: NamespacedName, obj: Obj)
      requires Agrees() && gvr in objects && obj !in unread
      modifies this`objects, this`vals, this`stored
      ensures Agrees() && stored == old(stored) + {obj}
      ensures gvr in old(vals) && vals == old(vals)[gvr := old(vals)[gvr][name := obj.Val()]]
    {
      PutAt(gvr, name, obj);
      assert WatchersAgree() && ChannelsAgree();
    }

    method PutAt(gvr: GVR, name: NamespacedName, obj: Obj)
      requires ObjectsAgree() && gvr in objects
      modifies this`objects, this`vals, this`stored
      ensures ObjectsAgree() && stored == old(stored) + {obj}
      ensures gvr in old(vals) && vals == old(vals)[gvr := old(vals)[gvr][name := obj.Val()]]
    {
      var objs := objects[gvr][name := obj];
      vals := vals[gvr := vals[gvr][name := obj.Val()]];
      objects := objects[gvr := objs];
      stored := stored + {obj};
      forall g, n | g in objects && n in objects[g]
        ensures n in vals[g] && objects[g][n] in stored && objects[g][n].Val() == vals[g][n]
      {
        if g != gvr || n != name { assert objects[g][n] == old(objects)[g][n]; }
      }
    }

    method RemoveAt(gvr: GVR, name: NamespacedName)
      requires Agrees() && gvr in objects
      modifies this`objects, this`vals
      ensures Agrees()
      ensures gvr in old(vals) && vals == old(vals)[gvr := old(vals)[gvr] - {name}]
    {
      vals := vals[gvr := vals[gvr] - {name}];
      objects := objects[gvr := objects[gvr] - {name}];
    }

    // The branch of add that replaces an object: watchers are told first, then it is stored.
    method Overwrite(gvr: GVR, name: NamespacedName, obj: Obj, ns: Text)
      requires Agrees() && gvr in objects && obj !in unread
      modifies this`objects, this`vals, this`seats, this`stored, this`unread, this`place, crew`events
      ensures Agrees() && gvr in old(vals)
      ensures vals == old(vals)[gvr := old(vals)[gvr][name := obj.Val()]]
      ensures seats == Send(old(seats), TrackerSpec.GetWatches(ids, gvr, ns), Modified(obj.Val()))
      ensures old(stored) <= stored <= old(stored) + {obj}
      ensures old(unread) <= unread && fresh(unread - old(unread))
    {
      Notify(gvr, ns, ModifyEvent, obj);
      StoreAt(gvr, name, obj);
    }

    // The branch of add that stores a new object: it is stored first, then watchers are told.
    method Insert(gvr: GVR, name: NamespacedName, obj: Obj, ns: Text)
      requires Agrees() && gvr in objects && obj !in unread
      modifies this`objects, this`vals, this`seats, this`stored, this`unread, this`place, crew`events
      ensures Agrees() && gvr in old(vals)
      ensures vals == old(vals)[gvr := old(vals)[gvr][name := obj.Val()]]
      ensures seats == Send(old(seats), TrackerSpec.GetWatches(ids, gvr, ns), Added(obj.Val()))
      ensures old(stored) <= stored <= old(stored) + {obj}
      ensures old(unread) <= unread && fresh(unread - old(unread))
    {
      StoreAt(gvr, name, obj);
      Notify(gvr, ns, AddEvent, obj);
    }

    // add once the object has been copied and placed and there is a map to put it into.
    method AddPlaced(gvr: GVR, obj: Obj, ns: Text, replaceExisting: bool) returns (err: Option<Error>)
      requires Agrees() && gvr in objects && obj !in unread && obj.namespace == ns
      modifies this`objects, this`vals, this`seats, this`stored, this`unread, this`place, crew`events
      ensures Agrees()
      ensures (Model(), err) == AddOp(old(Model()), gvr, obj.Val(), ns, replaceExisting)
      ensures old(stored) <= stored <= old(stored) + {obj}
      ensures old(unread) <= unread && fresh(unread - old(unread))
    {
      assert vals == vals[gvr := vals[gvr]];
      var name := NamespacedName(obj.namespace, obj.name);
      if name in objects[gvr] {
        if replaceExisting {
          Overwrite(gvr, name, obj, ns);
          return None;
        }
        return Some(AlreadyExists);
      }
      if replaceExisting { return Some(NotFound); }
      Insert(gvr, name, obj, ns);
      err := None;
    }

    // The same for a resource that may be new.
    method AddAnywhere(gvr: GVR, obj: Obj, ns: Text, replaceExisting: bool) returns (err: Option<Error>)
      requires Agrees() && obj !in unread && obj.namespace == ns
      modifies this`objects, this`vals, this`seats, this`stored, this`unread, this`place, crew`events
      ensures Agrees()
      ensures (Model(), err) == AddOp(old(Model()), gvr, obj.Val(), ns, replaceExisting)
      ensures old(stored) <= stored <= old(stored) + {obj}
      ensures old(unread) <= unread && fresh(unread - old(unread))
    {
      EnsureHarmless(Model(), gvr, obj.Val(), ns, replaceExisting);
      EnsureResource(gvr);
      err := AddPlaced(gvr, obj, ns, replaceExisting);
    }

    // add, which Create and Update share. Its argument is copied before anything else.
    method Add(gvr: GVR, arg: Obj, ns: Text, replaceExisting: bool) returns (err: Option<Error>)
      requires Valid()
      modifies this`objects, this`vals, this`seats, this`stored, this`unread, this`place, crew`events
      ensures Valid()
      ensures (Model(), err) == AddOp(old(Model()), gvr, old(arg.Val()), ns, replaceExisting)
      ensures old(stored) <= stored && fresh(stored - old(stored))
      ensures old(unread) <= unread && fresh(unread - old(unread))
    {
      AddEffect(Model(), gvr, arg.Val(), ns, replaceExisting);
      var obj := CopyInto(arg, ns);
      if ns != obj.namespace { return Some(BadRequest); }
      err := AddAnywhere(gvr, obj, ns, replaceExisting);
    }

    method Remove(gvr: GVR, name: NamespacedName, ns: Text)
      requires Agrees() && gvr in objects && name in objects[gvr]
      modifies this`objects, this`vals, this`seats, this`unread, this`place, crew`events
      ensures Agrees() && gvr in old(vals) && name in old(vals)[gvr]
      ensures vals == old(vals)[gvr := old(vals)[gvr] - {name}]
      ensures seats == Send(old(seats), TrackerSpec.GetWatches(ids, gvr, ns), Deleted(old(vals)[gvr][name]))
      ensures old(unread) <= unread && fresh(unread - old(unread))
    {
      var obj := objects[gvr][name];
      RemoveAt(gvr, name);
      Notify(gvr, ns, DeleteEvent, obj);
    }

    method Delete(gvr: GVR, ns: Text, name: Text) returns (err: Option<Error>)
      requires Valid()
      modifies this`objects, this`vals, this`seats, this`unread, this`place, crew`events
      ensures Valid()
      ensures (Model(), err) == DeleteOp(old(Model()), gvr, ns, name)
      ensures old(unread) <= unread && fresh(unread - old(unread))
    {
      DeleteEffect(Model(), gvr, ns, name);
      if gvr !in objects { return Some(NotFound); }
      var key := NamespacedName(ns, name);
      if key !in objects[gvr] { return Some(NotFound); }
      Remove(gvr, key, ns);
      err := None;
    }

    method Get(gvr: GVR, ns: Text, name: Text) returns (r: Result<Obj, Error>)
      requires Valid()
      ensures match r
              case Ok(o) => fresh(o) && GetOp(Model(), gvr, ns, name) == Ok(o.Val())
              case Err(e) => GetOp(Model(), gvr, ns, name) == Err(e)
    {
      if gvr !in objects { return Err(NotFound); }
      var key := NamespacedName(ns, name);
      if key !in objects[gvr] { return Err(NotFound); }
      var obj := objects[gvr][key].DeepCopyObject();
      if obj.failedStatus { return Err(StatusFailure); }
      r := Ok(obj);
    }

    method List(gvr: GVR, ns: Text) returns (res: seq<Obj>)
      requires Valid()
      ensures forall o :: o in res ==> fresh(o)
      ensures Distinct(res)
      ensures IsListing(ObjectsOf(Model(), gvr), ns, Vals(res))
    {
      if gvr !in objects {
        assert ObjectsOf(Model(), gvr) == map[];
        return [];
      }
      assert Filed(ObjectsOf(Model(), gvr));
      var matching := FilterByNamespace(objects[gvr], ns, ObjectsOf(Model(), gvr));
      res := CopyAll(matching);
      assert Vals(res) == Vals(matching);
    }
  }

  // Making the map of a resource beforehand does not change what add does.
  lemma EnsureHarmless(t: Tracker, gvr: GVR, v: Value, ns: Text, replaceExisting: bool)
    requires Placed(v, ns).namespace == ns
    ensures AddOp(t.(objects := t.objects[gvr := ObjectsOf(t, gvr)]), gvr, v, ns, replaceExisting)
            == AddOp(t, gvr, v, ns, replaceExisting)
  {
    var objs := ObjectsOf(t, gvr);
    var m := t.objects[gvr := objs];
    assert m[gvr := objs] == m;
    var x := objs[Placed(v, ns).Name() := Placed(v, ns)];
    assert m[gvr := x] == t.objects[gvr := x];
  }

  // The copy of the argument of add, in the namespace of the request if it names none.
  method CopyInto(arg: Obj, ns: Text) returns (obj: Obj)
    ensures fresh(obj) && obj.Val() == Placed(arg.Val(), ns)
  {
    obj := arg.DeepCopyObject();
    if obj.namespace == Text("") { obj.namespace := ns; }
  }

  // The deep copy of a list object copies its items.
  method CopyAll(s: seq<Obj>) returns (r: seq<Obj>)
    ensures |r| == |s| && forall i :: 0 <= i < |s| ==> fresh(r[i]) && r[i].Val() == s[i].Val()
    ensures Distinct(r)
  {
    r := [];
    while |r| < |s|
      invariant |r| <= |s|
      invariant Distinct(r)
      invariant forall i :: 0 <= i < |r| ==> fresh(r[i]) && r[i].Val() == s[i].Val()
    {
      var copy := s[|r|].DeepCopyObject();
      r := r + [copy];
    }
  }

  datatype EventKind = AddEvent | ModifyEvent | DeleteEvent
  {
    function Wrap(o: Obj): WatchEvent {
      match this case AddEvent => AddedObj(o) case ModifyEvent => ModifiedObj(o) case DeleteEvent => DeletedObj(o)
    }

    function Event(v: Value): Event {
      match this case AddEvent => Added(v) case ModifyEvent => Modified(v) case DeleteEvent => Deleted(v)
    }
  }
}
