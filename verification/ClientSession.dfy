// Isolation of the fake object tracker, over whole sessions: a client that holds references to
// objects, and overwrites them as it likes, cannot be told from one that only has their values.
module ClientSession {
  import opened Wrappers
  import opened TrackerSpec
  import opened TrackerClient
  import opened FakeTracker

  // Everything outside the tracker. mine are the objects it can reach.
  class Client {
    const tracker: ObjectTracker
    var mine: seq<Obj>
    var held: seq<FakeWatcher>
    // What the events it received said when it received them.
    var heard: seq<seq<Event>>
    // The numbers of its watchers.
    ghost var seats: seq<nat>

    ghost function State(): Side
      reads this, mine, tracker
    {
      Side(tracker.Model(), Vals(mine), seats, heard)
    }

    // An object within reach is neither stored nor in a channel, and has one name.
    ghost predicate Apart()
      reads this`mine, tracker`stored, tracker`unread
    {
      Distinct(mine) && forall i :: 0 <= i < |mine| ==> mine[i] !in tracker.stored && mine[i] !in tracker.unread
    }

    ghost predicate Listens(i: nat)
      requires i < |held| && i < |seats| && i < |heard|
      reads this`held, this`seats, this`heard, tracker`roster, tracker`seats, held[i]
    {
      && seats[i] < |tracker.roster| && seats[i] < |tracker.seats|
      && held[i] == tracker.roster[seats[i]]
      && held[i].received == |heard[i]|
    }

    ghost predicate Listening()
      reads this`held, this`seats, this`heard, tracker`roster, tracker`seats, held
    {
      && |held| == |seats| == |heard|
      && Distinct(seats)
      && forall i: nat :: i < |held| ==> Listens(i)
    }

    ghost predicate Valid()
      reads this, held, tracker, tracker.stored, tracker.unread, tracker.crew
    {
      tracker.Valid() && Apart() && Listening()
    }

    constructor (tracker: ObjectTracker)
      requires tracker.Valid()
      ensures Valid() && this.tracker == tracker && mine == []
      ensures State() == Side(tracker.Model(), [], [], [])
    {
      this.tracker := tracker;
      mine, held, heard, seats := [], [], [], [];
    }

    // The client gets objects that nobody else has.
    method Gain(os: seq<Obj>)
      requires Valid() && Distinct(os)
      requires forall i :: 0 <= i < |os| ==> os[i] !in mine && os[i] !in tracker.stored && os[i] !in tracker.unread
      modifies this`mine
      ensures Valid() && mine == old(mine) + os
      ensures State() == old(State()).(mine := old(State()).mine + Vals(os))
    {
      ghost var before := mine;
      mine := mine + os;
      assert Vals(mine) == Vals(before) + Vals(os);
      forall i, j | 0 <= i < j < |mine| ensures mine[i] != mine[j] {
        if j >= |before| { assert mine[j] == os[j - |before|]; }
        if i >= |before| { assert mine[i] == os[i - |before|]; } else { assert mine[i] in before; }
      }
    }

    method GainOne(o: Obj)
      requires Valid() && o !in mine && o !in tracker.stored && o !in tracker.unread
      modifies this`mine
      ensures Valid() && mine == old(mine) + [o]
      ensures State() == old(State()).(mine := old(State()).mine + [o.Val()])
    {
      assert Vals([o]) == [o.Val()];
      Gain([o]);
    }

    method DoMake(v: Value)
      requires Valid()
      modifies this`mine
      ensures Valid() && State() == TrackerClient.Act(old(State()), Make(v))
      ensures forall o :: o in mine ==> o in old(mine) || fresh(o)
    {
      var o := new Obj(v);
      GainOne(o);
    }

    method DoScribble(i: nat, v: Value)
      requires Valid() && i < |mine|
      modifies mine
      ensures Valid() && State() == TrackerClient.Act(old(State()), Scribble(i, v))
    {
      mine[i].Scribble(v);
      assert Vals(mine) == old(Vals(mine))[i := v];
    }

    method DoAdd(gvr: GVR, i: nat, ns: Text, replaceExisting: bool)
      requires Valid() && i < |mine|
      modifies tracker, tracker.crew`events
      ensures Valid() && State() == TrackerClient.Act(old(State()), CallAdd(gvr, i, ns, replaceExisting))
      ensures forall o :: o in tracker.unread ==> o in old(tracker.unread) || fresh(o)
      ensures tracker.crew == old(tracker.crew)
    {
      var err := tracker.Add(gvr, mine[i], ns, replaceExisting);
      forall j: nat | j < |held| ensures Listens(j) { assert old(Listens(j)); }
      assert Vals(mine) == old(Vals(mine));
    }

    method DoDelete(gvr: GVR, ns: Text, name: Text)
      requires Valid()
      modifies tracker, tracker.crew`events
      ensures Valid() && State() == TrackerClient.Act(old(State()), CallDelete(gvr, ns, name))
      ensures forall o :: o in tracker.unread ==> o in old(tracker.unread) || fresh(o)
      ensures tracker.crew == old(tracker.crew)
    {
      var err := tracker.Delete(gvr, ns, name);
      forall j: nat | j < |held| ensures Listens(j) { assert old(Listens(j)); }
      assert Vals(mine) == old(Vals(mine));
    }

    method DoWatch(gvr: GVR, ns: Text)
      requires Valid()
      modifies this`held, this`heard, this`seats, tracker
      ensures Valid() && State() == TrackerClient.Act(old(State()), CallWatch(gvr, ns))
      ensures tracker.unread == old(tracker.unread)
      ensures forall w :: w in tracker.crew ==> w in old(tracker.crew) || fresh(w)
    {
      ghost var id := |tracker.roster|;
      assert id == |tracker.seats|;
      forall j: nat | j < |seats| ensures seats[j] < id { assert Listens(j); }
      var w := tracker.Watch(gvr, ns);
      forall j: nat | j < |held| ensures Listens(j) { assert old(Listens(j)); }
      Hold(w);
    }

    // The client gets the watcher that was made last.
    method Hold(w: FakeWatcher)
      requires Valid() && tracker.roster != [] && w == tracker.roster[|tracker.roster| - 1] && w.received == 0
      requires forall j :: 0 <= j < |seats| ==> seats[j] < |tracker.roster| - 1
      modifies this`held, this`heard, this`seats
      ensures Valid() && mine == old(mine)
      ensures State() == old(State()).(seats := old(seats) + [|tracker.roster| - 1], heard := old(heard) + [[]])
    {
      held := held + [w];
      heard := heard + [[]];
      seats := seats + [|tracker.roster| - 1];
      forall j: nat | j < |held| ensures Listens(j) { if j < |old(held)| { assert old(Listens(j)); } }
    }

    method DoGet(gvr: GVR, ns: Text, name: Text)
      requires Valid()
      modifies this`mine
      ensures Valid() && State() == TrackerClient.Act(old(State()), CallGet(gvr, ns, name))
      ensures forall o :: o in mine ==> o in old(mine) || fresh(o)
    {
      var r := tracker.Get(gvr, ns, name);
      if r.Ok? { GainOne(r.value); }
    }

    method DoList(gvr: GVR, ns: Text)
      requires Valid()
      modifies this`mine
      ensures Valid() && State() == TrackerClient.Act(old(State()), CallList(gvr, ns))
      ensures forall o :: o in mine ==> o in old(mine) || fresh(o)
    {
      var res := tracker.List(gvr, ns);
      ListingIs(ObjectsOf(tracker.Model(), gvr), ns, Vals(res));
      forall i | 0 <= i < |res| ensures fresh(res[i]) { assert res[i] in res; }
      Gain(res);
    }

    method DoReceive(i: nat)
      requires Valid()
      modifies this`mine, this`heard, tracker`unread, tracker`place, tracker.crew`received
      ensures Valid() && State() == TrackerClient.Act(old(State()), Receive(i))
      ensures forall o :: o in mine ==> o in old(mine) || o in old(tracker.unread)
      ensures tracker.unread <= old(tracker.unread)
    {
      if i < |held| {
        InTheChannel(i);
        if held[i].received < |held[i].events| { TakeNext(i); }
      }
    }

    // Whether something is waiting can be seen from the channel.
    lemma InTheChannel(i: nat)
      requires Valid() && i < |held|
      ensures Waiting(State(), i) <==> held[i].received < |held[i].events|
    {
      assert Listens(i) && tracker.Served(seats[i]);
    }

    method TakeNext(i: nat)
      requires Valid() && i < |held| && Waiting(State(), i) && held[i].received < |held[i].events|
      modifies this`mine, this`heard, tracker`unread, tracker`place, tracker.crew`received
      ensures Valid() && State() == TrackerClient.Act(old(State()), Receive(i))
      ensures forall o :: o in mine ==> o in old(mine) || o in old(tracker.unread)
      ensures tracker.unread <= old(tracker.unread)
    {
      assert Listens(i);
      var e := tracker.Receive(seats[i], held[i]);
      heard := heard[i := heard[i] + [e.Says()]];
      forall j: nat | j < |held| ensures Listens(j) { assert old(Listens(j)) && (j != i ==> seats[j] != seats[i]); }
      GainOne(e.obj);
    }

    method Act(a: ClientAction)
      requires Valid()
      modifies this, tracker, tracker.crew, mine
      ensures Valid() && State() == TrackerClient.Act(old(State()), a)
      ensures forall o :: o in mine ==> o in old(mine) || o in old(tracker.unread) || fresh(o)
      ensures forall o :: o in tracker.unread ==> o in old(tracker.unread) || fresh(o)
      ensures forall w :: w in tracker.crew ==> w in old(tracker.crew) || fresh(w)
    {
      match a
      case Make(v) => DoMake(v);
      case Scribble(i, v) => if i < |mine| { DoScribble(i, v); }
      case CallAdd(gvr, i, ns, replaceExisting) => if i < |mine| { DoAdd(gvr, i, ns, replaceExisting); }
      case CallDelete(gvr, ns, name) => DoDelete(gvr, ns, name);
      case CallWatch(gvr, ns) => DoWatch(gvr, ns);
      case CallGet(gvr, ns, name) => DoGet(gvr, ns, name);
      case CallList(gvr, ns) => DoList(gvr, ns);
      case Receive(i) => DoReceive(i);
    }

    // The theorem about the heap: after any session, everything is as the client on values has it. No
    // object is shared between the tracker, a channel and the client, or overwritten behind anyone's
    // back.
    method Session(actions: seq<ClientAction>)
      requires Valid()
      modifies this, tracker, tracker.crew, tracker.unread, mine
      ensures Valid() && State() == ActAll(old(State()), actions)
    {
      var i := 0;
      assert actions[0..] == actions;
      while i < |actions|
        invariant 0 <= i <= |actions|
        invariant Valid() && ActAll(State(), actions[i..]) == ActAll(old(State()), actions)
        invariant forall o :: o in mine ==> o in old(mine) || o in old(tracker.unread) || fresh(o)
        invariant forall o :: o in tracker.unread ==> o in old(tracker.unread) || fresh(o)
        invariant forall w :: w in tracker.crew ==> w in old(tracker.crew) || fresh(w)
      {
        assert actions[i..][0] == actions[i] && actions[i..][1..] == actions[i + 1..];
        Act(actions[i]);
        i := i + 1;
      }
    }
  }
}
