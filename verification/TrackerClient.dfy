// A client of the fake object tracker, on values. The heap in FakeTracker is proved to behave as if
// there were no references at all: as described here.
module TrackerClient {
  import opened Wrappers
  import opened TrackerSpec
  import opened TrackerList

  // What a client can do: make objects, overwrite any object it has, call the tracker with objects it
  // has, and take the next event out of a channel. Numbers refer to the objects and watchers it has,
  // in the order it got them.
  datatype ClientAction =
    | Make(value: Value)
    | Scribble(i: nat, value: Value)
    | CallAdd(gvr: GVR, i: nat, ns: Text, replaceExisting: bool)
    | CallDelete(gvr: GVR, ns: Text, name: Text)
    | CallWatch(gvr: GVR, ns: Text)
    | CallGet(gvr: GVR, ns: Text, name: Text)
    | CallList(gvr: GVR, ns: Text)
    | Receive(i: nat)

  // mine is what the objects of the client hold, seats numbers its watchers and heard is what it has
  // received from each of them.
  datatype Side = Side(tracker: Tracker, mine: seq<Value>, seats: seq<nat>, heard: seq<seq<Event>>)

  // The one listing of the visible objects.
  ghost function Listing(m: Objects, ns: Text): seq<Value> {
    if exists res :: IsListing(m, ns, res) then var res :| IsListing(m, ns, res); res else []
  }

  lemma ListingIs(m: Objects, ns: Text, res: seq<Value>)
    requires IsListing(m, ns, res)
    ensures Listing(m, ns) == res
  {
    ListingUnique(m, ns, Listing(m, ns), res);
  }

  // The tracker operations that an action amounts to: none, unless it is one of the three calls that
  // change the tracker.
  function OpsOf(s: Side, a: ClientAction): seq<Op> {
    match a
    case CallAdd(gvr, i, ns, replaceExisting) =>
      if i >= |s.mine| then []
      else if replaceExisting then [Update(gvr, s.mine[i], ns)]
      else [Create(gvr, s.mine[i], ns)]
    case CallDelete(gvr, ns, name) => [Delete(gvr, ns, name)]
    case CallWatch(gvr, ns) => [Watch(gvr, ns)]
    case _ => []
  }

  // There is an event in the channel that the client has not received.
  predicate Waiting(s: Side, i: nat) {
    i < |s.seats| && i < |s.heard| && s.seats[i] < |s.tracker.seats|
    && |s.heard[i]| < |s.tracker.seats[s.seats[i]].log|
  }

  function NextEvent(s: Side, i: nat): Event
    requires Waiting(s, i)
  {
    s.tracker.seats[s.seats[i]].log[|s.heard[i]|]
  }

  // One action. What it does to the tracker, to the objects and to the channels is separate.
  ghost function Act(s: Side, a: ClientAction): Side {
    match a
    case Make(v) => s.(mine := s.mine + [v])
    case Scribble(i, v) => if i < |s.mine| then s.(mine := s.mine[i := v]) else s
    case CallAdd(gvr, i, ns, replaceExisting) =>
      if i < |s.mine| then s.(tracker := AddOp(s.tracker, gvr, s.mine[i], ns, replaceExisting).0) else s
    case CallDelete(gvr, ns, name) => s.(tracker := DeleteOp(s.tracker, gvr, ns, name).0)
    case CallWatch(gvr, ns) =>
      s.(tracker := WatchOp(s.tracker, gvr, ns), seats := s.seats + [|s.tracker.seats|], heard := s.heard + [[]])
    case CallGet(gvr, ns, name) =>
      var r := GetOp(s.tracker, gvr, ns, name);
      if r.Ok? then s.(mine := s.mine + [r.value]) else s
    case CallList(gvr, ns) => s.(mine := s.mine + Listing(ObjectsOf(s.tracker, gvr), ns))
    case Receive(i) =>
      if Waiting(s, i) then
        s.(mine := s.mine + [NextEvent(s, i).value], heard := s.heard[i := s.heard[i] + [NextEvent(s, i)]])
      else s
  }

  ghost function ActAll(s: Side, actions: seq<ClientAction>): Side
    decreases |actions|
  {
    if actions == [] then s else ActAll(Act(s, actions[0]), actions[1..])
  }

  ghost function OpsOfAll(s: Side, actions: seq<ClientAction>): seq<Op>
    decreases |actions|
  {
    if actions == [] then [] else OpsOf(s, actions[0]) + OpsOfAll(Act(s, actions[0]), actions[1..])
  }

  lemma {:induction false} RunAppend(t: Tracker, a: seq<Op>, b: seq<Op>)
    ensures Run(t, a + b) == Run(Run(t, a), b)
    decreases |a|
  {
    if a == [] {
      assert a + b == b;
    } else {
      assert (a + b)[1..] == a[1..] + b;
      RunAppend(Step(t, a[0]), a[1..], b);
    }
  }

  lemma ActOps(s: Side, a: ClientAction)
    ensures Act(s, a).tracker == Run(s.tracker, OpsOf(s, a))
  {
    if OpsOf(s, a) != [] {
      var op := OpsOf(s, a)[0];
      assert OpsOf(s, a)[1..] == [];
      assert Run(Step(s.tracker, op), []) == Step(s.tracker, op);
    }
  }

  // Whatever a client does, the tracker ends up exactly as its create, update, delete and watch calls
  // alone say, each with what its argument held at the moment of the call.
  lemma {:induction false} OnlyCallsCount(s: Side, actions: seq<ClientAction>)
    ensures ActAll(s, actions).tracker == Run(s.tracker, OpsOfAll(s, actions))
    decreases |actions|
  {
    if actions != [] {
      ActOps(s, actions[0]);
      OnlyCallsCount(Act(s, actions[0]), actions[1..]);
      RunAppend(s.tracker, OpsOf(s, actions[0]), OpsOfAll(Act(s, actions[0]), actions[1..]));
    }
  }

  // What a client has received is the beginning of what was sent.
  ghost predicate Sane(s: Side) {
    && Inv(s.tracker)
    && |s.heard| == |s.seats|
    && forall i :: 0 <= i < |s.seats| ==>
         s.seats[i] < |s.tracker.seats| && s.heard[i] <= s.tracker.seats[s.seats[i]].log
  }

  // Nothing that happens later takes a watcher away or changes what it has received already.
  ghost predicate Later(s: Side, u: Side) {
    && s.seats <= u.seats && |s.heard| <= |u.heard|
    && forall i :: 0 <= i < |s.seats| && i < |s.heard| ==> s.heard[i] <= u.heard[i]
  }

  lemma ActSane(s: Side, a: ClientAction)
    requires Sane(s)
    ensures Sane(Act(s, a)) && Later(s, Act(s, a))
  {
    var t := Act(s, a);
    ActOps(s, a);
    RunInv(s.tracker, OpsOf(s, a));
    forall i | 0 <= i < |s.seats|
      ensures s.seats[i] < |t.tracker.seats| && s.tracker.seats[s.seats[i]].log <= t.tracker.seats[s.seats[i]].log
    {
      RunInStep(s.tracker, OpsOf(s, a), s.seats[i]);
    }
  }

  lemma {:induction false} ActAllSane(s: Side, actions: seq<ClientAction>)
    requires Sane(s)
    ensures Sane(ActAll(s, actions)) && Later(s, ActAll(s, actions))
    decreases |actions|
  {
    if actions != [] {
      ActSane(s, actions[0]);
      ActAllSane(Act(s, actions[0]), actions[1..]);
    }
  }

  // List and watch as a client meets them. It starts a watch when certain objects are visible. What it
  // receives from the channel always applies to those, and whenever the channel is empty the result
  // is exactly what is visible then, whatever happened in between.
  lemma WatchingIsEnough(s: Side, gvr: GVR, ns: Text, actions: seq<ClientAction>)
    requires Sane(s)
    ensures var i, before := |s.seats|, Visible(ObjectsOf(s.tracker, gvr), ns);
            var u := ActAll(Act(s, CallWatch(gvr, ns)), actions);
            && i < |u.seats| == |u.heard|
            && Replay(before, u.heard[i]).Some?
            && (!Waiting(u, i) ==> Replay(before, u.heard[i]) == Some(Visible(ObjectsOf(u.tracker, gvr), ns)))
  {
    var w := Act(s, CallWatch(gvr, ns));
    var u := ActAll(w, actions);
    ActSane(s, CallWatch(gvr, ns));
    ActAllSane(w, actions);
    OnlyCallsCount(w, actions);
    ListWatch(s.tracker, gvr, ns, OpsOfAll(w, actions));
    var i, before := |s.seats|, Visible(ObjectsOf(s.tracker, gvr), ns);
    assert u.seats[i] == w.seats[i] == |s.tracker.seats|;
    var log := u.tracker.seats[u.seats[i]].log;
    assert log == u.heard[i] + log[|u.heard[i]|..];
    ReplayAppend(before, u.heard[i], log[|u.heard[i]|..]);
  }

  // In particular so for every session that begins with an empty tracker and nothing in hand.
  lemma FromTheStart(before: seq<ClientAction>, gvr: GVR, ns: Text, after: seq<ClientAction>)
    ensures var s := ActAll(Side(EmptyTracker, [], [], []), before);
            var i, u := |s.seats|, ActAll(Act(s, CallWatch(gvr, ns)), after);
            && i < |u.seats| == |u.heard|
            && (!Waiting(u, i) ==>
                  Replay(Visible(ObjectsOf(s.tracker, gvr), ns), u.heard[i])
                  == Some(Visible(ObjectsOf(u.tracker, gvr), ns)))
  {
    EmptyTrackerInv();
    ActAllSane(Side(EmptyTracker, [], [], []), before);
    WatchingIsEnough(ActAll(Side(EmptyTracker, [], [], []), before), gvr, ns, after);
  }
}
