// Whole sessions of an informer on the heap: any sequence of producer calls and Pops, with the
// handler behind a filter or not, does what the moves of the specification say.
module InformerSession {
  import opened Wrappers
  import opened DeltaModel
  import opened FifoSpec
  import opened ProcessSpec
  import opened InformerSpec
  import opened InformerProof
  import opened InformerTheorems
  import opened InformerNotes
  import opened Controller

  // What may be called. The order in which Replace and Resync visit a map is not the caller's to choose.
  datatype Request =
    | DoAdd(item: Item)
    | DoUpdate(item: Item)
    | DoDelete(item: Item)
    | DoReplace(list: seq<Item>)
    | DoResync
    | DoClose
    | DoPop

  // The action is this call, in some order of visiting.
  predicate Fits(r: Request, a: Action) {
    match r
    case DoAdd(item) => a == Add(item)
    case DoUpdate(item) => a == Update(item)
    case DoDelete(item) => a == Delete(item)
    case DoReplace(list) => a.Replace? && a.list == list
    case DoResync => a.Resync?
    case DoClose => a == Close
    case DoPop => a == Pop(false)
  }

  // The actions are the calls, one after the other; a Pop of an empty queue, which waits or reports
  // that the queue is closed, is none.
  ghost predicate Plays(cfg: Config, s: Informer, calls: seq<Request>, acts: seq<Action>)
    decreases |calls|
  {
    if calls == [] then acts == []
    else
      var n := |calls| - 1;
      if calls[n].DoPop? && Moves(cfg, s, acts).fifo.queue == [] && Plays(cfg, s, calls[..n], acts) then true
      else acts != [] && Fits(calls[n], acts[|acts| - 1]) && Plays(cfg, s, calls[..n], acts[..|acts| - 1])
  }

  lemma {:induction false} MovesSnoc(cfg: Config, s: Informer, acts: seq<Action>, a: Action)
    ensures Moves(cfg, s, acts + [a]) == Move(cfg, Moves(cfg, s, acts), a)
    ensures AllAllowed(cfg, s, acts + [a]) <==> AllAllowed(cfg, s, acts) && Allowed(cfg, Moves(cfg, s, acts), a)
    decreases |acts|
  {
    if acts == [] {
      assert acts + [a] == [a] && [a][1..] == [];
      assert Moves(cfg, Move(cfg, s, a), []) == Move(cfg, s, a);
    } else {
      assert (acts + [a])[1..] == acts[1..] + [a];
      MovesSnoc(cfg, Move(cfg, s, acts[0]), acts[1..], a);
    }
  }

  // One producer call.
  method Produce(c: InformerController, r: Request) returns (ghost a: Action)
    requires c.Wired() && !r.DoPop?
    modifies c.fifo
    ensures c.Wired() && Fits(r, a)
    ensures Allowed(c.cfg, old(c.Model()), a) && c.Model() == Move(c.cfg, old(c.Model()), a)
  {
    match r
    case DoAdd(item) =>
      a := Add(item);
      var err := c.fifo.Add(item);
    case DoUpdate(item) =>
      a := Update(item);
      var err := c.fifo.Update(item);
    case DoDelete(item) =>
      a := Delete(item);
      var err := c.fifo.Delete(item);
    case DoReplace(list) =>
      var err;
      ghost var gq, gk;
      err, gq, gk := c.fifo.Replace(list);
      a := Replace(list, gq, gk);
    case DoResync =>
      var err;
      ghost var order;
      err, order := c.fifo.Resync();
      a := Resync(order);
    case DoClose =>
      a := Close;
      c.fifo.Close();
  }

  // One call.
  method Step(c: InformerController, r: Request) returns (ghost acts: seq<Action>)
    requires c.Wired()
    modifies c.fifo, c.clientState, c.handler, c.handler.handler
    ensures c.Wired()
    ensures r.DoPop? && old(c.fifo.queue) == [] ==> acts == [] && c.Model() == old(c.Model())
    ensures !(r.DoPop? && old(c.fifo.queue) == []) ==>
      && |acts| == 1 && Fits(r, acts[0])
      && Allowed(c.cfg, old(c.Model()), acts[0]) && c.Model() == Move(c.cfg, old(c.Model()), acts[0])
  {
    if r.DoPop? {
      if c.fifo.queue == [] { return []; }
      acts := [Pop(false)];
      var err := c.PopProcess();
    } else {
      ghost var a := Produce(c, r);
      acts := [a];
    }
  }

  // A session.
  method Session(c: InformerController, calls: seq<Request>) returns (ghost acts: seq<Action>)
    requires c.Wired()
    modifies c.fifo, c.clientState, c.handler, c.handler.handler
    ensures c.Wired() && c.Model() == Moves(c.cfg, old(c.Model()), acts)
    ensures AllAllowed(c.cfg, old(c.Model()), acts) && Plays(c.cfg, old(c.Model()), calls, acts)
    ensures c.handler.handler.trace == c.handler.Passed()
    ensures c.handler.filter != null ==>
      forall n :: n in c.handler.handler.trace ==> Passes(c.handler.filter.filterFunc, n)
  {
    ghost var start := c.Model();
    acts := [];
    var i := 0;
    assert calls[..0] == [];
    while i < |calls|
      invariant 0 <= i <= |calls|
      invariant c.Wired() && c.Model() == Moves(c.cfg, start, acts)
      invariant AllAllowed(c.cfg, start, acts) && Plays(c.cfg, start, calls[..i], acts)
    {
      ghost var more := Step(c, calls[i]);
      PlaysOn(c.cfg, start, calls, i, acts, more);
      acts := acts + more;
      i := i + 1;
    }
    assert calls[..i] == calls;
    if c.handler.filter != null { OnlyPassing(c.handler.filter.filterFunc, c.handler.trace); }
  }

  lemma PlaysOn(cfg: Config, s: Informer, calls: seq<Request>, i: nat, acts: seq<Action>, more: seq<Action>)
    requires i < |calls| && Plays(cfg, s, calls[..i], acts) && AllAllowed(cfg, s, acts)
    requires var t := Moves(cfg, s, acts);
             if calls[i].DoPop? && t.fifo.queue == [] then more == []
             else |more| == 1 && Fits(calls[i], more[0]) && Allowed(cfg, t, more[0])
    ensures Plays(cfg, s, calls[..i + 1], acts + more) && AllAllowed(cfg, s, acts + more)
    ensures Moves(cfg, s, acts + more)
            == if more == [] then Moves(cfg, s, acts) else Move(cfg, Moves(cfg, s, acts), more[0])
  {
    assert calls[..i + 1][..i] == calls[..i];
    if more == [] {
      assert acts + more == acts;
    } else {
      MovesSnoc(cfg, s, acts, more[0]);
      assert more == [more[0]] && (acts + more)[..|acts|] == acts;
    }
  }

  // An informer from its making on. With a filter that gives one answer for all items of a key, the
  // handler behind it can at the end rebuild exactly the part of the store that passes.
  method FilteredInformer(keyFunc: Object -> Option<Key>, transformer: Option<Item -> Option<Item>>,
                          filterFunc: Item -> bool, calls: seq<Request>) returns (c: InformerController)
    ensures c.Wired() && c.cfg == Config(keyFunc, transformer, true)
    ensures c.cfg.KeyPreserving() ==> Sound(c.cfg, c.Model())
    ensures c.handler.handler.trace == Filtered(filterFunc, c.Model().client.trace)
    ensures c.cfg.WellBehaved() && Consistent(c.cfg, filterFunc) ==>
      Replay(c.cfg, map[], c.handler.handler.trace) == Some(Submap(filterFunc, c.clientState.items))
  {
    var handler := new ResourceEventHandler(Some(filterFunc));
    c := new InformerController(keyFunc, transformer, handler);
    ghost var acts := Session(c, calls);
    if c.cfg.KeyPreserving() { EveryHistory(c.cfg, acts); }
    if c.cfg.WellBehaved() && Consistent(c.cfg, filterFunc) {
      FilterIsSafe(c.cfg, filterFunc);
      var trace := c.Model().client.trace;
      assert FaithfulAt(c.cfg, filterFunc, map[], trace, |trace|);
      assert trace[..|trace|] == trace;
      assert Submap(filterFunc, map[]) == map[];
    }
  }
}
