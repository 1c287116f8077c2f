// The main results about the informer, over every history from an empty one.
module InformerTheorems {
  import opened Wrappers
  import opened DeltaModel
  import opened FifoSpec
  import opened FifoInvariant
  import opened ProcessSpec
  import opened InformerSpec
  import opened InformerProof

  lemma NewInformerInv(cfg: Config)
    ensures InformerInv(cfg, NewInformer)
    ensures View(NewInformer) == map[]
  {
  }

  // Whatever happened, the notifications sent so far rebuild the store: every OnAdd was for an absent
  // key, every OnUpdate for a present one with the stored object as its old object, every OnDelete
  // for a present one. With a well-behaved transformer, moreover, the view is what the producer's
  // calls made of an empty map.
  lemma EveryHistory(cfg: Config, acts: seq<Action>)
    requires cfg.KeyPreserving() && AllAllowed(cfg, NewInformer, acts)
    ensures var s := Moves(cfg, NewInformer, acts);
            && Replay(cfg, map[], s.client.trace) == Some(s.client.store)
            && Sound(cfg, s)
            && (cfg.WellBehaved() ==> View(s) == IdealRun(cfg, map[], acts) && InformerInv(cfg, s))
  {
    NewInformerInv(cfg);
    RunSound(cfg, NewInformer, acts);
    if cfg.WellBehaved() { RunRefines(cfg, NewInformer, acts); }
  }

  // ---- Convergence ----

  function Drain(n: nat): (acts: seq<Action>)
    ensures |acts| == n
  {
    if n == 0 then [] else [Pop(false)] + Drain(n - 1)
  }

  lemma DrainUnfold(cfg: Config, s: Informer, n: nat)
    requires n > 0
    ensures var t := Move(cfg, s, Pop(false));
            && Moves(cfg, s, Drain(n)) == Moves(cfg, t, Drain(n - 1))
            && (AllAllowed(cfg, s, Drain(n)) <==> Allowed(cfg, s, Pop(false)) && AllAllowed(cfg, t, Drain(n - 1)))
  {
    assert Drain(n)[0] == Pop(false) && Drain(n)[1..] == Drain(n - 1);
  }

  // With nothing further coming in, as many Pops as there are queued keys empty the queue and
  // leave the store equal to the view.
  lemma {:induction false} Converges(cfg: Config, s: Informer)
    requires Sound(cfg, s)
    ensures var acts := Drain(|s.fifo.queue|);
            && AllAllowed(cfg, s, acts)
            && Moves(cfg, s, acts).fifo.queue == []
            && Moves(cfg, s, acts).client.store == View(s)
    decreases |s.fifo.queue|
  {
    var n := |s.fifo.queue|;
    if n == 0 {
      EmptyQueueView(cfg, s);
    } else {
      PopSound(cfg, s);
      PopIsAMove(cfg, s);
      Converges(cfg, Move(cfg, s, Pop(false)));
      assert Drain(n)[0] == Pop(false) && Drain(n)[1..] == Drain(n - 1);
    }
  }

  // Any history at all, then a relist, then a drain: the store holds exactly the list.
  lemma RelistConverges(cfg: Config, acts: seq<Action>, list: seq<Item>, gq: seq<Key>, gk: seq<Key>)
    requires cfg.WellBehaved() && AllAllowed(cfg, NewInformer, acts)
    requires Allowed(cfg, Moves(cfg, NewInformer, acts), Replace(list, gq, gk))
    requires forall x :: x in list ==> Accept(cfg, x).Some?
    ensures var s := Move(cfg, Moves(cfg, NewInformer, acts), Replace(list, gq, gk));
            var t := Moves(cfg, s, Drain(|s.fifo.queue|));
            && t.fifo.queue == []
            && IsTheList(cfg, t.client.store, list)
  {
    NewInformerInv(cfg);
    RunRefines(cfg, NewInformer, acts);
    var s0 := Moves(cfg, NewInformer, acts);
    MoveRefines(cfg, s0, Replace(list, gq, gk));
    Converges(cfg, Move(cfg, s0, Replace(list, gq, gk)));
    assert GoodPrefix(cfg, list) == |list|;
    PutAllIsTheList(cfg, list);
  }

  // m has one entry per key of the list, and it comes from the last item with that key.
  ghost predicate IsTheList(cfg: Config, m: Known, list: seq<Item>) {
    && (forall k :: k in m <==> exists i :: IsLast(cfg, list, k, i))
    && (forall k, i :: k in m && IsLast(cfg, list, k, i) ==> cfg.Transform(list[i]) == Some(m[k]))
  }

  ghost predicate IsLast(cfg: Config, list: seq<Item>, k: Key, i: int) {
    && 0 <= i < |list|
    && cfg.KeyOf(list[i]) == Some(k)
    && forall j :: i < j < |list| ==> cfg.KeyOf(list[j]) != Some(k)
  }

  lemma {:induction false} PutAllSnoc(cfg: Config, v: Known, list: seq<Item>, x: Item)
    ensures PutAll(cfg, v, list + [x]) == Put(cfg, PutAll(cfg, v, list), x)
    decreases |list|
  {
    if list == [] {
      assert list + [x] == [x] && [x][1..] == [];
      assert PutAll(cfg, Put(cfg, v, x), []) == Put(cfg, v, x);
    } else {
      assert (list + [x])[1..] == list[1..] + [x];
      PutAllSnoc(cfg, Put(cfg, v, list[0]), list[1..], x);
    }
  }

  lemma {:induction false} PutAllIsTheList(cfg: Config, list: seq<Item>)
    requires forall x :: x in list ==> Accept(cfg, x).Some?
    ensures IsTheList(cfg, PutAll(cfg, map[], list), list)
    decreases |list|
  {
    if list != [] {
      var n := |list| - 1;
      var front, x := list[..n], list[n];
      assert list == front + [x];
      PutAllSnoc(cfg, map[], front, x);
      PutAllIsTheList(cfg, front);
      var k0 := cfg.KeyOf(x).value;
      assert IsLast(cfg, list, k0, n);
      forall k, i | k != k0 ensures IsLast(cfg, list, k, i) <==> IsLast(cfg, front, k, i) {
        if IsLast(cfg, front, k, i) { assert front[i] == list[i]; }
        if IsLast(cfg, list, k, i) { assert front[i] == list[i]; }
      }
      forall i | IsLast(cfg, list, k0, i) ensures i == n {}
    }
  }

  // ---- Filtered views ----

  // A nested handler behind a filter can rebuild the passing part of the store at every moment,
  // if and only if no deletion reports an object on which the filter differs from the stored one.
  lemma FilteredHistory(cfg: Config, f: Item -> bool, acts: seq<Action>)
    requires cfg.WellBehaved() && AllAllowed(cfg, NewInformer, acts)
    ensures var trace := Moves(cfg, NewInformer, acts).client.trace;
            && Replay(cfg, map[], trace).Some?
            && (Coherent(cfg, f, map[], trace) <==>
                forall n: nat :: n <= |trace| ==> FaithfulAt(cfg, f, map[], trace, n))
  {
    EveryHistory(cfg, acts);
    FilteredView(cfg, f, map[], Moves(cfg, NewInformer, acts).client.trace);
  }

  // A filter that looks only at the key is always safe.
  lemma {:induction false} KeyFiltersAreCoherent(cfg: Config, f: Item -> bool, m: Known, trace: seq<Notification>)
    requires Keyed(cfg, m) && Replay(cfg, m, trace).Some?
    requires forall x, y :: cfg.KeyOf(x).Some? && cfg.KeyOf(x) == cfg.KeyOf(y) ==> f(x) == f(y)
    ensures Coherent(cfg, f, m, trace)
    decreases |trace|
  {
    if trace != [] {
      FilterStep(cfg, f, m, trace[0]);
      KeyFiltersAreCoherent(cfg, f, ReplayOne(cfg, m, trace[0]).value, trace[1..]);
    }
  }

  // The filter gives one answer for all the items that may stand for one object.
  ghost predicate Consistent(cfg: Config, f: Item -> bool) {
    forall x: Item, y: Item ::
      Settled(cfg, x) && Settled(cfg, y) && cfg.KeyOf(x).Some? && cfg.KeyOf(x) == cfg.KeyOf(y) ==> f(x) == f(y)
  }

  ghost predicate AlwaysFaithful(cfg: Config, f: Item -> bool, trace: seq<Notification>) {
    forall n: nat :: n <= |trace| ==> FaithfulAt(cfg, f, map[], trace, n)
  }

  // Which filters may be installed: a filtered view is right at every moment of every history, if and
  // only if the filter is consistent.
  lemma FilterIsSafe(cfg: Config, f: Item -> bool)
    requires cfg.WellBehaved()
    ensures Consistent(cfg, f) <==>
      forall acts: seq<Action> :: AllAllowed(cfg, NewInformer, acts) ==>
        AlwaysFaithful(cfg, f, Moves(cfg, NewInformer, acts).client.trace)
  {
    if Consistent(cfg, f) {
      forall acts: seq<Action> | AllAllowed(cfg, NewInformer, acts)
        ensures AlwaysFaithful(cfg, f, Moves(cfg, NewInformer, acts).client.trace)
      {
        EveryHistory(cfg, acts);
        FilteredHistory(cfg, f, acts);
        ConsistentIsCoherent(cfg, f, map[], Moves(cfg, NewInformer, acts).client.trace);
      }
    } else {
      var x: Item, y: Item :| Settled(cfg, x) && Settled(cfg, y) && cfg.KeyOf(x).Some? && cfg.KeyOf(x) == cfg.KeyOf(y)
                              && f(x) != f(y);
      Inconsistent(cfg, f, x, y);
    }
  }

  lemma {:induction false} ConsistentIsCoherent(cfg: Config, f: Item -> bool, m: Known, trace: seq<Notification>)
    requires Keyed(cfg, m) && Replay(cfg, m, trace).Some?
    requires StoreSettled(cfg, m) && TraceSettled(cfg, trace) && Consistent(cfg, f)
    ensures Coherent(cfg, f, m, trace)
    decreases |trace|
  {
    if trace != [] {
      FilterStep(cfg, f, m, trace[0]);
      assert NoteSettled(cfg, trace[0]);
      ConsistentIsCoherent(cfg, f, ReplayOne(cfg, m, trace[0]).value, trace[1..]);
    }
  }

  // A filter that judges two items of one key differently goes wrong: add the one, delete the other.
  lemma Inconsistent(cfg: Config, f: Item -> bool, x: Item, y: Item)
    requires cfg.WellBehaved() && Settled(cfg, x) && Settled(cfg, y)
    requires cfg.KeyOf(x).Some? && cfg.KeyOf(x) == cfg.KeyOf(y) && f(x) != f(y)
    ensures var acts := [Add(x), Pop(false), Delete(y), Pop(false)];
            && AllAllowed(cfg, NewInformer, acts)
            && Moves(cfg, NewInformer, acts).client.store == map[]
            && !AlwaysFaithful(cfg, f, Moves(cfg, NewInformer, acts).client.trace)
  {
    var k := cfg.KeyOf(x).value;
    LeakAdd(cfg, x);
    var s1 := Move(cfg, NewInformer, Add(x));
    LeakPop(cfg, s1, k, Delta(Added, x));
    var s2 := Move(cfg, s1, Pop(false));
    LeakDelete(cfg, s2, k, y);
    var s3 := Move(cfg, s2, Delete(y));
    LeakPop(cfg, s3, k, Delta(Deleted, y));
    FourMoves(cfg, NewInformer, Add(x), Pop(false), Delete(y), Pop(false));
    var trace := Move(cfg, s3, Pop(false)).client.trace;
    assert trace == [OnAdd(x, false), OnDelete(y)];
    FilteredHistory(cfg, f, [Add(x), Pop(false), Delete(y), Pop(false)]);
    assert trace[1..] == [OnDelete(y)];
    assert ReplayOne(cfg, map[], trace[0]) == Some(map[k := x]);
    assert !CoherentAt(cfg, f, map[k := x], trace[1..][0]);
    assert !Coherent(cfg, f, map[k := x], trace[1..]);
  }

  lemma FourMoves(cfg: Config, s: Informer, a: Action, b: Action, c: Action, d: Action)
    ensures var s1 := Move(cfg, s, a);
            var s2 := Move(cfg, s1, b);
            var s3 := Move(cfg, s2, c);
            && Moves(cfg, s, [a, b, c, d]) == Move(cfg, s3, d)
            && (AllAllowed(cfg, s, [a, b, c, d]) <==>
                  Allowed(cfg, s, a) && Allowed(cfg, s1, b) && Allowed(cfg, s2, c) && Allowed(cfg, s3, d))
  {
    var s1 := Move(cfg, s, a);
    var s2 := Move(cfg, s1, b);
    var s3 := Move(cfg, s2, c);
    assert [a, b, c, d][1..] == [b, c, d] && [b, c, d][1..] == [c, d] && [c, d][1..] == [d] && [d][1..] == [];
    assert Moves(cfg, s3, [d]) == Moves(cfg, Move(cfg, s3, d), []) == Move(cfg, s3, d);
    assert Moves(cfg, s2, [c, d]) == Moves(cfg, s3, [d]);
    assert Moves(cfg, s1, [b, c, d]) == Moves(cfg, s2, [c, d]);
    assert AllAllowed(cfg, s3, [d]) <==> Allowed(cfg, s3, d);
    assert AllAllowed(cfg, s2, [c, d]) <==> Allowed(cfg, s2, c) && AllAllowed(cfg, s3, [d]);
    assert AllAllowed(cfg, s1, [b, c, d]) <==> Allowed(cfg, s1, b) && AllAllowed(cfg, s2, [c, d]);
  }

  lemma LeakDelete(cfg: Config, s: Informer, k: Key, y: Item)
    requires Idle(s) && s.fifo.HasSynced() && k in s.client.store
    requires Accept(cfg, y) == Some((k, y))
    ensures var t := Move(cfg, s, Delete(y));
            && OnePending(t, k, Delta(Deleted, y)) && t.client == s.client
            && Allowed(cfg, s, Delete(y))
  {
    assert [] + [Delta(Deleted, y)] == [Delta(Deleted, y)];
    assert Dedup([Delta(Deleted, y)]) == [Delta(Deleted, y)];
  }

  // In particular a filter that accepts an object but rejects its tombstone is not safe: once the
  // object has been added, a relist that misses it reports the deletion with a tombstone, which never
  // reaches the nested handler, and the object is still in the filtered view.
  lemma FilterLeak(cfg: Config, f: Item -> bool, x: Item)
    requires cfg.WellBehaved() && Accept(cfg, x).Some?
    requires var (k, y) := Accept(cfg, x).value; f(y) && !f(Tombstone(k, y))
    ensures var (k, y) := Accept(cfg, x).value;
            var acts := [Add(x), Pop(false), Replace([], [], [k]), Pop(false)];
            var s := Moves(cfg, NewInformer, acts);
            && AllAllowed(cfg, NewInformer, acts)
            && s.client.store == map[]
            && Replay(cfg, map[], Filtered(f, s.client.trace)) == Some(map[k := y])
  {
    var (k, y) := Accept(cfg, x).value;
    var tomb := Tombstone(k, y);
    var s1 := Move(cfg, NewInformer, Add(x));
    LeakAdd(cfg, x);
    var s2 := Move(cfg, s1, Pop(false));
    LeakPop(cfg, s1, k, Delta(Added, y));
    var s3 := Move(cfg, s2, Replace([], [], [k]));
    LeakRelist(cfg, s2, k, y);
    var s4 := Move(cfg, s3, Pop(false));
    LeakPop(cfg, s3, k, Delta(Deleted, tomb));
    FourMoves(cfg, NewInformer, Add(x), Pop(false), Replace([], [], [k]), Pop(false));
    LeakTrace(cfg, f, k, y, s4.client.trace);
  }

  ghost predicate Idle(s: Informer) {
    s.fifo.items == map[] && s.fifo.queue == []
  }

  ghost predicate OnePending(s: Informer, k: Key, d: Delta) {
    s.fifo.items == map[k := [d]] && s.fifo.queue == [k] && s.fifo.HasSynced()
  }

  lemma LeakAdd(cfg: Config, x: Item)
    requires Accept(cfg, x).Some?
    ensures var (k, y) := Accept(cfg, x).value;
            var s := Move(cfg, NewInformer, Add(x));
            && OnePending(s, k, Delta(Added, y)) && s.client == Client(map[], [])
            && Allowed(cfg, NewInformer, Add(x))
  {
    var (k, y) := Accept(cfg, x).value;
    assert [] + [Delta(Added, y)] == [Delta(Added, y)];
    assert Dedup([Delta(Added, y)]) == [Delta(Added, y)];
  }

  lemma LeakPop(cfg: Config, s: Informer, k: Key, d: Delta)
    requires OnePending(s, k, d)
    ensures var t := Move(cfg, s, Pop(false));
            && Idle(t) && t.fifo.HasSynced() && t.client == Apply(cfg, s.client, d, false).client
            && Allowed(cfg, s, Pop(false))
  {
    OneDelta(cfg, s.client, d, false);
  }

  lemma LeakRelist(cfg: Config, s: Informer, k: Key, y: Item)
    requires cfg.WellBehaved() && Idle(s) && s.fifo.HasSynced() && s.client.store == map[k := y]
    ensures var t := Move(cfg, s, Replace([], [], [k]));
            && OnePending(t, k, Delta(Deleted, Tombstone(k, y))) && t.client == s.client
            && Allowed(cfg, s, Replace([], [], [k]))
  {
    var tomb := Delta(Deleted, Tombstone(k, y));
    assert KeysOf(cfg, []) == {};
    var batch := Puts(cfg.ReplaceKind(), []) + Tombstones(s.client.store, s.fifo, [] + [k]);
    assert [] + [k] == [k] && [k][1..] == [];
    assert Tombstones(s.client.store, s.fifo, [k]) == [tomb];
    assert batch == [tomb] && batch[1..] == [];
    var o := QueueAction(cfg, s.fifo, Deleted, Tombstone(k, y));
    assert o.state.items[k] == Dedup([] + [tomb]) == [tomb];
    assert QueueAll(cfg, o.state, []) == Outcome(o.state, None);
  }

  lemma LeakTrace(cfg: Config, f: Item -> bool, k: Key, y: Item, trace: seq<Notification>)
    requires f(y) && !f(Tombstone(k, y)) && cfg.KeyOf(y) == Some(k)
    requires trace == [OnAdd(y, false), OnDelete(Tombstone(k, y))]
    ensures Replay(cfg, map[], Filtered(f, trace)) == Some(map[k := y])
  {
    assert trace[1..] == [OnDelete(Tombstone(k, y))] && trace[1..][1..] == [];
    assert Filtered(f, trace[1..]) == [];
    assert Filtered(f, trace) == [OnAdd(y, false)];
    assert [OnAdd(y, false)][1..] == [];
    assert Replay(cfg, map[k := y], []) == Some(map[k := y]);
  }

  lemma OneDelta(cfg: Config, c: Client, d: Delta, init: bool)
    ensures Process(cfg, c, [d], init) == Apply(cfg, c, d, init)
  {
    assert [d][1..] == [];
    var r := Apply(cfg, c, d, init);
    assert Process(cfg, r.client, [], init) == ProcessResult(r.client, None);
  }

  // ---- Resync and transformers ----

  // How many keys a Resync handles before the transformer fails on an object; a key that is queued
  // needs nothing.
  ghost function Handled(cfg: Config, store: Known, queued: set<Key>, order: seq<Key>): (n: nat)
    requires forall k :: k in order ==> k in store
    ensures n <= |order|
  {
    if order == [] || (order[0] !in queued && cfg.Transform(store[order[0]]).None?) then 0
    else 1 + Handled(cfg, store, queued, order[1..])
  }

  // Resync transforms every stored object that is not queued once more, up to the first failure. So it
  // fails exactly if one of them cannot be transformed, and it leaves the view alone if and only if
  // those that it handled are fixed points of the transformer.
  lemma ResyncTransformsAgain(cfg: Config, s: Informer, order: seq<Key>)
    requires Inv(cfg, s.fifo) && Keyed(cfg, s.client.store) && cfg.KeyPreserving()
    requires Enumerates(order, s.client.store.Keys)
    ensures var t, store, queued := Move(cfg, s, Resync(order)), s.client.store, s.fifo.items.Keys;
            var handled := order[..Handled(cfg, store, queued, order)];
            && (ResyncOp(cfg, store, s.fifo, order).err.None? <==>
                  forall k :: k in store && k !in queued ==> cfg.Transform(store[k]).Some?)
            && (forall k :: k in handled && k !in queued ==> ViewAt(t, k) == cfg.Transform(store[k]))
            && (View(t) == View(s) <==> forall k :: k in handled && k !in queued ==> Settled(cfg, store[k]))
  {
    var t, store, queued := Move(cfg, s, Resync(order)), s.client.store, s.fifo.items.Keys;
    var handled := order[..Handled(cfg, store, queued, order)];
    ResyncStops(cfg, s, order);
    HandledAll(cfg, store, queued, order);
    assert forall k :: k in handled ==> k in order;
    ResyncViews(cfg, s, order, t, handled);
    SameView(cfg, s, t, handled);
  }

  lemma ResyncViews(cfg: Config, s: Informer, order: seq<Key>, t: Informer, handled: seq<Key>)
    requires Core(s.fifo) && Keyed(cfg, s.client.store) && Enumerates(order, s.client.store.Keys)
    requires t == WithFifo(s, ResyncOp(cfg, s.client.store, s.fifo, order).state)
    requires handled == order[..Handled(cfg, s.client.store, s.fifo.items.Keys, order)]
    requires forall k :: k in handled ==> k in s.client.store
    ensures Retransformed(cfg, s, t, handled)
  {
    forall k ensures ViewAt(t, k)
      == if k in handled && k !in s.fifo.items.Keys then cfg.Transform(s.client.store[k]) else ViewAt(s, k)
    {
      ResyncViewAt(cfg, s, order, k);
    }
  }

  // A view in which some objects have been transformed once more.
  ghost predicate Retransformed(cfg: Config, s: Informer, t: Informer, handled: seq<Key>)
    requires forall k :: k in handled ==> k in s.client.store
  {
    forall k :: ViewAt(t, k)
                == if k in handled && k !in s.fifo.items.Keys then cfg.Transform(s.client.store[k]) else ViewAt(s, k)
  }

  lemma SameView(cfg: Config, s: Informer, t: Informer, handled: seq<Key>)
    requires forall k :: k in handled ==> k in s.client.store
    requires Retransformed(cfg, s, t, handled)
    requires forall k :: k in s.fifo.items ==> s.fifo.items[k] != []
    ensures View(t) == View(s)
            <==> forall k :: k in handled && k !in s.fifo.items.Keys ==> Settled(cfg, s.client.store[k])
  {
    if View(t) == View(s) {
      forall k | k in handled && k !in s.fifo.items.Keys ensures Settled(cfg, s.client.store[k]) {
        assert ViewAt(s, k) == Some(s.client.store[k]) && View(s)[k] == s.client.store[k];
        assert View(t)[k] == ViewAt(t, k).value;
      }
    }
  }

  lemma {:induction false} HandledAll(cfg: Config, store: Known, queued: set<Key>, order: seq<Key>)
    requires forall k :: k in order ==> k in store
    ensures Handled(cfg, store, queued, order) == |order| <==>
            forall k :: k in order && k !in queued ==> cfg.Transform(store[k]).Some?
  {
    if order != [] {
      HandledAll(cfg, store, queued, order[1..]);
      assert forall k :: k in order <==> k == order[0] || k in order[1..];
    }
  }

  lemma {:induction false} HandledOthers(cfg: Config, store: Known, queued: set<Key>, k0: Key, order: seq<Key>)
    requires (forall k :: k in order ==> k in store) && k0 !in order
    ensures Handled(cfg, store, queued + {k0}, order) == Handled(cfg, store, queued, order)
  {
    if order != [] {
      assert order[0] in order;
      HandledOthers(cfg, store, queued, k0, order[1..]);
    }
  }

  lemma {:induction false} ResyncStops(cfg: Config, s: Informer, order: seq<Key>)
    requires Core(s.fifo) && Keyed(cfg, s.client.store) && Distinct(order)
    requires forall k :: k in order ==> k in s.client.store
    ensures ResyncOp(cfg, s.client.store, s.fifo, order).err.None?
            <==> Handled(cfg, s.client.store, s.fifo.items.Keys, order) == |order|
    decreases |order|
  {
    if order != [] {
      SyncViewAt(cfg, s, order[0], order[0]);
      var o := SyncKey(cfg, s.client.store, s.fifo, order[0]);
      if o.err.None? {
        NotAgain(order);
        HandledOthers(cfg, s.client.store, s.fifo.items.Keys, order[0], order[1..]);
        ResyncStops(cfg, WithFifo(s, o.state), order[1..]);
      }
    }
  }

  lemma NotAgain(order: seq<Key>)
    requires Distinct(order) && order != []
    ensures order[0] !in order[1..]
  {
    forall j | 0 <= j < |order[1..]| ensures order[1..][j] != order[0] { assert order[1..][j] == order[j + 1]; }
  }

  lemma FirstOnes(order: seq<Key>, n: nat, k: Key)
    requires n < |order|
    ensures k in order[..n + 1] <==> k == order[0] || k in order[1..][..n]
    ensures k in order[1..][..n] ==> k in order[1..]
  {
    assert order[..n + 1] == [order[0]] + order[1..][..n];
  }

  lemma {:induction false} ResyncViewAt(cfg: Config, s: Informer, order: seq<Key>, k: Key)
    requires Core(s.fifo) && Keyed(cfg, s.client.store) && Distinct(order)
    requires forall x :: x in order ==> x in s.client.store
    ensures var t := WithFifo(s, ResyncOp(cfg, s.client.store, s.fifo, order).state);
            ViewAt(t, k) ==
              if k in order[..Handled(cfg, s.client.store, s.fifo.items.Keys, order)] && k !in s.fifo.items
              then cfg.Transform(s.client.store[k]) else ViewAt(s, k)
    decreases |order|
  {
    if order != [] {
      var store, queued := s.client.store, s.fifo.items.Keys;
      SyncViewAt(cfg, s, order[0], k);
      var o := SyncKey(cfg, store, s.fifo, order[0]);
      if o.err.None? {
        var n := Handled(cfg, store, queued, order[1..]);
        NotAgain(order);
        HandledOthers(cfg, store, queued, order[0], order[1..]);
        ResyncViewAt(cfg, WithFifo(s, o.state), order[1..], k);
        FirstOnes(order, n, k);
      }
    }
  }

  lemma SyncViewAt(cfg: Config, s: Informer, k0: Key, k: Key)
    requires Core(s.fifo) && Keyed(cfg, s.client.store) && k0 in s.client.store
    ensures var o := SyncKey(cfg, s.client.store, s.fifo, k0);
            var fine := k0 in s.fifo.items || cfg.Transform(s.client.store[k0]).Some?;
            && (o.err.None? <==> fine) && Core(o.state)
            && o.state.items.Keys == s.fifo.items.Keys + (if fine then {k0} else {})
            && ViewAt(WithFifo(s, o.state), k)
               == if fine && k == k0 && k !in s.fifo.items then cfg.Transform(s.client.store[k]) else ViewAt(s, k)
  {
    if k0 !in s.fifo.items && cfg.Transform(s.client.store[k0]).Some? {
      var d := Delta(Sync, cfg.Transform(s.client.store[k0]).value);
      EnqueueCore(s.fifo, k0, d);
      var t := Enqueue(s.fifo, k0, d);
      assert t.items[k0] == Dedup([] + [d]) == [d];
      assert k != k0 ==> Pending(t, k) == Pending(s.fifo, k);
    }
  }

  // It does happen: after Add, Pop and Resync, an object on which the transformer is not idempotent is
  // not what the producer's calls made of it, and one that it rejects the second time fails the Resync.
  lemma ResyncCanChange(cfg: Config, x: Item)
    requires cfg.KeyPreserving() && Accept(cfg, x).Some?
    ensures var (k, y) := Accept(cfg, x).value;
            var s := Moves(cfg, NewInformer, [Add(x), Pop(false)]);
            var t := Move(cfg, s, Resync([k]));
            && AllAllowed(cfg, NewInformer, [Add(x), Pop(false)]) && Allowed(cfg, s, Resync([k]))
            && View(s) == Ideal(cfg, map[], Add(x)) == map[k := y]
            && (ResyncOp(cfg, s.client.store, s.fifo, [k]).err.Some? <==> cfg.Transform(y).None?)
            && (View(t) == View(s) <==> cfg.Transform(y).None? || Settled(cfg, y))
  {
    var (k, y) := Accept(cfg, x).value;
    var acts := [Add(x), Pop(false)];
    OneInStore(cfg, x);
    var s := Moves(cfg, NewInformer, acts);
    assert [k][0] == k && [k][..0] == [] && [k][..1] == [k] && [k][1..] == [];
    assert Handled(cfg, s.client.store, s.fifo.items.Keys, []) == 0;
    assert Handled(cfg, s.client.store, s.fifo.items.Keys, [k]) == if cfg.Transform(y).None? then 0 else 1;
    ResyncTransformsAgain(cfg, s, [k]);
  }

  // After Add and Pop the store holds the object and nothing is queued.
  lemma OneInStore(cfg: Config, x: Item)
    requires cfg.KeyPreserving() && Accept(cfg, x).Some?
    ensures var (k, y) := Accept(cfg, x).value;
            var s := Moves(cfg, NewInformer, [Add(x), Pop(false)]);
            && AllAllowed(cfg, NewInformer, [Add(x), Pop(false)])
            && Idle(s) && s.client.store == View(s) == map[k := y] && Sound(cfg, s)
  {
    var (k, y) := Accept(cfg, x).value;
    var acts := [Add(x), Pop(false)];
    LeakAdd(cfg, x);
    var s1 := Move(cfg, NewInformer, Add(x));
    LeakPop(cfg, s1, k, Delta(Added, y));
    var s := Move(cfg, s1, Pop(false));
    assert acts[1..] == [Pop(false)] && [Pop(false)][1..] == [];
    assert Moves(cfg, s1, [Pop(false)]) == Moves(cfg, s, []) == s;
    assert AllAllowed(cfg, s1, [Pop(false)]);
    EveryHistory(cfg, acts);
    EmptyQueueView(cfg, s);
  }

  // ---- Tombstones ----

  // A tombstone whose content is a real object (or nothing).
  ghost predicate Flat(x: Item) {
    x.Tombstone? ==> !x.last.Tombstone?
  }

  // Producers put real objects, and delete with real objects or with tombstones around them.
  ghost predicate Disciplined(a: Action) {
    match a
    case Add(x) => !x.Tombstone?
    case Update(x) => !x.Tombstone?
    case Delete(x) => Flat(x)
    case Replace(list, _, _) => forall x :: x in list ==> !x.Tombstone?
    case _ => true
  }

  // The transformer does not make tombstones out of objects.
  ghost predicate NoNewTombstones(cfg: Config) {
    forall x: Item :: !x.Tombstone? && cfg.Transform(x).Some? ==> !cfg.Transform(x).value.Tombstone?
  }

  ghost predicate FlatDelta(d: Delta) {
    if d.kind == Deleted then Flat(d.item) else !d.item.Tombstone?
  }

  ghost predicate FlatState(s: Informer) {
    && (forall k :: k in s.fifo.items ==> forall d :: d in s.fifo.items[k] ==> FlatDelta(d))
    && FlatStore(s.client.store)
    && FlatTrace(s.client.trace)
  }

  ghost predicate FlatNote(n: Notification) {
    match n
    case OnAdd(x, _) => !x.Tombstone?
    case OnUpdate(before, x) => !before.Tombstone? && !x.Tombstone?
    case OnDelete(x) => Flat(x)
  }

  ghost predicate FlatTrace(trace: seq<Notification>) {
    forall n :: n in trace ==> FlatNote(n)
  }

  ghost predicate FlatStore(m: Known) {
    forall k :: k in m ==> !m[k].Tombstone?
  }

  lemma FlatEnqueue(s: Informer, id: Key, d: Delta)
    requires FlatState(s) && FlatDelta(d)
    ensures FlatState(WithFifo(s, Enqueue(s.fifo, id, d)))
  {
    DedupEnds(Pending(s.fifo, id), d);
  }

  lemma FlatAction(cfg: Config, s: Informer, d: Delta)
    requires FlatState(s) && FlatDelta(d) && cfg.WellBehaved() && NoNewTombstones(cfg)
    ensures FlatState(WithFifo(s, QueueAction(cfg, s.fifo, d.kind, d.item).state))
  {
    if Accept(cfg, d.item).Some? {
      var (id, y) := Accept(cfg, d.item).value;
      if d.item.Tombstone? { assert y == d.item; }
      FlatEnqueue(s, id, Delta(d.kind, y));
    }
  }

  lemma {:induction false} FlatQueueAll(cfg: Config, s: Informer, batch: seq<Delta>)
    requires FlatState(s) && cfg.WellBehaved() && NoNewTombstones(cfg)
    requires forall d :: d in batch ==> FlatDelta(d)
    ensures FlatState(WithFifo(s, QueueAll(cfg, s.fifo, batch).state))
    decreases |batch|
  {
    if batch != [] {
      FlatAction(cfg, s, batch[0]);
      var o := QueueAction(cfg, s.fifo, batch[0].kind, batch[0].item);
      if o.err.None? { FlatQueueAll(cfg, WithFifo(s, o.state), batch[1..]); }
    }
  }

  lemma {:induction false} FlatResync(cfg: Config, s: Informer, order: seq<Key>)
    requires FlatState(s) && cfg.WellBehaved() && NoNewTombstones(cfg)
    ensures FlatState(WithFifo(s, ResyncOp(cfg, s.client.store, s.fifo, order).state))
    decreases |order|
  {
    if order != [] {
      if order[0] in s.client.store { FlatAction(cfg, s, Delta(Sync, s.client.store[order[0]])); }
      var o := SyncKey(cfg, s.client.store, s.fifo, order[0]);
      if o.err.None? { FlatResync(cfg, WithFifo(s, o.state), order[1..]); }
    }
  }

  // The tombstones that Replace makes wrap the last real object, even where the newest delta
  // carries a tombstone itself.
  lemma FlatTombstones(cfg: Config, s: Informer, list: seq<Item>, gone: seq<Key>)
    requires FlatState(s) && forall x :: x in list ==> !x.Tombstone?
    ensures forall d :: d in Puts(cfg.ReplaceKind(), list) + Tombstones(s.client.store, s.fifo, gone) ==> FlatDelta(d)
  {
    var puts, tombs := Puts(cfg.ReplaceKind(), list), Tombstones(s.client.store, s.fifo, gone);
    PutsAt(cfg.ReplaceKind(), list);
    TombstonesAt(s.client.store, s.fifo, gone);
    forall i | 0 <= i < |puts| ensures FlatDelta(puts[i]) { assert list[i] in list; }
    forall i | 0 <= i < |tombs| ensures FlatDelta(tombs[i]) {
      var k := gone[i];
      if Pending(s.fifo, k) != [] { assert Newest(s.fifo.items[k]) in s.fifo.items[k]; }
    }
  }

  lemma {:induction false} FlatProcess(cfg: Config, c: Client, ds: Deltas, init: bool)
    requires FlatStore(c.store) && FlatTrace(c.trace) && forall d :: d in ds ==> FlatDelta(d)
    ensures FlatStore(Process(cfg, c, ds, init).client.store) && FlatTrace(Process(cfg, c, ds, init).client.trace)
    decreases |ds|
  {
    if ds != [] {
      assert FlatDelta(ds[0]);
      var r := Apply(cfg, c, ds[0], init);
      if r.err.None? { FlatProcess(cfg, r.client, ds[1..], init); }
    }
  }

  lemma FlatMove(cfg: Config, s: Informer, a: Action)
    requires FlatState(s) && cfg.WellBehaved() && NoNewTombstones(cfg)
    requires Allowed(cfg, s, a) && Disciplined(a)
    ensures FlatState(Move(cfg, s, a))
  {
    var s1 := WithFifo(s, s.fifo.(populated := true));
    match a
    case Add(x) => FlatAction(cfg, s1, Delta(Added, x));
    case Update(x) => FlatAction(cfg, s1, Delta(Updated, x));
    case Delete(x) => FlatAction(cfg, s1, Delta(Deleted, x));
    case Replace(list, gq, gk) =>
      FlatTombstones(cfg, s, list, gq + gk);
      FlatQueueAll(cfg, s, Puts(cfg.ReplaceKind(), list) + Tombstones(s.client.store, s.fifo, gq + gk));
    case Resync(order) => FlatResync(cfg, s, order);
    case Close =>
    case Pop(_) =>
      if s.fifo.queue[0] in s.fifo.items {
        var d := TakeHead(s.fifo).1;
        FlatProcess(cfg, s.client, d.deltas, d.inInitialList);
      }
  }

  // Tombstones never nest, none ever reaches the store, and handlers see them in deletions only,
  // through any number of relists.
  lemma {:induction false} TombstonesNeverNest(cfg: Config, s: Informer, acts: seq<Action>)
    requires FlatState(s) && cfg.WellBehaved() && NoNewTombstones(cfg)
    requires AllAllowed(cfg, s, acts) && forall a :: a in acts ==> Disciplined(a)
    ensures FlatState(Moves(cfg, s, acts))
    decreases |acts|
  {
    if acts != [] {
      assert acts[0] in acts;
      FlatMove(cfg, s, acts[0]);
      forall a | a in acts[1..] ensures a in acts {}
      TombstonesNeverNest(cfg, Move(cfg, s, acts[0]), acts[1..]);
    }
  }

  // ---- Filters behind disciplined producers ----

  // The filter judges an object like any other object, and any flat tombstone, with its key.
  ghost predicate ConsistentOnObjects(cfg: Config, f: Item -> bool) {
    forall x: Item, y: Item :: StandFor(cfg, x, y) ==> f(x) == f(y)
  }

  // Item y may report the deletion of object x.
  ghost predicate StandFor(cfg: Config, x: Item, y: Item) {
    && Settled(cfg, x) && !x.Tombstone?
    && Settled(cfg, y) && Flat(y)
    && cfg.KeyOf(x).Some? && cfg.KeyOf(x) == cfg.KeyOf(y)
  }

  ghost predicate AllDisciplined(acts: seq<Action>) {
    forall a :: a in acts ==> Disciplined(a)
  }

  // Which filters may be installed if producers are disciplined and the transformer makes no tombstones.
  lemma FilterIsSafeForObjects(cfg: Config, f: Item -> bool)
    requires cfg.WellBehaved() && NoNewTombstones(cfg)
    ensures ConsistentOnObjects(cfg, f) <==>
      forall acts: seq<Action> :: AllAllowed(cfg, NewInformer, acts) && AllDisciplined(acts) ==>
        AlwaysFaithful(cfg, f, Moves(cfg, NewInformer, acts).client.trace)
  {
    if ConsistentOnObjects(cfg, f) {
      forall acts: seq<Action> | AllAllowed(cfg, NewInformer, acts) && AllDisciplined(acts)
        ensures AlwaysFaithful(cfg, f, Moves(cfg, NewInformer, acts).client.trace)
      {
        EveryHistory(cfg, acts);
        TombstonesNeverNest(cfg, NewInformer, acts);
        FilteredHistory(cfg, f, acts);
        ObjectsAreCoherent(cfg, f, map[], Moves(cfg, NewInformer, acts).client.trace);
      }
    } else {
      var x: Item, y: Item :| StandFor(cfg, x, y) && f(x) != f(y);
      Inconsistent(cfg, f, x, y);
      assert AllDisciplined([Add(x), Pop(false), Delete(y), Pop(false)]);
    }
  }

  lemma {:induction false} ObjectsAreCoherent(cfg: Config, f: Item -> bool, m: Known, trace: seq<Notification>)
    requires Keyed(cfg, m) && Replay(cfg, m, trace).Some?
    requires StoreSettled(cfg, m) && FlatStore(m) && TraceSettled(cfg, trace) && FlatTrace(trace)
    requires ConsistentOnObjects(cfg, f)
    ensures Coherent(cfg, f, m, trace)
    decreases |trace|
  {
    if trace != [] {
      FilterStep(cfg, f, m, trace[0]);
      assert NoteSettled(cfg, trace[0]) && FlatNote(trace[0]);
      if trace[0].OnDelete? {
        assert StandFor(cfg, m[cfg.KeyOf(trace[0].item).value], trace[0].item);
      }
      ObjectsAreCoherent(cfg, f, ReplayOne(cfg, m, trace[0]).value, trace[1..]);
    }
  }
}
