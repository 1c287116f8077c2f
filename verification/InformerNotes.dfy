// What handlers are told, beyond what a store can be rebuilt from: which objects count as initial,
// which object stands for a missed deletion, and what passes a filter.
module InformerNotes {
  import opened Wrappers
  import opened DeltaModel
  import opened FifoSpec
  import opened FifoInvariant
  import opened FifoRuns
  import opened FifoContents
  import opened ProcessSpec
  import opened InformerSpec
  import opened InformerProof
  import opened InformerTheorems

  // ---- The initial list ----

  // After a trace, every OnAdd has been sent with this flag.
  ghost predicate AddsFlagged(before: seq<Notification>, after: seq<Notification>, init: bool) {
    && before <= after
    && forall j :: |before| <= j < |after| && after[j].OnAdd? ==> after[j].inInitialList == init
  }

  lemma {:induction false} ProcessFlags(cfg: Config, c: Client, ds: Deltas, init: bool)
    ensures AddsFlagged(c.trace, Process(cfg, c, ds, init).client.trace, init)
    decreases |ds|
  {
    if ds != [] {
      var r := Apply(cfg, c, ds[0], init);
      if r.err.None? { ProcessFlags(cfg, r.client, ds[1..], init); }
    }
  }

  // The calls on the queue that a run of the informer amounts to.
  ghost function CallsOf(cfg: Config, s: Informer, acts: seq<Action>): seq<Call>
    decreases |acts|
  {
    if acts == [] then []
    else [Call(s.client.store, acts[0])] + CallsOf(cfg, Move(cfg, s, acts[0]), acts[1..])
  }

  function PopCount(acts: seq<Action>): nat {
    if acts == [] then 0 else (if acts[0].Pop? then 1 else 0) + PopCount(acts[1..])
  }

  lemma MoveFifo(cfg: Config, s: Informer, a: Action)
    requires Core(s.fifo) && Allowed(cfg, s, a)
    ensures Move(cfg, s, a).fifo == Step(cfg, s.fifo, Call(s.client.store, a)).state
    ensures Core(Move(cfg, s, a).fifo)
  {
    StepBelt(cfg, s.fifo, Call(s.client.store, a));
    if a.Pop? { TakeHeadCore(s.fifo); }
  }

  lemma {:induction false} MovesFifo(cfg: Config, s: Informer, acts: seq<Action>)
    requires Core(s.fifo) && AllAllowed(cfg, s, acts)
    ensures var calls := CallsOf(cfg, s, acts);
            && Legal(cfg, s.fifo, calls) && Moves(cfg, s, acts).fifo == Run(cfg, s.fifo, calls)
            && Pops(calls) == PopCount(acts) && Core(Moves(cfg, s, acts).fifo)
    decreases |acts|
  {
    if acts != [] {
      var m := Move(cfg, s, acts[0]);
      MoveFifo(cfg, s, acts[0]);
      MovesFifo(cfg, m, acts[1..]);
      assert CallsOf(cfg, s, acts)[1..] == CallsOf(cfg, m, acts[1..]);
    }
  }

  // A step tells handlers something only if it is a Pop, and then every OnAdd in it carries the flag
  // of the delivery: true exactly if the queue had not synced before.
  lemma StepFlags(cfg: Config, s: Informer, a: Action)
    requires Core(s.fifo) && Allowed(cfg, s, a)
    ensures !a.Pop? ==> Move(cfg, s, a).client == s.client
    ensures AddsFlagged(s.client.trace, Move(cfg, s, a).client.trace, !s.fifo.HasSynced())
  {
    if a.Pop? {
      TakeHeadCore(s.fifo);
      var d := TakeHead(s.fifo).1;
      ProcessFlags(cfg, s.client, d.deltas, d.inInitialList);
    }
  }

  // The initial list as handlers see it. If a Replace populates the queue, then the OnAdds flagged as
  // initial are exactly those sent by as many later Pops as there were keys queued then.
  lemma InitialNotifications(cfg: Config, s: Informer, replace: Action, acts: seq<Action>, a: Action)
    requires Core(s.fifo) && !s.fifo.populated && replace.Replace? && Allowed(cfg, s, replace)
    requires Step(cfg, s.fifo, Call(s.client.store, replace)).err.None?
    requires AllAllowed(cfg, Move(cfg, s, replace), acts)
    requires Allowed(cfg, Moves(cfg, Move(cfg, s, replace), acts), a)
    ensures var m := Move(cfg, s, replace);
            var t := Moves(cfg, m, acts);
            AddsFlagged(t.client.trace, Move(cfg, t, a).client.trace, PopCount(acts) < |m.fifo.queue|)
  {
    var m := Move(cfg, s, replace);
    var t := Moves(cfg, m, acts);
    MoveFifo(cfg, s, replace);
    MovesFifo(cfg, m, acts);
    InitialSync(cfg, s.fifo, Call(s.client.store, replace), CallsOf(cfg, m, acts));
    StepFlags(cfg, t, a);
  }

  // Once synced, nothing is ever flagged as initial again.
  lemma {:induction false} SyncedNotifications(cfg: Config, s: Informer, acts: seq<Action>)
    requires Core(s.fifo) && s.fifo.HasSynced() && AllAllowed(cfg, s, acts)
    ensures Moves(cfg, s, acts).fifo.HasSynced()
    ensures AddsFlagged(s.client.trace, Moves(cfg, s, acts).client.trace, false)
    decreases |acts|
  {
    if acts != [] {
      StepFlags(cfg, s, acts[0]);
      MoveFifo(cfg, s, acts[0]);
      UsedUpStep(cfg, s.fifo, Call(s.client.store, acts[0]));
      SyncedNotifications(cfg, Move(cfg, s, acts[0]), acts[1..]);
    }
  }

  // ---- A first list ----

  ghost predicate DistinctKeys(cfg: Config, list: seq<Item>) {
    && (forall i :: 0 <= i < |list| ==> Accept(cfg, list[i]).Some?)
    && forall i, j :: 0 <= i < j < |list| ==> cfg.KeyOf(list[i]) != cfg.KeyOf(list[j])
  }

  // The keys of a list, and the notifications for it, in its order.
  ghost function KeysInOrder(cfg: Config, list: seq<Item>): seq<Key>
    requires forall i :: 0 <= i < |list| ==> Accept(cfg, list[i]).Some?
  {
    if list == [] then [] else [Accept(cfg, list[0]).value.0] + KeysInOrder(cfg, list[1..])
  }

  ghost function InitialAdds(cfg: Config, list: seq<Item>): seq<Notification>
    requires forall i :: 0 <= i < |list| ==> Accept(cfg, list[i]).Some?
  {
    if list == [] then [] else [OnAdd(Accept(cfg, list[0]).value.1, true)] + InitialAdds(cfg, list[1..])
  }

  // The queue holds exactly the items of a list, one delta each.
  ghost predicate Holds(cfg: Config, f: Fifo, kind: DeltaType, list: seq<Item>)
    requires forall i :: 0 <= i < |list| ==> Accept(cfg, list[i]).Some?
  {
    && f.queue == KeysInOrder(cfg, list)
    && forall i :: 0 <= i < |list| ==>
         var k := Accept(cfg, list[i]).value.0;
         k in f.items && f.items[k] == [Delta(kind, Accept(cfg, list[i]).value.1)]
  }

  lemma {:induction false} KeysAppend(cfg: Config, a: seq<Item>, x: Item)
    requires (forall i :: 0 <= i < |a| ==> Accept(cfg, a[i]).Some?) && Accept(cfg, x).Some?
    ensures forall i :: 0 <= i < |a + [x]| ==> Accept(cfg, (a + [x])[i]).Some?
    ensures KeysInOrder(cfg, a + [x]) == KeysInOrder(cfg, a) + [Accept(cfg, x).value.0]
    decreases |a|
  {
    if a == [] {
      assert a + [x] == [x] && [x][1..] == [];
    } else {
      assert (a + [x])[1..] == a[1..] + [x];
      KeysAppend(cfg, a[1..], x);
    }
  }

  lemma {:induction false} KeysAt(cfg: Config, list: seq<Item>, i: nat)
    requires (forall j :: 0 <= j < |list| ==> Accept(cfg, list[j]).Some?) && i < |list|
    ensures |KeysInOrder(cfg, list)| == |list| && KeysInOrder(cfg, list)[i] == Accept(cfg, list[i]).value.0
  {
    if i > 0 { KeysAt(cfg, list[1..], i - 1); } else if |list| > 1 { KeysAt(cfg, list[1..], 0); }
  }

  // Queueing the rest of a list behind its beginning.
  lemma {:induction false} QueueRest(cfg: Config, f: Fifo, kind: DeltaType, a: seq<Item>, b: seq<Item>)
    requires DistinctKeys(cfg, a) && DistinctKeys(cfg, a + b) && kind != Deleted && Core(f)
    requires Holds(cfg, f, kind, a)
    ensures var o := QueueAll(cfg, f, Puts(kind, b));
            o.err.None? && Core(o.state) && Holds(cfg, o.state, kind, a + b)
    decreases |b|
  {
    if b == [] {
      assert a + b == a;
    } else {
      var x := b[0];
      assert (a + b)[|a|] == x && (a + [x]) + b[1..] == a + b;
      assert Puts(kind, b)[1..] == Puts(kind, b[1..]);
      DistinctBeginning(cfg, a, b);
      QueueOneMore(cfg, f, kind, a, x);
      QueueRest(cfg, QueueAction(cfg, f, kind, x).state, kind, a + [x], b[1..]);
    }
  }

  lemma DistinctBeginning(cfg: Config, a: seq<Item>, b: seq<Item>)
    requires DistinctKeys(cfg, a + b) && b != []
    ensures DistinctKeys(cfg, a + [b[0]])
  {
    forall i | 0 <= i < |a + [b[0]]| ensures (a + [b[0]])[i] == (a + b)[i] {}
  }

  lemma QueueOneMore(cfg: Config, f: Fifo, kind: DeltaType, a: seq<Item>, x: Item)
    requires DistinctKeys(cfg, a) && DistinctKeys(cfg, a + [x]) && kind != Deleted && Core(f)
    requires Holds(cfg, f, kind, a)
    ensures var o := QueueAction(cfg, f, kind, x);
            o.err.None? && Core(o.state) && Holds(cfg, o.state, kind, a + [x])
  {
    assert (a + [x])[|a|] == x;
    var (k, y) := Accept(cfg, x).value;
    forall i | 0 <= i < |a| ensures Accept(cfg, a[i]).value.0 != k { assert (a + [x])[i] == a[i]; }
    NotQueued(cfg, f, kind, a, k);
    EnqueueCore(f, k, Delta(kind, y));
    EnqueueContents(f, k, Delta(kind, y));
    HoldsOneMore(cfg, f, Enqueue(f, k, Delta(kind, y)), kind, a, x);
  }

  lemma NotQueued(cfg: Config, f: Fifo, kind: DeltaType, a: seq<Item>, k: Key)
    requires Core(f) && DistinctKeys(cfg, a) && Holds(cfg, f, kind, a)
    requires forall i :: 0 <= i < |a| ==> Accept(cfg, a[i]).value.0 != k
    ensures k !in f.items
  {
    if k in f.items {
      var i :| 0 <= i < |f.queue| && f.queue[i] == k;
      QueueLength(cfg, a);
      KeysAt(cfg, a, i);
    }
  }

  lemma HoldsOneMore(cfg: Config, f: Fifo, f1: Fifo, kind: DeltaType, a: seq<Item>, x: Item)
    requires DistinctKeys(cfg, a) && DistinctKeys(cfg, a + [x]) && Accept(cfg, x).Some?
    requires var (k, y) := Accept(cfg, x).value;
             && Holds(cfg, f, kind, a) && k !in f.items
             && OnlyFor(f, f1, k) && k in f1.items && f1.items[k] == [Delta(kind, y)]
    ensures Holds(cfg, f1, kind, a + [x])
  {
    KeysAppend(cfg, a, x);
    forall i | 0 <= i < |a + [x]| ensures
      var (k, y) := Accept(cfg, (a + [x])[i]).value;
      k in f1.items && f1.items[k] == [Delta(kind, y)]
    {
      if i < |a| {
        var k := Accept(cfg, a[i]).value.0;
        assert Pending(f, k) == f.items[k] == Pending(f1, k);
      }
    }
  }

  // Nothing but the list is queued, all of it is initial, and none of it is stored.
  ghost predicate Ready(cfg: Config, s: Informer, kind: DeltaType, list: seq<Item>) {
    && Core(s.fifo) && s.fifo.populated && s.fifo.initialPopulationCount == |list|
    && DistinctKeys(cfg, list) && Holds(cfg, s.fifo, kind, list)
    && forall i :: 0 <= i < |list| ==> Accept(cfg, list[i]).value.0 !in s.client.store
  }

  // Draining a queue that holds a list of new objects announces each of them once, in order.
  lemma {:induction false} DrainList(cfg: Config, s: Informer, kind: DeltaType, list: seq<Item>)
    requires Ready(cfg, s, kind, list) && cfg.KeyPreserving() && kind != Deleted
    ensures AllAllowed(cfg, s, Drain(|list|))
    ensures Moves(cfg, s, Drain(|list|)).client.trace == s.client.trace + InitialAdds(cfg, list)
    decreases |list|
  {
    if list != [] {
      PopFirst(cfg, s, kind, list);
      DrainList(cfg, Move(cfg, s, Pop(false)), kind, list[1..]);
      DrainUnfold(cfg, s, |list|);
      OneMoreAdd(s.client.trace, OnAdd(Accept(cfg, list[0]).value.1, true), InitialAdds(cfg, list[1..]));
    } else {
      assert InitialAdds(cfg, list) == [] && s.client.trace + [] == s.client.trace;
    }
  }

  lemma OneMoreAdd(before: seq<Notification>, n: Notification, after: seq<Notification>)
    ensures (before + [n]) + after == before + ([n] + after)
  {
  }

  // One Pop of such a queue.
  lemma PopFirst(cfg: Config, s: Informer, kind: DeltaType, list: seq<Item>)
    requires Ready(cfg, s, kind, list) && list != [] && cfg.KeyPreserving() && kind != Deleted
    ensures Allowed(cfg, s, Pop(false))
    ensures var t := Move(cfg, s, Pop(false));
            && DistinctKeys(cfg, list[1..]) && Ready(cfg, t, kind, list[1..])
            && t.client.trace == s.client.trace + [OnAdd(Accept(cfg, list[0]).value.1, true)]
  {
    var (k, y) := Accept(cfg, list[0]).value;
    QueueLength(cfg, list);
    assert s.fifo.queue[0] == k && s.fifo.items[k] == [Delta(kind, y)];
    PopOne(cfg, s, Delta(kind, y));
    var t := Move(cfg, s, Pop(false));
    assert t.client == Client(s.client.store[k := y], s.client.trace + [OnAdd(y, true)]);
    TailHolds(cfg, s.fifo, t.fifo, kind, list);
    forall i | 0 <= i < |list[1..]| ensures Accept(cfg, list[1..][i]).value.0 !in t.client.store {
      assert list[1..][i] == list[i + 1];
    }
  }

  // One Pop of a key with one delta.
  lemma PopOne(cfg: Config, s: Informer, d: Delta)
    requires Core(s.fifo) && s.fifo.queue != []
    requires s.fifo.queue[0] in s.fifo.items && s.fifo.items[s.fifo.queue[0]] == [d]
    ensures Allowed(cfg, s, Pop(false))
    ensures var t := Move(cfg, s, Pop(false));
            && t.client == Apply(cfg, s.client, d, !s.fifo.HasSynced()).client
            && Core(t.fifo) && t.fifo.populated == s.fifo.populated
            && t.fifo.queue == s.fifo.queue[1..] && t.fifo.items == s.fifo.items - {s.fifo.queue[0]}
            && t.fifo.initialPopulationCount == Minus(s.fifo.initialPopulationCount, 1)
  {
    TakeHeadCore(s.fifo);
    OneDelta(cfg, s.client, d, !s.fifo.HasSynced());
  }

  lemma TailHolds(cfg: Config, f: Fifo, f1: Fifo, kind: DeltaType, list: seq<Item>)
    requires DistinctKeys(cfg, list) && list != [] && Holds(cfg, f, kind, list)
    requires f1.queue == f.queue[1..] && f1.items == f.items - {Accept(cfg, list[0]).value.0}
    ensures DistinctKeys(cfg, list[1..]) && Holds(cfg, f1, kind, list[1..])
  {
    forall i | 0 <= i < |list[1..]| ensures list[1..][i] == list[i + 1] {}
  }

  // A new informer that is given a list of different objects announces each of them exactly once, as
  // initial, in the order of the list.
  lemma FirstList(cfg: Config, list: seq<Item>)
    requires cfg.KeyPreserving() && DistinctKeys(cfg, list)
    ensures var s := Move(cfg, NewInformer, Replace(list, [], []));
            && Allowed(cfg, NewInformer, Replace(list, [], []))
            && s.fifo.queue == KeysInOrder(cfg, list)
            && AllAllowed(cfg, s, Drain(|list|))
            && Moves(cfg, s, Drain(|list|)).client.trace == InitialAdds(cfg, list)
  {
    QueueList(cfg, list);
    DrainList(cfg, Move(cfg, NewInformer, Replace(list, [], [])), cfg.ReplaceKind(), list);
    assert InitialAdds(cfg, list) == [] + InitialAdds(cfg, list);
  }

  lemma QueueList(cfg: Config, list: seq<Item>)
    requires cfg.KeyPreserving() && DistinctKeys(cfg, list)
    ensures Allowed(cfg, NewInformer, Replace(list, [], []))
    ensures Ready(cfg, Move(cfg, NewInformer, Replace(list, [], [])), cfg.ReplaceKind(), list)
  {
    var f, kind := EmptyFifo, cfg.ReplaceKind();
    assert Holds(cfg, f, kind, []);
    assert [] + list == list;
    QueueRest(cfg, f, kind, [], list);
    ReplaceIntoEmpty(cfg, list);
    QueueLength(cfg, list);
  }

  lemma ReplaceIntoEmpty(cfg: Config, list: seq<Item>)
    requires QueueAll(cfg, EmptyFifo, Puts(cfg.ReplaceKind(), list)).err.None?
    ensures Allowed(cfg, NewInformer, Replace(list, [], []))
    ensures var t := Move(cfg, NewInformer, Replace(list, [], []));
            var q := QueueAll(cfg, EmptyFifo, Puts(cfg.ReplaceKind(), list)).state;
            && t.client == NewInformer.client && Core(t.fifo)
            && t.fifo.items == q.items && t.fifo.queue == q.queue
            && t.fifo.populated && t.fifo.initialPopulationCount == |q.queue|
  {
    EmptySweeps(cfg, EmptyFifo, list);
    assert Enabled(cfg, EmptyFifo, Call(map[], Replace(list, [], [])));
    QuietReplace(cfg, map[], EmptyFifo, list, [], []);
  }

  lemma EmptySweeps(cfg: Config, f: Fifo, list: seq<Item>)
    ensures Puts(cfg.ReplaceKind(), list) + Tombstones(map[], f, [] + []) == Puts(cfg.ReplaceKind(), list)
  {
    var none: seq<Key> := [];
    assert none + none == none;
  }

  lemma {:induction false} QueueLength(cfg: Config, list: seq<Item>)
    requires forall i :: 0 <= i < |list| ==> Accept(cfg, list[i]).Some?
    ensures |KeysInOrder(cfg, list)| == |list|
  {
    if list != [] { QueueLength(cfg, list[1..]); }
  }

  // ---- The object that stands for a missed deletion ----

  // After a relist, the last word on an object that it misses is a deletion with the state in which the
  // informer last heard of it, whether that was queued or only stored. If a deletion was the last word
  // already, nothing is added.
  lemma FinalStates(cfg: Config, s: Informer, list: seq<Item>, gq: seq<Key>, gk: seq<Key>, k: Key)
    requires InformerInv(cfg, s) && FlatState(s) && cfg.WellBehaved()
    requires ReplaceOrders(cfg, s.client.store, s.fifo, list, gq, gk) && k !in KeysOf(cfg, list)
    requires ReplaceOp(cfg, s.client.store, s.fifo, list, gq, gk).err.None?
    ensures var t := ReplaceOp(cfg, s.client.store, s.fifo, list, gq, gk).state;
            && (k in View(s) ==>
                  Pending(t, k) != [] && Newest(Pending(t, k)) == Delta(Deleted, Tombstone(k, View(s)[k])))
            && (k !in View(s) ==> Pending(t, k) == Pending(s.fifo, k))
  {
    var known, gone := s.client.store, gq + gk;
    OrdersUnion(gq, s.fifo.items.Keys - KeysOf(cfg, list), gk, known.Keys - s.fifo.items.Keys - KeysOf(cfg, list));
    assert k in gone <==> k in set j | j in gone;
    if k in gone {
      var i :| 0 <= i < |gone| && gone[i] == k;
      DistinctGone(cfg, known, s.fifo, list, gq, gk);
      GoneContents(cfg, known, s.fifo, list, gone, i);
      LastKnown(cfg, s, k);
    } else {
      NotMentioned(cfg, known, s.fifo, list, gone, k);
    }
  }

  lemma NotMentioned(cfg: Config, known: Known, f: Fifo, list: seq<Item>, gone: seq<Key>, k: Key)
    requires k !in KeysOf(cfg, list) && k !in gone
    ensures var batch := Puts(cfg.ReplaceKind(), list) + Tombstones(known, f, gone);
            Pending(QueueAll(cfg, f, batch).state, k) == Pending(f, k)
  {
    var puts, tombs := Puts(cfg.ReplaceKind(), list), Tombstones(known, f, gone);
    BatchKeysAppend(cfg, puts, tombs);
    PutsBatchKeys(cfg, cfg.ReplaceKind(), list);
    TombstonesBatchKeys(cfg, known, f, gone);
    QueueAllOthers(cfg, f, puts + tombs, k);
  }

  lemma DistinctGone(cfg: Config, known: Known, s: Fifo, list: seq<Item>, gq: seq<Key>, gk: seq<Key>)
    requires ReplaceOrders(cfg, known, s, list, gq, gk)
    ensures Distinct(gq + gk)
  {
    forall i, j | 0 <= i < j < |gq + gk| ensures (gq + gk)[i] != (gq + gk)[j] {
      if i < |gq| <= j { assert (gq + gk)[i] in gq && (gq + gk)[j] in gk; }
    }
  }

  // One more tombstone for a key.
  lemma LastKnown(cfg: Config, s: Informer, k: Key)
    requires InformerInv(cfg, s) && FlatState(s)
    ensures var tomb := Delta(Deleted, Tombstone(k, LatestKnown(s.client.store, s.fifo, k)));
            var ds := Dedup(Pending(s.fifo, k) + [tomb]);
            if k in View(s) then ds != [] && Newest(ds) == Delta(Deleted, Tombstone(k, View(s)[k]))
            else Pending(s.fifo, k) != [] ==> ds == Pending(s.fifo, k)
  {
    var pending := Pending(s.fifo, k);
    if pending == [] {
      assert [] + [Delta(Deleted, Tombstone(k, LatestKnown(s.client.store, s.fifo, k)))]
          == [Delta(Deleted, Tombstone(k, LatestKnown(s.client.store, s.fifo, k)))];
    } else {
      assert GoodDeltas(cfg, k, s.fifo.items[k]);
      assert Newest(pending) in pending && FlatDelta(Newest(pending));
      if Newest(pending).kind == Deleted {
        AnotherTombstone(cfg, pending, k, Newest(pending).item);
      } else {
        LastStateKnown(s, k);
      }
    }
  }

  // The pending deltas of an object that is not deleted end with its last state.
  lemma LastStateKnown(s: Informer, k: Key)
    requires Pending(s.fifo, k) != [] && Newest(Pending(s.fifo, k)).kind != Deleted
    requires FlatDelta(Newest(Pending(s.fifo, k)))
    ensures k in View(s)
    ensures var tomb := Delta(Deleted, Tombstone(k, LatestKnown(s.client.store, s.fifo, k)));
            && tomb == Delta(Deleted, Tombstone(k, View(s)[k]))
            && Dedup(Pending(s.fifo, k) + [tomb]) == Pending(s.fifo, k) + [tomb]
  {
  }

  // A tombstone for what is deleted already changes nothing.
  lemma AnotherTombstone(cfg: Config, ds: Deltas, k: Key, item: Item)
    requires ds != [] && Newest(ds) == Delta(Deleted, item) && cfg.KeyOf(item) == Some(k)
    ensures Dedup(ds + [Delta(Deleted, Tombstone(k, Unwrap(item)))]) == ds
  {
    var tomb := Delta(Deleted, Tombstone(k, Unwrap(item)));
    if item.Tombstone? {
      match item case Tombstone(_, _) =>
      assert Newest(ds) == tomb;
      assert (ds + [tomb])[..|ds| - 1] + [tomb] == ds;
    } else {
      RealDeletionStays(ds, Newest(ds), tomb);
    }
  }

  // So over every history of disciplined producers.
  lemma RelistReports(cfg: Config, acts: seq<Action>, list: seq<Item>, gq: seq<Key>, gk: seq<Key>, k: Key)
    requires cfg.WellBehaved() && NoNewTombstones(cfg)
    requires AllAllowed(cfg, NewInformer, acts) && AllDisciplined(acts)
    requires Allowed(cfg, Moves(cfg, NewInformer, acts), Replace(list, gq, gk))
    requires (forall x :: x in list ==> Accept(cfg, x).Some?) && k !in KeysOf(cfg, list)
    ensures var s := Moves(cfg, NewInformer, acts);
            var t := Move(cfg, s, Replace(list, gq, gk)).fifo;
            && (k in View(s) ==>
                  Pending(t, k) != [] && Newest(Pending(t, k)) == Delta(Deleted, Tombstone(k, View(s)[k])))
            && (k !in View(s) ==> Pending(t, k) == Pending(s.fifo, k))
  {
    EveryHistory(cfg, acts);
    TombstonesNeverNest(cfg, NewInformer, acts);
    var s := Moves(cfg, NewInformer, acts);
    assert GoodPrefix(cfg, list) == |list|;
    ReplaceInformer(cfg, s, list, gq, gk);
    FinalStates(cfg, s, list, gq, gk, k);
  }

  // ---- What passes a filter ----

  ghost predicate Passes(f: Item -> bool, n: Notification) {
    match n
    case OnAdd(x, _) => f(x)
    case OnUpdate(before, x) => f(before) && f(x)
    case OnDelete(x) => f(x)
  }

  // A handler behind a filter is told of nothing that the filter rejects.
  lemma {:induction false} OnlyPassing(f: Item -> bool, trace: seq<Notification>)
    ensures forall n :: n in Filtered(f, trace) ==> Passes(f, n)
    decreases |trace|
  {
    if trace != [] { OnlyPassing(f, trace[1..]); }
  }

  // The objects announced as initial.
  function Announced(trace: seq<Notification>): seq<Item> {
    if trace == [] then []
    else (if trace[0].OnAdd? && trace[0].inInitialList then [trace[0].item] else []) + Announced(trace[1..])
  }

  function Passing(f: Item -> bool, xs: seq<Item>): seq<Item> {
    if xs == [] then [] else (if f(xs[0]) then [xs[0]] else []) + Passing(f, xs[1..])
  }

  lemma Regroup(a: seq<Item>, b: seq<Item>, c: seq<Item>)
    ensures a + (b + c) == (a + b) + c
  {
  }

  lemma {:induction false} AnnouncedAppend(a: seq<Notification>, b: seq<Notification>)
    ensures Announced(a + b) == Announced(a) + Announced(b)
    decreases |a|
  {
    if a == [] {
      assert a + b == b;
    } else {
      assert (a + b)[1..] == a[1..] + b;
      AnnouncedAppend(a[1..], b);
      Regroup(if a[0].OnAdd? && a[0].inInitialList then [a[0].item] else [], Announced(a[1..]), Announced(b));
    }
  }

  lemma {:induction false} PassingAppend(f: Item -> bool, a: seq<Item>, b: seq<Item>)
    ensures Passing(f, a + b) == Passing(f, a) + Passing(f, b)
    decreases |a|
  {
    if a == [] {
      assert a + b == b;
    } else {
      assert (a + b)[1..] == a[1..] + b;
      PassingAppend(f, a[1..], b);
      Regroup(if f(a[0]) then [a[0]] else [], Passing(f, a[1..]), Passing(f, b));
    }
  }

  // The handler behind a filter hears of the initial objects that pass, in order; an object that comes
  // to pass later is not initial.
  lemma {:induction false} InitialPassing(f: Item -> bool, trace: seq<Notification>)
    ensures Announced(Filtered(f, trace)) == Passing(f, Announced(trace))
    decreases |trace|
  {
    if trace != [] {
      InitialPassing(f, trace[1..]);
      var n := trace[0];
      var now := if n.OnAdd? && n.inInitialList then [n.item] else [];
      AnnouncedAppend(FilterOne(f, n), Filtered(f, trace[1..]));
      PassingAppend(f, now, Announced(trace[1..]));
      assert Announced(FilterOne(f, n)) == Passing(f, now) by {
        if FilterOne(f, n) != [] { assert FilterOne(f, n)[1..] == []; }
        if now != [] { assert now[1..] == []; }
      }
    }
  }

  // What an update is for a handler behind a filter that has been right so far, in terms of the copy it
  // has itself: the deletion of exactly the object it holds, an update of it, or a later add.
  lemma UpdateBehindFilter(cfg: Config, f: Item -> bool, m: Known, trace: seq<Notification>, n: Notification)
    requires Keyed(cfg, m) && n.OnUpdate? && cfg.KeyOf(n.after).Some?
    requires FaithfulAt(cfg, f, m, trace, |trace|)
    requires Replay(cfg, m, trace + [n]).Some?
    ensures trace[..|trace|] == trace
    ensures var k, copy := cfg.KeyOf(n.after).value, Replay(cfg, Submap(f, m), Filtered(f, trace)).value;
            Filtered(f, trace + [n]) == Filtered(f, trace) +
              if k in copy then [if f(n.after) then OnUpdate(copy[k], n.after) else OnDelete(copy[k])]
              else if f(n.after) then [OnAdd(n.after, false)]
              else []
  {
    assert trace[..|trace|] == trace;
    ReplayAppend(cfg, m, trace, [n]);
    var whole := Replay(cfg, m, trace).value;
    ReplaySingle(cfg, whole, n);
    FilteredSnoc(f, trace, n);
  }
}
