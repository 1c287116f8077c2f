// Every move of the informer keeps its invariant and acts on the view as the ideal map does.
module InformerProof {
  import opened Wrappers
  import opened DeltaModel
  import opened FifoSpec
  import opened FifoInvariant
  import opened ProcessSpec
  import opened InformerSpec

  function WithFifo(s: Informer, f: Fifo): Informer {
    s.(fifo := f)
  }

  // The effect of one accepted delta on the view.
  function PutDelta(v: Known, k: Key, d: Delta): Known {
    if d.kind == Deleted then v - {k} else v[k := d.item]
  }

  lemma DedupEnds(ds: Deltas, d: Delta)
    ensures var r := Dedup(ds + [d]);
            && r != []
            && Newest(r).kind == d.kind
            && (d.kind != Deleted ==> Newest(r) == d)
            && (ds != [] ==> r[0].kind == ds[0].kind)
            && (ds == [] ==> r == [d])
            && forall x :: x in r ==> x in ds || x == d
  {
    DedupMembers(ds + [d]);
    assert (ds + [d])[|ds|] == d;
  }

  lemma EnqueueView(s: Informer, id: Key, d: Delta)
    ensures View(WithFifo(s, Enqueue(s.fifo, id, d))) == PutDelta(View(s), id, d)
  {
    DedupEnds(Pending(s.fifo, id), d);
    var t := WithFifo(s, Enqueue(s.fifo, id, d));
    assert Pending(t.fifo, id) == Dedup(Pending(s.fifo, id) + [d]);
    assert ViewAt(t, id) == if d.kind == Deleted then None else Some(d.item);
    forall k | k != id ensures ViewAt(t, k) == ViewAt(s, k) {
      assert Pending(t.fifo, k) == Pending(s.fifo, k);
    }
  }

  lemma EnqueueSettled(cfg: Config, f: Fifo, id: Key, d: Delta)
    requires QueueSettled(cfg, f) && Settled(cfg, d.item)
    ensures QueueSettled(cfg, Enqueue(f, id, d))
  {
    DedupEnds(Pending(f, id), d);
  }

  lemma EnqueueHeads(f: Fifo, store: Known, id: Key, d: Delta)
    requires HeadsKnown(f, store) && Core(f)
    requires d.kind == Deleted ==> id in f.items || id in store
    ensures HeadsKnown(Enqueue(f, id, d), store)
  {
    DedupEnds(Pending(f, id), d);
  }

  lemma EnqueueSound(cfg: Config, s: Informer, id: Key, d: Delta)
    requires Sound(cfg, s) && cfg.KeyOf(d.item) == Some(id)
    requires d.kind == Deleted ==> id in s.fifo.items || id in s.client.store
    ensures Sound(cfg, WithFifo(s, Enqueue(s.fifo, id, d)))
  {
    EnqueueInv(cfg, s.fifo, id, d);
    EnqueueHeads(s.fifo, s.client.store, id, d);
  }

  // ---- Batches ----

  function BatchView(cfg: Config, v: Known, batch: seq<Delta>): Known
    decreases |batch|
  {
    if batch == [] then v
    else match Accept(cfg, batch[0].item)
      case None => v
      case Some((k, y)) => BatchView(cfg, PutDelta(v, k, Delta(batch[0].kind, y)), batch[1..])
  }

  ghost predicate AllAccepted(cfg: Config, batch: seq<Delta>) {
    forall i :: 0 <= i < |batch| ==> Accept(cfg, batch[i].item).Some?
  }

  // Deletions name keys that are queued or stored.
  ghost predicate Justified(cfg: Config, s: Informer, batch: seq<Delta>) {
    forall i :: 0 <= i < |batch| && batch[i].kind == Deleted && cfg.KeyOf(batch[i].item).Some? ==>
      cfg.KeyOf(batch[i].item).value in s.fifo.items.Keys + s.client.store.Keys
  }

  // A batch is queued completely exactly when each of its items is acceptable.
  lemma {:induction false} QueueAllAccepts(cfg: Config, f: Fifo, batch: seq<Delta>)
    ensures QueueAll(cfg, f, batch).err.None? <==> AllAccepted(cfg, batch)
    decreases |batch|
  {
    if batch != [] {
      assert batch == [batch[0]] + batch[1..];
      AcceptedSum(cfg, [batch[0]], batch[1..]);
      assert AllAccepted(cfg, [batch[0]]) <==> Accept(cfg, batch[0].item).Some? by {
        if AllAccepted(cfg, [batch[0]]) { assert [batch[0]][0] == batch[0]; }
      }
      var o := QueueAction(cfg, f, batch[0].kind, batch[0].item);
      if o.err.None? { QueueAllAccepts(cfg, o.state, batch[1..]); }
    }
  }

  lemma JustifiedTail(cfg: Config, s: Informer, t: Informer, batch: seq<Delta>)
    requires Justified(cfg, s, batch) && batch != []
    requires s.fifo.items.Keys <= t.fifo.items.Keys && s.client == t.client
    ensures Justified(cfg, t, batch[1..])
  {
    forall i | 0 <= i < |batch[1..]| ensures batch[1..][i] == batch[i + 1] {}
  }

  lemma {:induction false} QueueAllSound(cfg: Config, s: Informer, batch: seq<Delta>)
    requires Sound(cfg, s) && cfg.KeyPreserving() && Justified(cfg, s, batch)
    ensures Sound(cfg, WithFifo(s, QueueAll(cfg, s.fifo, batch).state))
    decreases |batch|
  {
    if batch != [] && Accept(cfg, batch[0].item).Some? {
      var (id, y) := Accept(cfg, batch[0].item).value;
      var m := WithFifo(s, Enqueue(s.fifo, id, Delta(batch[0].kind, y)));
      EnqueueSound(cfg, s, id, Delta(batch[0].kind, y));
      JustifiedTail(cfg, s, m, batch);
      QueueAllSound(cfg, m, batch[1..]);
    }
  }

  lemma {:induction false} QueueAllInformer(cfg: Config, s: Informer, batch: seq<Delta>)
    requires AllSettled(cfg, s) && cfg.WellBehaved()
    ensures AllSettled(cfg, WithFifo(s, QueueAll(cfg, s.fifo, batch).state))
    ensures View(WithFifo(s, QueueAll(cfg, s.fifo, batch).state)) == BatchView(cfg, View(s), batch)
    decreases |batch|
  {
    if batch != [] && Accept(cfg, batch[0].item).Some? {
      var (id, y) := Accept(cfg, batch[0].item).value;
      var d := Delta(batch[0].kind, y);
      EnqueueSettled(cfg, s.fifo, id, d);
      EnqueueView(s, id, d);
      QueueAllInformer(cfg, WithFifo(s, Enqueue(s.fifo, id, d)), batch[1..]);
    }
  }

  // ---- Add, Update, Delete ----

  lemma PopulatedView(s: Informer)
    ensures View(WithFifo(s, s.fifo.(populated := true))) == View(s)
  {
    SameItems(s, WithFifo(s, s.fifo.(populated := true)));
  }

  lemma PopulatedSound(cfg: Config, s: Informer)
    requires Sound(cfg, s)
    ensures Sound(cfg, WithFifo(s, s.fifo.(populated := true)))
  {
  }

  lemma AddSound(cfg: Config, s: Informer, kind: DeltaType, x: Item)
    requires Sound(cfg, s) && cfg.KeyPreserving() && kind != Deleted
    ensures Sound(cfg, WithFifo(s, AddOp(cfg, s.fifo, kind, x).state))
  {
    PopulatedSound(cfg, s);
    if Accept(cfg, x).Some? {
      var (id, y) := Accept(cfg, x).value;
      EnqueueSound(cfg, WithFifo(s, s.fifo.(populated := true)), id, Delta(kind, y));
    }
  }

  lemma AddInformer(cfg: Config, s: Informer, kind: DeltaType, x: Item)
    requires AllSettled(cfg, s) && cfg.WellBehaved() && kind != Deleted
    ensures var t := WithFifo(s, AddOp(cfg, s.fifo, kind, x).state);
            AllSettled(cfg, t) && View(t) == Put(cfg, View(s), x)
  {
    var s1 := WithFifo(s, s.fifo.(populated := true));
    PopulatedView(s);
    if Accept(cfg, x).Some? {
      var (id, y) := Accept(cfg, x).value;
      EnqueueSettled(cfg, s1.fifo, id, Delta(kind, y));
      EnqueueView(s1, id, Delta(kind, y));
    }
  }

  lemma DeleteSound(cfg: Config, s: Informer, x: Item)
    requires Sound(cfg, s) && cfg.KeyPreserving()
    ensures Sound(cfg, WithFifo(s, DeleteOp(cfg, s.client.store, s.fifo, x).state))
  {
    if Accept(cfg, x).Some? {
      var (id, y) := Accept(cfg, x).value;
      if id in s.fifo.items || id in s.client.store {
        var s1 := WithFifo(s, s.fifo.(populated := true));
        PopulatedSound(cfg, s);
        EnqueueSound(cfg, s1, id, Delta(Deleted, y));
        assert DeleteOp(cfg, s.client.store, s.fifo, x).state == Enqueue(s1.fifo, id, Delta(Deleted, y));
        return;
      }
    }
    PopulatedSound(cfg, s);
  }

  lemma DeleteInformer(cfg: Config, s: Informer, x: Item)
    requires AllSettled(cfg, s) && cfg.WellBehaved()
    ensures var t := WithFifo(s, DeleteOp(cfg, s.client.store, s.fifo, x).state);
            AllSettled(cfg, t) && View(t) == Ideal(cfg, View(s), Delete(x))
  {
    if cfg.KeyOf(x).Some? {
      var s1 := WithFifo(s, s.fifo.(populated := true));
      PopulatedView(s);
      var id := cfg.KeyOf(x).value;
      if id !in s.fifo.items && id !in s.client.store {
        assert View(s) - {id} == View(s);
      } else if Accept(cfg, x).Some? {
        var y := Accept(cfg, x).value.1;
        EnqueueSettled(cfg, s1.fifo, id, Delta(Deleted, y));
        EnqueueView(s1, id, Delta(Deleted, y));
      }
    }
  }

  // ---- Replace ----

  lemma {:induction false} PutsView(cfg: Config, v: Known, kind: DeltaType, list: seq<Item>)
    requires kind != Deleted
    ensures BatchView(cfg, v, Puts(kind, list)) == PutAll(cfg, v, list[..GoodPrefix(cfg, list)])
    ensures AllAccepted(cfg, Puts(kind, list)) <==> GoodPrefix(cfg, list) == |list|
    decreases |list|
  {
    var batch := Puts(kind, list);
    if list == [] {
    } else {
      assert batch[0].item == list[0];
      assert batch[1..] == Puts(kind, list[1..]);
      PutsView(cfg, Put(cfg, v, list[0]), kind, list[1..]);
      if Accept(cfg, list[0]).Some? {
        assert list[..GoodPrefix(cfg, list)][1..] == list[1..][..GoodPrefix(cfg, list[1..])];
      }
      PutsAt(kind, list);
    }
  }

  lemma {:induction false} TombstonesView(cfg: Config, v: Known, known: Known, f: Fifo, gone: seq<Key>)
    requires cfg.WellBehaved()
    ensures AllAccepted(cfg, Tombstones(known, f, gone))
    ensures BatchView(cfg, v, Tombstones(known, f, gone)) == v - set k | k in gone
    decreases |gone|
  {
    var batch := Tombstones(known, f, gone);
    if gone == [] {
      assert v - (set k | k in gone) == v;
    } else {
      assert batch[1..] == Tombstones(known, f, gone[1..]);
      TombstonesView(cfg, v - {gone[0]}, known, f, gone[1..]);
      assert (set k | k in gone) == {gone[0]} + set k | k in gone[1..];
      assert v - {gone[0]} - (set k | k in gone[1..]) == v - (set k | k in gone);
    }
  }

  lemma {:induction false} BatchViewAppend(cfg: Config, v: Known, a: seq<Delta>, b: seq<Delta>)
    ensures BatchView(cfg, v, a + b)
            == if AllAccepted(cfg, a) then BatchView(cfg, BatchView(cfg, v, a), b) else BatchView(cfg, v, a)
    decreases |a|
  {
    if a == [] {
      assert a + b == b;
    } else {
      assert (a + b)[1..] == a[1..] + b;
      if Accept(cfg, a[0].item).Some? {
        var (k, y) := Accept(cfg, a[0].item).value;
        BatchViewAppend(cfg, PutDelta(v, k, Delta(a[0].kind, y)), a[1..], b);
        if AllAccepted(cfg, a[1..]) {
          forall i | 0 <= i < |a| ensures Accept(cfg, a[i].item).Some? {
            if i > 0 { assert a[i] == a[1..][i - 1]; }
          }
        } else {
          var i :| 0 <= i < |a[1..]| && Accept(cfg, a[1..][i].item).None?;
          assert a[i + 1] == a[1..][i];
        }
      }
    }
  }

  // Putting a list on top of a map determines the listed keys whatever the map was.
  lemma {:induction false} PutAllDecomposes(cfg: Config, v: Known, list: seq<Item>)
    requires GoodPrefix(cfg, list) == |list|
    ensures PutAll(cfg, v, list) == v + PutAll(cfg, map[], list)
    ensures PutAll(cfg, map[], list).Keys == KeysOf(cfg, list)
    decreases |list|
  {
    if list == [] {
      assert v + map[] == v;
    } else {
      var (k, y) := Accept(cfg, list[0]).value;
      PutAllDecomposes(cfg, v[k := y], list[1..]);
      PutAllDecomposes(cfg, map[k := y], list[1..]);
      var rest := PutAll(cfg, map[], list[1..]);
      assert Put(cfg, map[], list[0]) == map[k := y];
      assert v[k := y] + rest == v + (map[k := y] + rest);
    }
  }

  lemma ReplaceExact(cfg: Config, s: Informer, list: seq<Item>, gq: seq<Key>, gk: seq<Key>)
    requires ReplaceOrders(cfg, s.client.store, s.fifo, list, gq, gk)
    requires GoodPrefix(cfg, list) == |list|
    ensures PutAll(cfg, View(s), list) - (set k | k in gq + gk) == PutAll(cfg, map[], list)
  {
    var listed := KeysOf(cfg, list);
    PutAllDecomposes(cfg, View(s), list);
    OrdersUnion(gq, s.fifo.items.Keys - listed, gk, s.client.store.Keys - s.fifo.items.Keys - listed);
    ViewKeys(s);
    MapCover(View(s), PutAll(cfg, map[], list),
             (s.fifo.items.Keys - listed) + (s.client.store.Keys - s.fifo.items.Keys - listed));
  }

  lemma ViewKeys(s: Informer)
    ensures View(s).Keys <= s.fifo.items.Keys + s.client.store.Keys
  {
  }

  lemma MapCover(v: Known, w: Known, gone: set<Key>)
    requires gone !! w.Keys && v.Keys <= gone + w.Keys
    ensures v + w - gone == w
  {
  }

  lemma ReplaceJustified(cfg: Config, s: Informer, list: seq<Item>, gq: seq<Key>, gk: seq<Key>)
    requires ReplaceOrders(cfg, s.client.store, s.fifo, list, gq, gk)
    ensures Justified(cfg, s, Puts(cfg.ReplaceKind(), list) + Tombstones(s.client.store, s.fifo, gq + gk))
  {
    var puts, tombs := Puts(cfg.ReplaceKind(), list), Tombstones(s.client.store, s.fifo, gq + gk);
    var batch := puts + tombs;
    forall i | 0 <= i < |batch| && batch[i].kind == Deleted
      ensures cfg.KeyOf(batch[i].item).Some?
      ensures cfg.KeyOf(batch[i].item).value in s.fifo.items.Keys + s.client.store.Keys
    {
      PutsAt(cfg.ReplaceKind(), list);
      TombstonesAt(s.client.store, s.fifo, gq + gk);
      assert i >= |puts| by { assert forall j :: 0 <= j < |puts| ==> batch[j] == puts[j]; }
      var k := (gq + gk)[i - |puts|];
      assert batch[i] == tombs[i - |puts|];
      assert k in gq || k in gk;
    }
  }

  lemma ReplaceView(cfg: Config, s: Informer, list: seq<Item>, gq: seq<Key>, gk: seq<Key>)
    requires cfg.WellBehaved() && ReplaceOrders(cfg, s.client.store, s.fifo, list, gq, gk)
    ensures var batch := Puts(cfg.ReplaceKind(), list) + Tombstones(s.client.store, s.fifo, gq + gk);
            && BatchView(cfg, View(s), batch) == Ideal(cfg, View(s), Replace(list, gq, gk))
            && (AllAccepted(cfg, batch) <==> GoodPrefix(cfg, list) == |list|)
  {
    var puts, tombs := Puts(cfg.ReplaceKind(), list), Tombstones(s.client.store, s.fifo, gq + gk);
    PutsView(cfg, View(s), cfg.ReplaceKind(), list);
    BatchViewAppend(cfg, View(s), puts, tombs);
    TombstonesView(cfg, BatchView(cfg, View(s), puts), s.client.store, s.fifo, gq + gk);
    AcceptedSum(cfg, puts, tombs);
    if GoodPrefix(cfg, list) == |list| {
      assert list[..|list|] == list;
      ReplaceExact(cfg, s, list, gq, gk);
    }
  }

  lemma ReplaceSound(cfg: Config, s: Informer, list: seq<Item>, gq: seq<Key>, gk: seq<Key>)
    requires Sound(cfg, s) && cfg.KeyPreserving()
    requires ReplaceOrders(cfg, s.client.store, s.fifo, list, gq, gk)
    ensures Sound(cfg, WithFifo(s, ReplaceOp(cfg, s.client.store, s.fifo, list, gq, gk).state))
  {
    ReplaceJustified(cfg, s, list, gq, gk);
    QueueAllSound(cfg, s, Puts(cfg.ReplaceKind(), list) + Tombstones(s.client.store, s.fifo, gq + gk));
    ReplaceInv(cfg, s.client.store, s.fifo, list, gq, gk);
  }

  lemma ReplaceInformer(cfg: Config, s: Informer, list: seq<Item>, gq: seq<Key>, gk: seq<Key>)
    requires AllSettled(cfg, s) && cfg.WellBehaved()
    requires ReplaceOrders(cfg, s.client.store, s.fifo, list, gq, gk)
    ensures var o := ReplaceOp(cfg, s.client.store, s.fifo, list, gq, gk);
            && AllSettled(cfg, WithFifo(s, o.state))
            && View(WithFifo(s, o.state)) == Ideal(cfg, View(s), Replace(list, gq, gk))
            && (o.err.None? <==> GoodPrefix(cfg, list) == |list|)
  {
    var batch := Puts(cfg.ReplaceKind(), list) + Tombstones(s.client.store, s.fifo, gq + gk);
    QueueAllInformer(cfg, s, batch);
    QueueAllAccepts(cfg, s.fifo, batch);
    ReplaceView(cfg, s, list, gq, gk);
    var m := QueueAll(cfg, s.fifo, batch).state;
    var t := ReplaceOp(cfg, s.client.store, s.fifo, list, gq, gk).state;
    SameItems(WithFifo(s, m), WithFifo(s, t));
  }

  lemma AcceptedSum(cfg: Config, a: seq<Delta>, b: seq<Delta>)
    ensures AllAccepted(cfg, a + b) <==> AllAccepted(cfg, a) && AllAccepted(cfg, b)
  {
    if AllAccepted(cfg, a + b) {
      forall i | 0 <= i < |a| ensures Accept(cfg, a[i].item).Some? { assert a[i] == (a + b)[i]; }
      forall i | 0 <= i < |b| ensures Accept(cfg, b[i].item).Some? { assert b[i] == (a + b)[|a| + i]; }
    }
  }

  lemma SameItems(s: Informer, t: Informer)
    requires s.fifo.items == t.fifo.items && s.client == t.client
    ensures View(s) == View(t)
  {
    forall k ensures ViewAt(s, k) == ViewAt(t, k) {}
  }

  // ---- Resync ----

  lemma SyncKeySound(cfg: Config, s: Informer, k: Key)
    requires Sound(cfg, s) && cfg.KeyPreserving()
    ensures Sound(cfg, WithFifo(s, SyncKey(cfg, s.client.store, s.fifo, k).state))
  {
    if k in s.client.store && Pending(s.fifo, k) == [] && Accept(cfg, s.client.store[k]).Some? {
      EnqueueSound(cfg, s, k, Delta(Sync, Accept(cfg, s.client.store[k]).value.1));
    }
  }

  lemma {:induction false} ResyncSound(cfg: Config, s: Informer, order: seq<Key>)
    requires Sound(cfg, s) && cfg.KeyPreserving()
    ensures Sound(cfg, WithFifo(s, ResyncOp(cfg, s.client.store, s.fifo, order).state))
    decreases |order|
  {
    if order != [] {
      var o := SyncKey(cfg, s.client.store, s.fifo, order[0]);
      SyncKeySound(cfg, s, order[0]);
      if o.err.None? { ResyncSound(cfg, WithFifo(s, o.state), order[1..]); }
    }
  }

  lemma {:induction false} ResyncInformer(cfg: Config, s: Informer, order: seq<Key>)
    requires Keyed(cfg, s.client.store) && AllSettled(cfg, s)
    ensures var o := ResyncOp(cfg, s.client.store, s.fifo, order);
            && o.err.None?
            && AllSettled(cfg, WithFifo(s, o.state))
            && View(WithFifo(s, o.state)) == View(s)
    decreases |order|
  {
    if order != [] {
      var k := order[0];
      var m := WithFifo(s, SyncKey(cfg, s.client.store, s.fifo, k).state);
      if k in s.client.store && Pending(s.fifo, k) == [] {
        var x := s.client.store[k];
        EnqueueSettled(cfg, s.fifo, k, Delta(Sync, x));
        EnqueueView(s, k, Delta(Sync, x));
        assert View(s)[k := x] == View(s);
      }
      assert AllSettled(cfg, m) && View(m) == View(s);
      ResyncInformer(cfg, m, order[1..]);
      assert WithFifo(m, ResyncOp(cfg, s.client.store, m.fifo, order[1..]).state)
          == WithFifo(s, ResyncOp(cfg, s.client.store, s.fifo, order).state);
    }
  }

  // ---- Pop ----

  lemma PopSound(cfg: Config, s: Informer)
    requires Sound(cfg, s) && s.fifo.queue != []
    ensures s.fifo.queue[0] in s.fifo.items
    ensures Sound(cfg, PopProcess(cfg, s))
    ensures View(PopProcess(cfg, s)) == View(s)
    ensures var (_, d) := TakeHead(s.fifo); Process(cfg, s.client, d.deltas, d.inInitialList).err.None?
  {
    TakeHeadInv(cfg, s.fifo);
    var (f, d) := TakeHead(s.fifo);
    var t := PopProcess(cfg, s);
    ProcessGood(cfg, s.client, d.key, d.deltas, d.inInitialList);
    assert Newest(d.deltas) == s.fifo.items[d.key][|d.deltas| - 1];
    assert Newest(d.deltas) in d.deltas;
    PopView(s, t, d);
  }

  lemma {:induction false} ProcessSettled(cfg: Config, c: Client, ds: Deltas, init: bool)
    requires StoreSettled(cfg, c.store) && TraceSettled(cfg, c.trace) && forall d :: d in ds ==> Settled(cfg, d.item)
    ensures var c1 := Process(cfg, c, ds, init).client;
            StoreSettled(cfg, c1.store) && TraceSettled(cfg, c1.trace)
    decreases |ds|
  {
    if ds != [] {
      assert Settled(cfg, ds[0].item);
      var r := Apply(cfg, c, ds[0], init);
      if r.err.None? { ProcessSettled(cfg, r.client, ds[1..], init); }
    }
  }

  lemma PopInformer(cfg: Config, s: Informer)
    requires AllSettled(cfg, s) && s.fifo.queue != [] && s.fifo.queue[0] in s.fifo.items
    ensures AllSettled(cfg, PopProcess(cfg, s))
  {
    var (f, d) := TakeHead(s.fifo);
    ProcessSettled(cfg, s.client, d.deltas, d.inInitialList);
  }

  lemma PopIsAMove(cfg: Config, s: Informer)
    requires s.fifo.queue != [] && s.fifo.queue[0] in s.fifo.items
    ensures Allowed(cfg, s, Pop(false)) && Move(cfg, s, Pop(false)) == PopProcess(cfg, s)
    ensures |PopProcess(cfg, s).fifo.queue| == |s.fifo.queue| - 1
  {
  }

  lemma PopView(s: Informer, t: Informer, d: Delivery)
    requires d.key in s.fifo.items && d.deltas == s.fifo.items[d.key] != []
    requires t.fifo.items == s.fifo.items - {d.key}
    requires t.client.store == if Newest(d.deltas).kind == Deleted then s.client.store - {d.key}
                               else s.client.store[d.key := Newest(d.deltas).item]
    ensures View(t) == View(s)
  {
    forall k ensures ViewAt(t, k) == ViewAt(s, k) {
      assert k != d.key ==> Pending(t.fifo, k) == Pending(s.fifo, k);
    }
  }

  lemma EmptyQueueView(cfg: Config, s: Informer)
    requires Sound(cfg, s) && s.fifo.queue == []
    ensures View(s) == s.client.store
  {
    assert s.fifo.items.Keys == {} by {
      assert forall k :: k in s.fifo.items ==> k in s.fifo.queue;
    }
  }

  // ---- Any move, any run ----

  // Whatever the transformer does to the content of objects, each move keeps the queue in order and
  // the notifications in agreement with the store.
  lemma MoveSound(cfg: Config, s: Informer, a: Action)
    requires Sound(cfg, s) && cfg.KeyPreserving() && Allowed(cfg, s, a)
    ensures Sound(cfg, Move(cfg, s, a))
  {
    match a
    case Add(x) => AddSound(cfg, s, Added, x);
    case Update(x) => AddSound(cfg, s, Updated, x);
    case Delete(x) => DeleteSound(cfg, s, x);
    case Replace(list, gq, gk) => ReplaceSound(cfg, s, list, gq, gk);
    case Resync(order) => ResyncSound(cfg, s, order);
    case Close =>
    case Pop(_) => PopSound(cfg, s);
  }

  lemma {:induction false} RunSound(cfg: Config, s: Informer, acts: seq<Action>)
    requires Sound(cfg, s) && cfg.KeyPreserving() && AllAllowed(cfg, s, acts)
    ensures Sound(cfg, Moves(cfg, s, acts))
    decreases |acts|
  {
    if acts != [] {
      MoveSound(cfg, s, acts[0]);
      RunSound(cfg, Move(cfg, s, acts[0]), acts[1..]);
    }
  }

  lemma MoveRefines(cfg: Config, s: Informer, a: Action)
    requires InformerInv(cfg, s) && cfg.WellBehaved() && Allowed(cfg, s, a)
    ensures InformerInv(cfg, Move(cfg, s, a))
    ensures View(Move(cfg, s, a)) == Ideal(cfg, View(s), a)
  {
    MoveSound(cfg, s, a);
    match a
    case Add(x) => AddInformer(cfg, s, Added, x);
    case Update(x) => AddInformer(cfg, s, Updated, x);
    case Delete(x) => DeleteInformer(cfg, s, x);
    case Replace(list, gq, gk) => ReplaceInformer(cfg, s, list, gq, gk);
    case Resync(order) => ResyncInformer(cfg, s, order);
    case Close => SameItems(s, Move(cfg, s, a));
    case Pop(_) =>
      PopSound(cfg, s);
      PopInformer(cfg, s);
  }

  // The informer refines a plain map with put, delete and become-exactly-this-list: over every
  // run the view moves as the map does, and resyncs, pops and Close are invisible.
  lemma {:induction false} RunRefines(cfg: Config, s: Informer, acts: seq<Action>)
    requires InformerInv(cfg, s) && cfg.WellBehaved() && AllAllowed(cfg, s, acts)
    ensures InformerInv(cfg, Moves(cfg, s, acts))
    ensures View(Moves(cfg, s, acts)) == IdealRun(cfg, View(s), acts)
    decreases |acts|
  {
    if acts != [] {
      MoveRefines(cfg, s, acts[0]);
      RunRefines(cfg, Move(cfg, s, acts[0]), acts[1..]);
    }
  }
}
