// The structural invariant of DeltaFIFO and its proof for every operation and every run.
module FifoInvariant {
  import opened Wrappers
  import opened DeltaModel
  import opened FifoSpec

  // What a key's accumulator must look like.
  ghost predicate GoodDeltas(cfg: Config, k: Key, ds: Deltas) {
    && ds != []
    && NoAdjacentDeletes(ds)
    && forall d :: d in ds ==> cfg.KeyOf(d.item) == Some(k)
  }

  // The documented invariant of items and queue.
  ghost predicate Core(s: Fifo) {
    && Enumerates(s.queue, s.items.Keys)
    && (forall k :: k in s.items ==> s.items[k] != [])
    && s.initialPopulationCount <= |s.queue|
    && (!s.populated ==> s.initialPopulationCount == 0)
  }

  ghost predicate Inv(cfg: Config, s: Fifo) {
    && Core(s)
    && s.log.Keys == s.items.Keys
    && (forall k :: k in s.items ==> s.items[k] == Collapse(s.log[k]))
    && (forall k :: k in s.items ==> GoodDeltas(cfg, k, s.items[k]))
    && (forall d :: d in s.delivered ==> GoodDeltas(cfg, d.key, d.deltas))
  }

  // What queue actions may change: they add keys at the end of the queue and nothing else.
  ghost predicate Grows(s: Fifo, t: Fifo) {
    && s.queue <= t.queue
    && s.items.Keys <= t.items.Keys
    && t.populated == s.populated
    && t.initialPopulationCount == s.initialPopulationCount
    && t.closed == s.closed
    && t.delivered == s.delivered
  }

  lemma DedupMembers(ds: Deltas)
    ensures forall d :: d in Dedup(ds) ==> d in ds
    ensures ds != [] ==> Dedup(ds) != []
  {
  }

  lemma EnqueueCore(s: Fifo, id: Key, d: Delta)
    requires Core(s)
    ensures Core(Enqueue(s, id, d))
    ensures Grows(s, Enqueue(s, id, d))
    ensures Enqueue(s, id, d).items.Keys == s.items.Keys + {id}
  {
    DedupMembers(Pending(s, id) + [d]);
  }

  lemma EnqueueInv(cfg: Config, s: Fifo, id: Key, d: Delta)
    requires Inv(cfg, s) && cfg.KeyOf(d.item) == Some(id)
    ensures Inv(cfg, Enqueue(s, id, d))
  {
    EnqueueCore(s, id, d);
    DedupMembers(Pending(s, id) + [d]);
    var log := Logged(s, id);
    assert Collapse([]) == [];
    DedupIsCollapse(log, d);
    CollapseSeparates(log + [d]);
  }

  lemma QueueActionInv(cfg: Config, s: Fifo, kind: DeltaType, item: Item)
    requires Inv(cfg, s) && cfg.KeyPreserving()
    ensures Inv(cfg, QueueAction(cfg, s, kind, item).state)
    ensures Grows(s, QueueAction(cfg, s, kind, item).state)
  {
    if QueueAction(cfg, s, kind, item).err.None? {
      EnqueueInv(cfg, s, cfg.KeyOf(item).value, Delta(kind, cfg.Transform(item).value));
      EnqueueCore(s, cfg.KeyOf(item).value, Delta(kind, cfg.Transform(item).value));
    }
  }

  lemma {:induction false} QueueAllCore(cfg: Config, s: Fifo, batch: seq<Delta>)
    requires Core(s)
    ensures Core(QueueAll(cfg, s, batch).state)
    ensures Grows(s, QueueAll(cfg, s, batch).state)
    decreases |batch|
  {
    if batch != [] {
      var o := QueueAction(cfg, s, batch[0].kind, batch[0].item);
      if o.err.None? {
        EnqueueCore(s, cfg.KeyOf(batch[0].item).value, Delta(batch[0].kind, cfg.Transform(batch[0].item).value));
        QueueAllCore(cfg, o.state, batch[1..]);
      }
    }
  }

  lemma {:induction false} QueueAllInv(cfg: Config, s: Fifo, batch: seq<Delta>)
    requires Inv(cfg, s) && cfg.KeyPreserving()
    ensures Inv(cfg, QueueAll(cfg, s, batch).state)
    decreases |batch|
  {
    if batch != [] {
      var o := QueueAction(cfg, s, batch[0].kind, batch[0].item);
      if o.err.None? {
        QueueActionInv(cfg, s, batch[0].kind, batch[0].item);
        QueueAllInv(cfg, o.state, batch[1..]);
      }
    }
  }

  // The keys that the entries of a batch are for.
  ghost function BatchKeys(cfg: Config, batch: seq<Delta>): set<Key>
    decreases |batch|
  {
    if batch == [] then {}
    else BatchKeys(cfg, batch[1..]) + match cfg.KeyOf(batch[0].item) case None => {} case Some(k) => {k}
  }

  // A complete batch leaves exactly its own keys besides the ones that were queued already.
  lemma {:induction false} QueueAllKeys(cfg: Config, s: Fifo, batch: seq<Delta>)
    requires QueueAll(cfg, s, batch).err.None?
    ensures QueueAll(cfg, s, batch).state.items.Keys == s.items.Keys + BatchKeys(cfg, batch)
    decreases |batch|
  {
    if batch != [] {
      var o := QueueAction(cfg, s, batch[0].kind, batch[0].item);
      QueueAllKeys(cfg, o.state, batch[1..]);
    }
  }

  // Queue actions on other keys leave a key's pending deltas alone.
  lemma {:induction false} QueueAllOthers(cfg: Config, s: Fifo, batch: seq<Delta>, k: Key)
    requires k !in BatchKeys(cfg, batch)
    ensures Pending(QueueAll(cfg, s, batch).state, k) == Pending(s, k)
    decreases |batch|
  {
    if batch != [] {
      var o := QueueAction(cfg, s, batch[0].kind, batch[0].item);
      if o.err.None? { QueueAllOthers(cfg, o.state, batch[1..], k); }
    }
  }

  lemma {:induction false} BatchKeysAppend(cfg: Config, a: seq<Delta>, b: seq<Delta>)
    ensures BatchKeys(cfg, a + b) == BatchKeys(cfg, a) + BatchKeys(cfg, b)
    decreases |a|
  {
    if a == [] {
      assert a + b == b;
    } else {
      assert (a + b)[1..] == a[1..] + b;
      BatchKeysAppend(cfg, a[1..], b);
    }
  }

  lemma {:induction false} PutsBatchKeys(cfg: Config, kind: DeltaType, list: seq<Item>)
    ensures BatchKeys(cfg, Puts(kind, list)) == KeysOf(cfg, list)
    decreases |list|
  {
    if list != [] {
      assert Puts(kind, list)[1..] == Puts(kind, list[1..]);
      PutsBatchKeys(cfg, kind, list[1..]);
    }
  }

  lemma {:induction false} TombstonesBatchKeys(cfg: Config, known: Known, s: Fifo, gone: seq<Key>)
    ensures BatchKeys(cfg, Tombstones(known, s, gone)) == set k | k in gone
    decreases |gone|
  {
    if gone != [] {
      assert Tombstones(known, s, gone)[1..] == Tombstones(known, s, gone[1..]);
      TombstonesBatchKeys(cfg, known, s, gone[1..]);
      assert forall k :: k in gone <==> k == gone[0] || k in gone[1..];
    }
  }

  lemma {:induction false} ResyncCore(cfg: Config, known: Known, s: Fifo, order: seq<Key>)
    requires Core(s)
    ensures Core(ResyncOp(cfg, known, s, order).state)
    ensures Grows(s, ResyncOp(cfg, known, s, order).state)
    decreases |order|
  {
    if order != [] {
      var o := SyncKey(cfg, known, s, order[0]);
      if o.state != s {
        EnqueueCore(s, cfg.KeyOf(known[order[0]]).value, Delta(Sync, cfg.Transform(known[order[0]]).value));
      }
      if o.err.None? { ResyncCore(cfg, known, o.state, order[1..]); }
    }
  }

  lemma {:induction false} ResyncInv(cfg: Config, known: Known, s: Fifo, order: seq<Key>)
    requires Inv(cfg, s) && cfg.KeyPreserving()
    ensures Inv(cfg, ResyncOp(cfg, known, s, order).state)
    decreases |order|
  {
    if order != [] {
      var o := SyncKey(cfg, known, s, order[0]);
      if o.state != s {
        EnqueueInv(cfg, s, cfg.KeyOf(known[order[0]]).value, Delta(Sync, cfg.Transform(known[order[0]]).value));
      }
      if o.err.None? { ResyncInv(cfg, known, o.state, order[1..]); }
    }
  }

  // Two enumerations of one finite set have its size as their length.
  lemma {:induction false} EnumerationLength(order: seq<Key>, keys: set<Key>)
    requires Enumerates(order, keys)
    ensures |order| == |keys|
  {
    if order == [] {
      assert keys == {};
    } else {
      var last := order[|order| - 1];
      var front := order[..|order| - 1];
      assert forall k :: k in front <==> k in keys - {last} by {
        forall k | k in keys - {last} ensures k in front {
          var i :| 0 <= i < |order| && order[i] == k;
          assert front[i] == k;
        }
      }
      EnumerationLength(front, keys - {last});
    }
  }

  // The keys queued by a successful Replace are the listed ones and the pre-existing ones.
  lemma ReplaceKeys(cfg: Config, known: Known, s: Fifo, list: seq<Item>, gq: seq<Key>, gk: seq<Key>)
    requires ReplaceOrders(cfg, known, s, list, gq, gk)
    requires ReplaceOp(cfg, known, s, list, gq, gk).err.None?
    ensures ReplaceOp(cfg, known, s, list, gq, gk).state.items.Keys
            == KeysOf(cfg, list) + s.items.Keys + known.Keys
  {
    var puts, tombs := Puts(cfg.ReplaceKind(), list), Tombstones(known, s, gq + gk);
    QueueAllKeys(cfg, s, puts + tombs);
    BatchKeysAppend(cfg, puts, tombs);
    PutsBatchKeys(cfg, cfg.ReplaceKind(), list);
    TombstonesBatchKeys(cfg, known, s, gq + gk);
    OrdersUnion(gq, s.items.Keys - KeysOf(cfg, list), gk, known.Keys - s.items.Keys - KeysOf(cfg, list));
    AllTogether(s.items.Keys, KeysOf(cfg, list), known.Keys);
  }

  lemma AllTogether(queued: set<Key>, listed: set<Key>, known: set<Key>)
    ensures queued + (listed + ((queued - listed) + (known - queued - listed))) == listed + queued + known
  {
  }

  lemma OrdersUnion(a: seq<Key>, x: set<Key>, b: seq<Key>, y: set<Key>)
    requires Enumerates(a, x) && Enumerates(b, y)
    ensures (set k | k in a + b) == x + y
  {
    forall k ensures k in a + b <==> k in x + y {
      assert k in a + b <==> k in a || k in b;
    }
  }

  lemma DisjointSizes(a: set<Key>, b: set<Key>, c: set<Key>)
    ensures |a + b + c| == |a| + |b - a| + |c - b - a|
  {
    assert a + b + c == a + (b - a) + (c - b - a);
  }

  // The count a populating Replace records is the length of the queue it leaves.
  lemma ReplaceCounts(cfg: Config, known: Known, s: Fifo, list: seq<Item>, gq: seq<Key>, gk: seq<Key>)
    requires Core(s) && !s.populated && ReplaceOrders(cfg, known, s, list, gq, gk)
    requires ReplaceOp(cfg, known, s, list, gq, gk).err.None?
    ensures var t := ReplaceOp(cfg, known, s, list, gq, gk).state;
            t.populated && t.initialPopulationCount == |t.queue|
  {
    var listed := KeysOf(cfg, list);
    var o := QueueAll(cfg, s, Puts(cfg.ReplaceKind(), list) + Tombstones(known, s, gq + gk));
    QueueAllCore(cfg, s, Puts(cfg.ReplaceKind(), list) + Tombstones(known, s, gq + gk));
    ReplaceKeys(cfg, known, s, list, gq, gk);
    EnumerationLength(o.state.queue, o.state.items.Keys);
    EnumerationLength(gq, s.items.Keys - listed);
    EnumerationLength(gk, known.Keys - s.items.Keys - listed);
    DisjointSizes(listed, s.items.Keys, known.Keys);
  }

  lemma ReplaceCore(cfg: Config, known: Known, s: Fifo, list: seq<Item>, gq: seq<Key>, gk: seq<Key>)
    requires Core(s) && ReplaceOrders(cfg, known, s, list, gq, gk)
    ensures Core(ReplaceOp(cfg, known, s, list, gq, gk).state)
  {
    QueueAllCore(cfg, s, Puts(cfg.ReplaceKind(), list) + Tombstones(known, s, gq + gk));
    var o := ReplaceOp(cfg, known, s, list, gq, gk);
    if o.err.None? && !s.populated { ReplaceCounts(cfg, known, s, list, gq, gk); }
  }

  lemma ReplaceInv(cfg: Config, known: Known, s: Fifo, list: seq<Item>, gq: seq<Key>, gk: seq<Key>)
    requires Inv(cfg, s) && cfg.KeyPreserving() && ReplaceOrders(cfg, known, s, list, gq, gk)
    ensures Inv(cfg, ReplaceOp(cfg, known, s, list, gq, gk).state)
  {
    QueueAllInv(cfg, s, Puts(cfg.ReplaceKind(), list) + Tombstones(known, s, gq + gk));
    ReplaceCore(cfg, known, s, list, gq, gk);
  }

  lemma TakeHeadCore(s: Fifo)
    requires Core(s) && s.queue != []
    ensures s.queue[0] in s.items
    ensures Core(TakeHead(s).0)
  {
    var t := TakeHead(s).0;
    forall k ensures k in t.queue <==> k in t.items.Keys {
      if k in t.items {
        var i :| 0 <= i < |s.queue| && s.queue[i] == k;
        assert t.queue[i - 1] == k;
      }
      if k in t.queue {
        var i :| 0 <= i < |t.queue| && t.queue[i] == k;
        assert s.queue[i + 1] == k && s.queue[i + 1] in s.queue;
      }
    }
  }

  lemma AddIfNotPresentCore(s: Fifo, id: Key, deltas: Deltas)
    requires Core(s) && deltas != []
    ensures Core(AddIfNotPresentAt(s, id, deltas))
  {
  }

  lemma AddIfNotPresentInv(cfg: Config, s: Fifo, id: Key, deltas: Deltas)
    requires Inv(cfg, s) && GoodDeltas(cfg, id, deltas)
    ensures Inv(cfg, AddIfNotPresentAt(s, id, deltas))
  {
    CollapseFixes(deltas);
    AddIfNotPresentCore(s, id, deltas);
  }

  lemma RequeueInv(cfg: Config, s: Fifo, deltas: Deltas)
    requires Inv(cfg, s) && exists d :: d in s.delivered && d.deltas == deltas
    ensures Inv(cfg, AddIfNotPresentOp(cfg, s, deltas).state)
  {
    var d :| d in s.delivered && d.deltas == deltas;
    assert cfg.KeyOf(Newest(deltas).item) == Some(d.key) by { assert Newest(deltas) in deltas; }
    AddIfNotPresentInv(cfg, s, d.key, deltas);
  }

  lemma TakeHeadInv(cfg: Config, s: Fifo)
    requires Inv(cfg, s) && s.queue != []
    ensures s.queue[0] in s.items
    ensures Inv(cfg, TakeHead(s).0) && GoodDeltas(cfg, TakeHead(s).1.key, TakeHead(s).1.deltas)
  {
    TakeHeadCore(s);
    var (t, d) := TakeHead(s);
    assert GoodDeltas(cfg, d.key, d.deltas);
    assert t.log.Keys == t.items.Keys;
  }

  lemma PopInv(cfg: Config, s: Fifo, requeue: bool)
    requires Inv(cfg, s) && s.queue != []
    ensures s.queue[0] in s.items
    ensures Inv(cfg, PopOp(s, requeue))
  {
    TakeHeadInv(cfg, s);
    var (t, d) := TakeHead(s);
    if requeue { AddIfNotPresentInv(cfg, t, d.key, d.deltas); }
  }

  lemma StepInv(cfg: Config, s: Fifo, c: Call)
    requires Inv(cfg, s) && cfg.KeyPreserving() && Enabled(cfg, s, c)
    ensures Inv(cfg, Step(cfg, s, c).state)
  {
    var s1 := s.(populated := true);
    match c.action
    case Add(item) => QueueActionInv(cfg, s1, Added, item);
    case Update(item) => QueueActionInv(cfg, s1, Updated, item);
    case Delete(item) => QueueActionInv(cfg, s1, Deleted, item);
    case AddIfNotPresent(deltas) => RequeueInv(cfg, s, deltas);
    case Replace(list, gq, gk) => ReplaceInv(cfg, c.known, s, list, gq, gk);
    case Resync(order) => ResyncInv(cfg, c.known, s, order);
    case Close =>
    case Pop(requeue) => PopInv(cfg, s, requeue);
  }

  // Every run keeps the documented invariant, and compression is faithful throughout:
  // each pending list is the collapse of everything applied to its key.
  lemma {:induction false} RunInv(cfg: Config, s: Fifo, calls: seq<Call>)
    requires Inv(cfg, s) && cfg.KeyPreserving() && Legal(cfg, s, calls)
    ensures Inv(cfg, Run(cfg, s, calls))
    decreases |calls|
  {
    if calls != [] {
      StepInv(cfg, s, calls[0]);
      RunInv(cfg, Step(cfg, s, calls[0]).state, calls[1..]);
    }
  }
}
