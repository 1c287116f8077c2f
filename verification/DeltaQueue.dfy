// DeltaFIFO itself (tools/cache/delta_fifo.go): the locked methods, each an atomic step, proved
// to do what FifoSpec says.
module DeltaQueue {
  import opened Wrappers
  import opened DeltaModel
  import opened FifoSpec
  import opened FifoInvariant
  import opened ClientStore

  class DeltaFIFO {
    const cfg: Config
    const knownObjects: Store?

    var items: map<Key, Deltas>
    var queue: seq<Key>
    var populated: bool
    var initialPopulationCount: nat
    var closed: bool

    ghost var log: map<Key, seq<Delta>>
    ghost var delivered: seq<Delivery>

    ghost function Model(): Fifo
      reads this
    {
      Fifo(items, queue, populated, initialPopulationCount, closed, log, delivered)
    }

    ghost function Known(): Known
      reads knownObjects
    {
      if knownObjects == null then map[] else knownObjects.items
    }

    ghost predicate Valid()
      reads this
    {
      Core(Model())
    }

    constructor (cfg: Config, knownObjects: Store?)
      ensures Valid() && Model() == EmptyFifo
      ensures this.cfg == cfg && this.knownObjects == knownObjects
    {
      this.cfg := cfg;
      this.knownObjects := knownObjects;
      items, queue, populated, initialPopulationCount, closed := map[], [], false, 0, false;
      log, delivered := map[], [];
    }

    method Close()
      requires Valid()
      modifies this
      ensures Valid() && Model() == old(Model()).(closed := true)
    {
      closed := true;
    }

    method HasSynced() returns (synced: bool)
      ensures synced == Model().HasSynced()
    {
      synced := populated && initialPopulationCount == 0;
    }

    method QueueActionLocked(kind: DeltaType, item: Item) returns (err: Option<Error>)
      requires Valid()
      modifies this
      ensures Valid()
      ensures Outcome(Model(), err) == QueueAction(cfg, old(Model()), kind, item)
      ensures Grows(old(Model()), Model())
    {
      var key := cfg.KeyOf(item);
      if key.None? { return Some(KeyError); }
      var id := key.value;
      var transformed := cfg.Transform(item);
      if transformed.None? { return Some(TransformError); }
      var obj := transformed.value;
      ghost var target := Enqueue(Model(), id, Delta(kind, obj));
      EnqueueCore(Model(), id, Delta(kind, obj));

      var oldDeltas := if id in items then items[id] else [];
      var newDeltas := AppendDelta(oldDeltas, Delta(kind, obj));
      if |newDeltas| > 0 {
        if id !in items { queue := queue + [id]; }
        items := items[id := newDeltas];
      } else {
        assert false;
      }
      log := target.log;
      err := None;
    }

    // append followed by dedupDeltas. The slice is owned by the queue, so it is a fresh array here.
    static method AppendDelta(oldDeltas: Deltas, d: Delta) returns (newDeltas: Deltas)
      ensures newDeltas == Dedup(oldDeltas + [d])
      ensures newDeltas != []
    {
      var slice := new Delta[|oldDeltas| + 1](i requires 0 <= i < |oldDeltas| + 1 =>
        if i < |oldDeltas| then oldDeltas[i] else d);
      assert slice[..] == oldDeltas + [d];
      var n := DedupDeltas(slice);
      newDeltas := slice[..n];
      DedupMembers(oldDeltas + [d]);
    }

    method Add(item: Item) returns (err: Option<Error>)
      requires Valid()
      modifies this
      ensures Valid()
      ensures Outcome(Model(), err) == Step(cfg, old(Model()), Call(Known(), FifoSpec.Add(item)))
    {
      populated := true;
      err := QueueActionLocked(Added, item);
    }

    method Update(item: Item) returns (err: Option<Error>)
      requires Valid()
      modifies this
      ensures Valid()
      ensures Outcome(Model(), err) == Step(cfg, old(Model()), Call(Known(), FifoSpec.Update(item)))
    {
      populated := true;
      err := QueueActionLocked(Updated, item);
    }

    method Delete(item: Item) returns (err: Option<Error>)
      requires Valid()
      modifies this
      ensures Valid()
      ensures Outcome(Model(), err) == Step(cfg, old(Model()), Call(Known(), FifoSpec.Delete(item)))
    {
      var key := cfg.KeyOf(item);
      if key.None? { return Some(KeyError); }
      var id := key.value;
      populated := true;
      if knownObjects == null {
        if id !in items { return None; }
      } else {
        var stored := knownObjects.GetByKey(id);
        if stored.None? && id !in items { return None; }
      }
      err := QueueActionLocked(Deleted, item);
    }

    method AddIfNotPresentLocked(id: Key, deltas: Deltas)
      requires Valid() && deltas != []
      modifies this
      ensures Valid() && Model() == AddIfNotPresentAt(old(Model()), id, deltas)
    {
      AddIfNotPresentCore(Model(), id, deltas);
      populated := true;
      if id in items { return; }
      queue := queue + [id];
      items := items[id := deltas];
      log := log[id := deltas];
    }

    method AddIfNotPresent(deltas: Deltas) returns (err: Option<Error>)
      requires Valid()
      modifies this
      ensures Valid()
      ensures Outcome(Model(), err) == Step(cfg, old(Model()), Call(Known(), FifoSpec.AddIfNotPresent(deltas)))
    {
      if |deltas| == 0 { return Some(KeyError); }
      var key := cfg.KeyOf(Newest(deltas).item);
      if key.None? { return Some(KeyError); }
      AddIfNotPresentLocked(key.value, deltas);
      err := None;
    }

    // Pop up to the call of the process function. The caller waits while the queue is empty and
    // open, so here it is not both.
    method TakeHead() returns (r: Result<Delivery, Error>)
      requires Valid() && (queue != [] || closed)
      modifies this
      ensures Valid()
      ensures r.Err? <==> old(queue) == []
      ensures r.Err? ==> r.error == FIFOClosed && Model() == old(Model())
      ensures r.Ok? ==> old(queue)[0] in old(items) && (Model(), r.value) == FifoSpec.TakeHead(old(Model()))
    {
      if |queue| == 0 { return Err(FIFOClosed); }
      TakeHeadCore(Model());
      var isInInitialList := !(populated && initialPopulationCount == 0);
      var id := queue[0];
      queue := queue[1..];
      if initialPopulationCount > 0 { initialPopulationCount := initialPopulationCount - 1; }
      if id !in items { assert false; }
      var item := items[id];
      items := items - {id};
      log := log - {id};
      delivered := delivered + [Delivery(id, item, isInInitialList)];
      r := Ok(Delivery(id, item, isInInitialList));
    }

    // Pop with a process function that leaves the queue and the known objects alone. answer is the
    // error it returned, if any; it counts as ErrRequeue if requeue is set. The caller gets the
    // deltas and the error, without the request to put the deltas back.
    method Pop(answer: Option<Error>, requeue: bool) returns (r: Option<Deltas>, err: Option<Error>)
      requires Valid() && (queue != [] || closed)
      modifies this
      ensures Valid()
      ensures r.None? <==> old(queue) == []
      ensures Model() == Step(cfg, old(Model()), Call(Known(), FifoSpec.Pop(requeue))).state
      ensures r.None? ==> err == Some(FIFOClosed)
      ensures r.Some? ==> r.value == old(items)[old(queue)[0]] && err == answer
    {
      var head := TakeHead();
      match head
      case Err(e) => return None, Some(e);
      case Ok(d) =>
        if requeue { AddIfNotPresentLocked(d.key, d.deltas); }
        return Some(d.deltas), answer;
    }

    // ---- Resync ----

    method SyncKeyLocked(k: Key) returns (err: Option<Error>)
      requires Valid() && knownObjects != null
      modifies this
      ensures Valid()
      ensures Outcome(Model(), err) == SyncKey(cfg, Known(), old(Model()), k)
    {
      var stored := knownObjects.GetByKey(k);
      if stored.None? { return None; }
      var key := cfg.KeyOf(stored.value);
      if key.None? { return Some(KeyError); }
      if key.value in items && |items[key.value]| > 0 { return None; }
      err := QueueActionLocked(Sync, stored.value);
    }

    method Resync() returns (err: Option<Error>, ghost order: seq<Key>)
      requires Valid()
      modifies this
      ensures Valid()
      ensures Enumerates(order, Known().Keys)
      ensures Outcome(Model(), err) == Step(cfg, old(Model()), Call(Known(), FifoSpec.Resync(order)))
    {
      if knownObjects == null {
        order := [];
        return None, order;
      }
      var keys := knownObjects.ListKeys();
      order := keys;
      ghost var call := Call(Known(), FifoSpec.Resync(order));
      assert Step(cfg, Model(), call) == ResyncOp(cfg, Known(), Model(), order);
      err := ResyncIn(keys, Known());
    }

    method ResyncIn(keys: seq<Key>, ghost known: Known) returns (err: Option<Error>)
      requires Valid() && knownObjects != null && known == Known()
      modifies this
      ensures Valid()
      ensures Outcome(Model(), err) == ResyncOp(cfg, known, old(Model()), keys)
    {
      var i := 0;
      assert keys[0..] == keys;
      while i < |keys|
        invariant 0 <= i <= |keys|
        invariant Valid()
        invariant ResyncOp(cfg, known, old(Model()), keys) == ResyncOp(cfg, known, Model(), keys[i..])
      {
        ResyncStep(cfg, known, Model(), keys, i);
        err := SyncKeyLocked(keys[i]);
        if err.Some? { return; }
        i := i + 1;
      }
      err := None;
    }

    // ---- Replace ----

    // The first loop of Replace.
    method PutListed(kind: DeltaType, list: seq<Item>) returns (keys: set<Key>, err: Option<Error>)
      requires Valid()
      modifies this
      ensures Valid()
      ensures Outcome(Model(), err) == QueueAll(cfg, old(Model()), Puts(kind, list))
      ensures err.None? ==> keys == KeysOf(cfg, list)
    {
      keys := {};
      var i := 0;
      assert list[0..] == list;
      while i < |list|
        invariant 0 <= i <= |list|
        invariant Valid()
        invariant QueueAll(cfg, old(Model()), Puts(kind, list)) == QueueAll(cfg, Model(), Puts(kind, list[i..]))
        invariant KeysOf(cfg, list) == keys + KeysOf(cfg, list[i..])
      {
        PutsStep(cfg, Model(), kind, list, i);
        keys, err := PutOne(kind, list[i], keys);
        if err.Some? { return; }
        i := i + 1;
      }
      err := None;
    }

    // The body of the loop.
    method PutOne(kind: DeltaType, item: Item, keys: set<Key>) returns (keys': set<Key>, err: Option<Error>)
      requires Valid()
      modifies this
      ensures Valid()
      ensures Outcome(Model(), err) == QueueAction(cfg, old(Model()), kind, item)
      ensures err.None? ==> cfg.KeyOf(item).Some? && keys' == keys + {cfg.KeyOf(item).value}
    {
      var key := cfg.KeyOf(item);
      if key.None? { return keys, Some(KeyError); }
      keys' := keys + {key.value};
      err := QueueActionLocked(kind, item);
    }

    // The second loop of Replace: queued keys that are not listed.
    method SweepQueued(keys: set<Key>) returns (queuedDeletions: nat, err: Option<Error>, ghost gone: seq<Key>)
      requires Valid()
      modifies this
      ensures Valid()
      ensures Outcome(Model(), err) == QueueAll(cfg, old(Model()), Tombstones(Known(), old(Model()), gone))
      ensures Enumerates(gone, old(items).Keys - keys)
      ensures err.None? ==> queuedDeletions == |gone|
    {
      // overwriting entries while iterating does not change which keys are visited
      var order := InSomeOrder(items.Keys);
      gone := Missing(order, keys);
      MissingEnumerates(order, items.Keys, keys);
      queuedDeletions, err := SweepQueuedIn(order, keys, Model(), gone);
    }

    method SweepQueuedIn(order: seq<Key>, keys: set<Key>, ghost start: Fifo, ghost gone: seq<Key>)
      returns (queuedDeletions: nat, err: Option<Error>)
      requires Valid() && Model() == start
      requires forall i :: 0 <= i < |order| ==> order[i] in start.items
      requires gone == Missing(order, keys) && Distinct(gone)
      modifies this
      ensures Valid()
      ensures Outcome(Model(), err) == QueueAll(cfg, start, Tombstones(Known(), start, gone))
      ensures err.None? ==> queuedDeletions == |gone|
    {
      queuedDeletions := 0;
      var i := 0;
      assert order[0..] == order;
      while i < |order|
        invariant 0 <= i <= |order|
        invariant Sweeping(start, gone, order[i..], keys, queuedDeletions)
      {
        MissingUnfold(order, i, keys);
        queuedDeletions, err := VisitQueued(order[i], keys, queuedDeletions, start, gone, order[i..], order[i + 1..]);
        if err.Some? { return; }
        i := i + 1;
      }
      SweepDone(start, gone, order[i..], keys, queuedDeletions);
      err := None;
    }

    // The body of the loop.
    method VisitQueued(k: Key, keys: set<Key>, n: nat, ghost start: Fifo, ghost gone: seq<Key>,
                       ghost rest: seq<Key>, ghost next: seq<Key>) returns (n': nat, err: Option<Error>)
      requires Sweeping(start, gone, rest, keys, n) && Unfolds(k, rest, next, keys) && k in start.items
      modifies this
      ensures err.Some? ==> Valid() && Outcome(Model(), err) == QueueAll(cfg, start, Tombstones(Known(), start, gone))
      ensures err.None? ==> Sweeping(start, gone, next, keys, n')
    {
      if k in keys { return n, None; }
      assert Missing(rest, keys)[0] == k && Pending(Model(), k) == Pending(start, k);
      var deletedObj := NewestObject(k);
      n' := n + 1;
      err := SweepOne(k, deletedObj, start, gone, Missing(rest, keys));
    }

    // The third loop of Replace: known keys that are neither listed nor queued.
    method SweepKnown(keys: set<Key>) returns (queuedDeletions: nat, err: Option<Error>, ghost gone: seq<Key>)
      requires Valid()
      modifies this
      ensures Valid()
      ensures Outcome(Model(), err) == QueueAll(cfg, old(Model()), Tombstones(Known(), old(Model()), gone))
      ensures Enumerates(gone, Known().Keys - (old(items).Keys + keys))
      ensures err.None? ==> queuedDeletions == |gone|
    {
      if knownObjects == null {
        return 0, None, [];
      }
      var order := knownObjects.ListKeys();
      gone := Missing(order, items.Keys + keys);
      MissingEnumerates(order, Known().Keys, items.Keys + keys);
      queuedDeletions, err := SweepKnownIn(order, keys, Model(), gone);
    }

    method SweepKnownIn(order: seq<Key>, keys: set<Key>, ghost start: Fifo, ghost gone: seq<Key>)
      returns (queuedDeletions: nat, err: Option<Error>)
      requires Valid() && Model() == start && knownObjects != null
      requires gone == Missing(order, start.items.Keys + keys) && Distinct(gone)
      modifies this
      ensures Valid()
      ensures Outcome(Model(), err) == QueueAll(cfg, start, Tombstones(Known(), start, gone))
      ensures err.None? ==> queuedDeletions == |gone|
    {
      ghost var skip := start.items.Keys + keys;
      queuedDeletions := 0;
      var i := 0;
      assert order[0..] == order;
      while i < |order|
        invariant 0 <= i <= |order|
        invariant Sweeping(start, gone, order[i..], skip, queuedDeletions)
      {
        MissingUnfold(order, i, skip);
        queuedDeletions, err := VisitKnown(order[i], keys, queuedDeletions, start, gone, order[i..], order[i + 1..]);
        if err.Some? { return; }
        i := i + 1;
      }
      SweepDone(start, gone, order[i..], skip, queuedDeletions);
      err := None;
    }

    // The body of the loop. A key that was not queued to begin with is not queued when its turn comes.
    method VisitKnown(k: Key, keys: set<Key>, n: nat, ghost start: Fifo, ghost gone: seq<Key>,
                      ghost rest: seq<Key>, ghost next: seq<Key>) returns (n': nat, err: Option<Error>)
      requires knownObjects != null && Sweeping(start, gone, rest, start.items.Keys + keys, n)
      requires Unfolds(k, rest, next, start.items.Keys + keys)
      modifies this
      ensures err.Some? ==> Valid() && Outcome(Model(), err) == QueueAll(cfg, start, Tombstones(Known(), start, gone))
      ensures err.None? ==> Sweeping(start, gone, next, start.items.Keys + keys, n')
    {
      ghost var todo := Missing(rest, start.items.Keys + keys);
      assert k !in start.items.Keys + keys ==> todo[0] == k && Pending(Model(), k) == Pending(start, k);
      var queued := IsQueued(k);
      if k in keys || queued { return n, None; }
      var stored := knownObjects.GetByKey(k);
      var deletedObj := if stored.Some? then stored.value else Nil;
      n' := n + 1;
      err := SweepOne(k, deletedObj, start, gone, todo);
    }

    // A sweep that began in state start and deletes the keys gone has come to the rest of its keys,
    // with n deletions made.
    ghost predicate Sweeping(start: Fifo, gone: seq<Key>, rest: seq<Key>, skip: set<Key>, n: nat)
      reads this, knownObjects
    {
      && Valid() && start.items.Keys <= items.Keys
      && Remaining(start, gone, Missing(rest, skip))
      && n + |Missing(rest, skip)| == |gone|
    }

    lemma SweepDone(start: Fifo, gone: seq<Key>, rest: seq<Key>, skip: set<Key>, n: nat)
      requires Sweeping(start, gone, rest, skip, n) && rest == []
      ensures QueueAll(cfg, start, Tombstones(Known(), start, gone)) == Outcome(Model(), None)
      ensures n == |gone|
    {
    }

    method IsQueued(k: Key) returns (queued: bool)
      requires Valid()
      ensures queued == (k in items)
    {
      queued := k in items && |items[k]| > 0;
    }

    // The object of the newest delta, taken out of a tombstone.
    method NewestObject(k: Key) returns (obj: Item)
      requires Valid() && k in items
      ensures obj == LatestKnown(Known(), Model(), k)
    {
      obj := Newest(items[k]).item;
      if obj.Tombstone? { obj := obj.last; }
    }

    // A sweep over gone that began in state start has still to delete todo.
    ghost predicate Remaining(start: Fifo, gone: seq<Key>, todo: seq<Key>)
      reads this, knownObjects
    {
      && Distinct(todo)
      && QueueAll(cfg, start, Tombstones(Known(), start, gone))
         == QueueAll(cfg, Model(), Tombstones(Known(), start, todo))
      && forall i :: 0 <= i < |todo| ==> Pending(Model(), todo[i]) == Pending(start, todo[i])
    }

    // The next deletion of a sweep.
    method SweepOne(k: Key, deletedObj: Item, ghost start: Fifo, ghost gone: seq<Key>, ghost todo: seq<Key>)
      returns (err: Option<Error>)
      requires Valid() && Remaining(start, gone, todo) && todo != [] && k == todo[0]
      requires deletedObj == LatestKnown(Known(), start, k)
      modifies this
      ensures Valid() && old(items).Keys <= items.Keys
      ensures err.Some? ==> Outcome(Model(), err) == QueueAll(cfg, start, Tombstones(Known(), start, gone))
      ensures err.None? ==> Remaining(start, gone, todo[1..])
    {
      ghost var before := Model();
      ghost var batch := Tombstones(Known(), start, todo);
      assert batch[1..] == Tombstones(Known(), start, todo[1..]);
      err := QueueActionLocked(Deleted, Tombstone(k, deletedObj));
      forall i | 0 <= i < |todo[1..]| ensures Pending(Model(), todo[1..][i]) == Pending(start, todo[1..][i]) {
        assert todo[1..][i] == todo[i + 1] != k;
        assert Pending(before, todo[i + 1]) == Pending(start, todo[i + 1]);
      }
    }

    // Both deletion loops of Replace.
    method SweepBoth(keys: set<Key>)
      returns (queuedDeletions: nat, err: Option<Error>, ghost goneQueued: seq<Key>, ghost goneKnown: seq<Key>)
      requires Valid()
      modifies this
      ensures Valid()
      ensures Outcome(Model(), err) == BothSweeps(cfg, Known(), old(Model()), goneQueued, goneKnown)
      ensures Enumerates(goneQueued, old(items).Keys - keys)
      ensures Enumerates(goneKnown, Known().Keys - (old(items).Keys + keys))
      ensures err.None? ==> queuedDeletions == |goneQueued| + |goneKnown|
    {
      ghost var s1 := Model();
      queuedDeletions, err, goneQueued := SweepQueued(keys);
      if err.Some? {
        goneKnown := SomeOrder(Known().Keys - (s1.items.Keys + keys));
        return;
      }
      SweepKeys(cfg, Known(), s1, goneQueued);
      assert items.Keys == s1.items.Keys;
      var more;
      more, err, goneKnown := SweepKnown(keys);
      queuedDeletions := queuedDeletions + more;
    }

    // Replace up to the bookkeeping of the initial population.
    method ReplaceLoops(list: seq<Item>)
      returns (count: nat, err: Option<Error>, ghost goneQueued: seq<Key>, ghost goneKnown: seq<Key>)
      requires Valid()
      modifies this
      ensures Valid()
      ensures Outcome(Model(), err) == Staged(cfg, Known(), old(Model()), list, goneQueued, goneKnown)
      ensures ReplaceOrders(cfg, Known(), old(Model()), list, goneQueued, goneKnown)
      ensures err.None? ==> count == |KeysOf(cfg, list)| + |goneQueued| + |goneKnown|
    {
      ghost var s0 := Model();
      count := 0;
      var action := Sync;
      if cfg.emitDeltaTypeReplaced { action := Replaced; }
      var keys;
      keys, err := PutListed(action, list);
      if err.Some? {
        goneQueued := SomeOrder(s0.items.Keys - KeysOf(cfg, list));
        goneKnown := SomeOrder(Known().Keys - s0.items.Keys - KeysOf(cfg, list));
        return;
      }
      PutsKeys(cfg, s0, action, list);
      SetsAfterPuts(s0.items.Keys, keys, Known().Keys, items.Keys);
      var queuedDeletions;
      queuedDeletions, err, goneQueued, goneKnown := SweepBoth(keys);
      count := |keys| + queuedDeletions;
    }

    method Replace(list: seq<Item>) returns (err: Option<Error>, ghost goneQueued: seq<Key>, ghost goneKnown: seq<Key>)
      requires Valid()
      modifies this
      ensures Valid()
      ensures ReplaceOrders(cfg, Known(), old(Model()), list, goneQueued, goneKnown)
      ensures Outcome(Model(), err) == ReplaceOp(cfg, Known(), old(Model()), list, goneQueued, goneKnown)
    {
      var count: nat;
      count, err, goneQueued, goneKnown := ReplaceLoops(list);
      FinishReplace(cfg, Known(), old(Model()), list, goneQueued, goneKnown);
      if err.None? && !populated {
        populated := true;
        initialPopulationCount := count;
      }
    }
  }

  // ---- Lemmas for the loops of Replace ----

  lemma ResyncStep(cfg: Config, known: Known, s: Fifo, keys: seq<Key>, i: nat)
    requires i < |keys|
    ensures var o := SyncKey(cfg, known, s, keys[i]);
            ResyncOp(cfg, known, s, keys[i..])
            == if o.err.Some? then o else ResyncOp(cfg, known, o.state, keys[i + 1..])
  {
    assert keys[i..][0] == keys[i] && keys[i..][1..] == keys[i + 1..];
  }

  // The first item of a list that is left, and the rest.
  lemma PutsStep(cfg: Config, s: Fifo, kind: DeltaType, list: seq<Item>, i: nat)
    requires i < |list|
    ensures var o := QueueAction(cfg, s, kind, list[i]);
            QueueAll(cfg, s, Puts(kind, list[i..]))
            == if o.err.Some? then o else QueueAll(cfg, o.state, Puts(kind, list[i + 1..]))
    ensures KeysOf(cfg, list[i..])
            == KeysOf(cfg, list[i + 1..]) + if cfg.KeyOf(list[i]).Some? then {cfg.KeyOf(list[i]).value} else {}
  {
    assert list[i..][0] == list[i] && list[i..][1..] == list[i + 1..];
    assert Puts(kind, list[i..])[1..] == Puts(kind, list[i + 1..]);
  }

  // Some order in which a map iteration may visit these keys.
  ghost function SomeOrder(keys: set<Key>): (order: seq<Key>)
    ensures Enumerates(order, keys)
  {
    if keys == {} then [] else var k :| k in keys; [k] + SomeOrder(keys - {k})
  }

  // The keys a sweep does not skip, in the order it visits them.
  ghost function Missing(order: seq<Key>, skip: set<Key>): seq<Key> {
    if order == [] then []
    else (if order[0] in skip then [] else [order[0]]) + Missing(order[1..], skip)
  }

  lemma {:induction false} MissingMembers(order: seq<Key>, skip: set<Key>)
    ensures forall k :: k in Missing(order, skip) <==> k in order && k !in skip
  {
    if order != [] {
      MissingMembers(order[1..], skip);
      assert forall k :: k in order <==> k == order[0] || k in order[1..];
    }
  }

  // The first of the keys that a sweep has come to.
  ghost predicate Unfolds(k: Key, rest: seq<Key>, next: seq<Key>, skip: set<Key>) {
    var now := Missing(rest, skip);
    if k in skip then now == Missing(next, skip) else now != [] && now[0] == k && now[1..] == Missing(next, skip)
  }

  lemma MissingUnfold(order: seq<Key>, i: nat, skip: set<Key>)
    requires i < |order|
    ensures Unfolds(order[i], order[i..], order[i + 1..], skip)
  {
    assert order[i..][0] == order[i] && order[i..][1..] == order[i + 1..];
  }

  lemma {:induction false} MissingEnumerates(order: seq<Key>, keys: set<Key>, skip: set<Key>)
    requires Enumerates(order, keys)
    ensures Enumerates(Missing(order, skip), keys - skip)
  {
    if order != [] {
      var rest := keys - {order[0]};
      forall k | k in rest ensures k in order[1..] {
        var i :| 0 <= i < |order| && order[i] == k;
        assert order[1..][i - 1] == k;
      }
      MissingEnumerates(order[1..], rest, skip);
      MissingMembers(order[1..], skip);
      MissingMembers(order, skip);
    }
  }

  lemma TombstonesAppend(cfg: Config, known: Known, s: Fifo, a: seq<Key>, b: seq<Key>)
    ensures var o := QueueAll(cfg, s, Tombstones(known, s, a));
            QueueAll(cfg, s, Tombstones(known, s, a + b))
            == if o.err.Some? then o else QueueAll(cfg, o.state, Tombstones(known, s, b))
  {
    TombstonesSplit(known, s, a, b);
    QueueAllAppend(cfg, s, Tombstones(known, s, a), Tombstones(known, s, b));
  }

  lemma PutsKeys(cfg: Config, s: Fifo, kind: DeltaType, list: seq<Item>)
    requires QueueAll(cfg, s, Puts(kind, list)).err.None?
    ensures QueueAll(cfg, s, Puts(kind, list)).state.items.Keys == s.items.Keys + KeysOf(cfg, list)
  {
    QueueAllKeys(cfg, s, Puts(kind, list));
    PutsBatchKeys(cfg, kind, list);
  }

  lemma SweepKeys(cfg: Config, known: Known, s: Fifo, gone: seq<Key>)
    requires QueueAll(cfg, s, Tombstones(known, s, gone)).err.None?
    requires forall k :: k in gone ==> k in s.items
    ensures QueueAll(cfg, s, Tombstones(known, s, gone)).state.items.Keys == s.items.Keys
  {
    QueueAllKeys(cfg, s, Tombstones(known, s, gone));
    TombstonesBatchKeys(cfg, known, s, gone);
  }

  lemma PutsOthers(cfg: Config, s: Fifo, kind: DeltaType, list: seq<Item>, k: Key)
    requires k !in KeysOf(cfg, list)
    ensures Pending(QueueAll(cfg, s, Puts(kind, list)).state, k) == Pending(s, k)
  {
    PutsBatchKeys(cfg, kind, list);
    QueueAllOthers(cfg, s, Puts(kind, list), k);
  }

  lemma SweepOthers(cfg: Config, known: Known, s: Fifo, gone: seq<Key>, k: Key)
    requires k !in gone
    ensures Pending(QueueAll(cfg, s, Tombstones(known, s, gone)).state, k) == Pending(s, k)
  {
    TombstonesBatchKeys(cfg, known, s, gone);
    QueueAllOthers(cfg, s, Tombstones(known, s, gone), k);
  }

  lemma {:induction false} TombstonesStable(known: Known, s: Fifo, t: Fifo, gone: seq<Key>)
    requires forall k :: k in gone ==> Pending(s, k) == Pending(t, k)
    ensures Tombstones(known, s, gone) == Tombstones(known, t, gone)
  {
    if gone != [] {
      assert gone[0] in gone;
      TombstonesStable(known, s, t, gone[1..]);
    }
  }

  lemma SetsAfterPuts(before: set<Key>, listed: set<Key>, known: set<Key>, after: set<Key>)
    requires after == before + listed
    ensures after - listed == before - listed
    ensures known - (after + listed) == known - before - listed
  {
  }

  ghost function BothSweeps(cfg: Config, known: Known, s: Fifo, gq: seq<Key>, gk: seq<Key>): Outcome {
    var o := QueueAll(cfg, s, Tombstones(known, s, gq));
    if o.err.Some? then o else QueueAll(cfg, o.state, Tombstones(known, o.state, gk))
  }

  // What the three loops of Replace queue, each looking at the state it finds.
  ghost function Staged(cfg: Config, known: Known, s: Fifo, list: seq<Item>, gq: seq<Key>, gk: seq<Key>): Outcome {
    var o1 := QueueAll(cfg, s, Puts(cfg.ReplaceKind(), list));
    if o1.err.Some? then o1 else BothSweeps(cfg, known, o1.state, gq, gk)
  }

  // It is what the specification queues at once, looking only at the state before.
  lemma StagedIsAtOnce(cfg: Config, known: Known, s: Fifo, list: seq<Item>, gq: seq<Key>, gk: seq<Key>)
    requires ReplaceOrders(cfg, known, s, list, gq, gk)
    ensures QueueAll(cfg, s, Puts(cfg.ReplaceKind(), list) + Tombstones(known, s, gq + gk))
            == Staged(cfg, known, s, list, gq, gk)
  {
    var puts := Puts(cfg.ReplaceKind(), list);
    var o1 := QueueAll(cfg, s, puts);
    QueueAllAppend(cfg, s, puts, Tombstones(known, s, gq + gk));
    if o1.err.None? {
      forall k | k in gq + gk ensures Pending(s, k) == Pending(o1.state, k) {
        assert k in gq || k in gk;
        PutsOthers(cfg, s, cfg.ReplaceKind(), list, k);
      }
      TombstonesStable(known, s, o1.state, gq + gk);
      TombstonesAppend(cfg, known, o1.state, gq, gk);
      var o2 := QueueAll(cfg, o1.state, Tombstones(known, o1.state, gq));
      forall k | k in gk ensures Pending(o1.state, k) == Pending(o2.state, k) {
        SweepOthers(cfg, known, o1.state, gq, k);
      }
      TombstonesStable(known, o1.state, o2.state, gk);
    }
  }

  ghost function Finish(o: Outcome, count: nat): Outcome {
    if o.err.Some? || o.state.populated then o
    else Outcome(o.state.(populated := true, initialPopulationCount := count), None)
  }

  lemma FinishReplace(cfg: Config, known: Known, s: Fifo, list: seq<Item>, gq: seq<Key>, gk: seq<Key>)
    requires Core(s) && ReplaceOrders(cfg, known, s, list, gq, gk)
    ensures ReplaceOp(cfg, known, s, list, gq, gk)
            == Finish(Staged(cfg, known, s, list, gq, gk), |KeysOf(cfg, list)| + |gq| + |gk|)
    ensures Core(ReplaceOp(cfg, known, s, list, gq, gk).state)
  {
    StagedIsAtOnce(cfg, known, s, list, gq, gk);
    ReplaceCore(cfg, known, s, list, gq, gk);
  }
}
