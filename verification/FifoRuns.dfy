// Ordering and initial-sync guarantees of DeltaFIFO, over whole runs.
module FifoRuns {
  import opened Wrappers
  import opened DeltaModel
  import opened FifoSpec
  import opened FifoInvariant

  function Pops(calls: seq<Call>): nat {
    if calls == [] then 0 else (if calls[0].action.Pop? then 1 else 0) + Pops(calls[1..])
  }

  function DeliveredKeys(ds: seq<Delivery>): (keys: seq<Key>)
    ensures |keys| == |ds|
    ensures forall i :: 0 <= i < |ds| ==> keys[i] == ds[i].key
  {
    seq(|ds|, i requires 0 <= i < |ds| => ds[i].key)
  }

  // What a run handed to process functions.
  function NewDeliveries(s: Fifo, t: Fifo): seq<Delivery>
    requires s.delivered <= t.delivered
  {
    t.delivered[|s.delivered|..]
  }

  function Minus(a: nat, b: nat): nat {
    if a < b then 0 else a - b
  }

  // A step other than Pop adds keys at the back of the queue and delivers nothing; once the
  // queue is populated it leaves the count alone.
  ghost predicate Quiet(s: Fifo, t: Fifo) {
    && s.queue <= t.queue
    && t.delivered == s.delivered
    && (s.populated ==> t.populated && t.initialPopulationCount == s.initialPopulationCount)
  }

  lemma QuietStep(cfg: Config, s: Fifo, c: Call)
    requires Core(s) && Enabled(cfg, s, c) && !c.action.Pop?
    ensures var t := Step(cfg, s, c).state;
            && Core(t) && Quiet(s, t)
            && (!s.populated && t.populated ==>
                  t.initialPopulationCount == if c.action.Replace? then |t.queue| else 0)
  {
    var s1 := s.(populated := true);
    match c.action
    case Add(item) => QueueActionCore(cfg, s1, Added, item);
    case Update(item) => QueueActionCore(cfg, s1, Updated, item);
    case Delete(item) => QueueActionCore(cfg, s1, Deleted, item);
    case AddIfNotPresent(deltas) => QuietRequeue(cfg, s, deltas);
    case Replace(list, gq, gk) => QuietReplace(cfg, c.known, s, list, gq, gk);
    case Resync(order) => ResyncCore(cfg, c.known, s, order);
    case Close =>
  }

  lemma QuietRequeue(cfg: Config, s: Fifo, deltas: Deltas)
    requires Core(s)
    ensures var t := AddIfNotPresentOp(cfg, s, deltas).state;
            Core(t) && Quiet(s, t) && (!s.populated ==> t.initialPopulationCount == 0)
  {
    if AddIfNotPresentOp(cfg, s, deltas).err.None? {
      AddIfNotPresentCore(s, cfg.KeyOf(Newest(deltas).item).value, deltas);
    }
  }

  lemma QuietReplace(cfg: Config, known: Known, s: Fifo, list: seq<Item>, gq: seq<Key>, gk: seq<Key>)
    requires Core(s) && ReplaceOrders(cfg, known, s, list, gq, gk)
    ensures var o := ReplaceOp(cfg, known, s, list, gq, gk);
            && Core(o.state) && Quiet(s, o.state)
            && (!s.populated ==> (o.state.populated <==> o.err.None?))
            && (!s.populated && o.state.populated ==> o.state.initialPopulationCount == |o.state.queue|)
  {
    ReplaceCore(cfg, known, s, list, gq, gk);
    QueueAllCore(cfg, s, Puts(cfg.ReplaceKind(), list) + Tombstones(known, s, gq + gk));
    if !s.populated && ReplaceOp(cfg, known, s, list, gq, gk).err.None? {
      ReplaceCounts(cfg, known, s, list, gq, gk);
    }
  }

  // One step: the queue is a conveyor belt. Keys leave it only at the front, by a Pop, and join
  // it only at the back. Only a Pop delivers.
  lemma StepBelt(cfg: Config, s: Fifo, c: Call)
    requires Core(s) && Enabled(cfg, s, c)
    ensures var t := Step(cfg, s, c).state;
            && Core(t)
            && s.delivered <= t.delivered
            && |NewDeliveries(s, t)| == Pops([c])
            && s.queue <= DeliveredKeys(NewDeliveries(s, t)) + t.queue
            && (s.populated ==> t.populated && t.initialPopulationCount == Minus(s.initialPopulationCount, Pops([c])))
            && (c.action.Pop? ==> NewDeliveries(s, t)[0].inInitialList == !s.HasSynced())
  {
    var t := Step(cfg, s, c).state;
    assert [c][1..] == [];
    if c.action.Pop? {
      PopBelt(s, c.action.requeue);
      assert NewDeliveries(s, t) == [Delivery(s.queue[0], s.items[s.queue[0]], !s.HasSynced())];
      assert DeliveredKeys(NewDeliveries(s, t)) == [s.queue[0]];
    } else {
      QuietStep(cfg, s, c);
      assert NewDeliveries(s, t) == [];
      assert DeliveredKeys([]) + t.queue == t.queue;
    }
  }

  lemma QueueActionCore(cfg: Config, s: Fifo, kind: DeltaType, item: Item)
    requires Core(s)
    ensures Core(QueueAction(cfg, s, kind, item).state)
    ensures Grows(s, QueueAction(cfg, s, kind, item).state)
  {
    if QueueAction(cfg, s, kind, item).err.None? {
      EnqueueCore(s, cfg.KeyOf(item).value, Delta(kind, cfg.Transform(item).value));
    }
  }

  lemma PopBelt(s: Fifo, requeue: bool)
    requires Core(s) && s.queue != []
    ensures s.queue[0] in s.items
    ensures var t := PopOp(s, requeue);
            && Core(t)
            && t.delivered == s.delivered + [Delivery(s.queue[0], s.items[s.queue[0]], !s.HasSynced())]
            && s.queue <= [s.queue[0]] + t.queue
            && (s.populated ==> t.populated && t.initialPopulationCount == Minus(s.initialPopulationCount, 1))
            && (!s.populated ==> t.initialPopulationCount == 0)
  {
    TakeHeadCore(s);
    var (t, d) := TakeHead(s);
    if requeue { AddIfNotPresentCore(t, d.key, d.deltas); }
    assert s.queue == [s.queue[0]] + s.queue[1..];
  }

  // Whole runs: keys are delivered in queue order, one per Pop, whatever happens in between.
  lemma {:induction false} Belt(cfg: Config, s: Fifo, calls: seq<Call>)
    requires Core(s) && Legal(cfg, s, calls)
    ensures var t := Run(cfg, s, calls);
            && Core(t)
            && s.delivered <= t.delivered
            && |NewDeliveries(s, t)| == Pops(calls)
            && s.queue <= DeliveredKeys(NewDeliveries(s, t)) + t.queue
    decreases |calls|
  {
    var t := Run(cfg, s, calls);
    if calls == [] {
      assert NewDeliveries(s, t) == [];
    } else {
      StepBelt(cfg, s, calls[0]);
      assert [calls[0]][1..] == [];
      var m := Step(cfg, s, calls[0]).state;
      Belt(cfg, m, calls[1..]);
      BeltTransitive(s, m, t);
    }
  }

  lemma BeltTransitive(s: Fifo, m: Fifo, t: Fifo)
    requires s.delivered <= m.delivered <= t.delivered
    requires s.queue <= DeliveredKeys(NewDeliveries(s, m)) + m.queue
    requires m.queue <= DeliveredKeys(NewDeliveries(m, t)) + t.queue
    ensures s.delivered <= t.delivered
    ensures NewDeliveries(s, t) == NewDeliveries(s, m) + NewDeliveries(m, t)
    ensures s.queue <= DeliveredKeys(NewDeliveries(s, t)) + t.queue
  {
    assert NewDeliveries(s, t) == NewDeliveries(s, m) + NewDeliveries(m, t);
    var x, y := DeliveredKeys(NewDeliveries(s, m)), DeliveredKeys(NewDeliveries(m, t));
    assert DeliveredKeys(NewDeliveries(s, t)) == x + y;
    assert x + m.queue <= x + (y + t.queue);
    assert x + (y + t.queue) == (x + y) + t.queue;
  }

  // A key at index i waits for exactly i other deliveries: the (i+1)-th later Pop delivers it,
  // and until then it is still queued, that much closer to the front.
  lemma BoundedWait(cfg: Config, s: Fifo, calls: seq<Call>, i: nat)
    requires Core(s) && Legal(cfg, s, calls) && i < |s.queue|
    ensures InTurn(s, Run(cfg, s, calls), Pops(calls), i)
  {
    Belt(cfg, s, calls);
    WaitAt(s, Run(cfg, s, calls), Pops(calls), i);
  }

  // n Pops have led from s to t, and the key at index i has been delivered in its turn or is n places
  // nearer to the front.
  ghost predicate InTurn(s: Fifo, t: Fifo, n: nat, i: nat)
    requires i < |s.queue|
  {
    && s.delivered <= t.delivered
    && |NewDeliveries(s, t)| == n
    && (i < n ==> NewDeliveries(s, t)[i].key == s.queue[i])
    && (n <= i ==> i - n < |t.queue| && t.queue[i - n] == s.queue[i])
  }

  lemma WaitAt(s: Fifo, t: Fifo, n: nat, i: nat)
    requires s.delivered <= t.delivered && |NewDeliveries(s, t)| == n
    requires s.queue <= DeliveredKeys(NewDeliveries(s, t)) + t.queue && i < |s.queue|
    ensures InTurn(s, t, n, i)
  {
    PrefixAt(s.queue, DeliveredKeys(NewDeliveries(s, t)), t.queue, i);
  }

  lemma PrefixAt(q: seq<Key>, gone: seq<Key>, left: seq<Key>, i: nat)
    requires q <= gone + left && i < |q|
    ensures i < |gone| ==> gone[i] == q[i]
    ensures |gone| <= i ==> i - |gone| < |left| && left[i - |gone|] == q[i]
  {
    assert q[i] == (gone + left)[i];
  }

  // Exactly the first n of ds are flagged as initial.
  ghost predicate Flagged(ds: seq<Delivery>, n: nat) {
    forall i :: 0 <= i < |ds| ==> (ds[i].inInitialList <==> i < n)
  }

  // t is a populated state reached from s by way of some Pops, which used up the count.
  ghost predicate UsedUp(s: Fifo, t: Fifo) {
    && t.populated
    && s.delivered <= t.delivered
    && t.initialPopulationCount == Minus(s.initialPopulationCount, |NewDeliveries(s, t)|)
    && Flagged(NewDeliveries(s, t), s.initialPopulationCount)
  }

  lemma UsedUpStep(cfg: Config, s: Fifo, c: Call)
    requires Core(s) && s.populated && Enabled(cfg, s, c)
    ensures Core(Step(cfg, s, c).state) && UsedUp(s, Step(cfg, s, c).state)
  {
    StepBelt(cfg, s, c);
    assert [c][1..] == [];
  }

  lemma UsedUpTransitive(s: Fifo, m: Fifo, t: Fifo)
    requires UsedUp(s, m) && UsedUp(m, t)
    ensures UsedUp(s, t)
  {
    var x, y := NewDeliveries(s, m), NewDeliveries(m, t);
    var z: seq<Delivery> := NewDeliveries(s, t);
    assert z == x + y;
    forall i | 0 <= i < |z| ensures z[i].inInitialList <==> i < s.initialPopulationCount {
      if i >= |x| { assert z[i] == y[i - |x|]; } else { assert z[i] == x[i]; }
    }
  }

  // From any populated state, the next initialPopulationCount deliveries carry
  // isInInitialList = true, all later ones carry false, and synced means synced for good.
  lemma {:induction false} InitialFlags(cfg: Config, s: Fifo, calls: seq<Call>)
    requires Core(s) && s.populated && Legal(cfg, s, calls)
    ensures UsedUp(s, Run(cfg, s, calls))
    ensures s.HasSynced() ==> Run(cfg, s, calls).HasSynced()
    decreases |calls|
  {
    if calls == [] {
      assert NewDeliveries(s, s) == [];
    } else {
      var m := Step(cfg, s, calls[0]).state;
      UsedUpStep(cfg, s, calls[0]);
      InitialFlags(cfg, m, calls[1..]);
      UsedUpTransitive(s, m, Run(cfg, s, calls));
    }
  }

  // The initial-sync contract. If the call that first populates the queue is a Replace, then
  // its whole queue is the initial list: later deliveries flagged isInInitialList are exactly
  // those keys, in order, the not yet delivered ones are still at the front, and HasSynced turns
  // true exactly when the last of them has been popped.
  lemma InitialSync(cfg: Config, s: Fifo, replace: Call, after: seq<Call>)
    requires Core(s) && !s.populated && replace.action.Replace? && Enabled(cfg, s, replace)
    requires Step(cfg, s, replace).err.None?
    requires Legal(cfg, Step(cfg, s, replace).state, after)
    ensures var m := Step(cfg, s, replace).state;
            var t, n := Run(cfg, m, after), Pops(after);
            && m.delivered <= t.delivered
            && |NewDeliveries(m, t)| == n
            && Flagged(NewDeliveries(m, t), |m.queue|)
            && (forall i :: 0 <= i < n && i < |m.queue| ==> NewDeliveries(m, t)[i].key == m.queue[i])
            && t.initialPopulationCount == Minus(|m.queue|, n) <= |t.queue|
            && t.queue[..t.initialPopulationCount] == m.queue[|m.queue| - t.initialPopulationCount..]
            && (t.HasSynced() <==> n >= |m.queue|)
  {
    QuietReplace(cfg, replace.known, s, replace.action.list, replace.action.goneQueued, replace.action.goneKnown);
    var m := Step(cfg, s, replace).state;
    InitialFlags(cfg, m, after);
    Belt(cfg, m, after);
    var t := Run(cfg, m, after);
    BeltSplits(m.queue, NewDeliveries(m, t), t.queue, t.initialPopulationCount);
  }

  // Reading the belt: what has been delivered, and what is still at the front of the queue.
  lemma BeltSplits(q: seq<Key>, ds: seq<Delivery>, left: seq<Key>, count: nat)
    requires q <= DeliveredKeys(ds) + left && count == Minus(|q|, |ds|)
    ensures forall i :: 0 <= i < |ds| && i < |q| ==> ds[i].key == q[i]
    ensures count <= |left| && left[..count] == q[|q| - count..]
  {
    forall i | 0 <= i < |ds| && i < |q| ensures ds[i].key == q[i] {
      PrefixAt(q, DeliveredKeys(ds), left, i);
    }
    forall j | 0 <= j < count ensures j < |left| && left[j] == q[|q| - count + j] {
      PrefixAt(q, DeliveredKeys(ds), left, |q| - count + j);
    }
    if count > 0 { PrefixAt(q, DeliveredKeys(ds), left, |q| - 1); }
  }

  // The calls that mark an unpopulated queue as populated: a producer call that gets as far as the
  // key of its item (Add and Update do so before), a Replace that succeeds, and a requeue.
  predicate Populates(cfg: Config, c: Call, err: Option<Error>) {
    match c.action
    case Add(_) => true
    case Update(_) => true
    case Delete(item) => cfg.KeyOf(item).Some?
    case AddIfNotPresent(deltas) => deltas != [] && cfg.KeyOf(Newest(deltas).item).Some?
    case Replace(_, _, _) => err.None?
    case Resync(_) => false
    case Close => false
    case Pop(requeue) => requeue
  }

  // Exactly those do; every one but a Replace counts as synced at once.
  lemma OtherFirstCalls(cfg: Config, s: Fifo, c: Call)
    requires Core(s) && !s.populated && Enabled(cfg, s, c)
    ensures var o := Step(cfg, s, c);
            && (o.state.populated <==> Populates(cfg, c, o.err))
            && (o.state.populated && !c.action.Replace? ==> o.state.HasSynced())
  {
    var s1 := s.(populated := true);
    match c.action
    case Add(item) => QueueActionCore(cfg, s1, Added, item);
    case Update(item) => QueueActionCore(cfg, s1, Updated, item);
    case Delete(item) => QueueActionCore(cfg, s1, Deleted, item);
    case AddIfNotPresent(deltas) =>
    case Replace(list, gq, gk) => QuietReplace(cfg, c.known, s, list, gq, gk);
    case Resync(order) => ResyncCore(cfg, c.known, s, order);
    case Close =>
    case Pop(requeue) => PopBelt(s, requeue);
  }

  // Only Close closes a queue, and nothing opens it again.
  lemma OnlyCloseCloses(cfg: Config, s: Fifo, c: Call)
    requires Core(s) && Enabled(cfg, s, c)
    ensures Step(cfg, s, c).state.closed <==> s.closed || c.action.Close?
  {
    var s1 := s.(populated := true);
    match c.action
    case Add(item) => QueueActionCore(cfg, s1, Added, item);
    case Update(item) => QueueActionCore(cfg, s1, Updated, item);
    case Delete(item) => QueueActionCore(cfg, s1, Deleted, item);
    case AddIfNotPresent(deltas) =>
    case Replace(list, gq, gk) =>
      QueueAllCore(cfg, s, Puts(cfg.ReplaceKind(), list) + Tombstones(c.known, s, gq + gk));
    case Resync(order) => ResyncCore(cfg, c.known, s, order);
    case Close =>
    case Pop(requeue) =>
  }
}
