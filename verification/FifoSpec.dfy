// The locked operations of DeltaFIFO (tools/cache/delta_fifo.go) as functions on its state.
module FifoSpec {
  import opened Wrappers
  import opened DeltaModel

  datatype Error = KeyError | TransformError | FIFOClosed | ProcessError(text: string)

  // keyFunc is deterministic but may fail; a transformer may fail too (None).
  datatype Config = Config(
    keyFunc: Object -> Option<Key>,
    transformer: Option<Item -> Option<Item>>,
    emitDeltaTypeReplaced: bool)
  {
    function KeyOf(item: Item): Option<Key> {
      match item
      case Nil => None
      case Raw(obj) => keyFunc(obj)
      case Tombstone(key, _) => Some(key)
    }

    function Transform(item: Item): Option<Item> {
      if transformer.None? then Some(item) else transformer.value(item)
    }

    function ReplaceKind(): DeltaType {
      if emitDeltaTypeReplaced then Replaced else Sync
    }

    // A transformer never changes which object an item describes.
    ghost predicate KeyPreserving() {
      forall x: Item :: Transform(x).Some? && KeyOf(x).Some? ==> KeyOf(Transform(x).value) == KeyOf(x)
    }

    // Transforming a transformed item changes nothing, and tombstones are returned as they are.
    ghost predicate WellBehaved() {
      && KeyPreserving()
      && (forall x: Item :: Transform(x).Some? ==> Transform(Transform(x).value) == Transform(x))
      && (forall k: Key, x: Item :: Transform(Tombstone(k, x)) == Some(Tombstone(k, x)))
    }
  }

  // What one Pop handed to its process function.
  datatype Delivery = Delivery(key: Key, deltas: Deltas, inInitialList: bool)

  // log and delivered are history: log[k] is every delta applied to k since k was last
  // removed from items, before compression; delivered is every call of a process function.
  datatype Fifo = Fifo(
    items: map<Key, Deltas>,
    queue: seq<Key>,
    populated: bool,
    initialPopulationCount: nat,
    closed: bool,
    log: map<Key, seq<Delta>>,
    delivered: seq<Delivery>)
  {
    function HasSynced(): bool {
      populated && initialPopulationCount == 0
    }
  }

  const EmptyFifo := Fifo(map[], [], false, 0, false, map[], [])

  datatype Outcome = Outcome(state: Fifo, err: Option<Error>)

  // The store behind knownObjects. A nil knownObjects acts like an empty store in Delete,
  // Replace and Resync.
  type Known = map<Key, Item>

  function Pending(s: Fifo, id: Key): Deltas {
    if id in s.items then s.items[id] else []
  }

  function Logged(s: Fifo, id: Key): seq<Delta> {
    if id in s.log then s.log[id] else []
  }

  // Applying one delta to the accumulator of id.
  function Enqueue(s: Fifo, id: Key, d: Delta): Fifo {
    s.(items := s.items[id := Dedup(Pending(s, id) + [d])],
       queue := if id in s.items then s.queue else s.queue + [id],
       log := s.log[id := Logged(s, id) + [d]])
  }

  // queueActionLocked
  function QueueAction(cfg: Config, s: Fifo, kind: DeltaType, item: Item): Outcome {
    match cfg.KeyOf(item)
    case None => Outcome(s, Some(KeyError))
    case Some(id) =>
      match cfg.Transform(item)
      case None => Outcome(s, Some(TransformError))
      case Some(obj) => Outcome(Enqueue(s, id, Delta(kind, obj)), None)
  }

  // A run of queue actions that stops at the first error.
  function QueueAll(cfg: Config, s: Fifo, batch: seq<Delta>): Outcome
    decreases |batch|
  {
    if batch == [] then Outcome(s, None)
    else
      var o := QueueAction(cfg, s, batch[0].kind, batch[0].item);
      if o.err.Some? then o else QueueAll(cfg, o.state, batch[1..])
  }

  function AddOp(cfg: Config, s: Fifo, kind: DeltaType, item: Item): Outcome {
    QueueAction(cfg, s.(populated := true), kind, item)
  }

  function DeleteOp(cfg: Config, known: Known, s: Fifo, item: Item): Outcome {
    match cfg.KeyOf(item)
    case None => Outcome(s, Some(KeyError))
    case Some(id) =>
      var s1 := s.(populated := true);
      if id !in known && id !in s.items then Outcome(s1, None)
      else QueueAction(cfg, s1, Deleted, item)
  }

  function AddIfNotPresentAt(s: Fifo, id: Key, deltas: Deltas): Fifo {
    var s1 := s.(populated := true);
    if id in s.items then s1
    else s1.(queue := s.queue + [id], items := s.items[id := deltas], log := s.log[id := deltas])
  }

  function AddIfNotPresentOp(cfg: Config, s: Fifo, deltas: Deltas): Outcome {
    if deltas == [] then Outcome(s, Some(KeyError))
    else match cfg.KeyOf(Newest(deltas).item)
      case None => Outcome(s, Some(KeyError))
      case Some(id) => Outcome(AddIfNotPresentAt(s, id, deltas), None)
  }

  // The keys that the items of a list map to.
  function KeysOf(cfg: Config, list: seq<Item>): set<Key>
    decreases |list|
  {
    if list == [] then {}
    else KeysOf(cfg, list[1..]) + match cfg.KeyOf(list[0]) case None => {} case Some(k) => {k}
  }

  // The latest known object of a key: the object of its newest delta (unwrapped when that is a
  // tombstone), else the object in the known store, else nothing.
  function LatestKnown(known: Known, s: Fifo, k: Key): Item {
    if Pending(s, k) != [] then Unwrap(Newest(s.items[k]).item)
    else if k in known then known[k]
    else Nil
  }

  function Tombstones(known: Known, s: Fifo, gone: seq<Key>): seq<Delta>
    decreases |gone|
  {
    if gone == [] then []
    else [Delta(Deleted, Tombstone(gone[0], LatestKnown(known, s, gone[0])))] + Tombstones(known, s, gone[1..])
  }

  function Puts(kind: DeltaType, list: seq<Item>): seq<Delta> {
    if list == [] then [] else [Delta(kind, list[0])] + Puts(kind, list[1..])
  }

  // Replace as its documentation describes it: put every listed item, then delete every
  // pre-existing key (queued or known) that is not listed. The two sweeps visit their keys in
  // the unspecified order of a map iteration; goneQueued and goneKnown are those orders.
  function ReplaceOp(cfg: Config, known: Known, s: Fifo, list: seq<Item>,
                     goneQueued: seq<Key>, goneKnown: seq<Key>): Outcome {
    var o := QueueAll(cfg, s, Puts(cfg.ReplaceKind(), list) + Tombstones(known, s, goneQueued + goneKnown));
    if o.err.Some? || o.state.populated then o
    else
      var count := |KeysOf(cfg, list)| + |goneQueued| + |goneKnown|;
      Outcome(o.state.(populated := true, initialPopulationCount := count), None)
  }

  ghost predicate Enumerates<T(!new)>(order: seq<T>, keys: set<T>) {
    Distinct(order) && forall k :: k in order <==> k in keys
  }

  ghost predicate ReplaceOrders(cfg: Config, known: Known, s: Fifo, list: seq<Item>,
                                goneQueued: seq<Key>, goneKnown: seq<Key>) {
    && Enumerates(goneQueued, s.items.Keys - KeysOf(cfg, list))
    && Enumerates(goneKnown, known.Keys - s.items.Keys - KeysOf(cfg, list))
  }

  // syncKeyLocked for each key in turn.
  function ResyncOp(cfg: Config, known: Known, s: Fifo, order: seq<Key>): Outcome
    decreases |order|
  {
    if order == [] then Outcome(s, None)
    else
      var o := SyncKey(cfg, known, s, order[0]);
      if o.err.Some? then o else ResyncOp(cfg, known, o.state, order[1..])
  }

  function SyncKey(cfg: Config, known: Known, s: Fifo, k: Key): Outcome {
    if k !in known then Outcome(s, None)
    else match cfg.KeyOf(known[k])
      case None => Outcome(s, Some(KeyError))
      case Some(id) => if Pending(s, id) != [] then Outcome(s, None) else QueueAction(cfg, s, Sync, known[k])
  }

  // The part of Pop before process runs: the head of the queue leaves queue and items.
  function TakeHead(s: Fifo): (r: (Fifo, Delivery))
    requires s.queue != [] && s.queue[0] in s.items
  {
    var id := s.queue[0];
    var d := Delivery(id, s.items[id], !s.HasSynced());
    (s.(queue := s.queue[1..],
        initialPopulationCount := if s.initialPopulationCount > 0 then s.initialPopulationCount - 1 else 0,
        items := s.items - {id},
        log := s.log - {id},
        delivered := s.delivered + [d]), d)
  }

  // Pop with a process function that does, or does not, answer ErrRequeue.
  function PopOp(s: Fifo, requeue: bool): Fifo
    requires s.queue != [] && s.queue[0] in s.items
  {
    var (s1, d) := TakeHead(s);
    if requeue then AddIfNotPresentAt(s1, d.key, d.deltas) else s1
  }

  // ---- Runs ----

  datatype Action =
    | Add(item: Item)
    | Update(item: Item)
    | Delete(item: Item)
    | AddIfNotPresent(deltas: Deltas)
    | Replace(list: seq<Item>, goneQueued: seq<Key>, goneKnown: seq<Key>)
    | Resync(order: seq<Key>)
    | Close
    | Pop(requeue: bool)

  // known is what knownObjects holds at the moment of the call; it may differ from call to call.
  datatype Call = Call(known: Known, action: Action)

  // A step is enabled when its iteration orders are genuine, when Pop would not block, and when
  // AddIfNotPresent is given the output of an earlier Pop, as its documentation demands.
  ghost predicate Enabled(cfg: Config, s: Fifo, c: Call) {
    match c.action
    case Replace(list, gq, gk) => ReplaceOrders(cfg, c.known, s, list, gq, gk)
    case Resync(order) => Enumerates(order, c.known.Keys)
    case AddIfNotPresent(deltas) => exists d :: d in s.delivered && d.deltas == deltas
    case Pop(_) => s.queue != []
    case _ => true
  }

  function Step(cfg: Config, s: Fifo, c: Call): Outcome {
    match c.action
    case Add(item) => AddOp(cfg, s, Added, item)
    case Update(item) => AddOp(cfg, s, Updated, item)
    case Delete(item) => DeleteOp(cfg, c.known, s, item)
    case AddIfNotPresent(deltas) => AddIfNotPresentOp(cfg, s, deltas)
    case Replace(list, gq, gk) => ReplaceOp(cfg, c.known, s, list, gq, gk)
    case Resync(order) => ResyncOp(cfg, c.known, s, order)
    case Close => Outcome(s.(closed := true), None)
    case Pop(requeue) =>
      if s.queue != [] && s.queue[0] in s.items then Outcome(PopOp(s, requeue), None)
      else Outcome(s, Some(FIFOClosed))
  }

  // Errors do not stop a run: the caller gets the error and may go on.
  function Run(cfg: Config, s: Fifo, calls: seq<Call>): Fifo
    decreases |calls|
  {
    if calls == [] then s else Run(cfg, Step(cfg, s, calls[0]).state, calls[1..])
  }

  ghost predicate Legal(cfg: Config, s: Fifo, calls: seq<Call>)
    decreases |calls|
  {
    calls == [] || (Enabled(cfg, s, calls[0]) && Legal(cfg, Step(cfg, s, calls[0]).state, calls[1..]))
  }

  lemma {:induction false} QueueAllAppend(cfg: Config, s: Fifo, a: seq<Delta>, b: seq<Delta>)
    ensures var o := QueueAll(cfg, s, a);
            QueueAll(cfg, s, a + b) == if o.err.Some? then o else QueueAll(cfg, o.state, b)
    decreases |a|
  {
    if a == [] {
      assert a + b == b;
    } else {
      assert (a + b)[1..] == a[1..] + b;
      var o := QueueAction(cfg, s, a[0].kind, a[0].item);
      if o.err.None? { QueueAllAppend(cfg, o.state, a[1..], b); }
    }
  }

  lemma {:induction false} TombstonesAt(known: Known, s: Fifo, gone: seq<Key>)
    ensures |Tombstones(known, s, gone)| == |gone|
    ensures forall i :: 0 <= i < |gone| ==>
              Tombstones(known, s, gone)[i] == Delta(Deleted, Tombstone(gone[i], LatestKnown(known, s, gone[i])))
    decreases |gone|
  {
    if gone != [] { TombstonesAt(known, s, gone[1..]); }
  }

  lemma {:induction false} PutsAt(kind: DeltaType, list: seq<Item>)
    ensures |Puts(kind, list)| == |list|
    ensures forall i :: 0 <= i < |list| ==> Puts(kind, list)[i] == Delta(kind, list[i])
  {
    if list != [] { PutsAt(kind, list[1..]); }
  }

  lemma {:induction false} TombstonesSplit(known: Known, s: Fifo, a: seq<Key>, b: seq<Key>)
    ensures Tombstones(known, s, a + b) == Tombstones(known, s, a) + Tombstones(known, s, b)
    decreases |a|
  {
    if a == [] {
      assert a + b == b;
    } else {
      assert (a + b)[1..] == a[1..] + b;
      TombstonesSplit(known, s, a[1..], b);
    }
  }
}
