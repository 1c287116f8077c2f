// The informer of tools/cache/controller.go: a DeltaFIFO whose knownObjects is the client store
// and whose process function is processDeltas. Its runs refine runs of a plain map.
module InformerSpec {
  import opened Wrappers
  import opened DeltaModel
  import opened FifoSpec
  import opened FifoInvariant
  import opened ProcessSpec

  datatype Informer = Informer(fifo: Fifo, client: Client)

  const NewInformer := Informer(EmptyFifo, Client(map[], []))

  // One Pop with processDeltas as the process function. processDeltas never answers ErrRequeue.
  function PopProcess(cfg: Config, s: Informer): Informer
    requires s.fifo.queue != [] && s.fifo.queue[0] in s.fifo.items
  {
    var (fifo, d) := TakeHead(s.fifo);
    Informer(fifo, Process(cfg, s.client, d.deltas, d.inInitialList).client)
  }

  // newInformer sets RetryOnError to false, so nothing is ever put back after a Pop.
  ghost predicate Allowed(cfg: Config, s: Informer, a: Action) {
    && !a.AddIfNotPresent?
    && (a.Pop? ==> !a.requeue)
    && Enabled(cfg, s.fifo, Call(s.client.store, a))
  }

  function Move(cfg: Config, s: Informer, a: Action): Informer {
    if a.Pop? then
      if s.fifo.queue != [] && s.fifo.queue[0] in s.fifo.items then PopProcess(cfg, s) else s
    else
      s.(fifo := Step(cfg, s.fifo, Call(s.client.store, a)).state)
  }

  function Moves(cfg: Config, s: Informer, acts: seq<Action>): Informer
    decreases |acts|
  {
    if acts == [] then s else Moves(cfg, Move(cfg, s, acts[0]), acts[1..])
  }

  ghost predicate AllAllowed(cfg: Config, s: Informer, acts: seq<Action>)
    decreases |acts|
  {
    acts == [] || (Allowed(cfg, s, acts[0]) && AllAllowed(cfg, Move(cfg, s, acts[0]), acts[1..]))
  }

  // ---- The abstract map ----

  // The state of a key as the informer has heard of it: a queued key is in the state its newest
  // delta describes, any other key is as the store has it.
  function ViewAt(s: Informer, k: Key): Option<Item> {
    if Pending(s.fifo, k) != [] then
      if Newest(Pending(s.fifo, k)).kind == Deleted then None else Some(Newest(Pending(s.fifo, k)).item)
    else if k in s.client.store then Some(s.client.store[k])
    else None
  }

  function View(s: Informer): (v: Known)
    ensures forall k :: k in v <==> ViewAt(s, k).Some?
    ensures forall k :: k in v ==> v[k] == ViewAt(s, k).value
  {
    map k | k in s.fifo.items.Keys + s.client.store.Keys && ViewAt(s, k).Some? :: ViewAt(s, k).value
  }

  // The entry an item turns into when it is accepted.
  function Accept(cfg: Config, x: Item): Option<(Key, Item)> {
    match cfg.KeyOf(x)
    case None => None
    case Some(k) => match cfg.Transform(x) case None => None case Some(y) => Some((k, y))
  }

  function Put(cfg: Config, v: Known, x: Item): Known {
    match Accept(cfg, x) case None => v case Some((k, y)) => v[k := y]
  }

  function PutAll(cfg: Config, v: Known, list: seq<Item>): Known
    decreases |list|
  {
    if list == [] then v else PutAll(cfg, Put(cfg, v, list[0]), list[1..])
  }

  // How many items of a list are accepted before the first bad one.
  function GoodPrefix(cfg: Config, list: seq<Item>): (n: nat)
    ensures n <= |list|
    ensures forall i :: 0 <= i < n ==> Accept(cfg, list[i]).Some?
    ensures n < |list| ==> Accept(cfg, list[n]).None?
  {
    if list == [] || Accept(cfg, list[0]).None? then 0 else 1 + GoodPrefix(cfg, list[1..])
  }

  // The map a producer believes it is maintaining. A Replace with an unacceptable item fails
  // after putting the items before it; a good one makes the map exactly the list.
  function Ideal(cfg: Config, v: Known, a: Action): Known {
    match a
    case Add(x) => Put(cfg, v, x)
    case Update(x) => Put(cfg, v, x)
    case Delete(x) => if Accept(cfg, x).Some? then v - {cfg.KeyOf(x).value} else v
    case Replace(list, _, _) =>
      var n := GoodPrefix(cfg, list);
      if n == |list| then PutAll(cfg, map[], list) else PutAll(cfg, v, list[..n])
    case _ => v
  }

  function IdealRun(cfg: Config, v: Known, acts: seq<Action>): Known
    decreases |acts|
  {
    if acts == [] then v else IdealRun(cfg, Ideal(cfg, v, acts[0]), acts[1..])
  }

  // ---- Invariant ----

  // With a well-behaved transformer, everything queued, stored or reported is a fixed point of it.
  ghost predicate Settled(cfg: Config, x: Item) {
    cfg.Transform(x) == Some(x)
  }

  ghost predicate QueueSettled(cfg: Config, f: Fifo) {
    forall k :: k in f.items ==> forall d :: d in f.items[k] ==> Settled(cfg, d.item)
  }

  ghost predicate StoreSettled(cfg: Config, m: Known) {
    forall k :: k in m ==> Settled(cfg, m[k])
  }

  ghost predicate NoteSettled(cfg: Config, n: Notification) {
    match n
    case OnAdd(x, _) => Settled(cfg, x)
    case OnUpdate(before, x) => Settled(cfg, before) && Settled(cfg, x)
    case OnDelete(x) => Settled(cfg, x)
  }

  ghost predicate TraceSettled(cfg: Config, trace: seq<Notification>) {
    forall n :: n in trace ==> NoteSettled(cfg, n)
  }

  ghost predicate AllSettled(cfg: Config, s: Informer) {
    QueueSettled(cfg, s.fifo) && StoreSettled(cfg, s.client.store) && TraceSettled(cfg, s.client.trace)
  }

  // A pending list that starts with a deletion belongs to a key the store has.
  ghost predicate HeadsKnown(f: Fifo, store: Known) {
    forall k :: k in f.items && f.items[k] != [] && f.items[k][0].kind == Deleted ==> k in store
  }

  // What every run keeps: the queue is in order and the notifications sent agree with the store.
  ghost predicate Sound(cfg: Config, s: Informer) {
    && Inv(cfg, s.fifo)
    && Keyed(cfg, s.client.store)
    && HeadsKnown(s.fifo, s.client.store)
    && Agrees(cfg, s.client)
  }

  ghost predicate InformerInv(cfg: Config, s: Informer) {
    Sound(cfg, s) && AllSettled(cfg, s)
  }
}
