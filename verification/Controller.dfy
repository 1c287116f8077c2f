// processDeltas, the filtering handler and the informer built from them
// (tools/cache/controller.go), proved against ProcessSpec and InformerSpec.
module Controller {
  import opened Wrappers
  import opened DeltaModel
  import opened FifoSpec
  import opened FifoInvariant
  import opened ClientStore
  import opened DeltaQueue
  import opened ProcessSpec
  import opened InformerSpec
  import opened InformerProof

  // A ResourceEventHandler that remembers the notifications it gets.
  class Handler {
    var trace: seq<Notification>

    constructor ()
      ensures trace == []
    {
      trace := [];
    }

    method OnAdd(obj: Item, isInInitialList: bool)
      modifies this
      ensures trace == old(trace) + [Notification.OnAdd(obj, isInInitialList)]
    {
      trace := trace + [Notification.OnAdd(obj, isInInitialList)];
    }

    method OnUpdate(oldObj: Item, newObj: Item)
      modifies this
      ensures trace == old(trace) + [Notification.OnUpdate(oldObj, newObj)]
    {
      trace := trace + [Notification.OnUpdate(oldObj, newObj)];
    }

    method OnDelete(obj: Item)
      modifies this
      ensures trace == old(trace) + [Notification.OnDelete(obj)]
    {
      trace := trace + [Notification.OnDelete(obj)];
    }
  }

  class FilteringResourceEventHandler {
    const filterFunc: Item -> bool
    const handler: Handler

    constructor (filterFunc: Item -> bool, handler: Handler)
      ensures this.filterFunc == filterFunc && this.handler == handler
    {
      this.filterFunc := filterFunc;
      this.handler := handler;
    }

    method OnAdd(obj: Item, isInInitialList: bool)
      modifies handler
      ensures handler.trace == old(handler.trace) + FilterOne(filterFunc, Notification.OnAdd(obj, isInInitialList))
    {
      if !filterFunc(obj) { return; }
      handler.OnAdd(obj, isInInitialList);
    }

    method OnUpdate(oldObj: Item, newObj: Item)
      modifies handler
      ensures handler.trace == old(handler.trace) + FilterOne(filterFunc, Notification.OnUpdate(oldObj, newObj))
    {
      var newer := filterFunc(newObj);
      var older := filterFunc(oldObj);
      if newer && older {
        handler.OnUpdate(oldObj, newObj);
      } else if newer && !older {
        handler.OnAdd(newObj, false);
      } else if !newer && older {
        handler.OnDelete(oldObj);
      }
    }

    method OnDelete(obj: Item)
      modifies handler
      ensures handler.trace == old(handler.trace) + FilterOne(filterFunc, Notification.OnDelete(obj))
    {
      if !filterFunc(obj) { return; }
      handler.OnDelete(obj);
    }
  }

  // What an informer is given as its handler: a handler, or one behind a filter. trace is everything
  // it was notified of.
  class ResourceEventHandler {
    const handler: Handler
    const filter: FilteringResourceEventHandler?
    ghost var trace: seq<Notification>

    // What the handler itself has been told.
    ghost function Passed(): seq<Notification>
      reads this
    {
      if filter == null then trace else Filtered(filter.filterFunc, trace)
    }

    ghost predicate Valid()
      reads this, handler
    {
      (filter != null ==> filter.handler == handler) && handler.trace == Passed()
    }

    constructor (filterFunc: Option<Item -> bool>)
      ensures Valid() && trace == [] && fresh(handler)
      ensures filter == null <==> filterFunc.None?
      ensures filter != null ==> filter.filterFunc == filterFunc.value
    {
      var h := new Handler();
      handler := h;
      if filterFunc.Some? {
        var f := new FilteringResourceEventHandler(filterFunc.value, h);
        filter := f;
      } else {
        filter := null;
      }
      trace := [];
    }

    method OnAdd(obj: Item, isInInitialList: bool)
      requires Valid()
      modifies this, handler
      ensures Valid() && trace == old(trace) + [Notification.OnAdd(obj, isInInitialList)]
    {
      if filter != null { filter.OnAdd(obj, isInInitialList); } else { handler.OnAdd(obj, isInInitialList); }
      Note(Notification.OnAdd(obj, isInInitialList));
    }

    method OnUpdate(oldObj: Item, newObj: Item)
      requires Valid()
      modifies this, handler
      ensures Valid() && trace == old(trace) + [Notification.OnUpdate(oldObj, newObj)]
    {
      if filter != null { filter.OnUpdate(oldObj, newObj); } else { handler.OnUpdate(oldObj, newObj); }
      Note(Notification.OnUpdate(oldObj, newObj));
    }

    method OnDelete(obj: Item)
      requires Valid()
      modifies this, handler
      ensures Valid() && trace == old(trace) + [Notification.OnDelete(obj)]
    {
      if filter != null { filter.OnDelete(obj); } else { handler.OnDelete(obj); }
      Note(Notification.OnDelete(obj));
    }

    ghost method Note(n: Notification)
      modifies this
      ensures trace == old(trace) + [n]
      ensures Passed() == old(Passed()) + if filter == null then [n] else FilterOne(filter.filterFunc, n)
    {
      if filter != null { FilteredSnoc(filter.filterFunc, trace, n); }
      trace := trace + [n];
    }
  }

  // One delta of processDeltas.
  method ProcessDelta(handler: ResourceEventHandler, clientState: Store, d: Delta, isInInitialList: bool)
    returns (err: Option<Error>)
    requires handler.Valid()
    modifies handler, handler.handler, clientState
    ensures handler.Valid()
    ensures ProcessResult(Client(clientState.items, handler.trace), err)
            == Apply(clientState.cfg, old(Client(clientState.items, handler.trace)), d, isInInitialList)
  {
    var obj := d.item;
    match d.kind
    case Deleted =>
      err := clientState.Delete(obj);
      if err.Some? { return; }
      handler.OnDelete(obj);
    case _ =>
      var stored := clientState.Get(obj);
      if stored.Some? {
        err := clientState.Put(obj);
        if err.Some? { return; }
        handler.OnUpdate(stored.value, obj);
      } else {
        err := clientState.Put(obj);
        if err.Some? { return; }
        handler.OnAdd(obj, isInInitialList);
      }
  }

  // From oldest to newest.
  method ProcessDeltas(handler: ResourceEventHandler, clientState: Store, deltas: Deltas, isInInitialList: bool)
    returns (err: Option<Error>)
    requires handler.Valid()
    modifies handler, handler.handler, clientState
    ensures handler.Valid()
    ensures ProcessResult(Client(clientState.items, handler.trace), err)
            == Process(clientState.cfg, old(Client(clientState.items, handler.trace)), deltas, isInInitialList)
  {
    var i := 0;
    assert deltas[0..] == deltas;
    while i < |deltas|
      invariant 0 <= i <= |deltas| && handler.Valid()
      invariant Process(clientState.cfg, old(Client(clientState.items, handler.trace)), deltas, isInInitialList)
             == Process(clientState.cfg, Client(clientState.items, handler.trace), deltas[i..], isInInitialList)
    {
      assert deltas[i..][0] == deltas[i] && deltas[i..][1..] == deltas[i + 1..];
      err := ProcessDelta(handler, clientState, deltas[i], isInInitialList);
      if err.Some? { return; }
      i := i + 1;
    }
    err := None;
  }

  // What newInformer puts together.
  class InformerController {
    const cfg: Config
    const fifo: DeltaFIFO
    const clientState: Store
    const handler: ResourceEventHandler

    ghost function Model(): Informer
      reads fifo, clientState, handler
    {
      Informer(fifo.Model(), Client(clientState.items, handler.trace))
    }

    ghost predicate Wired()
      reads fifo, handler, handler.handler
    {
      && fifo.knownObjects == clientState && fifo.cfg == cfg && clientState.cfg == cfg
      && fifo.Valid() && handler.Valid()
    }

    constructor (keyFunc: Object -> Option<Key>, transformer: Option<Item -> Option<Item>>,
                 handler: ResourceEventHandler)
      requires handler.Valid() && handler.trace == []
      ensures Wired() && Model() == NewInformer
      ensures cfg == Config(keyFunc, transformer, true)
      ensures fresh(fifo) && fresh(clientState) && this.handler == handler
    {
      var config := Config(keyFunc, transformer, true);
      var store := new Store(config);
      cfg := config;
      clientState := store;
      fifo := new DeltaFIFO(config, store);
      this.handler := handler;
    }

    // One Pop under the lock, with processDeltas as the process function.
    method PopProcess() returns (err: Option<Error>)
      requires Wired() && (fifo.queue != [] || fifo.closed)
      modifies fifo, clientState, handler, handler.handler
      ensures Wired()
      ensures old(fifo.queue) == [] ==> err == Some(FIFOClosed) && Model() == old(Model())
      ensures old(fifo.queue) != [] ==> old(fifo.queue)[0] in old(fifo.items)
      ensures old(fifo.queue) != [] ==> Model() == InformerSpec.PopProcess(cfg, old(Model()))
      ensures old(fifo.queue) != [] ==>
        var d := FifoSpec.TakeHead(old(fifo.Model())).1;
        err == Process(cfg, old(Model()).client, d.deltas, d.inInitialList).err
    {
      var head := fifo.TakeHead();
      match head
      case Err(e) => err := Some(e);
      case Ok(d) => err := ProcessDeltas(handler, clientState, d.deltas, d.inInitialList);
    }

    // processLoop of a controller that has been told to stop: Close only ends the loop once the
    // queue is empty, so everything that had been queued is still processed.
    method ProcessLoop()
      requires Wired() && fifo.closed
      requires Sound(cfg, Model())
      modifies fifo, clientState, handler, handler.handler
      ensures Wired() && Sound(cfg, Model())
      ensures fifo.queue == []
      ensures clientState.items == old(View(Model()))
      ensures Replay(cfg, map[], handler.trace) == Some(clientState.items)
    {
      while true
        invariant Wired() && fifo.closed && Sound(cfg, Model())
        invariant View(Model()) == old(View(Model()))
        decreases |fifo.queue|
      {
        var err := PopNext();
        if err.Some? {
          if err.value == FIFOClosed { break; }
        }
      }
      EmptyQueueView(cfg, Model());
    }

    // One pass of the loop: nobody sees a difference, except that one key less is queued.
    method PopNext() returns (err: Option<Error>)
      requires Wired() && fifo.closed && Sound(cfg, Model())
      modifies fifo, clientState, handler, handler.handler
      ensures Wired() && fifo.closed && Sound(cfg, Model())
      ensures View(Model()) == View(old(Model()))
      ensures err == if old(fifo.queue) == [] then Some(FIFOClosed) else None
      ensures |fifo.queue| == if old(fifo.queue) == [] then 0 else |old(fifo.queue)| - 1
    {
      if fifo.queue != [] {
        PopSound(cfg, Model());
        PopIsAMove(cfg, Model());
      }
      err := PopProcess();
    }
  }
}
