// The client store (tools/cache/store.go) as processDeltas and DeltaFIFO use it.
module ClientStore {
  import opened Wrappers
  import opened DeltaModel
  import opened FifoSpec

  class Store {
    const cfg: Config
    var items: Known

    constructor (cfg: Config)
      ensures this.cfg == cfg && items == map[]
    {
      this.cfg := cfg;
      items := map[];
    }

    // Add and Update of the store do the same thing.
    method Put(item: Item) returns (err: Option<Error>)
      modifies this
      ensures err == if cfg.KeyOf(item).None? then Some(KeyError) else None
      ensures items == if err.None? then old(items)[cfg.KeyOf(item).value := item] else old(items)
    {
      match cfg.KeyOf(item)
      case None => err := Some(KeyError);
      case Some(key) =>
        items := items[key := item];
        err := None;
    }

    method Delete(item: Item) returns (err: Option<Error>)
      modifies this
      ensures err == if cfg.KeyOf(item).None? then Some(KeyError) else None
      ensures items == if err.None? then old(items) - {cfg.KeyOf(item).value} else old(items)
    {
      match cfg.KeyOf(item)
      case None => err := Some(KeyError);
      case Some(key) =>
        items := items - {key};
        err := None;
    }

    // None stands both for a missing object and for an object without a key.
    method Get(item: Item) returns (r: Option<Item>)
      ensures r.Some? <==> cfg.KeyOf(item).Some? && cfg.KeyOf(item).value in items
      ensures r.Some? ==> r.value == items[cfg.KeyOf(item).value]
    {
      match cfg.KeyOf(item)
      case None => r := None;
      case Some(key) => r := GetByKey(key);
    }

    method GetByKey(key: Key) returns (r: Option<Item>)
      ensures r == if key in items then Some(items[key]) else None
    {
      r := if key in items then Some(items[key]) else None;
    }

    // The keys in the order of a map iteration, which is not specified.
    method ListKeys() returns (keys: seq<Key>)
      ensures Enumerates(keys, items.Keys)
    {
      keys := InSomeOrder(items.Keys);
    }
  }

  // Visits the keys of a map the way a range loop does: each once, in no particular order.
  method InSomeOrder(all: set<Key>) returns (keys: seq<Key>)
    ensures Enumerates(keys, all)
  {
    keys := [];
    var rest := all;
    while rest != {}
      invariant rest <= all
      invariant Enumerates(keys, all - rest)
    {
      var k :| k in rest;
      keys := keys + [k];
      rest := rest - {k};
    }
  }
}
