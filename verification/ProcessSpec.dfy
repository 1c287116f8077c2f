// processDeltas and the filtering handler of tools/cache/controller.go, as functions, together
// with what it means for a stream of notifications to agree with a store.
module ProcessSpec {
  import opened Wrappers
  import opened DeltaModel
  import opened FifoSpec
  import opened FifoInvariant

  datatype Notification =
    | OnAdd(item: Item, inInitialList: bool)
    | OnUpdate(before: Item, after: Item)
    | OnDelete(item: Item)

  // The client store and the notifications sent so far.
  datatype Client = Client(store: Known, trace: seq<Notification>)

  datatype ProcessResult = ProcessResult(client: Client, err: Option<Error>)

  function Apply(cfg: Config, c: Client, d: Delta, inInitialList: bool): ProcessResult {
    match cfg.KeyOf(d.item)
    case None => ProcessResult(c, Some(KeyError))
    case Some(k) =>
      if d.kind == Deleted then
        ProcessResult(Client(c.store - {k}, c.trace + [OnDelete(d.item)]), None)
      else if k in c.store then
        ProcessResult(Client(c.store[k := d.item], c.trace + [OnUpdate(c.store[k], d.item)]), None)
      else
        ProcessResult(Client(c.store[k := d.item], c.trace + [OnAdd(d.item, inInitialList)]), None)
  }

  // From oldest to newest; the first error ends the processing and keeps what was done.
  function Process(cfg: Config, c: Client, ds: Deltas, inInitialList: bool): ProcessResult
    decreases |ds|
  {
    if ds == [] then ProcessResult(c, None)
    else
      var r := Apply(cfg, c, ds[0], inInitialList);
      if r.err.Some? then r else Process(cfg, r.client, ds[1..], inInitialList)
  }

  // A consumer that maintains its own copy of the store. It rejects (None) an add of a key it
  // has, an update of a key it lacks or whose old object is not the one it has, and a delete of
  // a key it lacks.
  function ReplayOne(cfg: Config, m: Known, n: Notification): Option<Known> {
    match n
    case OnAdd(x, _) =>
      if cfg.KeyOf(x).Some? && cfg.KeyOf(x).value !in m then Some(m[cfg.KeyOf(x).value := x]) else None
    case OnUpdate(before, x) =>
      if cfg.KeyOf(x).Some? && cfg.KeyOf(x).value in m && m[cfg.KeyOf(x).value] == before
      then Some(m[cfg.KeyOf(x).value := x]) else None
    case OnDelete(x) =>
      if cfg.KeyOf(x).Some? && cfg.KeyOf(x).value in m then Some(m - {cfg.KeyOf(x).value}) else None
  }

  function Replay(cfg: Config, m: Known, trace: seq<Notification>): Option<Known>
    decreases |trace|
  {
    if trace == [] then Some(m)
    else match ReplayOne(cfg, m, trace[0])
      case None => None
      case Some(m1) => Replay(cfg, m1, trace[1..])
  }

  lemma {:induction false} ReplayAppend(cfg: Config, m: Known, a: seq<Notification>, b: seq<Notification>)
    ensures Replay(cfg, m, a + b) ==
            if Replay(cfg, m, a).Some? then Replay(cfg, Replay(cfg, m, a).value, b) else None
    decreases |a|
  {
    if a == [] {
      assert a + b == b;
    } else {
      assert (a + b)[1..] == a[1..] + b;
      var r := ReplayOne(cfg, m, a[0]);
      if r.Some? { ReplayAppend(cfg, r.value, a[1..], b); }
    }
  }

  // The store and the trace after one key's pending deltas.
  ghost predicate Agrees(cfg: Config, c: Client) {
    Replay(cfg, map[], c.trace) == Some(c.store)
  }

  lemma ApplyAgrees(cfg: Config, c: Client, d: Delta, init: bool)
    requires Agrees(cfg, c) && cfg.KeyOf(d.item).Some?
    requires d.kind == Deleted ==> cfg.KeyOf(d.item).value in c.store
    ensures Agrees(cfg, Apply(cfg, c, d, init).client)
  {
    var c1 := Apply(cfg, c, d, init).client;
    var n := c1.trace[|c.trace|];
    assert c1.trace == c.trace + [n];
    ReplayAppend(cfg, map[], c.trace, [n]);
    assert [n][1..] == [];
    assert Replay(cfg, c1.store, []) == Some(c1.store);
    assert ReplayOne(cfg, c.store, n) == Some(c1.store);
  }

  // Processing the deltas of one key never fails, ends with the newest state in the store, and
  // notifies in agreement with the store, provided a leading deletion finds the key there.
  lemma {:induction false} ProcessGood(cfg: Config, c: Client, k: Key, ds: Deltas, init: bool)
    requires GoodDeltas(cfg, k, ds) && Agrees(cfg, c)
    requires ds[0].kind == Deleted ==> k in c.store
    ensures var r := Process(cfg, c, ds, init);
            && r.err.None?
            && r.client.store == (if Newest(ds).kind == Deleted then c.store - {k} else c.store[k := Newest(ds).item])
            && Agrees(cfg, r.client)
    decreases |ds|
  {
    ApplyAgrees(cfg, c, ds[0], init);
    var c1 := Apply(cfg, c, ds[0], init).client;
    if |ds| == 1 {
      assert ds[1..] == [];
    } else {
      assert NoAdjacentDeletes(ds[1..]);
      ProcessGood(cfg, c1, k, ds[1..], init);
      assert Newest(ds[1..]) == Newest(ds);
      assert c.store[k := ds[0].item][k := Newest(ds).item] == c.store[k := Newest(ds).item];
    }
  }

  // ---- FilteringResourceEventHandler ----

  // The notifications the nested handler gets for one notification.
  function FilterOne(f: Item -> bool, n: Notification): seq<Notification> {
    match n
    case OnAdd(x, _) => if f(x) then [n] else []
    case OnUpdate(before, x) =>
      if f(x) && f(before) then [n]
      else if f(x) then [OnAdd(x, false)]
      else if f(before) then [OnDelete(before)]
      else []
    case OnDelete(x) => if f(x) then [n] else []
  }

  function Filtered(f: Item -> bool, trace: seq<Notification>): seq<Notification>
    decreases |trace|
  {
    if trace == [] then [] else FilterOne(f, trace[0]) + Filtered(f, trace[1..])
  }

  lemma {:induction false} FilteredSnoc(f: Item -> bool, trace: seq<Notification>, n: Notification)
    ensures Filtered(f, trace + [n]) == Filtered(f, trace) + FilterOne(f, n)
    decreases |trace|
  {
    if trace == [] {
      assert trace + [n] == [n] && [n][1..] == [];
    } else {
      assert (trace + [n])[1..] == trace[1..] + [n];
      FilteredSnoc(f, trace[1..], n);
    }
  }

  function Submap(f: Item -> bool, m: Known): Known {
    map k | k in m && f(m[k]) :: m[k]
  }

  ghost predicate Keyed(cfg: Config, m: Known) {
    forall k :: k in m ==> cfg.KeyOf(m[k]) == Some(k)
  }

  // The filter says the same of the object a deletion reports and of the object in the store.
  ghost predicate CoherentAt(cfg: Config, f: Item -> bool, m: Known, n: Notification)
    requires ReplayOne(cfg, m, n).Some?
  {
    n.OnDelete? ==> f(n.item) == f(m[cfg.KeyOf(n.item).value])
  }

  ghost predicate Coherent(cfg: Config, f: Item -> bool, m: Known, trace: seq<Notification>)
    requires Replay(cfg, m, trace).Some?
    decreases |trace|
  {
    trace == [] ||
    (CoherentAt(cfg, f, m, trace[0]) && Coherent(cfg, f, ReplayOne(cfg, m, trace[0]).value, trace[1..]))
  }

  // After n notifications the nested handler can rebuild exactly the passing part of the store.
  ghost predicate FaithfulAt(cfg: Config, f: Item -> bool, m: Known, trace: seq<Notification>, n: nat)
    requires n <= |trace|
  {
    var whole := Replay(cfg, m, trace[..n]);
    whole.Some? && Replay(cfg, Submap(f, m), Filtered(f, trace[..n])) == Some(Submap(f, whole.value))
  }

  lemma FilterStep(cfg: Config, f: Item -> bool, m: Known, n: Notification)
    requires Keyed(cfg, m) && ReplayOne(cfg, m, n).Some?
    ensures Keyed(cfg, ReplayOne(cfg, m, n).value)
    ensures Replay(cfg, Submap(f, m), FilterOne(f, n)) == Some(Submap(f, ReplayOne(cfg, m, n).value))
            <==> CoherentAt(cfg, f, m, n)
  {
    match n
    case OnAdd(x, _) => FilterAdd(cfg, f, m, n);
    case OnUpdate(before, x) => FilterUpdate(cfg, f, m, n);
    case OnDelete(x) => FilterDelete(cfg, f, m, n);
  }

  lemma ReplaySingle(cfg: Config, m: Known, n: Notification)
    ensures Replay(cfg, m, [n]) == ReplayOne(cfg, m, n)
  {
    assert [n][1..] == [];
  }

  lemma FilterAdd(cfg: Config, f: Item -> bool, m: Known, n: Notification)
    requires Keyed(cfg, m) && n.OnAdd? && ReplayOne(cfg, m, n).Some?
    ensures Replay(cfg, Submap(f, m), FilterOne(f, n)) == Some(Submap(f, ReplayOne(cfg, m, n).value))
  {
    var k := cfg.KeyOf(n.item).value;
    ReplaySingle(cfg, Submap(f, m), n);
    if f(n.item) {
      assert Submap(f, m)[k := n.item] == Submap(f, m[k := n.item]);
    } else {
      assert Submap(f, m) == Submap(f, m[k := n.item]);
    }
  }

  lemma FilterUpdate(cfg: Config, f: Item -> bool, m: Known, n: Notification)
    requires Keyed(cfg, m) && n.OnUpdate? && ReplayOne(cfg, m, n).Some?
    ensures Replay(cfg, Submap(f, m), FilterOne(f, n)) == Some(Submap(f, ReplayOne(cfg, m, n).value))
  {
    var k := cfg.KeyOf(n.after).value;
    var sub, m1 := Submap(f, m), m[k := n.after];
    if FilterOne(f, n) != [] { ReplaySingle(cfg, sub, FilterOne(f, n)[0]); }
    if f(n.after) {
      assert sub[k := n.after] == Submap(f, m1);
    } else if f(n.before) {
      assert sub - {k} == Submap(f, m1);
    } else {
      assert sub == Submap(f, m1);
    }
  }

  lemma FilterDelete(cfg: Config, f: Item -> bool, m: Known, n: Notification)
    requires Keyed(cfg, m) && n.OnDelete? && ReplayOne(cfg, m, n).Some?
    ensures Replay(cfg, Submap(f, m), FilterOne(f, n)) == Some(Submap(f, ReplayOne(cfg, m, n).value))
            <==> CoherentAt(cfg, f, m, n)
  {
    var k := cfg.KeyOf(n.item).value;
    var sub, m1 := Submap(f, m), m - {k};
    ReplaySingle(cfg, sub, n);
    assert k !in Submap(f, m1);
    if f(m[k]) {
      assert k in sub && sub - {k} == Submap(f, m1);
    } else {
      assert k !in sub && sub == Submap(f, m1);
    }
  }

  lemma FaithfulShift(cfg: Config, f: Item -> bool, m: Known, trace: seq<Notification>, n: nat)
    requires Keyed(cfg, m) && Replay(cfg, m, trace).Some? && 0 < n <= |trace|
    requires CoherentAt(cfg, f, m, trace[0])
    ensures FaithfulAt(cfg, f, m, trace, n)
            <==> FaithfulAt(cfg, f, ReplayOne(cfg, m, trace[0]).value, trace[1..], n - 1)
  {
    var m1 := ReplayOne(cfg, m, trace[0]).value;
    FilterStep(cfg, f, m, trace[0]);
    assert trace[..n][1..] == trace[1..][..n - 1];
    assert Filtered(f, trace[..n]) == FilterOne(f, trace[0]) + Filtered(f, trace[1..][..n - 1]);
    ReplayAppend(cfg, Submap(f, m), FilterOne(f, trace[0]), Filtered(f, trace[1..][..n - 1]));
  }

  // The filtered view is right at every moment if and only if, at every deletion, the filter's
  // verdict on the reported object is its verdict on the stored one.
  lemma {:induction false} FilteredView(cfg: Config, f: Item -> bool, m: Known, trace: seq<Notification>)
    requires Keyed(cfg, m) && Replay(cfg, m, trace).Some?
    ensures Coherent(cfg, f, m, trace) <==> forall n: nat :: n <= |trace| ==> FaithfulAt(cfg, f, m, trace, n)
    decreases |trace|
  {
    assert trace[..0] == [];
    assert FaithfulAt(cfg, f, m, trace, 0);
    if trace != [] {
      var m1 := ReplayOne(cfg, m, trace[0]).value;
      FilterStep(cfg, f, m, trace[0]);
      if CoherentAt(cfg, f, m, trace[0]) {
        FilteredView(cfg, f, m1, trace[1..]);
        forall n: nat | 0 < n <= |trace|
          ensures FaithfulAt(cfg, f, m, trace, n) <==> FaithfulAt(cfg, f, m1, trace[1..], n - 1)
        {
          FaithfulShift(cfg, f, m, trace, n);
        }
        if forall n: nat :: n <= |trace| ==> FaithfulAt(cfg, f, m, trace, n) {
          forall n: nat | n <= |trace[1..]| ensures FaithfulAt(cfg, f, m1, trace[1..], n) {
            assert FaithfulAt(cfg, f, m, trace, n + 1);
          }
        }
      } else {
        IncoherentFirst(cfg, f, m, trace);
      }
    }
  }

  lemma IncoherentFirst(cfg: Config, f: Item -> bool, m: Known, trace: seq<Notification>)
    requires Keyed(cfg, m) && trace != [] && Replay(cfg, m, trace).Some?
    requires !CoherentAt(cfg, f, m, trace[0])
    ensures !FaithfulAt(cfg, f, m, trace, 1)
  {
    FilterStep(cfg, f, m, trace[0]);
    assert trace[..1] == [trace[0]] && [trace[0]][1..] == [];
    assert Filtered(f, []) == [];
    assert Filtered(f, [trace[0]]) == FilterOne(f, trace[0]) + [];
    assert Replay(cfg, m, [trace[0]]) == ReplayOne(cfg, m, trace[0]);
  }
}
