// What each operation of DeltaFIFO leaves in the queue for the keys it is about, and for the others.
module FifoContents {
  import opened Wrappers
  import opened DeltaModel
  import opened FifoSpec
  import opened FifoInvariant

  // The pending deltas of every other key are as before, and k is queued: where it was, or at the back.
  ghost predicate OnlyFor(s: Fifo, t: Fifo, k: Key) {
    && (forall j :: j != k ==> Pending(t, j) == Pending(s, j))
    && t.queue == if k in s.items then s.queue else s.queue + [k]
  }

  ghost predicate SameContents(s: Fifo, t: Fifo) {
    t.items == s.items && t.queue == s.queue
  }

  // The error with which an item is turned down, and what it becomes if it is not.
  ghost predicate TurnedDown(cfg: Config, x: Item, err: Option<Error>) {
    && (err == Some(KeyError) <==> cfg.KeyOf(x).None?)
    && (err == Some(TransformError) <==> cfg.KeyOf(x).Some? && cfg.Transform(x).None?)
    && (err.None? <==> cfg.KeyOf(x).Some? && cfg.Transform(x).Some?)
  }

  // Add and Update have the last word on their key; a call that is turned down changes no contents.
  lemma PutContents(cfg: Config, known: Known, s: Fifo, x: Item, update: bool)
    requires Core(s)
    ensures var o := Step(cfg, s, Call(known, if update then Update(x) else Add(x)));
            && TurnedDown(cfg, x, o.err)
            && (o.err.Some? ==> SameContents(s, o.state))
            && (o.err.None? ==>
                  var k := cfg.KeyOf(x).value;
                  && OnlyFor(s, o.state, k) && k in o.state.items && o.state.items[k] != []
                  && Newest(o.state.items[k]) == Delta(if update then Updated else Added, cfg.Transform(x).value))
  {
    var s1 := s.(populated := true);
    if TurnedDownNot(cfg, x) {
      EnqueueContents(s1, cfg.KeyOf(x).value, Delta(if update then Updated else Added, cfg.Transform(x).value));
    }
  }

  predicate TurnedDownNot(cfg: Config, x: Item) {
    cfg.KeyOf(x).Some? && cfg.Transform(x).Some?
  }

  lemma EnqueueContents(s: Fifo, k: Key, d: Delta)
    requires Core(s)
    ensures var t := Enqueue(s, k, d);
            && OnlyFor(s, t, k) && k in t.items && t.items[k] != []
            && (Pending(s, k) == [] ==> t.items[k] == [d])
            && (d.kind != Deleted || Pending(s, k) == [] || Newest(Pending(s, k)).kind != Deleted ==>
                  Newest(t.items[k]) == d && t.items[k] == Pending(s, k) + [d])
            && Newest(t.items[k]).kind == d.kind
  {
    assert Pending(s, k) + [d] != [];
    assert Newest(Pending(s, k) + [d]) == d;
  }

  // Delete records a deletion, of the given item unless a deletion was the last word already. For a
  // key that is neither queued nor known it records nothing.
  lemma DeleteContents(cfg: Config, known: Known, s: Fifo, x: Item)
    requires Core(s)
    ensures var o := Step(cfg, s, Call(known, Delete(x)));
            && (cfg.KeyOf(x).None? ==> o == Outcome(s, Some(KeyError)))
            && (cfg.KeyOf(x).Some? ==>
                  var k := cfg.KeyOf(x).value;
                  if k !in known && k !in s.items then o.err.None? && SameContents(s, o.state)
                  else
                    && TurnedDown(cfg, x, o.err)
                    && (o.err.Some? ==> SameContents(s, o.state))
                    && (o.err.None? ==>
                          && OnlyFor(s, o.state, k) && k in o.state.items && o.state.items[k] != []
                          && Newest(o.state.items[k]).kind == Deleted
                          && (Pending(s, k) == [] || Newest(Pending(s, k)).kind != Deleted ==>
                                Newest(o.state.items[k]).item == cfg.Transform(x).value)))
  {
    var s1 := s.(populated := true);
    if TurnedDownNot(cfg, x) {
      EnqueueContents(s1, cfg.KeyOf(x).value, Delta(Deleted, cfg.Transform(x).value));
    }
  }

  // AddIfNotPresent gives way: a queued key keeps its deltas and its place, an absent one gets exactly
  // the given deltas at the back.
  lemma AddIfNotPresentContents(cfg: Config, known: Known, s: Fifo, deltas: Deltas)
    requires deltas != [] && cfg.KeyOf(Newest(deltas).item).Some?
    ensures var k := cfg.KeyOf(Newest(deltas).item).value;
            var t := Step(cfg, s, Call(known, AddIfNotPresent(deltas))).state;
            && OnlyFor(s, t, k) && k in t.items
            && t.items[k] == if k in s.items then s.items[k] else deltas
  {
  }

  // A Pop takes the head off; asked to, it puts the same deltas back, at the back.
  lemma PopContents(cfg: Config, known: Known, s: Fifo, requeue: bool)
    requires Inv(cfg, s) && s.queue != []
    ensures s.queue[0] in s.items
    ensures var k, t := s.queue[0], Step(cfg, s, Call(known, Pop(requeue))).state;
            && (forall j :: j != k ==> Pending(t, j) == Pending(s, j))
            && t.queue == s.queue[1..] + (if requeue then [k] else [])
            && Pending(t, k) == if requeue then s.items[k] else []
  {
    TakeHeadInv(cfg, s);
    var (t, d) := TakeHead(s);
    TakeHeadContents(cfg, s);
    if requeue { AddIfNotPresentContents(cfg, known, t, d.deltas); }
  }

  lemma TakeHeadContents(cfg: Config, s: Fifo)
    requires Inv(cfg, s) && s.queue != [] && s.queue[0] in s.items
    ensures var (t, d) := TakeHead(s);
            && (forall j :: j != s.queue[0] ==> Pending(t, j) == Pending(s, j))
            && t.queue == s.queue[1..] && s.queue[0] !in t.items
            && d.key == s.queue[0] && d.deltas == s.items[d.key] != []
            && cfg.KeyOf(Newest(d.deltas).item) == Some(d.key)
  {
    assert GoodDeltas(cfg, s.queue[0], s.items[s.queue[0]]);
    assert Newest(s.items[s.queue[0]]) in s.items[s.queue[0]];
  }

  // A successful Resync queues the stored object of every known key that was not queued, and
  // nothing else.
  lemma {:induction false} ResyncContents(cfg: Config, known: Known, s: Fifo, order: seq<Key>, k: Key)
    requires Core(s) && Distinct(order)
    requires forall j :: j in known ==> cfg.KeyOf(known[j]) == Some(j)
    requires ResyncOp(cfg, known, s, order).err.None?
    ensures k in order && k in known && k !in s.items ==> cfg.Transform(known[k]).Some?
    ensures Pending(ResyncOp(cfg, known, s, order).state, k)
            == if k in order && k in known && k !in s.items then [Delta(Sync, cfg.Transform(known[k]).value)]
               else Pending(s, k)
    decreases |order|
  {
    if order != [] {
      var k0, o := order[0], SyncKey(cfg, known, s, order[0]);
      assert order[0] !in order[1..] by {
        forall i | 0 <= i < |order[1..]| ensures order[1..][i] != order[0] { assert order[1..][i] == order[i + 1]; }
      }
      assert k in order <==> k == k0 || k in order[1..];
      if k0 in known && k0 !in s.items {
        var d := Delta(Sync, cfg.Transform(known[k0]).value);
        EnqueueCore(s, k0, d);
        EnqueueContents(s, k0, d);
        assert o.state == Enqueue(s, k0, d);
      }
      ResyncContents(cfg, known, o.state, order[1..], k);
    }
  }

  // ---- Replace ----

  // What a batch without deletions says last about its keys is of its kind.
  lemma {:induction false} PutsSayLast(cfg: Config, s: Fifo, kind: DeltaType, list: seq<Item>, k: Key)
    requires Core(s) && kind != Deleted && QueueAll(cfg, s, Puts(kind, list)).err.None?
    requires k in KeysOf(cfg, list) || (Pending(s, k) != [] && Newest(Pending(s, k)).kind == kind)
    ensures var t := QueueAll(cfg, s, Puts(kind, list)).state;
            Pending(t, k) != [] && Newest(Pending(t, k)).kind == kind
    decreases |list|
  {
    if list != [] {
      var k0, d := cfg.KeyOf(list[0]).value, Delta(kind, cfg.Transform(list[0]).value);
      assert Puts(kind, list)[1..] == Puts(kind, list[1..]);
      EnqueueCore(s, k0, d);
      EnqueueContents(s, k0, d);
      PutsSayLast(cfg, Enqueue(s, k0, d), kind, list[1..], k);
    }
  }

  // The last word on a listed key is of the kind that the queue was set up to emit.
  lemma ListedContents(cfg: Config, known: Known, s: Fifo, list: seq<Item>, gq: seq<Key>, gk: seq<Key>, k: Key)
    requires Core(s) && ReplaceOrders(cfg, known, s, list, gq, gk) && k in KeysOf(cfg, list)
    requires ReplaceOp(cfg, known, s, list, gq, gk).err.None?
    ensures var t := ReplaceOp(cfg, known, s, list, gq, gk).state;
            && Pending(t, k) != []
            && Newest(Pending(t, k)).kind == if cfg.emitDeltaTypeReplaced then Replaced else Sync
  {
    var puts, tombs := Puts(cfg.ReplaceKind(), list), Tombstones(known, s, gq + gk);
    QueueAllAppend(cfg, s, puts, tombs);
    PutsSayLast(cfg, s, cfg.ReplaceKind(), list, k);
    TombstonesBatchKeys(cfg, known, s, gq + gk);
    OrdersUnion(gq, s.items.Keys - KeysOf(cfg, list), gk, known.Keys - s.items.Keys - KeysOf(cfg, list));
    assert k in gq + gk <==> k in set j | j in gq + gk;
    QueueAllOthers(cfg, QueueAll(cfg, s, puts).state, tombs, k);
  }

  // One entry of a batch that has no other for its key.
  lemma OneEntry(cfg: Config, s: Fifo, first: seq<Delta>, d: Delta, last: seq<Delta>, k: Key)
    requires k !in BatchKeys(cfg, first) && k !in BatchKeys(cfg, last)
    requires cfg.KeyOf(d.item) == Some(k) && cfg.Transform(d.item) == Some(d.item)
    requires QueueAll(cfg, s, first + ([d] + last)).err.None?
    ensures Pending(QueueAll(cfg, s, first + ([d] + last)).state, k) == Dedup(Pending(s, k) + [d])
  {
    QueueAllAppend(cfg, s, first, [d] + last);
    QueueAllOthers(cfg, s, first, k);
    var m := QueueAll(cfg, s, first).state;
    assert ([d] + last)[1..] == last;
    assert QueueAction(cfg, m, d.kind, d.item).state == Enqueue(m, k, d) by {
      match d case Delta(_, _) =>
    }
    QueueAllOthers(cfg, Enqueue(m, k, d), last, k);
  }

  lemma SplitAround(known: Known, s: Fifo, gone: seq<Key>, i: nat)
    requires Distinct(gone) && i < |gone|
    ensures gone[i] !in gone[..i] && gone[i] !in gone[i + 1..]
    ensures Tombstones(known, s, gone)
            == Tombstones(known, s, gone[..i])
               + ([Delta(Deleted, Tombstone(gone[i], LatestKnown(known, s, gone[i])))]
                  + Tombstones(known, s, gone[i + 1..]))
  {
    assert gone == gone[..i] + gone[i..];
    TombstonesSplit(known, s, gone[..i], gone[i..]);
    assert gone[i..][0] == gone[i] && gone[i..][1..] == gone[i + 1..];
  }

  // A key that a Replace deletes gets one more entry, a tombstone.
  lemma GoneContents(cfg: Config, known: Known, s: Fifo, list: seq<Item>, gone: seq<Key>, i: nat)
    requires Distinct(gone) && i < |gone| && gone[i] !in KeysOf(cfg, list)
    ensures var k, batch := gone[i], Puts(cfg.ReplaceKind(), list) + Tombstones(known, s, gone);
            var tomb := Tombstone(k, LatestKnown(known, s, k));
            QueueAll(cfg, s, batch).err.None? && cfg.Transform(tomb) == Some(tomb) ==>
              Pending(QueueAll(cfg, s, batch).state, k) == Dedup(Pending(s, k) + [Delta(Deleted, tomb)])
  {
    var k, puts := gone[i], Puts(cfg.ReplaceKind(), list);
    var before, after := Tombstones(known, s, gone[..i]), Tombstones(known, s, gone[i + 1..]);
    var tomb := Delta(Deleted, Tombstone(k, LatestKnown(known, s, k)));
    SplitAround(known, s, gone, i);
    assert puts + (before + ([tomb] + after)) == (puts + before) + ([tomb] + after);
    if QueueAll(cfg, s, (puts + before) + ([tomb] + after)).err.None? && cfg.Transform(tomb.item) == Some(tomb.item) {
      BatchKeysAppend(cfg, puts, before);
      PutsBatchKeys(cfg, cfg.ReplaceKind(), list);
      TombstonesBatchKeys(cfg, known, s, gone[..i]);
      TombstonesBatchKeys(cfg, known, s, gone[i + 1..]);
      OneEntry(cfg, s, puts + before, tomb, after, k);
    }
  }
}
