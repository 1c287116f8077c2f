// Items, deltas and the deletion compression of tools/cache/delta_fifo.go.
module DeltaModel {
  import opened Wrappers

  datatype Key = Key(text: string)

  // To the queue an API object is an opaque value; only a key function looks inside it.
  datatype Object = Object(id: nat)

  // The interface{} values that travel through the queue. Tombstone is
  // DeletedFinalStateUnknown, whose Obj field can hold anything, nil included.
  datatype Item = Nil | Raw(obj: Object) | Tombstone(key: Key, last: Item)

  datatype DeltaType = Added | Updated | Deleted | Replaced | Sync

  datatype Delta = Delta(kind: DeltaType, item: Item)

  type Deltas = seq<Delta>

  function Newest(ds: Deltas): Delta
    requires ds != []
  {
    ds[|ds| - 1]
  }

  // The object that a tombstone wraps; any other item is its own content.
  function Unwrap(item: Item): Item {
    if item.Tombstone? then item.last else item
  }

  // newer and older are adjacent entries; the result is the one to keep, if they are duplicates.
  function IsDeletionDup(newer: Delta, older: Delta): Option<Delta> {
    if older.kind != Deleted || newer.kind != Deleted then None
    else if older.item.Tombstone? then Some(newer)
    else Some(older)
  }

  function Dedup(ds: Deltas): Deltas {
    var n := |ds|;
    if n < 2 then ds
    else match IsDeletionDup(ds[n - 1], ds[n - 2])
      case Some(out) => ds[..n - 2] + [out]
      case None => ds
  }

  // dedupDeltas: overwrites the second last slot and shortens the slice by one.
  method DedupDeltas(deltas: array<Delta>) returns (n: nat)
    modifies deltas
    ensures n <= deltas.Length
    ensures deltas[..n] == Dedup(old(deltas[..]))
  {
    n := deltas.Length;
    if n < 2 {
      assert deltas[..n] == deltas[..];
      return;
    }
    var dup := IsDeletionDup(deltas[n - 1], deltas[n - 2]);
    if dup.Some? {
      deltas[n - 2] := dup.value;
      n := n - 1;
    }
    assert dup.None? ==> deltas[..n] == old(deltas[..]);
  }

  // ---- What the compression is meant to do, without reference to the order of arrival ----

  // Length of the maximal run of deletions at the start of a log.
  function LeadingDeletes(log: seq<Delta>): (n: nat)
    ensures n <= |log|
    ensures forall i :: 0 <= i < n ==> log[i].kind == Deleted
    ensures n < |log| ==> log[n].kind != Deleted
  {
    if log == [] || log[0].kind != Deleted then 0 else 1 + LeadingDeletes(log[1..])
  }

  // The entry that stands for a run of deletions.
  function Representative(run: seq<Delta>): Delta
    requires run != []
  {
    if |run| == 1 || !run[0].item.Tombstone? then run[0] else Representative(run[1..])
  }

  // Every maximal run of deletions becomes one entry; everything else is kept in order.
  function Collapse(log: seq<Delta>): (ds: Deltas)
    ensures log != [] ==> ds != []
    ensures |ds| <= |log|
    decreases |log|
  {
    if log == [] then []
    else if log[0].kind != Deleted then [log[0]] + Collapse(log[1..])
    else
      var n := LeadingDeletes(log);
      [Representative(log[..n])] + Collapse(log[n..])
  }

  ghost predicate NoAdjacentDeletes(ds: Deltas) {
    forall i :: 0 < i < |ds| ==> !(ds[i].kind == Deleted && ds[i - 1].kind == Deleted)
  }

  // Entry i is the first of the run that carries a real object.
  ghost predicate FirstReal(run: seq<Delta>, i: int) {
    && 0 <= i < |run|
    && !run[i].item.Tombstone?
    && forall j :: 0 <= j < i ==> run[j].item.Tombstone?
  }

  // The representative is the first real deletion, or the last tombstone if there is no real one.
  lemma {:induction false} RepresentativeMeaning(run: seq<Delta>)
    requires run != []
    ensures (forall i :: 0 <= i < |run| ==> run[i].item.Tombstone?) ==> Representative(run) == run[|run| - 1]
    ensures forall i :: FirstReal(run, i) ==> Representative(run) == run[i]
  {
    if |run| == 1 || !run[0].item.Tombstone? {
    } else {
      RepresentativeMeaning(run[1..]);
      forall i | FirstReal(run, i)
        ensures Representative(run) == run[i]
      {
        assert run[1..][i - 1] == run[i];
        forall j | 0 <= j < i - 1 ensures run[1..][j].item.Tombstone? { assert run[1..][j] == run[j + 1]; }
      }
    }
  }

  // One more deletion replaces the representative exactly when that was a tombstone.
  lemma {:induction false} RepresentativeAppend(run: seq<Delta>, d: Delta)
    requires run != []
    ensures Representative(run + [d]) == if Representative(run).item.Tombstone? then d else Representative(run)
  {
    if |run| == 1 || !run[0].item.Tombstone? {
    } else {
      RepresentativeAppend(run[1..], d);
      assert (run + [d])[1..] == run[1..] + [d];
    }
  }

  lemma {:induction false} RepresentativeIn(run: seq<Delta>)
    requires run != []
    ensures Representative(run) in run
  {
    if |run| == 1 || !run[0].item.Tombstone? {
    } else {
      RepresentativeIn(run[1..]);
    }
  }

  lemma {:induction false} LeadingDeletesAppend(log: seq<Delta>, d: Delta)
    ensures LeadingDeletes(log + [d]) ==
            if LeadingDeletes(log) == |log| && d.kind == Deleted then |log| + 1 else LeadingDeletes(log)
  {
    if log != [] {
      assert (log + [d])[1..] == log[1..] + [d];
      LeadingDeletesAppend(log[1..], d);
    }
  }

  // Prefixing an entry that cannot merge with the second last one commutes with Dedup.
  lemma DedupCons(h: Delta, x: Deltas, d: Delta)
    requires x != [] || h.kind != Deleted
    ensures Dedup([h] + x + [d]) == [h] + Dedup(x + [d])
  {
    var ds := [h] + x + [d];
    var n := |ds|;
    assert ds[n - 1] == d;
    if x == [] {
      assert ds[n - 2] == h;
      assert x + [d] == [d] && ds == [h] + [d];
    } else {
      assert ds[n - 2] == (x + [d])[n - 3];
      assert ds[..n - 2] == [h] + (x + [d])[..n - 3];
      assert ds == [h] + (x + [d]);
    }
  }

  // Appending to the compressed list and deduplicating its tail is collapsing the longer log.
  lemma {:induction false} DedupIsCollapse(log: seq<Delta>, d: Delta)
    ensures Dedup(Collapse(log) + [d]) == Collapse(log + [d])
    decreases |log|
  {
    if log == [] {
      assert log + [d] == [d];
      if d.kind == Deleted {
        assert LeadingDeletes([d]) == 1;
        assert [d][..1] == [d] && [d][1..] == [];
      } else {
        assert [d][1..] == [];
      }
    } else if log[0].kind != Deleted {
      assert (log + [d])[1..] == log[1..] + [d];
      DedupIsCollapse(log[1..], d);
      DedupCons(log[0], Collapse(log[1..]), d);
    } else {
      DedupIsCollapseAfterRun(log, d);
    }
  }

  lemma {:induction false} DedupIsCollapseAfterRun(log: seq<Delta>, d: Delta)
    requires log != [] && log[0].kind == Deleted
    ensures Dedup(Collapse(log) + [d]) == Collapse(log + [d])
    decreases |log|, 0
  {
    var n := LeadingDeletes(log);
    var rep := Representative(log[..n]);
    RepresentativeIn(log[..n]);
    LeadingDeletesAppend(log, d);
    if n == |log| {
      assert log[..n] == log && log[n..] == [];
      assert Collapse(log) + [d] == [rep, d];
      if d.kind == Deleted {
        RepresentativeAppend(log, d);
        assert (log + [d])[..n + 1] == log + [d] && (log + [d])[n + 1..] == [];
      } else {
        assert (log + [d])[..n] == log && (log + [d])[n..] == [d];
        assert [d][1..] == [];
        assert Collapse([d]) == [d];
      }
    } else {
      assert (log + [d])[..n] == log[..n] && (log + [d])[n..] == log[n..] + [d];
      DedupIsCollapse(log[n..], d);
      DedupCons(rep, Collapse(log[n..]), d);
      assert Collapse(log) + [d] == [rep] + Collapse(log[n..]) + [d];
    }
  }

  // A collapsed log never has two deletions side by side.
  lemma {:induction false} CollapseSeparates(log: seq<Delta>)
    ensures NoAdjacentDeletes(Collapse(log))
    ensures log != [] ==> Collapse(log)[0].kind == log[0].kind
    decreases |log|
  {
    if log == [] {
    } else if log[0].kind != Deleted {
      CollapseSeparates(log[1..]);
    } else {
      var n := LeadingDeletes(log);
      RepresentativeIn(log[..n]);
      CollapseSeparates(log[n..]);
    }
  }

  // A list without adjacent deletions is already collapsed.
  lemma {:induction false} CollapseFixes(ds: Deltas)
    requires NoAdjacentDeletes(ds)
    ensures Collapse(ds) == ds
    decreases |ds|
  {
    if ds == [] {
    } else if ds[0].kind != Deleted {
      CollapseFixes(ds[1..]);
    } else {
      assert LeadingDeletes(ds) == 1 by {
        assert 1 < |ds| ==> ds[1].kind != Deleted;
      }
      assert ds[..1] == [ds[0]];
      CollapseFixes(ds[1..]);
    }
  }

  // Nothing is invented: every collapsed entry is an entry of the log.
  lemma {:induction false} CollapseSubset(log: seq<Delta>)
    ensures forall d :: d in Collapse(log) ==> d in log
    decreases |log|
  {
    if log == [] {
    } else if log[0].kind != Deleted {
      CollapseSubset(log[1..]);
    } else {
      var n := LeadingDeletes(log);
      RepresentativeIn(log[..n]);
      CollapseSubset(log[n..]);
    }
  }

  // Only deletions are ever merged: the other entries survive, all of them and in order.
  lemma {:induction false} CollapseKeepsTheRest(log: seq<Delta>)
    ensures NonDeletes(Collapse(log)) == NonDeletes(log)
    decreases |log|
  {
    if log == [] {
    } else if log[0].kind != Deleted {
      CollapseKeepsTheRest(log[1..]);
      assert Collapse(log)[1..] == Collapse(log[1..]);
    } else {
      var n := LeadingDeletes(log);
      RepresentativeIn(log[..n]);
      CollapseKeepsTheRest(log[n..]);
      assert Collapse(log)[1..] == Collapse(log[n..]);
      SkipDeletes(log, n);
    }
  }

  function NonDeletes(ds: Deltas): Deltas {
    if ds == [] then [] else (if ds[0].kind == Deleted then [] else [ds[0]]) + NonDeletes(ds[1..])
  }

  lemma {:induction false} SkipDeletes(ds: Deltas, n: nat)
    requires n <= |ds| && forall i :: 0 <= i < n ==> ds[i].kind == Deleted
    ensures NonDeletes(ds) == NonDeletes(ds[n..])
  {
    if n > 0 {
      SkipDeletes(ds[1..], n - 1);
      assert ds[1..][n - 1..] == ds[n..];
    } else {
      assert ds[0..] == ds;
    }
  }

  // Once a real final state has been recorded, no later tombstone in the same run displaces it.
  lemma RealDeletionStays(ds: Deltas, final: Delta, later: Delta)
    requires ds != [] && Newest(ds) == final
    requires final.kind == Deleted && !final.item.Tombstone? && later.kind == Deleted
    ensures Dedup(ds + [later]) == ds
  {
    var all := ds + [later];
    var n := |all|;
    assert all[n - 2] == final && all[n - 1] == later;
    assert all[..n - 2] + [final] == ds;
  }
}
