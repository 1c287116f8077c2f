// The listing of the fake object tracker (filterByNamespace in testing/fixture.go): a filter over
// a map in arbitrary order, followed by a sort.
module TrackerList {
  import opened Wrappers
  import opened TrackerSpec

  // Go's order on strings, character by character.
  predicate StringLess(a: string, b: string) {
    if b == "" then false
    else if a == "" then true
    else a[0] < b[0] || (a[0] == b[0] && StringLess(a[1..], b[1..]))
  }

  // The comparison that filterByNamespace hands to sort.Slice.
  predicate Less(a: Value, b: Value) {
    if a.namespace != b.namespace then StringLess(a.namespace.chars, b.namespace.chars)
    else StringLess(a.name.chars, b.name.chars)
  }

  lemma {:induction false} StringLessTransitive(a: string, b: string, c: string)
    requires StringLess(a, b) && StringLess(b, c)
    ensures StringLess(a, c)
  {
    if a != "" && a[0] == b[0] && b[0] == c[0] { StringLessTransitive(a[1..], b[1..], c[1..]); }
  }

  lemma {:induction false} StringLessTotal(a: string, b: string)
    ensures a == b || StringLess(a, b) || StringLess(b, a)
    ensures !(StringLess(a, b) && StringLess(b, a))
    ensures !StringLess(a, a)
  {
    if a != "" { StringLessTotal(a[1..], a[1..]); }
    if a != "" && b != "" {
      StringLessTotal(a[1..], b[1..]);
      if a[0] == b[0] && a[1..] == b[1..] { assert a == [a[0]] + a[1..] && b == [b[0]] + b[1..]; }
    }
  }

  lemma LessTransitive(a: Value, b: Value, c: Value)
    requires Less(a, b) && Less(b, c)
    ensures Less(a, c)
  {
    StringLessTotal(a.namespace.chars, b.namespace.chars);
    StringLessTotal(b.namespace.chars, c.namespace.chars);
    if a.namespace == b.namespace && b.namespace == c.namespace {
      StringLessTransitive(a.name.chars, b.name.chars, c.name.chars);
    } else if a.namespace != b.namespace && b.namespace != c.namespace {
      StringLessTransitive(a.namespace.chars, b.namespace.chars, c.namespace.chars);
    }
  }

  lemma LessTotal(a: Value, b: Value)
    ensures a.Name() == b.Name() || Less(a, b) || Less(b, a)
    ensures !(Less(a, b) && Less(b, a)) && !Less(a, a)
  {
    StringLessTotal(a.namespace.chars, b.namespace.chars);
    StringLessTotal(a.name.chars, b.name.chars);
    StringLessTotal(a.namespace.chars, a.namespace.chars);
    StringLessTotal(a.name.chars, a.name.chars);
  }

  // The order is that of dictionaries: the first difference decides, and a beginning comes first.
  lemma {:induction false} StringLessMeaning(a: string, b: string)
    ensures StringLess(a, b) <==> exists i :: FirstDifference(a, b, i)
  {
    forall i | FirstDifference(a, b, i) && i > 0 ensures a != "" && b != "" && a[0] == b[0] {
      assert a[..i][0] == b[..i][0];
    }
    if a != "" && b != "" && a[0] == b[0] {
      StringLessMeaning(a[1..], b[1..]);
      if i :| FirstDifference(a[1..], b[1..], i) {
        assert a[..i + 1] == [a[0]] + a[1..][..i] && b[..i + 1] == [b[0]] + b[1..][..i];
        assert FirstDifference(a, b, i + 1);
      }
      if i :| FirstDifference(a, b, i) {
        assert a[..i] == b[..i];
        if i > 0 {
          assert a[1..][..i - 1] == a[..i][1..] && b[1..][..i - 1] == b[..i][1..];
          assert FirstDifference(a[1..], b[1..], i - 1);
        }
      }
    } else if b != "" && (a == "" || a[0] < b[0]) {
      assert FirstDifference(a, b, 0);
    }
  }

  ghost predicate FirstDifference(a: string, b: string, i: int) {
    && 0 <= i <= |a| && i < |b| && a[..i] == b[..i]
    && (i == |a| || a[i] < b[i])
  }

  // A listing goes by namespaces, and by names within one.
  lemma ListingOrder(m: Objects, ns: Text, res: seq<Value>, i: nat, j: nat)
    requires IsListing(m, ns, res) && i < j < |res|
    ensures var x, y := res[i], res[j];
            if x.namespace == y.namespace then exists d :: FirstDifference(x.name.chars, y.name.chars, d)
            else exists d :: FirstDifference(x.namespace.chars, y.namespace.chars, d)
  {
    assert Less(res[i], res[j]);
    StringLessMeaning(res[i].namespace.chars, res[j].namespace.chars);
    StringLessMeaning(res[i].name.chars, res[j].name.chars);
  }

  ghost predicate Sorted(s: seq<Value>) {
    forall i, j :: 0 <= i < j < |s| ==> Less(s[i], s[j])
  }

  // res shows exactly the visible objects, each once, in strictly increasing order.
  ghost predicate IsListing(m: Objects, ns: Text, res: seq<Value>) {
    && Sorted(res)
    && forall v :: v in res <==> v.Name() in Visible(m, ns) && Visible(m, ns)[v.Name()] == v
  }

  // Two strictly sorted lists of the same objects are the same list.
  lemma {:induction false} SortedUnique(a: seq<Value>, b: seq<Value>)
    requires Sorted(a) && Sorted(b) && forall v :: v in a <==> v in b
    ensures a == b
    decreases |a|
  {
    if b != [] { assert b[0] in b; }
    if a == [] {
    } else {
      assert a[0] in a && a[0] in b;
      assert b[0] in b && b[0] in a;
      assert a[0] == b[0] by {
        LessTotal(a[0], b[0]);
        var i :| 0 <= i < |a| && a[i] == b[0];
        var j :| 0 <= j < |b| && b[j] == a[0];
      }
      LessTotal(a[0], a[0]);
      forall v ensures v in a[1..] <==> v in b[1..] {
        if v in a[1..] {
          var i :| 0 <= i < |a[1..]| && a[1..][i] == v;
          assert a[i + 1] == v && Less(a[0], v);
          assert v in a && v in b;
        }
        if v in b[1..] {
          var i :| 0 <= i < |b[1..]| && b[1..][i] == v;
          assert b[i + 1] == v && Less(b[0], v);
          assert v in b && v in a;
        }
      }
      SortedUnique(a[1..], b[1..]);
      assert a == [a[0]] + a[1..] && b == [b[0]] + b[1..];
    }
  }

  // So a listing does not depend on the order in which the map was iterated, and it determines
  // what is visible.
  lemma ListingUnique(m: Objects, ns: Text, a: seq<Value>, b: seq<Value>)
    requires IsListing(m, ns, a) && IsListing(m, ns, b)
    ensures a == b
  {
    SortedUnique(a, b);
  }

  lemma ListingDetermines(m1: Objects, m2: Objects, ns: Text, res: seq<Value>)
    requires IsListing(m1, ns, res) && IsListing(m2, ns, res)
    requires Filed(m1) && Filed(m2)
    ensures Visible(m1, ns) == Visible(m2, ns)
  {
    forall n ensures n in Visible(m1, ns) <==> n in Visible(m2, ns) {
      if n in Visible(m1, ns) { assert Visible(m1, ns)[n] in res; }
      if n in Visible(m2, ns) { assert Visible(m2, ns)[n] in res; }
    }
    forall n | n in Visible(m1, ns) ensures Visible(m1, ns)[n] == Visible(m2, ns)[n] {
      assert Visible(m1, ns)[n] in res;
    }
  }
}
