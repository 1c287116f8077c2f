// ServerPreferredResources (discovery/discovery_client.go): selecting one version of every
// resource and regrouping the selected resources by version.
module PreferredResources {
  import opened Wrappers

  datatype GroupVersion = GroupVersion(group: Text, version: Text)

  datatype GroupResource = GroupResource(group: Text, resource: Text)

  datatype APIResource = APIResource(name: Text, details: nat)

  datatype APIGroup = APIGroup(name: Text, versions: seq<Text>, preferredVersion: Text)

  // What discovery fetched; a version that failed to load is missing.
  type Fetched = map<GroupVersion, seq<APIResource>>

  // ---- Selection ----

  // One candidate: a resource that a fetched version serves.
  datatype Entry = Entry(group: Text, version: Text, preferred: bool, resource: APIResource)
  {
    function Gr(): GroupResource {
      GroupResource(group, resource.name)
    }

    function Gv(): GroupVersion {
      GroupVersion(group, version)
    }
  }

  predicate IsSubresource(r: APIResource) {
    '/' in r.name.chars
  }

  // The candidates of one version in the order of its list, without subresources.
  function VersionEntries(group: Text, version: Text, preferred: bool, resources: seq<APIResource>): seq<Entry> {
    if resources == [] then []
    else
      var n := |resources| - 1;
      VersionEntries(group, version, preferred, resources[..n])
      + if IsSubresource(resources[n]) then [] else [Entry(group, version, preferred, resources[n])]
  }

  function GroupEntries(g: APIGroup, fetched: Fetched, n: nat): seq<Entry>
    requires n <= |g.versions|
  {
    if n == 0 then []
    else
      var gv := GroupVersion(g.name, g.versions[n - 1]);
      GroupEntries(g, fetched, n - 1)
      + if gv in fetched then VersionEntries(g.name, gv.version, gv.version == g.preferredVersion, fetched[gv]) else []
  }

  // All candidates in discovery order.
  function Entries(groups: seq<APIGroup>, fetched: Fetched): seq<Entry> {
    if groups == [] then []
    else
      var n := |groups| - 1;
      Entries(groups[..n], fetched) + GroupEntries(groups[n], fetched, |groups[n].versions|)
  }

  // The candidate that a walk over the entries ends up with: the first one, unless a preferred one
  // comes along.
  function Chosen(entries: seq<Entry>, gr: GroupResource): Option<Entry> {
    if entries == [] then None
    else
      var n := |entries| - 1;
      var before := Chosen(entries[..n], gr);
      if entries[n].Gr() == gr && (before.None? || entries[n].preferred) then Some(entries[n]) else before
  }

  ghost predicate IsLastPreferred(entries: seq<Entry>, gr: GroupResource, i: int) {
    && 0 <= i < |entries| && entries[i].Gr() == gr && entries[i].preferred
    && forall j :: i < j < |entries| ==> !(entries[j].Gr() == gr && entries[j].preferred)
  }

  ghost predicate IsFirst(entries: seq<Entry>, gr: GroupResource, i: int) {
    && 0 <= i < |entries| && entries[i].Gr() == gr
    && forall j :: 0 <= j < i ==> entries[j].Gr() != gr
  }

  // Nothing is chosen exactly if nobody serves the resource.
  lemma {:induction false} ChosenIsServed(entries: seq<Entry>, gr: GroupResource)
    ensures Chosen(entries, gr).None? ==> forall i :: 0 <= i < |entries| ==> entries[i].Gr() != gr
    ensures Chosen(entries, gr).Some? ==> Chosen(entries, gr).value in entries && Chosen(entries, gr).value.Gr() == gr
  {
    if entries != [] { ChosenIsServed(entries[..|entries| - 1], gr); }
  }

  // If the preferred version serves the resource, its last candidate is chosen.
  lemma {:induction false} PreferredWins(entries: seq<Entry>, gr: GroupResource, i: int)
    requires IsLastPreferred(entries, gr, i)
    ensures Chosen(entries, gr) == Some(entries[i])
  {
    var n := |entries| - 1;
    if i < n {
      forall j | i < j < n ensures !(entries[..n][j].Gr() == gr && entries[..n][j].preferred) {
        assert entries[..n][j] == entries[j];
      }
      PreferredWins(entries[..n], gr, i);
    }
  }

  // Otherwise the earliest candidate of all is chosen.
  lemma {:induction false} EarliestWins(entries: seq<Entry>, gr: GroupResource, i: int)
    requires IsFirst(entries, gr, i)
    requires forall j :: 0 <= j < |entries| && entries[j].Gr() == gr ==> !entries[j].preferred
    ensures Chosen(entries, gr) == Some(entries[i])
  {
    var n := |entries| - 1;
    if i < n {
      forall j | 0 <= j < n ensures entries[..n][j] == entries[j] {}
      EarliestWins(entries[..n], gr, i);
    } else {
      ChosenIsServed(entries[..n], gr);
      assert Chosen(entries[..n], gr).None? by {
        forall j | 0 <= j < n ensures entries[..n][j].Gr() != gr { assert entries[..n][j] == entries[j]; }
      }
    }
  }

  // ---- Result lists ----

  class APIResourceList {
    const groupVersion: GroupVersion
    var resources: seq<APIResource>

    constructor (groupVersion: GroupVersion)
      ensures this.groupVersion == groupVersion && resources == []
    {
      this.groupVersion := groupVersion;
      resources := [];
    }
  }

  // The fetched versions in discovery order; each gets a list in the result.
  function GroupLists(g: APIGroup, fetched: Fetched, n: nat): seq<GroupVersion>
    requires n <= |g.versions|
  {
    if n == 0 then []
    else
      var gv := GroupVersion(g.name, g.versions[n - 1]);
      GroupLists(g, fetched, n - 1) + if gv in fetched then [gv] else []
  }

  function Lists(groups: seq<APIGroup>, fetched: Fetched): seq<GroupVersion> {
    if groups == [] then []
    else
      var n := |groups| - 1;
      Lists(groups[..n], fetched) + GroupLists(groups[n], fetched, |groups[n].versions|)
  }

  // The position of the latest list of a version.
  function Latest(gvs: seq<GroupVersion>, gv: GroupVersion): (r: Option<nat>)
    ensures r.Some? ==> r.value < |gvs| && gvs[r.value] == gv
  {
    if gvs == [] then None
    else if gvs[|gvs| - 1] == gv then Some(|gvs| - 1)
    else Latest(gvs[..|gvs| - 1], gv)
  }

  ghost predicate DistinctNames(rs: seq<APIResource>) {
    forall i, j :: 0 <= i < j < |rs| ==> rs[i].name != rs[j].name
  }

  class Selection {
    var result: seq<APIResourceList>
    var grVersions: map<GroupResource, Text>
    var grAPIResources: map<GroupResource, APIResource>
    var gvAPIResourceLists: map<GroupVersion, APIResourceList>

    // The maps hold what has been chosen from the candidates so far.
    ghost predicate Chose(entries: seq<Entry>)
      reads this`grVersions, this`grAPIResources
    {
      && grVersions.Keys == grAPIResources.Keys
      && forall gr ::
           && (gr in grVersions <==> Chosen(entries, gr).Some?)
           && (gr in grVersions ==>
                 && grVersions[gr] == Chosen(entries, gr).value.version
                 && grAPIResources[gr] == Chosen(entries, gr).value.resource)
    }

    // The lists made so far are those of gvs, and the map points to the latest for each version.
    ghost predicate Made(gvs: seq<GroupVersion>)
      reads this`result, this`gvAPIResourceLists
    {
      && |result| == |gvs|
      && (forall i :: 0 <= i < |gvs| ==> result[i].groupVersion == gvs[i])
      && (forall i, j :: 0 <= i < j < |result| ==> result[i] != result[j])
      && (forall gv :: gv in gvAPIResourceLists <==> Latest(gvs, gv).Some?)
      && (forall gv :: gv in gvAPIResourceLists ==> gvAPIResourceLists[gv] == result[Latest(gvs, gv).value])
    }

    constructor ()
      ensures Chose([]) && Made([])
    {
      result, grVersions, grAPIResources, gvAPIResourceLists := [], map[], map[], map[];
    }

    method Consider(e: Entry, ghost entries: seq<Entry>)
      requires Chose(entries)
      modifies this`grVersions, this`grAPIResources
      ensures Chose(entries + [e])
    {
      assert (entries + [e])[..|entries|] == entries;
      forall gr | gr != e.Gr() ensures Chosen(entries + [e], gr) == Chosen(entries, gr) {}
      var gr := e.Gr();
      ChosenIsServed(entries, gr);
      if gr in grAPIResources && !e.preferred {
        // what was found first stays
      } else {
        grVersions := grVersions[gr := e.version];
        grAPIResources := grAPIResources[gr := e.resource];
      }
    }

    method ConsiderVersion(group: Text, version: Text, preferred: bool, resources: seq<APIResource>,
                           ghost entries: seq<Entry>)
      requires Chose(entries)
      modifies this`grVersions, this`grAPIResources
      ensures Chose(entries + VersionEntries(group, version, preferred, resources))
    {
      var i := 0;
      assert entries + [] == entries;
      while i < |resources|
        invariant 0 <= i <= |resources|
        invariant Chose(entries + VersionEntries(group, version, preferred, resources[..i]))
      {
        ghost var done := entries + VersionEntries(group, version, preferred, resources[..i]);
        assert resources[..i + 1][..i] == resources[..i];
        i := i + 1;
        if !IsSubresource(resources[i - 1]) {
          var e := Entry(group, version, preferred, resources[i - 1]);
          Consider(e, done);
          assert done + [e] == entries + VersionEntries(group, version, preferred, resources[..i]);
        } else {
          assert done == entries + VersionEntries(group, version, preferred, resources[..i]);
        }
      }
      assert resources[..i] == resources;
    }

    method MakeList(gv: GroupVersion, ghost gvs: seq<GroupVersion>)
      requires Made(gvs)
      modifies this`result, this`gvAPIResourceLists
      ensures Made(gvs + [gv])
      ensures |result| == |old(result)| + 1 && old(result) <= result
      ensures fresh(result[|old(result)|]) && result[|old(result)|].resources == []
    {
      var list := new APIResourceList(gv);
      gvAPIResourceLists := gvAPIResourceLists[gv := list];
      result := result + [list];
      assert (gvs + [gv])[..|gvs|] == gvs;
      forall x ensures Latest(gvs + [gv], x) == if x == gv then Some(|gvs|) else Latest(gvs, x) {}
    }

    method ConsiderGroup(g: APIGroup, fetched: Fetched, ghost entries: seq<Entry>, ghost gvs: seq<GroupVersion>)
      requires Chose(entries) && Made(gvs)
      requires forall i :: 0 <= i < |result| ==> result[i].resources == []
      modifies this
      ensures Chose(entries + GroupEntries(g, fetched, |g.versions|))
      ensures Made(gvs + GroupLists(g, fetched, |g.versions|))
      ensures forall i :: 0 <= i < |result| ==> result[i].resources == []
      ensures forall list :: list in result ==> list in old(result) || fresh(list)
    {
      var i := 0;
      assert entries + [] == entries && gvs + [] == gvs;
      while i < |g.versions|
        invariant 0 <= i <= |g.versions|
        invariant Chose(entries + GroupEntries(g, fetched, i))
        invariant Made(gvs + GroupLists(g, fetched, i))
        invariant forall j :: 0 <= j < |result| ==> result[j].resources == []
        invariant forall list :: list in result ==> list in old(result) || fresh(list)
      {
        ConsiderNext(g, fetched, i, entries, gvs);
        i := i + 1;
      }
    }

    // The body of the loop over the versions of a group.
    method ConsiderNext(g: APIGroup, fetched: Fetched, i: nat, ghost entries: seq<Entry>, ghost gvs: seq<GroupVersion>)
      requires i < |g.versions|
      requires Chose(entries + GroupEntries(g, fetched, i)) && Made(gvs + GroupLists(g, fetched, i))
      requires forall j :: 0 <= j < |result| ==> result[j].resources == []
      modifies this
      ensures Chose(entries + GroupEntries(g, fetched, i + 1)) && Made(gvs + GroupLists(g, fetched, i + 1))
      ensures forall j :: 0 <= j < |result| ==> result[j].resources == []
      ensures forall list :: list in result ==> list in old(result) || fresh(list)
    {
      ghost var es, ls := entries + GroupEntries(g, fetched, i), gvs + GroupLists(g, fetched, i);
      var version := g.versions[i];
      var gv := GroupVersion(g.name, version);
      if gv !in fetched {
        assert es == entries + GroupEntries(g, fetched, i + 1) && ls == gvs + GroupLists(g, fetched, i + 1);
        return;
      }
      MakeList(gv, ls);
      assert ls + [gv] == gvs + GroupLists(g, fetched, i + 1);
      ConsiderVersion(g.name, version, version == g.preferredVersion, fetched[gv], es);
      assert es + VersionEntries(g.name, version, version == g.preferredVersion, fetched[gv])
          == entries + GroupEntries(g, fetched, i + 1);
    }

    // The first loop of ServerPreferredResources.
    method Select(groups: seq<APIGroup>, fetched: Fetched)
      requires Chose([]) && Made([])
      modifies this
      ensures Chose(Entries(groups, fetched)) && Made(Lists(groups, fetched))
      ensures forall i :: 0 <= i < |result| ==> fresh(result[i]) && result[i].resources == []
    {
      var i := 0;
      assert result == [];
      while i < |groups|
        invariant 0 <= i <= |groups|
        invariant Chose(Entries(groups[..i], fetched)) && Made(Lists(groups[..i], fetched))
        invariant forall j :: 0 <= j < |result| ==> result[j].resources == []
        invariant forall list :: list in result ==> fresh(list)
      {
        assert groups[..i + 1][..i] == groups[..i];
        ConsiderGroup(groups[i], fetched, Entries(groups[..i], fetched), Lists(groups[..i], fetched));
        i := i + 1;
      }
      assert groups[..i] == groups;
      forall j | 0 <= j < |result| ensures fresh(result[j]) { assert result[j] in result; }
    }

    // Resource gr goes into list i: it is the latest list of the version that was chosen for gr.
    ghost predicate GoesTo(gvs: seq<GroupVersion>, gr: GroupResource, i: int)
      reads this`grVersions
    {
      gr in grVersions && Latest(gvs, GroupVersion(gr.group, grVersions[gr])) == Some(i)
    }

    // Among the resources handled so far, r is one that goes into list i.
    ghost predicate Due(gvs: seq<GroupVersion>, rest: set<GroupResource>, i: int, r: APIResource)
      requires 0 <= i < |result|
      reads this
    {
      var gr := GroupResource(result[i].groupVersion.group, r.name);
      gr in grAPIResources && gr !in rest && grAPIResources[gr] == r && GoesTo(gvs, gr, i)
    }

    // The lists hold exactly what is due, each resource once.
    ghost predicate Grouped(gvs: seq<GroupVersion>, rest: set<GroupResource>)
      reads this, result
    {
      && (forall i :: 0 <= i < |result| ==> DistinctNames(result[i].resources))
      && (forall i, r: APIResource :: 0 <= i < |result| ==> (r in result[i].resources <==> Due(gvs, rest, i, r)))
    }

    // Everything selected has a list to go to.
    ghost predicate Ready()
      reads this
    {
      && grVersions.Keys == grAPIResources.Keys
      && forall gr :: gr in grAPIResources ==>
           grAPIResources[gr].name == gr.resource && GroupVersion(gr.group, grVersions[gr]) in gvAPIResourceLists
    }

    // One step of the second loop.
    method Place(gr: GroupResource, ghost gvs: seq<GroupVersion>, ghost rest: set<GroupResource>)
      requires Made(gvs) && Ready() && Grouped(gvs, rest) && gr in rest && gr in grAPIResources
      modifies result
      ensures unchanged(this) && Made(gvs) && Grouped(gvs, rest - {gr})
    {
      var list := gvAPIResourceLists[GroupVersion(gr.group, grVersions[gr])];
      ghost var k := Latest(gvs, GroupVersion(gr.group, grVersions[gr])).value;
      assert list == result[k];
      assert forall r :: r in list.resources ==> Due(gvs, rest, k, r) && r.name != gr.resource;
      list.resources := list.resources + [grAPIResources[gr]];
      forall i, r: APIResource | 0 <= i < |result| ensures r in result[i].resources <==> Due(gvs, rest - {gr}, i, r) {
        assert r in result[i].resources <==> r in old(result[i].resources) || (i == k && r == grAPIResources[gr]);
      }
    }

    // The second loop: the selected resources in any order.
    method Regroup(ghost gvs: seq<GroupVersion>)
      requires Made(gvs) && forall i :: 0 <= i < |result| ==> result[i].resources == []
      requires Ready()
      modifies result
      ensures Made(gvs) && Grouped(gvs, {})
    {
      var rest := grAPIResources.Keys;
      NothingGrouped(gvs);
      while rest != {}
        invariant unchanged(this) && rest <= grAPIResources.Keys
        invariant Made(gvs) && Ready() && Grouped(gvs, rest)
      {
        var gr :| gr in rest;
        Place(gr, gvs, rest);
        rest := rest - {gr};
      }
    }

    lemma NothingGrouped(gvs: seq<GroupVersion>)
      requires forall i :: 0 <= i < |result| ==> result[i].resources == []
      ensures Grouped(gvs, grAPIResources.Keys)
    {
    }
  }

  // Resource r belongs into list i of the result.
  ghost predicate Belongs(groups: seq<APIGroup>, fetched: Fetched, i: int, r: APIResource) {
    var gvs := Lists(groups, fetched);
    && 0 <= i < |gvs|
    && var c := Chosen(Entries(groups, fetched), GroupResource(gvs[i].group, r.name));
       c.Some? && c.value.resource == r && Latest(gvs, c.value.Gv()) == Some(i)
  }

  // The whole selection. Its contract does not mention the order in which the second loop visits
  // the map: whatever it is, the same resources are in the same lists, each once.
  method ServerPreferredResources(groups: seq<APIGroup>, fetched: Fetched) returns (result: seq<APIResourceList>)
    ensures |result| == |Lists(groups, fetched)|
    ensures forall i :: 0 <= i < |result| ==> result[i].groupVersion == Lists(groups, fetched)[i]
    ensures forall i :: 0 <= i < |result| ==> DistinctNames(result[i].resources)
    ensures forall i, r: APIResource :: 0 <= i < |result| ==>
              (r in result[i].resources <==> Belongs(groups, fetched, i, r))
    ensures forall i, r: APIResource :: 0 <= i < |result| && r in result[i].resources ==> '/' !in r.name.chars
  {
    var s := new Selection();
    s.Select(groups, fetched);
    ghost var gvs, entries := Lists(groups, fetched), Entries(groups, fetched);
    forall gr | gr in s.grAPIResources
      ensures s.grAPIResources[gr].name == gr.resource
      ensures GroupVersion(gr.group, s.grVersions[gr]) in s.gvAPIResourceLists
    {
      ChosenIsServed(entries, gr);
      EntriesHaveLists(groups, fetched, Chosen(entries, gr).value);
    }
    s.Regroup(gvs);
    result := s.result;
    forall i, r: APIResource | 0 <= i < |result| ensures r in result[i].resources <==> Belongs(groups, fetched, i, r) {
      var gr := GroupResource(result[i].groupVersion.group, r.name);
      ChosenIsServed(entries, gr);
    }
    forall i, r: APIResource | 0 <= i < |result| && r in result[i].resources ensures '/' !in r.name.chars {
      NoSubresources(groups, fetched, i, r);
    }
  }

  // ---- What the contract means ----

  lemma NoSubresources(groups: seq<APIGroup>, fetched: Fetched, i: int, r: APIResource)
    requires Belongs(groups, fetched, i, r)
    ensures '/' !in r.name.chars
  {
    var gr := GroupResource(Lists(groups, fetched)[i].group, r.name);
    ChosenIsServed(Entries(groups, fetched), gr);
    EntriesAreResources(groups, fetched, Chosen(Entries(groups, fetched), gr).value);
  }

  lemma {:induction false} EntriesAreResources(groups: seq<APIGroup>, fetched: Fetched, e: Entry)
    requires e in Entries(groups, fetched)
    ensures '/' !in e.resource.name.chars
  {
    var n := |groups| - 1;
    if e in GroupEntries(groups[n], fetched, |groups[n].versions|) {
      GroupEntriesAreResources(groups[n], fetched, |groups[n].versions|, e);
    } else {
      EntriesAreResources(groups[..n], fetched, e);
    }
  }

  lemma {:induction false} GroupEntriesAreResources(g: APIGroup, fetched: Fetched, n: nat, e: Entry)
    requires n <= |g.versions| && e in GroupEntries(g, fetched, n)
    ensures '/' !in e.resource.name.chars
  {
    var gv := GroupVersion(g.name, g.versions[n - 1]);
    if e in GroupEntries(g, fetched, n - 1) {
      GroupEntriesAreResources(g, fetched, n - 1, e);
    } else {
      VersionEntriesAre(g.name, gv.version, gv.version == g.preferredVersion, fetched[gv], e);
    }
  }

  // The lists come in the order of discovery: those of some groups before those of later groups, those
  // of some versions before those of later ones, and a version has one exactly if it was fetched
  // (OneVersion).
  lemma {:induction false} ListsInOrder(a: seq<APIGroup>, b: seq<APIGroup>, fetched: Fetched)
    ensures Lists(a + b, fetched) == Lists(a, fetched) + Lists(b, fetched)
    decreases |b|
  {
    if b == [] {
      assert a + b == a;
    } else {
      var n := |b| - 1;
      assert (a + b)[..|a| + n] == a + b[..n] && (a + b)[|a| + n] == b[n];
      ListsInOrder(a, b[..n], fetched);
      Regroup(Lists(a, fetched), Lists(b[..n], fetched), GroupLists(b[n], fetched, |b[n].versions|));
    }
  }

  lemma Regroup(a: seq<GroupVersion>, b: seq<GroupVersion>, c: seq<GroupVersion>)
    ensures a + (b + c) == (a + b) + c
  {
  }

  lemma {:induction false} VersionsInOrder(name: Text, preferred: Text, v: seq<Text>, w: seq<Text>,
                                           fetched: Fetched)
    ensures Lists([APIGroup(name, v + w, preferred)], fetched)
            == Lists([APIGroup(name, v, preferred)], fetched) + Lists([APIGroup(name, w, preferred)], fetched)
  {
    OneGroup(APIGroup(name, v + w, preferred), fetched);
    OneGroup(APIGroup(name, v, preferred), fetched);
    OneGroup(APIGroup(name, w, preferred), fetched);
    VersionsSplit(name, preferred, v, w, |w|, fetched);
    assert |v + w| == |v| + |w|;
  }

  lemma OneVersion(name: Text, preferred: Text, version: Text, fetched: Fetched)
    ensures Lists([APIGroup(name, [version], preferred)], fetched)
            == if GroupVersion(name, version) in fetched then [GroupVersion(name, version)] else []
  {
    var g := APIGroup(name, [version], preferred);
    OneGroup(g, fetched);
    assert GroupLists(g, fetched, 0) == [];
  }

  lemma OneGroup(g: APIGroup, fetched: Fetched)
    ensures Lists([g], fetched) == GroupLists(g, fetched, |g.versions|)
  {
    assert [g][..0] == [] && Lists([], fetched) == [];
  }

  lemma {:induction false} VersionsSplit(name: Text, preferred: Text, v: seq<Text>, w: seq<Text>, n: nat,
                                         fetched: Fetched)
    requires n <= |w|
    ensures GroupLists(APIGroup(name, v + w, preferred), fetched, |v| + n)
            == GroupLists(APIGroup(name, v, preferred), fetched, |v|)
               + GroupLists(APIGroup(name, w, preferred), fetched, n)
  {
    if n == 0 {
      SamePrefix(name, preferred, v, w, |v|, fetched);
    } else {
      VersionsSplit(name, preferred, v, w, n - 1, fetched);
      assert (v + w)[|v| + n - 1] == w[n - 1];
      var gv := GroupVersion(name, w[n - 1]);
      Regroup(GroupLists(APIGroup(name, v, preferred), fetched, |v|),
              GroupLists(APIGroup(name, w, preferred), fetched, n - 1), if gv in fetched then [gv] else []);
    }
  }

  lemma {:induction false} SamePrefix(name: Text, preferred: Text, v: seq<Text>, w: seq<Text>, n: nat,
                                      fetched: Fetched)
    requires n <= |v|
    ensures GroupLists(APIGroup(name, v + w, preferred), fetched, n)
            == GroupLists(APIGroup(name, v, preferred), fetched, n)
  {
    if n > 0 { SamePrefix(name, preferred, v, w, n - 1, fetched); }
  }

  lemma {:induction false} VersionEntriesAre(group: Text, version: Text, preferred: bool, rs: seq<APIResource>,
                                             e: Entry)
    ensures e in VersionEntries(group, version, preferred, rs) <==>
            && e.group == group && e.version == version && e.preferred == preferred
            && e.resource in rs && !IsSubresource(e.resource)
  {
    if rs != [] {
      var n := |rs| - 1;
      VersionEntriesAre(group, version, preferred, rs[..n], e);
      assert e.resource in rs <==> e.resource in rs[..n] || e.resource == rs[n];
    }
  }

  lemma {:induction false} LatestSome(gvs: seq<GroupVersion>, gv: GroupVersion)
    ensures Latest(gvs, gv).Some? <==> gv in gvs
  {
    if gvs != [] { LatestSome(gvs[..|gvs| - 1], gv); }
  }

  lemma {:induction false} GroupEntriesHaveLists(g: APIGroup, fetched: Fetched, n: nat, e: Entry)
    requires n <= |g.versions| && e in GroupEntries(g, fetched, n)
    ensures e.Gv() in GroupLists(g, fetched, n)
  {
    if n > 0 {
      var gv := GroupVersion(g.name, g.versions[n - 1]);
      if e in GroupEntries(g, fetched, n - 1) {
        GroupEntriesHaveLists(g, fetched, n - 1, e);
      } else {
        VersionEntriesAre(g.name, gv.version, gv.version == g.preferredVersion, fetched[gv], e);
      }
    }
  }

  // Every chosen candidate has a list to go to: the lookup that regroups it cannot miss.
  lemma {:induction false} EntriesHaveLists(groups: seq<APIGroup>, fetched: Fetched, e: Entry)
    requires e in Entries(groups, fetched)
    ensures Latest(Lists(groups, fetched), e.Gv()).Some?
  {
    EntriesAreListed(groups, fetched, e);
    LatestSome(Lists(groups, fetched), e.Gv());
  }

  lemma {:induction false} EntriesAreListed(groups: seq<APIGroup>, fetched: Fetched, e: Entry)
    requires e in Entries(groups, fetched)
    ensures e.Gv() in Lists(groups, fetched)
  {
    var n := |groups| - 1;
    if e in GroupEntries(groups[n], fetched, |groups[n].versions|) {
      GroupEntriesHaveLists(groups[n], fetched, |groups[n].versions|, e);
    } else {
      EntriesAreListed(groups[..n], fetched, e);
    }
  }

  // A version of a group serves a resource.
  ghost predicate Serves(g: APIGroup, fetched: Fetched, version: Text, name: Text) {
    var gv := GroupVersion(g.name, version);
    gv in fetched && '/' !in name.chars && exists r :: r in fetched[gv] && r.name == name
  }

  lemma {:induction false} ChosenAppend(a: seq<Entry>, b: seq<Entry>, gr: GroupResource)
    ensures Chosen(a + b, gr)
            == if Chosen(b, gr).Some? && (Chosen(a, gr).None? || Chosen(b, gr).value.preferred) then Chosen(b, gr)
               else Chosen(a, gr)
    decreases |b|
  {
    if b == [] {
      assert a + b == a;
    } else {
      var n := |b| - 1;
      assert (a + b)[..|a| + n] == a + b[..n];
      ChosenAppend(a, b[..n], gr);
    }
  }

  lemma VersionChoice(g: APIGroup, fetched: Fetched, version: Text, gr: GroupResource)
    requires gr.group == g.name && GroupVersion(g.name, version) in fetched
    ensures var preferred := version == g.preferredVersion;
            var c := Chosen(VersionEntries(g.name, version, preferred, fetched[GroupVersion(g.name, version)]), gr);
            && (c.Some? <==> Serves(g, fetched, version, gr.resource))
            && (c.Some? ==> c.value.version == version && c.value.preferred == preferred)
  {
    var preferred, rs := version == g.preferredVersion, fetched[GroupVersion(g.name, version)];
    var es := VersionEntries(g.name, version, preferred, rs);
    ChosenIsServed(es, gr);
    if Chosen(es, gr).Some? {
      VersionEntriesAre(g.name, version, preferred, rs, Chosen(es, gr).value);
    } else if Serves(g, fetched, version, gr.resource) {
      var r :| r in rs && r.name == gr.resource && !IsSubresource(r);
      VersionEntriesAre(g.name, version, preferred, rs, Entry(g.name, version, preferred, r));
      assert false;
    }
  }

  // Within a group, for any list of versions: a resource is chosen exactly if a listed version
  // serves it, from the preferred version if that is one of them, and else from the earliest.
  lemma {:induction false} GroupChoice(g: APIGroup, fetched: Fetched, n: nat, gr: GroupResource)
    requires n <= |g.versions| && gr.group == g.name
    ensures var c := Chosen(GroupEntries(g, fetched, n), gr);
            && (c.None? ==> forall k :: 0 <= k < n ==> !Serves(g, fetched, g.versions[k], gr.resource))
            && (c.Some? ==>
                  && Serves(g, fetched, c.value.version, gr.resource)
                  && (c.value.preferred <==> c.value.version == g.preferredVersion)
                  && (PreferredServed(g, fetched, n, gr.resource) ==> c.value.version == g.preferredVersion))
  {
    if n > 0 {
      GroupChoice(g, fetched, n - 1, gr);
      GroupStep(g, fetched, n, gr);
    }
  }

  // One more version: it is chosen if it serves the resource and nothing was chosen before or it
  // is the preferred one.
  lemma GroupStep(g: APIGroup, fetched: Fetched, n: nat, gr: GroupResource)
    requires 0 < n <= |g.versions| && gr.group == g.name
    ensures var v := g.versions[n - 1];
            var before, c := Chosen(GroupEntries(g, fetched, n - 1), gr), Chosen(GroupEntries(g, fetched, n), gr);
            if Serves(g, fetched, v, gr.resource) && (before.None? || v == g.preferredVersion)
            then c.Some? && c.value.version == v && (c.value.preferred <==> v == g.preferredVersion)
            else c == before
  {
    var v := g.versions[n - 1];
    var gv := GroupVersion(g.name, v);
    var before := GroupEntries(g, fetched, n - 1);
    if gv in fetched {
      VersionChoice(g, fetched, v, gr);
      ChosenAppend(before, VersionEntries(g.name, v, v == g.preferredVersion, fetched[gv]), gr);
    } else {
      assert before + [] == before;
    }
  }

  ghost predicate PreferredServed(g: APIGroup, fetched: Fetched, n: nat, name: Text)
    requires n <= |g.versions|
  {
    exists k :: 0 <= k < n && g.versions[k] == g.preferredVersion && Serves(g, fetched, g.versions[k], name)
  }

  lemma {:induction false} GroupEarliest(g: APIGroup, fetched: Fetched, n: nat, gr: GroupResource)
    requires n <= |g.versions| && gr.group == g.name
    requires Chosen(GroupEntries(g, fetched, n), gr).Some?
    ensures var c := Chosen(GroupEntries(g, fetched, n), gr).value;
            c.version == g.preferredVersion || EarliestServing(g, fetched, n, gr.resource, c.version)
  {
    if n > 0 {
      GroupStep(g, fetched, n, gr);
      GroupChoice(g, fetched, n - 1, gr);
      var c := Chosen(GroupEntries(g, fetched, n), gr).value;
      if Chosen(GroupEntries(g, fetched, n - 1), gr).None? {
        assert EarliestAt(g, fetched, n, gr.resource, c.version, n - 1);
      } else if c.version != g.preferredVersion {
        GroupEarliest(g, fetched, n - 1, gr);
        var k :| EarliestAt(g, fetched, n - 1, gr.resource, c.version, k);
        assert EarliestAt(g, fetched, n, gr.resource, c.version, k);
      }
    }
  }

  ghost predicate EarliestAt(g: APIGroup, fetched: Fetched, n: nat, name: Text, version: Text, k: int)
    requires n <= |g.versions|
  {
    0 <= k < n && g.versions[k] == version && forall j :: 0 <= j < k ==> !Serves(g, fetched, g.versions[j], name)
  }

  ghost predicate EarliestServing(g: APIGroup, fetched: Fetched, n: nat, name: Text, version: Text)
    requires n <= |g.versions|
  {
    exists k :: EarliestAt(g, fetched, n, name, version, k)
  }

  lemma {:induction false} OtherGroups(g: APIGroup, fetched: Fetched, n: nat, gr: GroupResource)
    requires n <= |g.versions| && gr.group != g.name
    ensures Chosen(GroupEntries(g, fetched, n), gr).None?
  {
    if n > 0 {
      OtherGroups(g, fetched, n - 1, gr);
      var gv := GroupVersion(g.name, g.versions[n - 1]);
      var before := GroupEntries(g, fetched, n - 1);
      if gv in fetched {
        var es := VersionEntries(g.name, gv.version, gv.version == g.preferredVersion, fetched[gv]);
        ChosenAppend(before, es, gr);
        ChosenIsServed(es, gr);
        if Chosen(es, gr).Some? {
          VersionEntriesAre(g.name, gv.version, gv.version == g.preferredVersion, fetched[gv], Chosen(es, gr).value);
          assert false;
        }
      } else {
        assert before + [] == before;
      }
    }
  }

  // With distinct group names, what is chosen for a resource is what its own group chooses.
  lemma {:induction false} ChoiceIsLocal(groups: seq<APIGroup>, fetched: Fetched, i: nat, gr: GroupResource)
    requires i < |groups| && gr.group == groups[i].name
    requires forall j, k :: 0 <= j < k < |groups| ==> groups[j].name != groups[k].name
    ensures Chosen(Entries(groups, fetched), gr) == Chosen(GroupEntries(groups[i], fetched, |groups[i].versions|), gr)
    decreases |groups|
  {
    var n := |groups| - 1;
    ChosenAppend(Entries(groups[..n], fetched), GroupEntries(groups[n], fetched, |groups[n].versions|), gr);
    if i < n {
      OtherGroups(groups[n], fetched, |groups[n].versions|, gr);
      ChoiceIsLocal(groups[..n], fetched, i, gr);
    } else {
      NoGroup(groups[..n], fetched, gr);
    }
  }

  lemma {:induction false} NoGroup(groups: seq<APIGroup>, fetched: Fetched, gr: GroupResource)
    requires forall j :: 0 <= j < |groups| ==> groups[j].name != gr.group
    ensures Chosen(Entries(groups, fetched), gr).None?
  {
    if groups != [] {
      var n := |groups| - 1;
      NoGroup(groups[..n], fetched, gr);
      OtherGroups(groups[n], fetched, |groups[n].versions|, gr);
      ChosenAppend(Entries(groups[..n], fetched), GroupEntries(groups[n], fetched, |groups[n].versions|), gr);
    }
  }

  // The promise of preferred-resource discovery. With distinct group names, a resource that some
  // listed version serves is in exactly one list of the result, once; it is the list of the
  // group's preferred version if that is listed and serves it, and else of the earliest that does.
  lemma PreferredOnce(groups: seq<APIGroup>, fetched: Fetched, i: nat, name: Text)
    requires i < |groups|
    requires forall j, k :: 0 <= j < k < |groups| ==> groups[j].name != groups[k].name
    ensures var g := groups[i];
            var served := exists k :: 0 <= k < |g.versions| && Serves(g, fetched, g.versions[k], name);
            var c := Chosen(Entries(groups, fetched), GroupResource(g.name, name));
            && (served <==> c.Some?)
            && (served ==>
                  && Latest(Lists(groups, fetched), c.value.Gv()).Some?
                  && Belongs(groups, fetched, Latest(Lists(groups, fetched), c.value.Gv()).value, c.value.resource)
                  && (forall j, r: APIResource | Belongs(groups, fetched, j, r) && r.name == name
                        && Lists(groups, fetched)[j].group == g.name ::
                        j == Latest(Lists(groups, fetched), c.value.Gv()).value && r == c.value.resource)
                  && (if g.preferredVersion in g.versions && Serves(g, fetched, g.preferredVersion, name)
                      then c.value.version == g.preferredVersion
                      else EarliestServing(g, fetched, |g.versions|, name, c.value.version)))
  {
    var g := groups[i];
    var gr := GroupResource(g.name, name);
    var n := |g.versions|;
    var entries := Entries(groups, fetched);
    ChoiceIsLocal(groups, fetched, i, gr);
    GroupChoice(g, fetched, n, gr);
    ChosenIsServed(entries, gr);
    var c := Chosen(entries, gr);
    if c.Some? {
      GroupEarliest(g, fetched, n, gr);
      EntriesHaveLists(groups, fetched, c.value);
      ChosenIsServed(GroupEntries(g, fetched, n), gr);
      ListedVersions(g, fetched, n, c.value);
    }
  }

  lemma {:induction false} ListedVersions(g: APIGroup, fetched: Fetched, n: nat, e: Entry)
    requires n <= |g.versions| && e in GroupEntries(g, fetched, n)
    ensures exists k :: 0 <= k < n && g.versions[k] == e.version
  {
    var gv := GroupVersion(g.name, g.versions[n - 1]);
    if e in GroupEntries(g, fetched, n - 1) {
      ListedVersions(g, fetched, n - 1, e);
    } else {
      VersionEntriesAre(g.name, gv.version, gv.version == g.preferredVersion, fetched[gv], e);
    }
  }
}
