// Shortcut expansion of resources (restmapper/shortcut.go).
module Shortcuts {
  import opened Wrappers

  datatype GVR = GVR(group: Text, version: Text, resource: Text)

  datatype GroupResource = GroupResource(group: Text, resource: Text)

  datatype APIResource = APIResource(name: Text, singularName: Text, shortNames: seq<Text>)

  // One list of a discovery snapshot; group is None if its group version does not parse.
  datatype APIResourceList = APIResourceList(group: Option<Text>, resources: seq<APIResource>)

  datatype ResourceShortcut = ResourceShortcut(shortForm: GroupResource, longForm: GroupResource)

  const NoGroup := Text("")

  // ---- getShortcutMappings ----

  function NameShortcuts(group: Text, name: Text, shortNames: seq<Text>): seq<ResourceShortcut> {
    if shortNames == [] then []
    else
      var n := |shortNames| - 1;
      NameShortcuts(group, name, shortNames[..n])
      + [ResourceShortcut(GroupResource(group, shortNames[n]), GroupResource(group, name))]
  }

  function ListShortcuts(group: Text, resources: seq<APIResource>): seq<ResourceShortcut> {
    if resources == [] then []
    else
      var n := |resources| - 1;
      ListShortcuts(group, resources[..n]) + NameShortcuts(group, resources[n].name, resources[n].shortNames)
  }

  // Every short name in the snapshot, in its order.
  function Mappings(all: seq<APIResourceList>): seq<ResourceShortcut> {
    if all == [] then []
    else
      var n := |all| - 1;
      Mappings(all[..n]) + if all[n].group.None? then [] else ListShortcuts(all[n].group.value, all[n].resources)
  }

  method GetShortcutMappings(all: seq<APIResourceList>) returns (res: seq<ResourceShortcut>)
    ensures res == Mappings(all)
  {
    res := [];
    var i := 0;
    while i < |all|
      invariant 0 <= i <= |all|
      invariant res == Mappings(all[..i])
    {
      assert all[..i + 1][..i] == all[..i];
      var list := all[i];
      i := i + 1;
      if list.group.None? { continue; }
      var shortcuts := AppendResources(list.group.value, list.resources);
      res := res + shortcuts;
    }
    assert all[..i] == all;
  }

  // The loop over the resources of one list.
  method AppendResources(group: Text, resources: seq<APIResource>) returns (res: seq<ResourceShortcut>)
    ensures res == ListShortcuts(group, resources)
  {
    res := [];
    var j := 0;
    while j < |resources|
      invariant 0 <= j <= |resources|
      invariant res == ListShortcuts(group, resources[..j])
    {
      assert resources[..j + 1][..j] == resources[..j];
      var names := AppendNames(group, resources[j]);
      j := j + 1;
      res := res + names;
    }
    assert resources[..j] == resources;
  }

  // The innermost loop.
  method AppendNames(group: Text, r: APIResource) returns (res: seq<ResourceShortcut>)
    ensures res == NameShortcuts(group, r.name, r.shortNames)
  {
    res := [];
    var k := 0;
    while k < |r.shortNames|
      invariant 0 <= k <= |r.shortNames|
      invariant res == NameShortcuts(group, r.name, r.shortNames[..k])
    {
      assert r.shortNames[..k + 1][..k] == r.shortNames[..k];
      res := res + [ResourceShortcut(GroupResource(group, r.shortNames[k]), GroupResource(group, r.name))];
      k := k + 1;
    }
    assert r.shortNames[..k] == r.shortNames;
  }

  // ---- expandResourceShortcut ----

  predicate GroupFits(resource: GVR, group: Text) {
    resource.group == NoGroup || resource.group == group
  }

  predicate IsNamed(r: APIResource, name: Text) {
    name == r.name || name == r.singularName
  }

  // The resource already is a full name, plural or singular, in a group that fits.
  ghost predicate IsFullName(all: seq<APIResourceList>, resource: GVR) {
    exists i, j :: FullNameAt(all, resource, i, j)
  }

  ghost predicate FullNameAt(all: seq<APIResourceList>, resource: GVR, i: int, j: int) {
    && 0 <= i < |all| && all[i].group.Some? && GroupFits(resource, all[i].group.value)
    && 0 <= j < |all[i].resources| && IsNamed(all[i].resources[j], resource.resource)
  }

  predicate Fits(s: ResourceShortcut, resource: GVR) {
    GroupFits(resource, s.shortForm.group) && resource.resource == s.shortForm.resource
  }

  predicate FitsPrefix(s: ResourceShortcut, resource: GVR) {
    resource.group.chars <= s.shortForm.group.chars && resource.resource == s.shortForm.resource
  }

  // Shortcut i is the first that fits the resource, exactly or by a prefix of its group.
  ghost predicate FirstFit(ss: seq<ResourceShortcut>, resource: GVR, i: int) {
    0 <= i < |ss| && Fits(ss[i], resource) && forall j :: 0 <= j < i ==> !Fits(ss[j], resource)
  }

  ghost predicate FirstPrefix(ss: seq<ResourceShortcut>, resource: GVR, i: int) {
    0 <= i < |ss| && FitsPrefix(ss[i], resource) && forall j :: 0 <= j < i ==> !FitsPrefix(ss[j], resource)
  }

  function Expanded(resource: GVR, s: ResourceShortcut): GVR {
    resource.(group := s.longForm.group, resource := s.longForm.resource)
  }

  // What expansion is meant to do: full names stay; else the first shortcut of a fitting group
  // applies; else, if a group is given, the first shortcut of a group that it is a prefix of.
  ghost predicate IsExpansion(all: seq<APIResourceList>, resource: GVR, result: GVR) {
    var ss := Mappings(all);
    if IsFullName(all, resource) then result == resource
    else if exists i :: FirstFit(ss, resource, i) then
      exists i :: FirstFit(ss, resource, i) && result == Expanded(resource, ss[i])
    else if resource.group != NoGroup && exists i :: FirstPrefix(ss, resource, i) then
      exists i :: FirstPrefix(ss, resource, i) && result == Expanded(resource, ss[i])
    else result == resource
  }

  method HasFullName(all: seq<APIResourceList>, resource: GVR) returns (found: bool)
    ensures found <==> IsFullName(all, resource)
  {
    var i := 0;
    while i < |all|
      invariant 0 <= i <= |all|
      invariant forall a, j :: a < i ==> !FullNameAt(all, resource, a, j)
    {
      var list := all[i];
      if list.group.Some? && GroupFits(resource, list.group.value) {
        var j := 0;
        while j < |list.resources|
          invariant 0 <= j <= |list.resources|
          invariant forall b :: b < j ==> !FullNameAt(all, resource, i, b)
        {
          if IsNamed(list.resources[j], resource.resource) {
            assert FullNameAt(all, resource, i, j);
            return true;
          }
          j := j + 1;
        }
      }
      i := i + 1;
    }
    found := false;
  }

  method FindFit(ss: seq<ResourceShortcut>, resource: GVR) returns (r: Option<nat>)
    ensures r.Some? ==> FirstFit(ss, resource, r.value)
    ensures r.None? ==> forall i :: 0 <= i < |ss| ==> !Fits(ss[i], resource)
  {
    var i := 0;
    while i < |ss|
      invariant 0 <= i <= |ss|
      invariant forall j :: 0 <= j < i ==> !Fits(ss[j], resource)
    {
      if Fits(ss[i], resource) { return Some(i); }
      i := i + 1;
    }
    r := None;
  }

  method FindPrefix(ss: seq<ResourceShortcut>, resource: GVR) returns (r: Option<nat>)
    ensures r.Some? ==> FirstPrefix(ss, resource, r.value)
    ensures r.None? ==> forall i :: 0 <= i < |ss| ==> !FitsPrefix(ss[i], resource)
  {
    var i := 0;
    while i < |ss|
      invariant 0 <= i <= |ss|
      invariant forall j :: 0 <= j < i ==> !FitsPrefix(ss[j], resource)
    {
      if FitsPrefix(ss[i], resource) { return Some(i); }
      i := i + 1;
    }
    r := None;
  }

  method ExpandResourceShortcut(all: seq<APIResourceList>, resource: GVR) returns (result: GVR)
    ensures IsExpansion(all, resource, result)
  {
    var shortcuts := GetShortcutMappings(all);
    var full := HasFullName(all, resource);
    if full { return resource; }
    var first := FindFit(shortcuts, resource);
    if first.Some? { return Expanded(resource, shortcuts[first.value]); }
    if resource.group == NoGroup { return resource; }
    var byPrefix := FindPrefix(shortcuts, resource);
    if byPrefix.Some? { return Expanded(resource, shortcuts[byPrefix.value]); }
    result := resource;
  }

  // ---- What follows ----

  lemma {:induction false} NameShortcutsAre(group: Text, name: Text, shortNames: seq<Text>, s: ResourceShortcut)
    requires s in NameShortcuts(group, name, shortNames)
    ensures s.longForm == GroupResource(group, name) && s.shortForm.group == group
    ensures s.shortForm.resource in shortNames
  {
    var n := |shortNames| - 1;
    if s in NameShortcuts(group, name, shortNames[..n]) { NameShortcutsAre(group, name, shortNames[..n], s); }
  }

  // Shortcut s comes from the given entry: a short name of it, standing for its name in its group.
  predicate IsShortcutOf(s: ResourceShortcut, group: Text, r: APIResource) {
    && s.longForm == GroupResource(group, r.name) && s.shortForm.group == group
    && s.shortForm.resource in r.shortNames
  }

  lemma {:induction false} ListShortcutsAre(group: Text, resources: seq<APIResource>, s: ResourceShortcut)
    requires s in ListShortcuts(group, resources)
    ensures exists j :: 0 <= j < |resources| && IsShortcutOf(s, group, resources[j])
  {
    var n := |resources| - 1;
    if s in ListShortcuts(group, resources[..n]) {
      ListShortcutsAre(group, resources[..n], s);
    } else {
      NameShortcutsAre(group, resources[n].name, resources[n].shortNames, s);
      assert IsShortcutOf(s, group, resources[n]);
    }
  }

  ghost predicate ShortcutAt(all: seq<APIResourceList>, s: ResourceShortcut, i: int, j: int) {
    && 0 <= i < |all| && all[i].group.Some?
    && 0 <= j < |all[i].resources| && IsShortcutOf(s, all[i].group.value, all[i].resources[j])
  }

  // Every shortcut comes from an entry of the snapshot.
  lemma {:induction false} ShortcutsAreListed(all: seq<APIResourceList>, s: ResourceShortcut)
    requires s in Mappings(all)
    ensures exists i, j :: ShortcutAt(all, s, i, j)
  {
    var n := |all| - 1;
    if s in Mappings(all[..n]) {
      ShortcutsAreListed(all[..n], s);
      var i, j :| ShortcutAt(all[..n], s, i, j);
      assert ShortcutAt(all, s, i, j);
    } else {
      ListShortcutsAre(all[n].group.value, all[n].resources, s);
      var j :| 0 <= j < |all[n].resources| && IsShortcutOf(s, all[n].group.value, all[n].resources[j]);
      assert ShortcutAt(all, s, n, j);
    }
  }

  lemma {:induction false} NameShortcutsComplete(group: Text, name: Text, shortNames: seq<Text>, short: Text)
    requires short in shortNames
    ensures ResourceShortcut(GroupResource(group, short), GroupResource(group, name))
            in NameShortcuts(group, name, shortNames)
  {
    var n := |shortNames| - 1;
    if short != shortNames[n] { NameShortcutsComplete(group, name, shortNames[..n], short); }
  }

  lemma {:induction false} ListShortcutsComplete(group: Text, resources: seq<APIResource>, j: nat, short: Text)
    requires j < |resources| && short in resources[j].shortNames
    ensures ResourceShortcut(GroupResource(group, short), GroupResource(group, resources[j].name))
            in ListShortcuts(group, resources)
  {
    var n := |resources| - 1;
    if j < n {
      ListShortcutsComplete(group, resources[..n], j, short);
    } else {
      NameShortcutsComplete(group, resources[n].name, resources[n].shortNames, short);
    }
  }

  // The shortcuts are exactly the short names of the entries whose list has a valid version.
  lemma {:induction false} ShortcutsAreAll(all: seq<APIResourceList>, i: nat, j: nat, short: Text)
    requires i < |all| && all[i].group.Some?
    requires j < |all[i].resources| && short in all[i].resources[j].shortNames
    ensures ResourceShortcut(GroupResource(all[i].group.value, short),
                             GroupResource(all[i].group.value, all[i].resources[j].name)) in Mappings(all)
  {
    var n := |all| - 1;
    if i < n {
      ShortcutsAreAll(all[..n], i, j, short);
    } else {
      ListShortcutsComplete(all[n].group.value, all[n].resources, j, short);
    }
  }

  lemma MappingsExact(all: seq<APIResourceList>, s: ResourceShortcut)
    ensures s in Mappings(all) <==> exists i, j :: ShortcutAt(all, s, i, j)
  {
    if s in Mappings(all) { ShortcutsAreListed(all, s); }
    if i, j :| ShortcutAt(all, s, i, j) {
      ShortcutsAreAll(all, i, j, s.shortForm.resource);
      match s case ResourceShortcut(GroupResource(_, _), _) =>
    }
  }

  // Entry j of list i explains the result: it is the entry's full name under the list's group, the
  // resource named it by a short name, and the group given was a prefix of that group.
  ghost predicate ExpandsTo(all: seq<APIResourceList>, resource: GVR, result: GVR, i: int, j: int) {
    && 0 <= i < |all| && all[i].group.Some? && all[i].group.value == result.group
    && 0 <= j < |all[i].resources| && all[i].resources[j].name == result.resource
    && resource.resource in all[i].resources[j].shortNames
    && resource.group.chars <= result.group.chars
  }

  // Expansion keeps the version, and what it changes a resource into is listed under exactly the
  // group of the result.
  lemma ExpansionIsListed(all: seq<APIResourceList>, resource: GVR, result: GVR)
    requires IsExpansion(all, resource, result)
    ensures result.version == resource.version
    ensures result != resource ==> exists i, j :: ExpandsTo(all, resource, result, i, j)
  {
    if result != resource {
      var s := ShortcutUsed(all, resource, result);
      ShortcutsAreListed(all, s);
      var i, j :| ShortcutAt(all, s, i, j);
      assert ExpandsTo(all, resource, result, i, j);
    }
  }

  lemma ShortcutUsed(all: seq<APIResourceList>, resource: GVR, result: GVR) returns (s: ResourceShortcut)
    requires IsExpansion(all, resource, result) && result != resource
    ensures s in Mappings(all) && result == Expanded(resource, s)
    ensures resource.resource == s.shortForm.resource && resource.group.chars <= s.shortForm.group.chars
  {
    var ss := Mappings(all);
    if exists i :: FirstFit(ss, resource, i) {
      var k :| FirstFit(ss, resource, k) && result == Expanded(resource, ss[k]);
      s := ss[k];
    } else {
      var k :| FirstPrefix(ss, resource, k) && result == Expanded(resource, ss[k]);
      s := ss[k];
    }
  }

  // ---- Which entry decides, by its place in the snapshot ----

  // Entry j of list i has the resource as its name, plural or singular, and the group given is none or
  // the list's.
  ghost predicate NamesIt(all: seq<APIResourceList>, resource: GVR, i: int, j: int) {
    && 0 <= i < |all| && all[i].group.Some? && 0 <= j < |all[i].resources|
    && (resource.group.chars == "" || resource.group == all[i].group.value)
    && (resource.resource == all[i].resources[j].name || resource.resource == all[i].resources[j].singularName)
  }

  // Entry j of list i has the resource as a short name, and the group given is none or the list's,
  // or at least a beginning of it.
  ghost predicate ShortensTo(all: seq<APIResourceList>, resource: GVR, byPrefix: bool, i: int, j: int) {
    && 0 <= i < |all| && all[i].group.Some? && 0 <= j < |all[i].resources|
    && (if byPrefix then resource.group.chars <= all[i].group.value.chars
        else resource.group.chars == "" || resource.group == all[i].group.value)
    && resource.resource in all[i].resources[j].shortNames
  }

  ghost predicate IsEarliest(all: seq<APIResourceList>, resource: GVR, byPrefix: bool, i: int, j: int) {
    && ShortensTo(all, resource, byPrefix, i, j)
    && forall a, b :: ShortensTo(all, resource, byPrefix, a, b) ==> i < a || (i == a && j <= b)
  }

  predicate Suits(s: ResourceShortcut, resource: GVR, byPrefix: bool) {
    if byPrefix then FitsPrefix(s, resource) else Fits(s, resource)
  }

  // A shortcut that an entry contributes suits a resource only if the entry shortens to it.
  lemma SuitsMeaning(all: seq<APIResourceList>, resource: GVR, byPrefix: bool, s: ResourceShortcut, i: int, j: int)
    requires ShortcutAt(all, s, i, j) && Suits(s, resource, byPrefix)
    ensures ShortensTo(all, resource, byPrefix, i, j)
  {
    assert resource.group == NoGroup ==> resource.group.chars == "";
  }

  // The shortcuts of the entries before entry j of list i, then those of this entry, then the others.
  ghost predicate Cut(all: seq<APIResourceList>, i: nat, j: nat,
                      first: seq<ResourceShortcut>, rest: seq<ResourceShortcut>)
    requires i < |all| && all[i].group.Some? && j < |all[i].resources|
  {
    var r := all[i].resources[j];
    && Mappings(all) == first + (NameShortcuts(all[i].group.value, r.name, r.shortNames) + rest)
    && forall s :: s in first ==>
         exists a, b :: ShortcutAt(all, s, a, b) && (a < i || (a == i && b < j))
  }

  lemma {:induction false} CutList(group: Text, resources: seq<APIResource>, j: nat)
    returns (first: seq<ResourceShortcut>, rest: seq<ResourceShortcut>)
    requires j < |resources|
    ensures ListShortcuts(group, resources)
            == first + (NameShortcuts(group, resources[j].name, resources[j].shortNames) + rest)
    ensures forall s :: s in first ==> exists b :: 0 <= b < j && IsShortcutOf(s, group, resources[b])
  {
    var n := |resources| - 1;
    if j < n {
      first, rest := CutList(group, resources[..n], j);
      var last := NameShortcuts(group, resources[n].name, resources[n].shortNames);
      Regroup(first, NameShortcuts(group, resources[j].name, resources[j].shortNames), rest, last);
      rest := rest + last;
    } else {
      first, rest := ListShortcuts(group, resources[..n]), [];
      forall s | s in first ensures exists b :: 0 <= b < j && IsShortcutOf(s, group, resources[b]) {
        ListShortcutsAre(group, resources[..n], s);
        var b :| 0 <= b < n && IsShortcutOf(s, group, resources[..n][b]);
        assert IsShortcutOf(s, group, resources[b]);
      }
      assert NameShortcuts(group, resources[n].name, resources[n].shortNames) + []
          == NameShortcuts(group, resources[n].name, resources[n].shortNames);
    }
  }

  lemma Regroup(a: seq<ResourceShortcut>, b: seq<ResourceShortcut>, c: seq<ResourceShortcut>, d: seq<ResourceShortcut>)
    ensures (a + (b + c)) + d == a + (b + (c + d))
  {
  }

  lemma Nest(before: seq<ResourceShortcut>, a: seq<ResourceShortcut>, b: seq<ResourceShortcut>,
             c: seq<ResourceShortcut>)
    ensures before + (a + (b + c)) == (before + a) + (b + c)
  {
  }

  lemma {:induction false} CutAll(all: seq<APIResourceList>, i: nat, j: nat)
    returns (first: seq<ResourceShortcut>, rest: seq<ResourceShortcut>)
    requires i < |all| && all[i].group.Some? && j < |all[i].resources|
    ensures Cut(all, i, j, first, rest)
  {
    var n, r := |all| - 1, all[i].resources[j];
    var here := NameShortcuts(all[i].group.value, r.name, r.shortNames);
    if i < n {
      first, rest := CutAll(all[..n], i, j);
      var last := if all[n].group.None? then [] else ListShortcuts(all[n].group.value, all[n].resources);
      Regroup(first, here, rest, last);
      rest := rest + last;
      forall s | s in first ensures exists a, b :: ShortcutAt(all, s, a, b) && (a < i || (a == i && b < j)) {
        var a, b :| ShortcutAt(all[..n], s, a, b) && (a < i || (a == i && b < j));
        assert ShortcutAt(all, s, a, b);
      }
    } else {
      var before := Mappings(all[..n]);
      first, rest := CutList(all[n].group.value, all[n].resources, j);
      Nest(before, first, here, rest);
      forall s | s in before + first ensures exists a, b :: ShortcutAt(all, s, a, b) && (a < i || (a == i && b < j)) {
        if s in before {
          ShortcutsAreListed(all[..n], s);
          var a, b :| ShortcutAt(all[..n], s, a, b);
          assert ShortcutAt(all, s, a, b) && a < i;
        } else {
          var b :| 0 <= b < j && IsShortcutOf(s, all[n].group.value, all[n].resources[b]);
          assert ShortcutAt(all, s, n, b);
        }
      }
      first := before + first;
    }
  }

  // The first suitable shortcut stands for the earliest entry that shortens to the resource.
  lemma EarliestIsFirst(all: seq<APIResourceList>, resource: GVR, byPrefix: bool, i: int, j: int, k: int)
    requires IsEarliest(all, resource, byPrefix, i, j)
    requires 0 <= k < |Mappings(all)| && Suits(Mappings(all)[k], resource, byPrefix)
    requires forall l :: 0 <= l < k ==> !Suits(Mappings(all)[l], resource, byPrefix)
    ensures Mappings(all)[k].longForm == GroupResource(all[i].group.value, all[i].resources[j].name)
  {
    var first, rest := CutAll(all, i, j);
    var group, r, s := all[i].group.value, all[i].resources[j], Mappings(all)[k];
    var here := NameShortcuts(group, r.name, r.shortNames);
    NameShortcutsComplete(group, r.name, r.shortNames, resource.resource);
    var mine := ResourceShortcut(GroupResource(group, resource.resource), GroupResource(group, r.name));
    var at :| 0 <= at < |here| && here[at] == mine;
    assert Mappings(all)[|first| + at] == mine && Suits(mine, resource, byPrefix);
    if k < |first| {
      assert s == first[k] && s in first;
      var a, b :| ShortcutAt(all, s, a, b) && (a < i || (a == i && b < j));
      SuitsMeaning(all, resource, byPrefix, s, a, b);
    } else {
      assert s == here[k - |first|] && s in here;
      NameShortcutsAre(group, r.name, r.shortNames, s);
    }
  }

  // The whole of expansion, by the places of entries in the snapshot: a resource that some entry names
  // stays; else the earliest entry with a fitting group that has it as a short name decides; else, if a
  // group is given, the earliest one whose group begins with it; else the resource stays.
  lemma ExpansionByPlace(all: seq<APIResourceList>, resource: GVR, result: GVR)
    requires IsExpansion(all, resource, result)
    ensures (exists i, j :: NamesIt(all, resource, i, j)) ==> result == resource
    ensures forall i, j :: !(exists a, b :: NamesIt(all, resource, a, b)) && IsEarliest(all, resource, false, i, j) ==>
              result == GVR(all[i].group.value, resource.version, all[i].resources[j].name)
    ensures forall i, j ::
              && !(exists a, b :: NamesIt(all, resource, a, b))
              && !(exists a, b :: ShortensTo(all, resource, false, a, b))
              && resource.group.chars != "" && IsEarliest(all, resource, true, i, j) ==>
              result == GVR(all[i].group.value, resource.version, all[i].resources[j].name)
    ensures !(exists a, b :: ShortensTo(all, resource, false, a, b))
            && (resource.group.chars == "" || !(exists a, b :: ShortensTo(all, resource, true, a, b))) ==>
              result == resource
  {
    SameNames(all, resource);
    if !IsFullName(all, resource) {
      if exists k :: FirstFit(Mappings(all), resource, k) {
        var k :| FirstFit(Mappings(all), resource, k) && result == Expanded(resource, Mappings(all)[k]);
        Decides(all, resource, false, result, k);
      } else {
        NoneSuits(all, resource, false);
        if resource.group != NoGroup && exists k :: FirstPrefix(Mappings(all), resource, k) {
          var k :| FirstPrefix(Mappings(all), resource, k) && result == Expanded(resource, Mappings(all)[k]);
          Decides(all, resource, true, result, k);
        } else if resource.group != NoGroup {
          NoneSuits(all, resource, true);
        }
      }
    }
  }

  lemma SameNames(all: seq<APIResourceList>, resource: GVR)
    ensures IsFullName(all, resource) <==> exists i, j :: NamesIt(all, resource, i, j)
    ensures resource.group == NoGroup <==> resource.group.chars == ""
  {
    if i, j :| FullNameAt(all, resource, i, j) { assert NamesIt(all, resource, i, j); }
    if i, j :| NamesIt(all, resource, i, j) { assert FullNameAt(all, resource, i, j); }
    match resource.group case Text(_) =>
  }

  lemma Decides(all: seq<APIResourceList>, resource: GVR, byPrefix: bool, result: GVR, k: int)
    requires 0 <= k < |Mappings(all)| && Suits(Mappings(all)[k], resource, byPrefix)
    requires forall l :: 0 <= l < k ==> !Suits(Mappings(all)[l], resource, byPrefix)
    requires result == Expanded(resource, Mappings(all)[k])
    ensures exists a, b :: ShortensTo(all, resource, byPrefix, a, b)
    ensures forall i, j :: IsEarliest(all, resource, byPrefix, i, j) ==>
              result == GVR(all[i].group.value, resource.version, all[i].resources[j].name)
  {
    ShortcutsAreListed(all, Mappings(all)[k]);
    var a, b :| ShortcutAt(all, Mappings(all)[k], a, b);
    SuitsMeaning(all, resource, byPrefix, Mappings(all)[k], a, b);
    forall i, j | IsEarliest(all, resource, byPrefix, i, j)
      ensures result == GVR(all[i].group.value, resource.version, all[i].resources[j].name)
    {
      EarliestIsFirst(all, resource, byPrefix, i, j, k);
    }
  }

  // If no shortcut suits, no entry shortens to the resource.
  lemma NoneSuits(all: seq<APIResourceList>, resource: GVR, byPrefix: bool)
    requires !byPrefix ==> !exists k :: FirstFit(Mappings(all), resource, k)
    requires byPrefix ==> !exists k :: FirstPrefix(Mappings(all), resource, k)
    ensures !exists a, b :: ShortensTo(all, resource, byPrefix, a, b)
  {
    if a, b :| ShortensTo(all, resource, byPrefix, a, b) {
      ShortcutsAreAll(all, a, b, resource.resource);
      SameNames(all, resource);
      var group := all[a].group.value;
      var long := GroupResource(group, all[a].resources[b].name);
      var s := ResourceShortcut(GroupResource(group, resource.resource), long);
      assert Suits(s, resource, byPrefix);
      var k :| 0 <= k < |Mappings(all)| && Mappings(all)[k] == s;
      SomeFirst(Mappings(all), resource, byPrefix, k);
    }
  }

  lemma {:induction false} SomeFirst(ss: seq<ResourceShortcut>, resource: GVR, byPrefix: bool, k: nat)
    requires k < |ss| && Suits(ss[k], resource, byPrefix)
    ensures if byPrefix then exists i :: FirstPrefix(ss, resource, i) else exists i :: FirstFit(ss, resource, i)
  {
    if l :| 0 <= l < k && Suits(ss[l], resource, byPrefix) {
      SomeFirst(ss, resource, byPrefix, l);
    } else if byPrefix {
      assert FirstPrefix(ss, resource, k);
    } else {
      assert FirstFit(ss, resource, k);
    }
  }

  // There is one expansion, and expanding it again changes nothing.
  lemma ExpansionUnique(all: seq<APIResourceList>, resource: GVR, a: GVR, b: GVR)
    requires IsExpansion(all, resource, a) && IsExpansion(all, resource, b)
    ensures a == b
  {
  }

  lemma ExpansionIdempotent(all: seq<APIResourceList>, resource: GVR, once: GVR, twice: GVR)
    requires IsExpansion(all, resource, once) && IsExpansion(all, once, twice)
    ensures twice == once
  {
    if once == resource {
      ExpansionUnique(all, resource, once, twice);
    } else {
      ExpansionIsListed(all, resource, once);
      var i, j :| ExpandsTo(all, resource, once, i, j);
      assert FullNameAt(all, once, i, j);
    }
  }
}
