// Group versions and their paths on the OpenAPI V3 server (openapi3/root.go).
module ApiPaths {
  import opened Wrappers

  datatype GroupVersion = GroupVersion(group: string, version: string)

  datatype PathError = UnparsablePath | GroupWithoutVersion

  // The pieces of s between slashes.
  function Split(s: string): (parts: seq<Text>)
    ensures |parts| >= 1
  {
    if s == [] then [Text(s)]
    else if s[0] == '/' then [Text([])] + Split(s[1..])
    else var rest := Split(s[1..]); [Text([s[0]] + rest[0].chars)] + rest[1..]
  }

  // Pieces written with slashes between them.
  function Join(parts: seq<Text>): string
    requires parts != []
  {
    if |parts| == 1 then parts[0].chars else parts[0].chars + "/" + Join(parts[1..])
  }

  function GvToAPIPath(gv: GroupVersion): string {
    if gv.group == "" then "api" + "/" + gv.version
    else "apis" + "/" + (gv.group + "/" + gv.version)
  }

  function PathToGroupVersion(path: string): Result<GroupVersion, PathError> {
    var parts := Split(path);
    if |parts| < 2 then Err(UnparsablePath)
    else if parts[0].chars == "apis" then
      if |parts| < 3 then Err(GroupWithoutVersion) else Ok(GroupVersion(parts[1].chars, parts[2].chars))
    else if parts[0].chars == "api" then Ok(GroupVersion("", parts[1].chars))
    else Err(UnparsablePath)
  }

  // ---- Splitting ----

  predicate Plain(s: string) { '/' !in s }

  lemma {:induction false} SplitPlain(s: string)
    requires Plain(s)
    ensures Split(s) == [Text(s)]
  {
    if s != [] {
      SplitPlain(s[1..]);
      assert [s[0]] + s[1..] == s;
    }
  }

  lemma {:induction false} SplitAtSlash(a: string, rest: string)
    requires Plain(a)
    ensures Split(a + "/" + rest) == [Text(a)] + Split(rest)
  {
    var s := a + "/" + rest;
    if a == [] {
      assert s[1..] == rest;
    } else {
      assert s[1..] == a[1..] + "/" + rest;
      SplitAtSlash(a[1..], rest);
      assert [a[0]] + a[1..] == a;
    }
  }

  lemma {:induction false} PartsArePlain(s: string, i: nat)
    requires i < |Split(s)|
    ensures Plain(Split(s)[i].chars)
  {
    if s != [] && s[0] == '/' {
      if i > 0 { PartsArePlain(s[1..], i - 1); }
    } else if s != [] {
      PartsArePlain(s[1..], i);
    }
  }

  lemma {:induction false} JoinSplit(s: string)
    ensures Join(Split(s)) == s
  {
    if s != [] {
      var parts, rest := Split(s), Split(s[1..]);
      JoinSplit(s[1..]);
      if s[0] == '/' {
        assert parts[1..] == rest;
      } else if |rest| > 1 {
        assert parts[1..] == rest[1..];
      }
    }
  }

  // ---- The two directions ----

  // Parsing the path of a group version gives it back exactly if neither part has a slash.
  lemma PrintThenParse(gv: GroupVersion)
    ensures PathToGroupVersion(GvToAPIPath(gv)) == Ok(gv) <==> Plain(gv.group) && Plain(gv.version)
  {
    var path := GvToAPIPath(gv);
    if Plain(gv.group) && Plain(gv.version) {
      SplitPlain(gv.version);
      if gv.group == "" {
        SplitAtSlash("api", gv.version);
      } else {
        SplitAtSlash(gv.group, gv.version);
        SplitAtSlash("apis", gv.group + "/" + gv.version);
      }
    } else {
      ParsedIsPlain(path);
    }
  }

  lemma ParsedIsPlain(path: string)
    ensures PathToGroupVersion(path).Ok? ==>
      Plain(PathToGroupVersion(path).value.group) && Plain(PathToGroupVersion(path).value.version)
  {
    forall i: nat | i < |Split(path)| ensures Plain(Split(path)[i].chars) { PartsArePlain(path, i); }
  }

  // On such group versions printing loses nothing.
  lemma PrintInjective(a: GroupVersion, b: GroupVersion)
    requires Plain(a.group) && Plain(a.version) && Plain(b.group) && Plain(b.version)
    requires GvToAPIPath(a) == GvToAPIPath(b)
    ensures a == b
  {
    PrintThenParse(a);
    PrintThenParse(b);
  }

  // A path that parses is the path of its group version exactly if nothing follows the version
  // and a path under apis names a group.
  lemma ParseThenPrint(path: string)
    requires PathToGroupVersion(path).Ok?
    ensures GvToAPIPath(PathToGroupVersion(path).value) == path
      <==> (|Split(path)| == if Split(path)[0].chars == "api" then 2 else 3)
           && (Split(path)[0].chars == "apis" ==> Split(path)[1].chars != "")
  {
    var parts, gv := Split(path), PathToGroupVersion(path).value;
    JoinSplit(path);
    ParsedIsPlain(path);
    SplitPlain(gv.version);
    SplitAtSlash("api", gv.version);
    SplitAtSlash(gv.group, gv.version);
    SplitAtSlash("apis", gv.group + "/" + gv.version);
    if |parts| == 2 {
      assert Join(parts) == parts[0].chars + "/" + Join(parts[1..]);
    } else if |parts| == 3 {
      assert Join(parts) == parts[0].chars + "/" + Join(parts[1..]);
      assert Join(parts[1..]) == parts[1].chars + "/" + Join(parts[2..]);
    }
  }

  // The two forms of a path, by the examples that document them.
  lemma Forms()
    ensures GvToAPIPath(GroupVersion("apps", "v1")) == "apis/apps/v1"
    ensures GvToAPIPath(GroupVersion("", "v1")) == "api/v1"
    ensures PathToGroupVersion("apis/apps/v1") == Ok(GroupVersion("apps", "v1"))
    ensures PathToGroupVersion("api/v1") == Ok(GroupVersion("", "v1"))
  {
    assert "apis" + "/" + ("apps" + "/" + "v1") == "apis/apps/v1";
    assert "api" + "/" + "v1" == "api/v1";
    PrintThenParse(GroupVersion("apps", "v1"));
    PrintThenParse(GroupVersion("", "v1"));
  }

  // What cannot be parsed, and why: a path without a slash, one that begins neither with api nor with
  // apis, and a group without a version.
  lemma NotParsed(first: string, rest: string)
    requires Plain(first)
    ensures PathToGroupVersion(first) == Err(UnparsablePath)
    ensures first != "api" && first != "apis" ==> PathToGroupVersion(first + "/" + rest) == Err(UnparsablePath)
    ensures PathToGroupVersion("apis/" + rest) == Err(GroupWithoutVersion) <==> Plain(rest)
    ensures PathToGroupVersion("api/" + rest).Ok?
  {
    SplitPlain(first);
    SplitAtSlash(first, rest);
    SplitAtSlash("apis", rest);
    SplitAtSlash("api", rest);
    assert "apis" + "/" + rest == "apis/" + rest && "api" + "/" + rest == "api/" + rest;
    if Plain(rest) {
      SplitPlain(rest);
    } else {
      SplitSlash(rest);
    }
  }

  lemma {:induction false} SplitSlash(s: string)
    requires !Plain(s)
    ensures |Split(s)| > 1
  {
    if s[0] != '/' { SplitSlash(s[1..]); }
  }
}
