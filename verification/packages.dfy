/** The package registry of one BUILD file (blade3/package.py `Package`):
    name normalisation, the publish-tree check, rule registration in the
    ordered `ruleList` and the `ruleMap` index, rule lookup, and the Java
    prefix stripping of `realPackageName`. Rule objects are referred to by
    their index in the arena of `World` (world.dfy). */
module Packages {
  import opened Base
  import opened Text

  /** A registered rule: its declared name and its arena index. */
  datatype RuleRef = RuleRef(name: string, id: nat)

  datatype Package = Package(
    name: string,
    ruleList: seq<RuleRef>,
    ruleMap: map<string, nat>,
    isPrivate: bool,
    isPubOnly: bool)

  /** `ruleList` and `ruleMap` describe the same rules: every listed rule is
      indexed under its name, every indexed name is listed, and no name is
      listed twice. */
  predicate Sync(p: Package) {
    && (forall i :: 0 <= i < |p.ruleList| ==>
          p.ruleList[i].name in p.ruleMap && p.ruleMap[p.ruleList[i].name] == p.ruleList[i].id)
    && (forall n :: n in p.ruleMap ==> exists i :: 0 <= i < |p.ruleList| && p.ruleList[i].name == n)
    && (forall i, j :: 0 <= i < j < |p.ruleList| ==> p.ruleList[i].name != p.ruleList[j].name)
  }

  /** `Package.__init__`: a leading "./" and then one trailing "/" are removed. */
  function Normalize(name: string): (r: string)
    ensures |r| <= |name|
    ensures StartsWith(name, "./") && EndsWith(name[2..], "/") ==> r == name[2..|name| - 1]
    ensures StartsWith(name, "./") && !EndsWith(name[2..], "/") ==> r == name[2..]
    ensures !StartsWith(name, "./") && EndsWith(name, "/") ==> r == name[..|name| - 1]
    ensures !StartsWith(name, "./") && !EndsWith(name, "/") ==> r == name
  {
    var a := if StartsWith(name, "./") then name[2..] else name;
    if EndsWith(a, "/") then a[..|a| - 1] else a
  }

  /** A name that neither starts with "./" nor ends with "/". */
  predicate Plain(name: string) {
    !StartsWith(name, "./") && !EndsWith(name, "/")
  }

  /** The four spellings of a package path name the same package (except
      for ".", since "./" normalises to the empty name). */
  lemma NormalizeSpellings(p: string)
    requires Plain(p) && p != "" && p != "."
    ensures Normalize(p) == p
    ensures Normalize("./" + p) == p
    ensures Normalize(p + "/") == p
    ensures Normalize("./" + p + "/") == p
  {
    assert ("./" + p)[2..] == p;
    assert ("./" + p + "/")[2..] == p + "/";
    assert (p + "/")[..|p|] == p;
    assert ("./" + p + "/")[..2] == "./";
    assert ("./" + p)[..2] == "./";
    assert !StartsWith(p + "/", "./") by {
      if |p| >= 2 {
        assert (p + "/")[..2] == p[..2];
      } else {
        assert p == [p[0]];
      }
    }
    assert EndsWith(p + "/", "/");
  }

  /** `checkPackage` (the part that does not touch the file system): a
      package under the publish tree "pub/" cannot be configured. */
  function CheckPackage(name: string): (r: Result<string>)
    ensures r.Err? <==> StartsWith(name, "pub/")
    ensures r.Err? ==> r.error == PublishTreePackage(name)
    ensures r.Ok? ==> r.value == name
  {
    if StartsWith(name, "pub/") then Err(PublishTreePackage(name)) else Ok(name)
  }

  /** A freshly created package: normalised name, no rules, neither private
      nor publish-only. */
  function NewPackage(name: string): (p: Package)
    ensures Sync(p) && p.ruleList == [] && p.ruleMap == map[]
    ensures !p.isPrivate && !p.isPubOnly
  {
    Package(Normalize(name), [], map[], false, false)
  }

  /** `addRule`: a new name goes to the end of `ruleList` and into `ruleMap`;
      a name already present is an error and nothing is added. */
  function AddRule(p: Package, name: string, id: nat): (r: Result<Package>)
    requires Sync(p)
    ensures r.Err? <==> name in p.ruleMap
    ensures r.Err? ==> r.error == DuplicateRule(name)
    ensures r.Ok? ==> Sync(r.value)
    ensures r.Ok? ==> r.value.ruleList == p.ruleList + [RuleRef(name, id)]
    ensures r.Ok? ==> r.value.ruleMap == p.ruleMap[name := id]
    ensures r.Ok? ==> r.value.name == p.name && r.value.isPrivate == p.isPrivate && r.value.isPubOnly == p.isPubOnly
  {
    if name in p.ruleMap then Err(DuplicateRule(name))
    else
      var q := p.(ruleList := p.ruleList + [RuleRef(name, id)], ruleMap := p.ruleMap[name := id]);
      SyncAdd(p, name, id);
      Ok(q)
  }

  /** Appending a new name to the list and the index keeps them in sync. */
  lemma SyncAdd(p: Package, name: string, id: nat)
    requires Sync(p) && name !in p.ruleMap
    ensures Sync(p.(ruleList := p.ruleList + [RuleRef(name, id)], ruleMap := p.ruleMap[name := id]))
  {
    var q := p.(ruleList := p.ruleList + [RuleRef(name, id)], ruleMap := p.ruleMap[name := id]);
    forall n | n in q.ruleMap ensures exists i :: 0 <= i < |q.ruleList| && q.ruleList[i].name == n {
      if n == name {
        assert q.ruleList[|p.ruleList|].name == n;
      } else {
        var i :| 0 <= i < |p.ruleList| && p.ruleList[i].name == n;
        assert q.ruleList[i].name == n;
      }
    }
    forall i | 0 <= i < |p.ruleList| ensures p.ruleList[i].name != name {
      assert p.ruleList[i].name in p.ruleMap;
    }
  }

  /** `getRule`: the rule registered under `name`, if any. */
  function GetRule(p: Package, name: string): (r: Option<nat>)
    requires Sync(p)
    ensures r.Some? <==> exists i :: 0 <= i < |p.ruleList| && p.ruleList[i].name == name
    ensures r.Some? <==> name in p.ruleMap
    ensures r.Some? ==> RuleRef(name, r.value) in p.ruleList
  {
    if name in p.ruleMap then
      var i :| 0 <= i < |p.ruleList| && p.ruleList[i].name == name;
      assert p.ruleList[i] == RuleRef(name, p.ruleMap[name]);
      Some(p.ruleMap[name])
    else None
  }

  /** A rule added under a name is found under that name, and every other
      name finds what it found before. */
  lemma {:induction false} AddThenGet(p: Package, name: string, id: nat, other: string)
    requires Sync(p) && AddRule(p, name, id).Ok?
    ensures GetRule(AddRule(p, name, id).value, name) == Some(id)
    ensures other != name ==> GetRule(AddRule(p, name, id).value, other) == GetRule(p, other)
  {
    var q := AddRule(p, name, id).value;
    if other != name && other !in p.ruleMap {
      assert other !in q.ruleMap;
    }
  }

  /** The prefixes `realPackageName` strips, in the order it tries them. */
  const JavaPrefixes: seq<string> := ["java/", "javatest/", "third_party/java/"]

  /** `realPackageName`: the package name without the first Java source-root
      prefix it starts with. */
  function RealPackageName(name: string): (r: string)
    ensures StartsWith(name, "java/") ==> name == "java/" + r
    ensures !StartsWith(name, "java/") && StartsWith(name, "javatest/") ==> name == "javatest/" + r
    ensures !StartsWith(name, "java/") && !StartsWith(name, "javatest/") && StartsWith(name, "third_party/java/")
            ==> name == "third_party/java/" + r
    ensures (forall q :: q in JavaPrefixes ==> !StartsWith(name, q)) ==> r == name
  {
    if StartsWith(name, "java/") then name[5..]
    else if StartsWith(name, "javatest/") then name[9..]
    else if StartsWith(name, "third_party/java/") then name[17..]
    else name
  }

  /** Stripping is exactly one prefix deep: "java/java/x" keeps its second "java/". */
  lemma RealPackageNameOfPrefixed(q: string, x: string)
    requires q in JavaPrefixes
    ensures RealPackageName(q + x) == x
  {
    var n := q + x;
    if q == "javatest/" {
      assert !StartsWith(n, "java/") by { assert n[4] == 't'; }
    } else if q == "third_party/java/" {
      assert !StartsWith(n, "java/") by { assert n[0] == 't'; }
      assert !StartsWith(n, "javatest/") by { assert n[0] == 't'; }
    }
  }

  /** `packageRoot`: the first path segment of the real package name. */
  function PackageRoot(name: string): (r: string)
    ensures !HasChar(r, '/')
    ensures StartsWith(RealPackageName(name), r)
    ensures r == RealPackageName(name) || RealPackageName(name)[|r|] == '/'
  {
    var rn := RealPackageName(name);
    var k := FirstIndexOf(rn, '/');
    assert forall c :: c in rn[..k] ==> c != '/';
    rn[..k]
  }
}
