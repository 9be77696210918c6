/** The state blade3 keeps while it reads BUILD files: every package object
    created so far, every rule object, the `globalPackages` map from package
    name to the package registered last under it, and the expansion stack
    `Rule.ruleExpandStack`. Python objects become indices into the two
    arenas; a package created twice (blade3/package.py `Package.__init__`
    runs again) gets a second entry, and the map points at the newer one.

    Reading a file from disk and `exec`-ing it are replaced by a map from
    package name to the calls its BUILD file makes. */
module Workspace {
  import opened Base
  import opened Text
  import opened Kinds
  import opened Reference
  import opened Packages
  import opened Declare

  /** A rule object: the package it belongs to, the attributes its
      constructor set, the resolved dependencies and the `expanded` flag. */
  datatype RuleObj = RuleObj(pkg: nat, spec: Spec, depRules: seq<nat>, expanded: bool)

  /** The BUILD files of the code base: package name to the calls it makes. */
  type BuildFiles = map<string, seq<Call>>

  datatype World = World(pkgs: seq<Package>, rules: seq<RuleObj>, global: map<string, nat>, stack: seq<string>)

  const Initial := World([], [], map[], [])

  predicate Placed(w: World, id: nat) {
    id < |w.rules| && w.rules[id].pkg < |w.pkgs|
  }

  /** Every rule object belongs to an existing package. */
  predicate Placement(w: World) {
    forall j :: 0 <= j < |w.rules| ==> w.rules[j].pkg < |w.pkgs|
  }

  /** `fullRuleName`: "<package>:<rule>". */
  function FullName(w: World, id: nat): string
    requires Placed(w, id)
  {
    FullRuleName(w.pkgs[w.rules[id].pkg].name, w.rules[id].spec.name)
  }

  /** The rule name a call declares, when it gives a string one. */
  function CallName(c: Call): Option<string> {
    match Get(c.kwargs, "name")
    case Some(VStr(s)) => Some(s)
    case _ => None
  }

  predicate DeclaresRule(c: Call) {
    Lookup(c.fn).Some? && Lookup(c.fn).value.RuleEntry?
  }

  /** Every full rule name the BUILD files can give rise to. */
  ghost function AllNames(build: BuildFiles): set<string> {
    set n, c | n in build && c in build[n] && CallName(c).Some? :: FullRuleName(n, CallName(c).value)
  }

  /** The rule names a BUILD file declares, in order. */
  function DeclaredNames(calls: seq<Call>): seq<string> {
    if |calls| == 0 then []
    else
      var c := calls[|calls| - 1];
      DeclaredNames(calls[..|calls| - 1]) + (if DeclaresRule(c) then [if CallName(c).Some? then CallName(c).value else ""] else [])
  }

  /** Whether a `set_package_attr` call in the file passes a true value. */
  predicate MakesPrivate(calls: seq<Call>) {
    exists i, k :: 0 <= i < |calls| && Lookup(calls[i].fn) == Some(PackageAttrEntry)
                   && 0 <= k < |calls[i].kwargs| && PyTrue(calls[i].kwargs[k].1)
  }

  function Names(l: seq<RuleRef>): (r: seq<string>)
    ensures |r| == |l| && forall i :: 0 <= i < |l| ==> r[i] == l[i].name
  {
    seq(|l|, i requires 0 <= i < |l| => l[i].name)
  }

  /** Package `i` and the rules it lists agree. */
  predicate PkgOk(w: World, i: nat)
    requires i < |w.pkgs|
  {
    && Sync(w.pkgs[i])
    && forall k :: 0 <= k < |w.pkgs[i].ruleList| ==>
         var rr := w.pkgs[i].ruleList[k];
         rr.id < |w.rules| && w.rules[rr.id].pkg == i && w.rules[rr.id].spec.name == rr.name
  }

  ghost predicate RuleOk(w: World, j: nat, build: BuildFiles)
    requires j < |w.rules|
  {
    && Placed(w, j)
    && (forall d :: d in w.rules[j].depRules ==> d < |w.rules|)
    && FullName(w, j) in AllNames(build)
  }

  /** The invariant of the arenas: packages and rules point at each other
      consistently, the global map points at a package of that name, and
      every rule's full name comes from the BUILD files. */
  ghost predicate Valid(w: World, build: BuildFiles) {
    && (forall i :: 0 <= i < |w.pkgs| ==> PkgOk(w, i))
    && (forall n :: n in w.global ==> w.global[n] < |w.pkgs| && w.pkgs[w.global[n]].name == n)
    && Placement(w)
    && (forall j :: 0 <= j < |w.rules| ==> RuleOk(w, j, build))
  }

  /** The stack plays no part in validity. */
  lemma ValidAnyStack(w: World, build: BuildFiles, stack: seq<string>)
    requires Valid(w, build)
    ensures Valid(w.(stack := stack), build)
  {
    var w2 := w.(stack := stack);
    forall i | 0 <= i < |w2.pkgs| ensures PkgOk(w2, i) {
      assert PkgOk(w, i);
    }
    forall j | 0 <= j < |w2.rules| ensures Placed(w2, j) && RuleOk(w2, j, build) {
      assert RuleOk(w, j, build);
      assert FullName(w2, j) == FullName(w, j);
    }
  }

  /** `w2` comes after `w1`: packages only added and never renamed, rules
      only added, and an existing rule keeps its package and attributes and
      stays expanded. */
  predicate Extends(w1: World, w2: World) {
    && |w1.pkgs| <= |w2.pkgs| && (forall i :: 0 <= i < |w1.pkgs| ==> w2.pkgs[i].name == w1.pkgs[i].name)
    && |w1.rules| <= |w2.rules|
    && forall j :: 0 <= j < |w1.rules| ==>
         && w2.rules[j].pkg == w1.rules[j].pkg && w2.rules[j].spec == w1.rules[j].spec
         && (w1.rules[j].expanded ==> w2.rules[j].expanded)
  }

  /** `Extends`, and the packages that existed are left exactly as they were. */
  predicate Grows(w1: World, w2: World) {
    Extends(w1, w2) && forall i :: 0 <= i < |w1.pkgs| ==> w2.pkgs[i] == w1.pkgs[i]
  }

  lemma ExtendsTransitive(w1: World, w2: World, w3: World)
    requires Extends(w1, w2) && Extends(w2, w3)
    ensures Extends(w1, w3)
  {
  }

  /** Full names survive extension. */
  lemma FullNameStable(w1: World, w2: World, id: nat)
    requires Extends(w1, w2) && Placed(w1, id)
    ensures Placed(w2, id) && FullName(w2, id) == FullName(w1, id)
  {
  }

  /** How far `ExecBuild` has got from `w`: the first `i` calls have run
      against package `pi`, giving `cur`. */
  ghost predicate Progress(w: World, cur: World, pi: nat, calls: seq<Call>, i: nat, build: BuildFiles)
  {
    && i <= |calls| && pi < |w.pkgs|
    && Valid(cur, build) && Extends(w, cur)
    && |cur.rules| >= |w.rules| && cur.rules[..|w.rules|] == w.rules
    && |cur.pkgs| == |w.pkgs| && cur.global == w.global && cur.stack == w.stack
    && (forall k :: 0 <= k < |w.pkgs| && k != pi ==> cur.pkgs[k] == w.pkgs[k])
    && cur.pkgs[pi].name == w.pkgs[pi].name && cur.pkgs[pi].isPubOnly == w.pkgs[pi].isPubOnly
    && Names(cur.pkgs[pi].ruleList) == DeclaredNames(calls[..i])
    && cur.pkgs[pi].isPrivate == MakesPrivate(calls[..i])
    && (forall j :: |w.rules| <= j < |cur.rules| ==>
          cur.rules[j].pkg == pi && cur.rules[j].depRules == [] && !cur.rules[j].expanded)
  }

  /** The body of `readPackage` after the checks: each call of the BUILD
      file in turn, looked up in the registration table. */
  method ExecBuild(w: World, pi: nat, calls: seq<Call>, ghost build: BuildFiles, version: string)
    returns (r: Result<World>)
    requires Valid(w, build) && pi < |w.pkgs| && w.pkgs[pi].ruleList == [] && !w.pkgs[pi].isPrivate
    requires w.pkgs[pi].name in build && build[w.pkgs[pi].name] == calls
    ensures r.Ok? ==> Progress(w, r.value, pi, calls, |calls|, build)
    ensures r.Ok? ==> var p := r.value.pkgs[pi];
      && Names(p.ruleList) == DeclaredNames(calls) && p.isPrivate == MakesPrivate(calls)
  {
    var cur := w;
    var i := 0;
    assert calls[..0] == [];
    while i < |calls|
      invariant Progress(w, cur, pi, calls, i, build)
    {
      cur :- ExecCall(w, cur, pi, calls, i, build, version);
      i := i + 1;
    }
    assert calls[..|calls|] == calls;
    return Ok(cur);
  }

  /** One call of a BUILD file. A rule call runs the constructor, a
      `set_package_attr` call updates the package, and any other name is a
      script error (a `NameError` in the file). */
  method ExecCall(w: World, cur: World, pi: nat, calls: seq<Call>, i: nat, ghost build: BuildFiles, version: string)
    returns (r: Result<World>)
    requires Progress(w, cur, pi, calls, i, build) && i < |calls|
    requires w.pkgs[pi].name in build && build[w.pkgs[pi].name] == calls
    ensures Lookup(calls[i].fn).None? ==> r == Err(ScriptError(calls[i].fn))
    ensures r.Ok? ==> Progress(w, r.value, pi, calls, i + 1, build)
  {
    var entry := Lookup(calls[i].fn);
    if entry.None? {
      return Err(ScriptError(calls[i].fn));
    } else if entry.value.PackageAttrEntry? {
      r := ExecAttr(w, cur, pi, calls, i, build);
    } else {
      r := ExecRule(w, cur, pi, calls, i, build, version);
    }
  }

  /** A `set_package_attr` call. */
  method ExecAttr(w: World, cur: World, pi: nat, calls: seq<Call>, i: nat, ghost build: BuildFiles)
    returns (r: Result<World>)
    requires Progress(w, cur, pi, calls, i, build) && i < |calls|
    requires Lookup(calls[i].fn) == Some(PackageAttrEntry)
    ensures r.Ok? ==> Progress(w, r.value, pi, calls, i + 1, build)
  {
    var c := calls[i];
    assert calls[..i + 1] == calls[..i] + [c];
    MakesPrivateSnoc(calls, i);
    var q :- SetPackageAttr(cur.pkgs[pi], c.kwargs);
    var next := StorePackage(cur, pi, q, build);
    assert !DeclaresRule(c);
    assert DeclaredNames(calls[..i + 1]) == DeclaredNames(calls[..i]);
    return Ok(next);
  }

  /** A rule call: the constructor up to `addRule`, the registration, and
      the rest of the constructor. */
  method ExecRule(w: World, cur: World, pi: nat, calls: seq<Call>, i: nat, ghost build: BuildFiles, version: string)
    returns (r: Result<World>)
    requires Progress(w, cur, pi, calls, i, build) && i < |calls|
    requires w.pkgs[pi].name in build && build[w.pkgs[pi].name] == calls
    requires DeclaresRule(calls[i])
    ensures r.Ok? ==> Progress(w, r.value, pi, calls, i + 1, build)
  {
    var c := calls[i];
    var p := cur.pkgs[pi];
    var h :- DeclareHeader(c.kwargs);
    assert PkgOk(cur, pi);
    var q :- AddRule(p, h.name, |cur.rules|);
    var spec :- DeclareBody(Lookup(c.fn).value.kind, c.kwargs, h, version);
    assert c in build[w.pkgs[pi].name];
    var next := AddRuleObj(cur, pi, q, RuleObj(pi, spec, [], false), c, build);
    RuleStep(w, cur, next, pi, calls, i, build, p, q, h.name);
    return Ok(next);
  }

  lemma RuleStep(w: World, cur: World, next: World, pi: nat, calls: seq<Call>, i: nat, build: BuildFiles,
                 p: Package, q: Package, name: string)
    requires Progress(w, cur, pi, calls, i, build) && i < |calls|
    requires DeclaresRule(calls[i]) && CallName(calls[i]) == Some(name)
    requires p == cur.pkgs[pi] && q.ruleList == p.ruleList + [RuleRef(name, |cur.rules|)]
    requires q.name == p.name && q.isPubOnly == p.isPubOnly && q.isPrivate == p.isPrivate
    requires Valid(next, build) && Extends(cur, next) && next.global == cur.global && next.stack == cur.stack
    requires |next.rules| == |cur.rules| + 1
    requires next.rules == cur.rules + [RuleObj(pi, next.rules[|cur.rules|].spec, [], false)]
    requires |next.pkgs| == |cur.pkgs| && next.pkgs[pi] == q
    requires forall k :: 0 <= k < |cur.pkgs| && k != pi ==> next.pkgs[k] == cur.pkgs[k]
    ensures Progress(w, next, pi, calls, i + 1, build)
  {
    var c := calls[i];
    assert calls[..i + 1] == calls[..i] + [c];
    MakesPrivateSnoc(calls, i);
    assert Names(q.ruleList) == Names(p.ruleList) + [name];
    assert next.rules[..|w.rules|] == cur.rules[..|w.rules|];
    ExtendsTransitive(w, cur, next);
  }

  /** A `set_package_attr` call adds its own true values to the file's;
      a rule call adds none. */
  lemma MakesPrivateSnoc(calls: seq<Call>, i: nat)
    requires i < |calls|
    ensures MakesPrivate(calls[..i + 1]) <==>
      (MakesPrivate(calls[..i]) || (Lookup(calls[i].fn) == Some(PackageAttrEntry) && exists k :: 0 <= k < |calls[i].kwargs| && PyTrue(calls[i].kwargs[k].1)))
  {
    var a, b := calls[..i + 1], calls[..i];
    assert forall m :: 0 <= m < i ==> a[m] == b[m];
    if MakesPrivate(a) && !MakesPrivate(b) {
      var m, k :| 0 <= m < |a| && Lookup(a[m].fn) == Some(PackageAttrEntry) && 0 <= k < |a[m].kwargs| && PyTrue(a[m].kwargs[k].1);
      assert m == i;
    }
    if Lookup(calls[i].fn) == Some(PackageAttrEntry) && exists k :: 0 <= k < |calls[i].kwargs| && PyTrue(calls[i].kwargs[k].1) {
      var k :| 0 <= k < |calls[i].kwargs| && PyTrue(calls[i].kwargs[k].1);
      assert a[i] == calls[i];
    }
  }

  /** Replace package `pi` by one with the same name and rule lists. */
  function StorePackage(w: World, pi: nat, q: Package, ghost build: BuildFiles): (r: World)
    requires Valid(w, build) && pi < |w.pkgs|
    requires q.name == w.pkgs[pi].name && q.ruleList == w.pkgs[pi].ruleList && q.ruleMap == w.pkgs[pi].ruleMap
    ensures Valid(r, build) && Extends(w, r) && r.rules == w.rules && r.global == w.global && r.stack == w.stack
    ensures |r.pkgs| == |w.pkgs| && r.pkgs[pi] == q && forall k :: 0 <= k < |w.pkgs| && k != pi ==> r.pkgs[k] == w.pkgs[k]
  {
    var r := w.(pkgs := w.pkgs[pi := q]);
    assert forall i :: 0 <= i < |r.pkgs| ==> PkgOk(r, i) by {
      forall i | 0 <= i < |r.pkgs| ensures PkgOk(r, i) {
        assert PkgOk(w, i);
      }
    }
    assert forall j :: 0 <= j < |r.rules| ==> Placed(r, j) && RuleOk(r, j, build) by {
      forall j | 0 <= j < |r.rules| ensures Placed(r, j) && RuleOk(r, j, build) {
        assert RuleOk(w, j, build);
        assert FullName(r, j) == FullName(w, j);
      }
    }
    r
  }

  /** Register a newly constructed rule: package `pi` becomes `q` (the result
      of `addRule`) and the rule object goes to the end of the arena. */
  function AddRuleObj(w: World, pi: nat, q: Package, o: RuleObj, ghost c: Call, ghost build: BuildFiles): (r: World)
    requires Valid(w, build) && pi < |w.pkgs| && o.pkg == pi && o.depRules == []
    requires q.name == w.pkgs[pi].name && Sync(q)
    requires q.ruleList == w.pkgs[pi].ruleList + [RuleRef(o.spec.name, |w.rules|)]
    requires q.name in build && c in build[q.name] && CallName(c) == Some(o.spec.name)
    ensures Valid(r, build) && Extends(w, r) && r.global == w.global && r.stack == w.stack
    ensures r.rules == w.rules + [o]
    ensures |r.pkgs| == |w.pkgs| && r.pkgs[pi] == q && forall k :: 0 <= k < |w.pkgs| && k != pi ==> r.pkgs[k] == w.pkgs[k]
  {
    var r := World(w.pkgs[pi := q], w.rules + [o], w.global, w.stack);
    AddObjPkgs(w, pi, q, o);
    AddObjRules(w, pi, q, o, c, build);
    r
  }

  lemma AddObjPkgs(w: World, pi: nat, q: Package, o: RuleObj)
    requires forall i :: 0 <= i < |w.pkgs| ==> PkgOk(w, i)
    requires pi < |w.pkgs| && o.pkg == pi && Sync(q)
    requires q.ruleList == w.pkgs[pi].ruleList + [RuleRef(o.spec.name, |w.rules|)]
    ensures var r := World(w.pkgs[pi := q], w.rules + [o], w.global, w.stack);
      forall i :: 0 <= i < |r.pkgs| ==> PkgOk(r, i)
  {
    var r := World(w.pkgs[pi := q], w.rules + [o], w.global, w.stack);
    forall i | 0 <= i < |r.pkgs| ensures PkgOk(r, i) {
      assert PkgOk(w, i);
      forall k | 0 <= k < |r.pkgs[i].ruleList|
        ensures var rr := r.pkgs[i].ruleList[k];
          rr.id < |r.rules| && r.rules[rr.id].pkg == i && r.rules[rr.id].spec.name == rr.name
      {
        if i != pi || k < |w.pkgs[pi].ruleList| {
          assert r.pkgs[i].ruleList[k] == w.pkgs[i].ruleList[k];
        }
      }
    }
  }

  lemma AddObjRules(w: World, pi: nat, q: Package, o: RuleObj, c: Call, build: BuildFiles)
    requires Placement(w) && forall j :: 0 <= j < |w.rules| ==> RuleOk(w, j, build)
    requires pi < |w.pkgs| && o.pkg == pi && o.depRules == [] && q.name == w.pkgs[pi].name
    requires q.name in build && c in build[q.name] && CallName(c) == Some(o.spec.name)
    ensures var r := World(w.pkgs[pi := q], w.rules + [o], w.global, w.stack);
      Placement(r) && forall j :: 0 <= j < |r.rules| ==> RuleOk(r, j, build)
  {
    var r := World(w.pkgs[pi := q], w.rules + [o], w.global, w.stack);
    forall j | 0 <= j < |r.rules| ensures Placed(r, j) && RuleOk(r, j, build) {
      if j < |w.rules| {
        assert RuleOk(w, j, build);
        assert FullName(r, j) == FullName(w, j);
      } else {
        assert FullName(r, j) == FullRuleName(q.name, CallName(c).value);
      }
    }
  }

  /** `Package.__init__`: a new, empty package under the normalised name
      goes to the end of the arena and the global map points at it. */
  function RegisterPackage(w: World, raw: string, ghost build: BuildFiles): (r: World)
    requires Valid(w, build)
    ensures Valid(r, build) && Grows(w, r) && r.rules == w.rules && r.stack == w.stack
    ensures |r.pkgs| == |w.pkgs| + 1 && r.pkgs[|w.pkgs|] == NewPackage(raw)
    ensures r.global == w.global[Normalize(raw) := |w.pkgs|]
  {
    var p := NewPackage(raw);
    var pi := |w.pkgs|;
    var r := World(w.pkgs + [p], w.rules, w.global[p.name := pi], w.stack);
    RegisterValid(w, p, build);
    r
  }

  lemma RegisterValid(w: World, p: Package, build: BuildFiles)
    requires Valid(w, build) && Sync(p) && p.ruleList == []
    ensures Valid(World(w.pkgs + [p], w.rules, w.global[p.name := |w.pkgs|], w.stack), build)
  {
    var pi := |w.pkgs|;
    var w1 := World(w.pkgs + [p], w.rules, w.global[p.name := pi], w.stack);
    assert PkgOk(w1, pi);
    forall i | 0 <= i < pi ensures PkgOk(w1, i) {
      assert PkgOk(w, i);
    }
    forall j | 0 <= j < |w1.rules| ensures Placed(w1, j) && RuleOk(w1, j, build) {
      assert RuleOk(w, j, build);
      assert FullName(w1, j) == FullName(w, j);
    }
  }

  /** `Package.__init__` followed by `readPackage`: the name is normalised,
      the package is registered in the global map (replacing any earlier
      package of that name), a name under "pub/" is refused, the BUILD file
      must exist, its calls run, and it must declare at least one rule. The
      checks that look at directories on disk are not modelled. */
  method LoadPackage(w: World, raw: string, build: BuildFiles, version: string) returns (r: Result<(World, nat)>)
    requires Valid(w, build)
    ensures StartsWith(Normalize(raw), "pub/") ==> r == Err(PublishTreePackage(Normalize(raw)))
    ensures !StartsWith(Normalize(raw), "pub/") && Normalize(raw) !in build ==> r == Err(PackageNotFound(Normalize(raw)))
    ensures r.Ok? ==> var (w2, pi) := r.value;
      && pi == |w.pkgs| && |w2.pkgs| == pi + 1 && |w.rules| <= |w2.rules|
      && Valid(w2, build) && Grows(w, w2) && w2.rules[..|w.rules|] == w.rules && w2.stack == w.stack
      && w2.global == w.global[Normalize(raw) := pi]
      && w2.pkgs[pi].name == Normalize(raw)
      && Names(w2.pkgs[pi].ruleList) == DeclaredNames(build[Normalize(raw)])
      && |w2.pkgs[pi].ruleList| > 0
      && w2.pkgs[pi].isPrivate == MakesPrivate(build[Normalize(raw)]) && !w2.pkgs[pi].isPubOnly
      && (forall j :: |w.rules| <= j < |w2.rules| ==> w2.rules[j].pkg == pi && !w2.rules[j].expanded)
  {
    var pi := |w.pkgs|;
    var w1 := RegisterPackage(w, raw, build);
    var name := w1.pkgs[pi].name;
    var _ :- CheckPackage(name);
    if name !in build {
      return Err(PackageNotFound(name));
    }
    var w2 :- ExecBuild(w1, pi, build[name], build, version);
    if |w2.pkgs[pi].ruleList| == 0 {
      return Err(EmptyPackage(name));
    }
    ExtendsTransitive(w, w1, w2);
    assert forall i :: 0 <= i < |w.pkgs| ==> w2.pkgs[i] == w1.pkgs[i];
    assert w2.rules[..|w.rules|] == w1.rules[..|w.rules|];
    return Ok((w2, pi));
  }
}
