/** The top level of `emitMake` (blade3/package.py): which rules get a
    recipe, the per-setting default and test targets, the script tests, the
    "test_until_die" prerequisite, the prerequisites of the Makefile itself,
    and the two manifests written beside it (`.blade/files_to_pub` and
    `.blade/exe_files`). The text around these lists is not modelled; the
    lists are, in the order the loops produce them. */
module Makefile {
  import opened Text
  import opened Kinds
  import opened Paths
  import opened Workspace
  import opened Graph
  import opened Lists

  /** What the top level reads from a package object: its name, its two
      attributes and its `ruleList` as rule indices. */
  datatype Listing = Listing(name: string, isPrivate: bool, isPubOnly: bool, rules: seq<nat>)

  function ListingOf(w: World, pi: nat): (l: Listing)
    requires pi < |w.pkgs|
    ensures l.name == w.pkgs[pi].name && |l.rules| == |w.pkgs[pi].ruleList|
    ensures PkgOk(w, pi) ==> forall i :: 0 <= i < |l.rules| ==>
      && l.rules[i] < |w.rules| && w.rules[l.rules[i]].pkg == pi
      && w.rules[l.rules[i]].spec.name == w.pkgs[pi].ruleList[i].name
  {
    var p := w.pkgs[pi];
    Listing(p.name, p.isPrivate, p.isPubOnly, seq(|p.ruleList|, i requires 0 <= i < |p.ruleList| => p.ruleList[i].id))
  }

  /** The graph node of a listed rule names the listing's package. */
  lemma ListedNodesNamePackage(w: World, pi: nat)
    requires pi < |w.pkgs| && PkgOk(w, pi) && Placement(w)
    ensures forall i :: 0 <= i < |ListingOf(w, pi).rules| ==>
      && ListingOf(w, pi).rules[i] < |NodesOf(w)|
      && NodesOf(w)[ListingOf(w, pi).rules[i]].pkg == ListingOf(w, pi).name
      && NodesOf(w)[ListingOf(w, pi).rules[i]].name == w.pkgs[pi].ruleList[i].name
  {
    var l := ListingOf(w, pi);
    var g := NodesOf(w);
    forall i | 0 <= i < |l.rules|
      ensures l.rules[i] < |g| && g[l.rules[i]].pkg == l.name && g[l.rules[i]].name == w.pkgs[pi].ruleList[i].name
    {
      assert g[l.rules[i]] == NodeOf(w, l.rules[i]);
    }
  }

  predicate InGraph(ids: seq<nat>, g: seq<Node>) {
    forall i :: 0 <= i < |ids| ==> ids[i] < |g|
  }

  predicate Indexed(ls: seq<Listing>, g: seq<Node>) {
    forall k :: 0 <= k < |ls| ==> InGraph(ls[k].rules, g)
  }

  /** The flags of rule `x`; an index outside the graph has none. */
  function FlagsAt(g: seq<Node>, x: nat): Flags {
    if x < |g| then FlagsOf(g[x].kind) else NoFlags
  }

  // ---- rules_to_build ----

  function IsTestIn(g: seq<Node>): nat -> bool {
    (x: nat) => FlagsAt(g, x).isUnittest
  }

  /** The rules one package contributes: all of them, or only the unit tests
      when the package is publish-only. */
  function Chosen(l: Listing, g: seq<Node>): seq<nat> {
    if l.isPubOnly then Filter(l.rules, IsTestIn(g)) else l.rules
  }

  function ChosenIn(g: seq<Node>): Listing -> seq<nat> {
    (l: Listing) => Chosen(l, g)
  }

  /** `rules_to_build`, package by package in the order given. */
  function RulesToBuild(ls: seq<Listing>, g: seq<Node>): seq<nat> {
    FlatMap(ls, ChosenIn(g))
  }

  /** A rule is built exactly when some given package lists it, and it is a
      unit test if that package is publish-only. */
  lemma RulesToBuildMembers(ls: seq<Listing>, g: seq<Node>, x: nat)
    ensures x in RulesToBuild(ls, g) <==>
      exists k :: 0 <= k < |ls| && x in ls[k].rules && (!ls[k].isPubOnly || FlagsAt(g, x).isUnittest)
  {
    FlatMapMembers(ls, ChosenIn(g), x);
    if x in RulesToBuild(ls, g) {
      var k :| 0 <= k < |ls| && x in ChosenIn(g)(ls[k]);
      assert x in ls[k].rules && (!ls[k].isPubOnly || FlagsAt(g, x).isUnittest);
    }
    if exists k :: 0 <= k < |ls| && x in ls[k].rules && (!ls[k].isPubOnly || FlagsAt(g, x).isUnittest) {
      var k :| 0 <= k < |ls| && x in ls[k].rules && (!ls[k].isPubOnly || FlagsAt(g, x).isUnittest);
      assert x in ChosenIn(g)(ls[k]);
    }
  }

  /** Packages are visited in order, and a package that is not publish-only
      contributes its whole rule list in declaration order. */
  lemma RulesToBuildOrder(ls: seq<Listing>, l: Listing, g: seq<Node>)
    ensures !l.isPubOnly ==> RulesToBuild(ls + [l], g) == RulesToBuild(ls, g) + l.rules
    ensures l.isPubOnly ==> RulesToBuild(ls + [l], g) == RulesToBuild(ls, g) + Filter(l.rules, IsTestIn(g))
  {
    FlatMapConcat(ls, [l], ChosenIn(g));
    assert FlatMap([l], ChosenIn(g)) == Chosen(l, g) by {
      assert [l][..0] == [];
    }
  }

  // ---- default and test targets ----

  function TargetOf(n: Node, s: string): string {
    MakeTargetName(n.kind, s, n.pkg, n.name)
  }

  /** The rules a setting's default target builds. */
  predicate IsDefault(f: Flags) {
    f.isBinary || f.isLibrary || f.isPyext
  }

  predicate IsTest(f: Flags) {
    f.isUnittest
  }

  function WantIn(g: seq<Node>, want: Flags -> bool): nat -> bool {
    (x: nat) => x < |g| && want(FlagsOf(g[x].kind))
  }

  /** The rules that pass `want`, in rule order. */
  function Picked(g: seq<Node>, rules: seq<nat>, want: Flags -> bool): (r: seq<nat>)
    requires InGraph(rules, g)
    ensures InGraph(r, g)
    ensures |r| == 0 <==> forall i :: 0 <= i < |rules| ==> !want(FlagsOf(g[rules[i]].kind))
  {
    var r := Filter(rules, WantIn(g, want));
    assert forall i :: 0 <= i < |r| ==> WantIn(g, want)(r[i]);
    if |r| > 0 then assert r[0] in r; r
    else
      assert forall i :: 0 <= i < |rules| ==> !want(FlagsOf(g[rules[i]].kind)) by {
        forall i | 0 <= i < |rules| ensures !want(FlagsOf(g[rules[i]].kind)) {
          assert rules[i] !in r;
        }
      }
      r
  }

  function TargetIn(g: seq<Node>, s: string): nat -> string {
    (x: nat) => if x < |g| then TargetOf(g[x], s) else ""
  }

  /** The make targets of the rules that pass `want`, in rule order: one per
      such rule, whatever the setting. */
  function TargetsWhere(g: seq<Node>, rules: seq<nat>, s: string, want: Flags -> bool): (r: seq<string>)
    requires InGraph(rules, g)
    ensures |r| == |Picked(g, rules, want)|
  {
    Map(Picked(g, rules, want), TargetIn(g, s))
  }

  lemma TargetsWhereMembers(g: seq<Node>, rules: seq<nat>, s: string, want: Flags -> bool, t: string)
    requires InGraph(rules, g)
    ensures t in TargetsWhere(g, rules, s, want) <==>
      exists i :: 0 <= i < |rules| && want(FlagsOf(g[rules[i]].kind)) && t == TargetOf(g[rules[i]], s)
  {
    var p := Picked(g, rules, want);
    var r := TargetsWhere(g, rules, s, want);
    if t in r {
      var j :| 0 <= j < |r| && r[j] == t;
      assert p[j] in p;
      var i :| 0 <= i < |rules| && rules[i] == p[j];
      assert want(FlagsOf(g[rules[i]].kind)) && t == TargetOf(g[rules[i]], s);
    }
    if exists i :: 0 <= i < |rules| && want(FlagsOf(g[rules[i]].kind)) && t == TargetOf(g[rules[i]], s) {
      var i :| 0 <= i < |rules| && want(FlagsOf(g[rules[i]].kind)) && t == TargetOf(g[rules[i]], s);
      assert rules[i] in p;
      var j :| 0 <= j < |p| && p[j] == rules[i];
      assert r[j] == t;
    }
  }

  /** `targets_list` of one setting: binaries, libraries and Python extensions. */
  function DefaultTargets(g: seq<Node>, rules: seq<nat>, s: string): seq<string>
    requires InGraph(rules, g)
  {
    TargetsWhere(g, rules, s, IsDefault)
  }

  /** `test_targets` of one setting. */
  function TestTargets(g: seq<Node>, rules: seq<nat>, s: string): seq<string>
    requires InGraph(rules, g)
  {
    TargetsWhere(g, rules, s, IsTest)
  }

  /** A unit test is a binary, so the default target of a setting also
      builds every test of that setting; data and shell rules are never
      default targets. */
  lemma TestsAreDefaults(g: seq<Node>, rules: seq<nat>, s: string)
    requires InGraph(rules, g)
    ensures forall t :: t in TestTargets(g, rules, s) ==> t in DefaultTargets(g, rules, s)
    ensures forall t :: t in DefaultTargets(g, rules, s) ==>
      exists i :: 0 <= i < |rules| && !Terminal(g[rules[i]].kind) && t == TargetOf(g[rules[i]], s)
  {
    forall t | t in TestTargets(g, rules, s) ensures t in DefaultTargets(g, rules, s) {
      TargetsWhereMembers(g, rules, s, IsTest, t);
      var i :| 0 <= i < |rules| && IsTest(FlagsOf(g[rules[i]].kind)) && t == TargetOf(g[rules[i]], s);
      TargetsWhereMembers(g, rules, s, IsDefault, t);
    }
    forall t | t in DefaultTargets(g, rules, s)
      ensures exists i :: 0 <= i < |rules| && !Terminal(g[rules[i]].kind) && t == TargetOf(g[rules[i]], s)
    {
      TargetsWhereMembers(g, rules, s, IsDefault, t);
      var i :| 0 <= i < |rules| && IsDefault(FlagsOf(g[rules[i]].kind)) && t == TargetOf(g[rules[i]], s);
      FamiliesPartition(g[rules[i]].kind);
    }
  }

  // ---- script tests and test_until_die ----

  function ScriptsOf(g: seq<Node>): nat -> seq<string> {
    (x: nat) => if x < |g| && FlagsOf(g[x].kind).isScriptTest then ScriptsPathList(g[x].pkg, g[x].srcs) else []
  }

  /** `script_files`: the sources of every script test, in rule order. */
  function ScriptFiles(g: seq<Node>, rules: seq<nat>): seq<string> {
    FlatMap(rules, ScriptsOf(g))
  }

  lemma ScriptFilesMembers(g: seq<Node>, rules: seq<nat>, f: string)
    requires InGraph(rules, g)
    ensures f in ScriptFiles(g, rules) <==>
      exists i, j :: 0 <= i < |rules| && FlagsOf(g[rules[i]].kind).isScriptTest
                     && 0 <= j < |g[rules[i]].srcs| && f == g[rules[i]].pkg + "/" + g[rules[i]].srcs[j]
  {
    FlatMapMembers(rules, ScriptsOf(g), f);
    if f in ScriptFiles(g, rules) {
      var i :| 0 <= i < |rules| && f in ScriptsOf(g)(rules[i]);
      var n := g[rules[i]];
      var j :| 0 <= j < |ScriptsPathList(n.pkg, n.srcs)| && ScriptsPathList(n.pkg, n.srcs)[j] == f;
      assert f == n.pkg + "/" + n.srcs[j];
    }
    if exists i, j :: 0 <= i < |rules| && FlagsOf(g[rules[i]].kind).isScriptTest
                      && 0 <= j < |g[rules[i]].srcs| && f == g[rules[i]].pkg + "/" + g[rules[i]].srcs[j] {
      var i, j :| 0 <= i < |rules| && FlagsOf(g[rules[i]].kind).isScriptTest
                  && 0 <= j < |g[rules[i]].srcs| && f == g[rules[i]].pkg + "/" + g[rules[i]].srcs[j];
      assert ScriptsPathList(g[rules[i]].pkg, g[rules[i]].srcs)[j] == f;
    }
  }

  /** There is no script file exactly when no script test has a source. */
  lemma ScriptFilesEmpty(g: seq<Node>, rules: seq<nat>)
    requires InGraph(rules, g)
    ensures |ScriptFiles(g, rules)| == 0 <==>
      forall i :: 0 <= i < |rules| && FlagsOf(g[rules[i]].kind).isScriptTest ==> |g[rules[i]].srcs| == 0
  {
    if |ScriptFiles(g, rules)| > 0 {
      var f := ScriptFiles(g, rules)[0];
      ScriptFilesMembers(g, rules, f);
    }
    if exists i :: 0 <= i < |rules| && FlagsOf(g[rules[i]].kind).isScriptTest && |g[rules[i]].srcs| > 0 {
      var i :| 0 <= i < |rules| && FlagsOf(g[rules[i]].kind).isScriptTest && |g[rules[i]].srcs| > 0;
      ScriptFilesMembers(g, rules, g[rules[i]].pkg + "/" + g[rules[i]].srcs[0]);
    }
  }

  /** The number of test targets summed over the settings `ss`: the same
      number for each setting. */
  function TestTargetSum(g: seq<Node>, rules: seq<nat>, ss: seq<string>): (c: nat)
    requires InGraph(rules, g)
    ensures c == |ss| * |Picked(g, rules, IsTest)|
  {
    if |ss| == 0 then 0
    else
      var m := |Picked(g, rules, IsTest)|;
      assert (|ss| - 1) * m + m == |ss| * m;
      TestTargetSum(g, rules, ss[1..]) + |TestTargets(g, rules, ss[0])|
  }

  /** `all_test_target_num`: unit-test targets of every setting, plus script files. */
  function AllTestCount(g: seq<Node>, rules: seq<nat>): nat
    requires InGraph(rules, g)
  {
    TestTargetSum(g, rules, Settings) + |ScriptFiles(g, rules)|
  }

  const NoTestDefined := "internal_no_test_defined"

  /** The prerequisite of "test_until_die": the placeholder target exactly
      when the built rules hold no unit test and no script test source. */
  function UntilDie(g: seq<Node>, rules: seq<nat>): (r: string)
    requires InGraph(rules, g)
    ensures r == NoTestDefined <==>
      && (forall i :: 0 <= i < |rules| ==> !FlagsOf(g[rules[i]].kind).isUnittest)
      && (forall i :: 0 <= i < |rules| && FlagsOf(g[rules[i]].kind).isScriptTest ==> |g[rules[i]].srcs| == 0)
    ensures r != NoTestDefined ==> r == "internal_test_until_die"
  {
    ScriptFilesEmpty(g, rules);
    if AllTestCount(g, rules) == 0 then NoTestDefined else "internal_test_until_die"
  }

  /** The prerequisite of "<setting>_test_until_die". */
  function SettingUntilDie(g: seq<Node>, rules: seq<nat>, s: string): (r: string)
    requires InGraph(rules, g) && s in Settings
    ensures r == NoTestDefined <==> forall i :: 0 <= i < |rules| ==> !FlagsOf(g[rules[i]].kind).isUnittest
    ensures r != NoTestDefined ==> r == "internal_" + s + "_test_until_die"
  {
    if |TestTargets(g, rules, s)| == 0 then NoTestDefined else "internal_" + s + "_test_until_die"
  }

  /** The overall choice agrees with the per-setting ones: no test at all
      exactly when every setting has none and there is no script file. */
  lemma UntilDieAgrees(g: seq<Node>, rules: seq<nat>)
    requires InGraph(rules, g)
    ensures UntilDie(g, rules) == NoTestDefined <==>
      (forall s :: s in Settings ==> SettingUntilDie(g, rules, s) == NoTestDefined) && |ScriptFiles(g, rules)| == 0
  {
    ScriptFilesEmpty(g, rules);
    assert "debug" in Settings;
  }

  // ---- the Makefile's own prerequisites ----

  /** The BUILD file of every package in the global map. The source joins
      them in dictionary order; the model keeps the set. */
  function MakefileDeps(w: World): set<string>
    requires forall n :: n in w.global ==> w.global[n] < |w.pkgs|
  {
    set n | n in w.global :: w.pkgs[w.global[n]].name + "/BUILD"
  }

  /** In a consistent world the Makefile depends on "<name>/BUILD" for the
      name of every package loaded, and on nothing else. */
  lemma MakefileDepsAreBuildFiles(w: World, build: BuildFiles)
    requires Valid(w, build)
    ensures MakefileDeps(w) == set n | n in w.global :: n + "/BUILD"
  {
    forall f | f in MakefileDeps(w) ensures f in set n | n in w.global :: n + "/BUILD" {
      var n :| n in w.global && f == w.pkgs[w.global[n]].name + "/BUILD";
    }
    forall f | f in (set n | n in w.global :: n + "/BUILD") ensures f in MakefileDeps(w) {
      var n :| n in w.global && f == n + "/BUILD";
      assert w.pkgs[w.global[n]].name == n;
    }
  }

  // ---- files_to_pub ----

  /** One manifest line: a file and the directory it is copied into. */
  datatype Entry = Entry(file: string, dir: string)

  /** The archive line as written: the rule name goes into the file name
      unchanged. */
  function LibEntryAsWritten(s: string, pkg: string, name: string): Entry {
    Entry(".build/" + s + "/targets/" + pkg + "/lib" + name + ".a", "pub/" + s + "/targets/" + pkg)
  }

  /** The archive line with the archive's real file name, `libraryName`. */
  function LibEntry(s: string, pkg: string, name: string): Entry {
    Entry(".build/" + s + "/targets/" + pkg + "/" + LibraryName(name), "pub/" + s + "/targets/" + pkg)
  }

  /** The corrected line publishes the archive the library recipe builds, into
      the directory where a publish-only package's consumers look for it. */
  lemma PublishedArchiveIsBuilt(s: string, pkg: string, name: string)
    requires Setting(s) && Rel(pkg) && Rel(name)
    ensures LibEntry(s, pkg, name).file == LibraryPath(s, pkg, name)
    ensures LibEntry(s, pkg, name).dir == PubTargetDir(s, pkg)
    ensures PubLibraryPath(s, pkg, name) == LibEntry(s, pkg, name).dir + "/" + LibraryName(name)
  {
    LibraryPathShapes(s, pkg, name);
    PubTargetDirShape(s, pkg);
  }

  /** As written, a rule whose name has an upper-case letter gets a line for a
      file the build never makes: "libBase.a" instead of "libbase.a". */
  lemma ArchiveCaseMismatch()
    ensures LibEntryAsWritten("debug", "base", "Base").file != LibraryPath("debug", "base", "Base")
  {
    var asWritten := LibEntryAsWritten("debug", "base", "Base").file;
    var built := LibraryPath("debug", "base", "Base");
    var ln := LibraryName("Base");
    assert ln[3] == Lower("Base")[0] == 'b';
    assert ln[0] == 'l';
    assert built[|built| - |ln|..] == ln;
    assert built[|built| - 6] == 'b';
    assert asWritten[|asWritten| - 6] == 'B';
  }

  /** The two agree on names that are already lower case. */
  lemma AsWrittenAgreesOnLowerCase(s: string, pkg: string, name: string)
    requires Lower(name) == name
    ensures LibEntryAsWritten(s, pkg, name) == LibEntry(s, pkg, name)
  {
    assert LibraryName(name) == "lib" + name + ".a";
  }

  /** A data or script source: "<pkg>/<src>" into the directory of its copy
      under "pub/src". */
  function SrcEntry(pkg: string, src: string): Entry {
    Entry(pkg + "/" + src, Dirname("pub/src/" + pkg + "/" + src))
  }

  /** A file directly in the package is copied into the package's directory
      of the publish tree. */
  lemma SrcEntryDir(pkg: string, src: string)
    requires Rel(pkg) && !HasChar(src, '/')
    ensures SrcEntry(pkg, src).dir == "pub/src/" + pkg
  {
    var a := "pub/src/" + pkg;
    assert a[|a| - 1] == pkg[|pkg| - 1];
    DirnameOfJoin(a, src);
  }

  function SrcEntries(pkg: string, srcs: seq<string>): (r: seq<Entry>)
    ensures |r| == |srcs|
    ensures forall i :: 0 <= i < |srcs| ==> r[i] == SrcEntry(pkg, srcs[i])
  {
    seq(|srcs|, i requires 0 <= i < |srcs| => SrcEntry(pkg, srcs[i]))
  }

  /** The archive line of one library: as the program writes it
      (`fixed` false) or with the archive's real file name (`fixed` true). */
  function LibLine(fixed: bool, s: string, pkg: string, name: string): (r: Entry)
    ensures r.dir == "pub/" + s + "/targets/" + pkg
    ensures Lower(name) == name ==> r == LibEntry(s, pkg, name)
  {
    if fixed then LibEntry(s, pkg, name)
    else
      assert Lower(name) == name ==> LibEntryAsWritten(s, pkg, name) == LibEntry(s, pkg, name) by {
        if Lower(name) == name {
          AsWrittenAgreesOnLowerCase(s, pkg, name);
        }
      }
      LibEntryAsWritten(s, pkg, name)
  }

  function LibEntryIn(fixed: bool, pkg: string, name: string): string -> Entry {
    (s: string) => LibLine(fixed, s, pkg, name)
  }

  /** The lines of one rule: its archive per setting if it is a library, its
      sources if it is a data or shell rule. */
  function RuleEntries(fixed: bool, pkg: string, n: Node): (r: seq<Entry>)
    ensures FlagsOf(n.kind).isLibrary ==> forall j :: 0 <= j < |Settings| ==> LibLine(fixed, Settings[j], pkg, n.name) in r
    ensures FlagsOf(n.kind).isData || FlagsOf(n.kind).isShellScript ==>
      forall i :: 0 <= i < |n.srcs| ==> SrcEntry(pkg, n.srcs[i]) in r
    ensures forall e :: e in r ==>
      || (FlagsOf(n.kind).isLibrary && exists j :: 0 <= j < |Settings| && e == LibLine(fixed, Settings[j], pkg, n.name))
      || (!FlagsOf(n.kind).isLibrary && exists i :: 0 <= i < |n.srcs| && e == SrcEntry(pkg, n.srcs[i]))
  {
    var f := FlagsOf(n.kind);
    var libs := if f.isLibrary then Map(Settings, LibEntryIn(fixed, pkg, n.name)) else [];
    var srcs := if f.isData || f.isShellScript then SrcEntries(pkg, n.srcs) else [];
    assert f.isLibrary ==> !f.isData && !f.isShellScript by { FamiliesPartition(n.kind); }
    assert !(f.isData && f.isShellScript) by { FamiliesPartition(n.kind); }
    (if f.isLibrary then libs else [])
    + (if f.isData then srcs else [])
    + (if f.isShellScript then srcs else [])
  }

  function RuleEntriesIn(fixed: bool, pkg: string, g: seq<Node>): nat -> seq<Entry> {
    (x: nat) => if x < |g| then RuleEntries(fixed, pkg, g[x]) else []
  }

  /** The lines of one package: its rules' lines, then its BUILD file. */
  function PackageEntries(fixed: bool, l: Listing, g: seq<Node>): seq<Entry> {
    FlatMap(l.rules, RuleEntriesIn(fixed, l.name, g)) + [SrcEntry(l.name, "BUILD")]
  }

  function PublishedIn(fixed: bool, g: seq<Node>): Listing -> seq<Entry> {
    (l: Listing) => if l.isPrivate || l.isPubOnly then [] else PackageEntries(fixed, l, g)
  }

  /** `files_to_pub`, without the header, test and proto files found by
      walking the directory. `Manifest(false, …)` is the file the program
      writes; `Manifest(true, …)` names the archives the build makes. */
  function Manifest(fixed: bool, ls: seq<Listing>, g: seq<Node>): seq<Entry> {
    FlatMap(ls, PublishedIn(fixed, g))
  }

  /** Private and publish-only packages publish nothing; every other package
      publishes its lines. */
  lemma ManifestMembers(fixed: bool, ls: seq<Listing>, g: seq<Node>, e: Entry)
    ensures e in Manifest(fixed, ls, g) <==>
      exists k :: 0 <= k < |ls| && !ls[k].isPrivate && !ls[k].isPubOnly && e in PackageEntries(fixed, ls[k], g)
  {
    FlatMapMembers(ls, PublishedIn(fixed, g), e);
    if e in Manifest(fixed, ls, g) {
      var k :| 0 <= k < |ls| && e in PublishedIn(fixed, g)(ls[k]);
      assert !ls[k].isPrivate && !ls[k].isPubOnly && e in PackageEntries(fixed, ls[k], g);
    }
    if exists k :: 0 <= k < |ls| && !ls[k].isPrivate && !ls[k].isPubOnly && e in PackageEntries(fixed, ls[k], g) {
      var k :| 0 <= k < |ls| && !ls[k].isPrivate && !ls[k].isPubOnly && e in PackageEntries(fixed, ls[k], g);
      assert e in PublishedIn(fixed, g)(ls[k]);
    }
  }

  /** A library of a published package has its archive line, per setting,
      in the manifest. */
  lemma LibLinePublished(fixed: bool, ls: seq<Listing>, g: seq<Node>, k: nat, i: nat, j: nat)
    requires k < |ls| && !ls[k].isPrivate && !ls[k].isPubOnly
    requires i < |ls[k].rules| && ls[k].rules[i] < |g|
    requires LibraryLike(g[ls[k].rules[i]].kind) && j < |Settings|
    ensures LibLine(fixed, Settings[j], ls[k].name, g[ls[k].rules[i]].name) in Manifest(fixed, ls, g)
  {
    var l := ls[k];
    var n := g[l.rules[i]];
    var e := LibLine(fixed, Settings[j], l.name, n.name);
    FamiliesPartition(n.kind);
    assert e in RuleEntriesIn(fixed, l.name, g)(l.rules[i]);
    FlatMapMembers(l.rules, RuleEntriesIn(fixed, l.name, g), e);
    assert e in PackageEntries(fixed, l, g);
    ManifestMembers(fixed, ls, g, e);
  }

  /** As written, every library of a published package gets a "lib<name>.a"
      line per setting; it names the archive the build makes only when the
      rule name is already lower case. */
  lemma LibrariesPublishedAsWritten(ls: seq<Listing>, g: seq<Node>, k: nat, i: nat, j: nat)
    requires k < |ls| && !ls[k].isPrivate && !ls[k].isPubOnly
    requires i < |ls[k].rules| && ls[k].rules[i] < |g|
    requires LibraryLike(g[ls[k].rules[i]].kind) && j < |Settings|
    requires Rel(ls[k].name) && Rel(g[ls[k].rules[i]].name)
    ensures LibEntryAsWritten(Settings[j], ls[k].name, g[ls[k].rules[i]].name) in Manifest(false, ls, g)
    ensures Lower(g[ls[k].rules[i]].name) == g[ls[k].rules[i]].name ==>
      LibEntryAsWritten(Settings[j], ls[k].name, g[ls[k].rules[i]].name).file == LibraryPath(Settings[j], ls[k].name, g[ls[k].rules[i]].name)
  {
    var pkg, name := ls[k].name, g[ls[k].rules[i]].name;
    LibLinePublished(false, ls, g, k, i, j);
    if Lower(name) == name {
      SettingsAreComponents();
      AsWrittenAgreesOnLowerCase(Settings[j], pkg, name);
      PublishedArchiveIsBuilt(Settings[j], pkg, name);
    }
  }

  /** With the corrected line, every library archive of a published package
      is published, per setting, from where the build put it to where
      consumers look. */
  lemma LibrariesPublished(ls: seq<Listing>, g: seq<Node>, k: nat, i: nat, j: nat)
    requires k < |ls| && !ls[k].isPrivate && !ls[k].isPubOnly
    requires i < |ls[k].rules| && ls[k].rules[i] < |g|
    requires LibraryLike(g[ls[k].rules[i]].kind) && j < |Settings|
    requires Rel(ls[k].name) && Rel(g[ls[k].rules[i]].name)
    ensures Entry(LibraryPath(Settings[j], ls[k].name, g[ls[k].rules[i]].name), PubTargetDir(Settings[j], ls[k].name))
            in Manifest(true, ls, g)
  {
    SettingsAreComponents();
    PublishedArchiveIsBuilt(Settings[j], ls[k].name, g[ls[k].rules[i]].name);
    LibLinePublished(true, ls, g, k, i, j);
  }

  /** Every published package publishes its BUILD file into its directory. */
  lemma BuildFilesPublished(fixed: bool, ls: seq<Listing>, g: seq<Node>, k: nat)
    requires k < |ls| && !ls[k].isPrivate && !ls[k].isPubOnly && Rel(ls[k].name)
    ensures SrcEntry(ls[k].name, "BUILD") in Manifest(fixed, ls, g)
    ensures SrcEntry(ls[k].name, "BUILD").dir == "pub/src/" + ls[k].name
  {
    var e := SrcEntry(ls[k].name, "BUILD");
    assert !HasChar("BUILD", '/');
    SrcEntryDir(ls[k].name, "BUILD");
    assert e in PackageEntries(fixed, ls[k], g);
    ManifestMembers(fixed, ls, g, e);
  }

  // ---- exe_files ----

  function ExePath(s: string, pkg: string, name: string): string {
    ".build/" + s + "/targets/" + pkg + "/" + name
  }

  function ExeIn(pkg: string, name: string): string -> string {
    (s: string) => ExePath(s, pkg, name)
  }

  /** The executables of one rule: its binary per setting, if it is a binary. */
  function NodeExes(pkg: string, n: Node): (r: seq<string>)
    ensures forall f :: f in r <==>
      FlagsOf(n.kind).isBinary && exists j :: 0 <= j < |Settings| && f == ExePath(Settings[j], pkg, n.name)
  {
    if FlagsOf(n.kind).isBinary then
      var r := Map(Settings, ExeIn(pkg, n.name));
      assert forall f :: f in r <==> exists j :: 0 <= j < |Settings| && f == r[j];
      r
    else []
  }

  function ExesOf(pkg: string, g: seq<Node>): nat -> seq<string> {
    (x: nat) => if x < |g| then NodeExes(pkg, g[x]) else []
  }

  function ExesIn(g: seq<Node>): Listing -> seq<string> {
    (l: Listing) => FlatMap(l.rules, ExesOf(l.name, g))
  }

  /** `exe_files`: the binary of every binary rule, per setting, of every
      given package, private and publish-only ones included. */
  function ExeFiles(ls: seq<Listing>, g: seq<Node>): seq<string> {
    FlatMap(ls, ExesIn(g))
  }

  /** The executables one package lists: those of its rules, in order. */
  lemma ListingExes(l: Listing, g: seq<Node>, f: string)
    requires InGraph(l.rules, g)
    ensures f in ExesIn(g)(l) <==> exists i :: 0 <= i < |l.rules| && f in NodeExes(l.name, g[l.rules[i]])
  {
    FlatMapMembers(l.rules, ExesOf(l.name, g), f);
    if f in ExesIn(g)(l) {
      var i :| 0 <= i < |l.rules| && f in ExesOf(l.name, g)(l.rules[i]);
      assert f in NodeExes(l.name, g[l.rules[i]]);
    }
    forall i | 0 <= i < |l.rules| && f in NodeExes(l.name, g[l.rules[i]])
      ensures f in ExesOf(l.name, g)(l.rules[i])
    {
    }
  }

  /** Every package given contributes the executables of its rules,
      publish-only and private packages included. */
  lemma ExeFilesMembers(ls: seq<Listing>, g: seq<Node>, f: string)
    requires Indexed(ls, g)
    ensures f in ExeFiles(ls, g) <==>
      exists k, i :: 0 <= k < |ls| && 0 <= i < |ls[k].rules| && f in NodeExes(ls[k].name, g[ls[k].rules[i]])
  {
    FlatMapMembers(ls, ExesIn(g), f);
    if f in ExeFiles(ls, g) {
      var k :| 0 <= k < |ls| && f in ExesIn(g)(ls[k]);
      ListingExes(ls[k], g, f);
    }
    if exists k, i :: 0 <= k < |ls| && 0 <= i < |ls[k].rules| && f in NodeExes(ls[k].name, g[ls[k].rules[i]]) {
      var k, i :| 0 <= k < |ls| && 0 <= i < |ls[k].rules| && f in NodeExes(ls[k].name, g[ls[k].rules[i]]);
      ListingExes(ls[k], g, f);
    }
  }

  /** A listed executable is the make target of its binary rule. */
  lemma ExePathIsTarget(s: string, pkg: string, n: Node)
    requires Setting(s) && Rel(pkg) && Rel(n.name) && FlagsOf(n.kind).isBinary
    ensures ExePath(s, pkg, n.name) == MakeTargetName(n.kind, s, pkg, n.name)
  {
    FamiliesPartition(n.kind);
    TargetNameShapes(s, pkg, n.name);
  }
}
