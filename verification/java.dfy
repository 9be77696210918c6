/** The Java rules of blade3/java.py: jar and stamp names, the start script,
    deploy and class-directory paths, the ":"- and " "-separated string folds
    the source builds its lists with, and the two classpaths
    (`javacClassPathList` over the dependencies, `javaClassPathList` with the
    rule's own library last). The classes are not registered as BUILD
    descriptors (see Kinds), so their graph is given directly. */
module Java {
  import opened Text
  import opened Packages
  import opened Lists
  import opened Dedup

  datatype JKind = JavaLibrary | JavaBinary | JavaProto | JavaLib | JavaData

  /** A Java rule object: its class, name, package, sources, resolved
      dependencies (indices) and `javaops`. */
  datatype JRule = JRule(kind: JKind, name: string, pkg: string, srcs: seq<string>, deps: seq<nat>, javaops: seq<string>)

  /** Every edge leads to an existing rule of smaller rank. */
  predicate JRanked(g: seq<JRule>, rank: seq<nat>) {
    && |rank| == |g|
    && forall j, i :: 0 <= j < |g| && 0 <= i < |g[j].deps| ==> g[j].deps[i] < |g| && rank[g[j].deps[i]] < rank[j]
  }

  // ---- names and paths ----

  /** `JavaLibrary.libraryName`. */
  function JarName(name: string): (r: string)
    ensures |r| == |name| + 7
    ensures StartsWith(r, "lib") && EndsWith(r, ".jar")
    ensures r[3..|r| - 4] == Lower(name)
  {
    "lib" + Lower(name) + ".jar"
  }

  function BuildPkgDir(pkg: string): string {
    PathJoin("build", pkg)
  }

  /** `makeTargetName`: a stamp file for `java_lib`, the jar otherwise. */
  function Target(r: JRule): string {
    if r.kind == JavaLib then PathJoin(BuildPkgDir(r.pkg), r.name + ".stamp")
    else PathJoin(BuildPkgDir(r.pkg), JarName(r.name))
  }

  function SrcIn(pkg: string): string -> string {
    (s: string) => PathJoin(pkg, s)
  }

  /** The loop `makeSrcList` and `JavaLib.libraryPath` share: an accumulator
      that starts empty, takes the first item as it is while it is still
      empty, and otherwise grows by the separator and the item. */
  function Fold(sep: string, xs: seq<string>): string {
    if |xs| == 0 then ""
    else
      var acc := Fold(sep, xs[..|xs| - 1]);
      if acc == "" then xs[|xs| - 1] else acc + sep + xs[|xs| - 1]
  }

  /** The number of empty items a list starts with. */
  function LeadingEmpty(xs: seq<string>): (n: nat)
    ensures n <= |xs|
    ensures forall i :: 0 <= i < n ==> xs[i] == ""
    ensures n < |xs| ==> xs[n] != ""
  {
    if |xs| == 0 || xs[0] != "" then 0 else 1 + LeadingEmpty(xs[1..])
  }

  lemma JoinWithHead(sep: string, xs: seq<string>)
    requires |xs| > 0
    ensures StartsWith(JoinWith(sep, xs), xs[0])
  {
  }

  /** The fold is `sep.join` of the list without its leading empty items:
      an empty item after the first non-empty one still adds a separator. */
  lemma {:induction false} FoldIsJoin(sep: string, xs: seq<string>)
    ensures Fold(sep, xs) == JoinWith(sep, xs[LeadingEmpty(xs)..])
  {
    if |xs| > 0 {
      var n := |xs| - 1;
      var p := xs[..n];
      var x := xs[n];
      FoldIsJoin(sep, p);
      var f := LeadingEmpty(p);
      assert LeadingEmpty(xs) == if f < n then f else if x == "" then n + 1 else n by {
        LeadingEmptySnoc(p, x);
        assert xs == p + [x];
      }
      if f < n {
        JoinWithHead(sep, p[f..]);
        assert Fold(sep, p) != "";
        JoinWithSnoc(sep, p[f..], x);
        assert xs[f..] == p[f..] + [x];
      } else {
        assert p[f..] == [];
        if x == "" {
          assert xs[n + 1..] == [];
        } else {
          assert xs[n..] == [x];
        }
      }
    }
  }

  lemma {:induction false} LeadingEmptySnoc(p: seq<string>, x: string)
    ensures LeadingEmpty(p + [x]) == if LeadingEmpty(p) < |p| then LeadingEmpty(p) else if x == "" then |p| + 1 else |p|
  {
    if |p| > 0 {
      assert (p + [x])[1..] == p[1..] + [x];
      if p[0] == "" {
        LeadingEmptySnoc(p[1..], x);
      }
    } else {
      assert p + [x] == [x];
    }
  }

  /** With no empty item the fold is exactly `sep.join`. */
  lemma FoldNonEmpty(sep: string, xs: seq<string>)
    requires forall i :: 0 <= i < |xs| ==> xs[i] != ""
    ensures Fold(sep, xs) == JoinWith(sep, xs)
  {
    FoldIsJoin(sep, xs);
    assert LeadingEmpty(xs) == 0;
  }

  /** `libraryPath`: for `java_lib`, its sources ("<pkg>/<src>") joined by
      ":"; for every other class, the jar. */
  function LibPath(r: JRule): string {
    if r.kind == JavaLib then Fold(":", Map(r.srcs, SrcIn(r.pkg))) else Target(r)
  }

  /** `makeSrcList`: the sources under the package, separated by spaces. */
  function SrcList(r: JRule): string {
    Fold(" ", Map(r.srcs, SrcIn(r.pkg)))
  }

  /** `classRoot` and `classDir`. */
  function ClassRoot(pkg: string): string {
    PathJoin("build/" + pkg, "classes")
  }

  function ClassDir(pkg: string): string {
    PathJoin(ClassRoot(pkg), RealPackageName(pkg))
  }

  /** `JavaBinary.startShellName`, `mainClass`, `deployTarget`, `deployName`
      and `deployDir`. */
  function StartShellName(pkg: string, name: string): string {
    PathJoin("build/" + pkg, name)
  }

  function MainClass(pkg: string, name: string): string {
    PathJoin(RealPackageName(pkg), name)
  }

  function DeployTarget(pkg: string, name: string): string {
    PathJoin(BuildPkgDir(pkg), name + "_deploy.jar")
  }

  function DeployName(name: string): string {
    name + "_deploy"
  }

  function DeployDir(pkg: string): string {
    PathJoin(BuildPkgDir(pkg), "deploy")
  }

  /** `javaOps`: every option followed by a space. */
  function JavaOps(ops: seq<string>): (r: string)
    ensures |ops| == 0 ==> r == ""
  {
    if |ops| == 0 then "" else ops[0] + " " + JavaOps(ops[1..])
  }

  /** The options are `" ".join(javaops)` with one more space at the end,
      so the command keeps a space between the last option and "-cp". */
  lemma {:induction false} JavaOpsJoin(ops: seq<string>)
    ensures |ops| > 0 ==> JavaOps(ops) == JoinWith(" ", ops) + " "
  {
    if |ops| > 1 {
      JavaOpsJoin(ops[1..]);
    }
  }

  /** `genJavaFile`: the source without its last six characters, plus ".java". */
  function GenJavaFile(f: string): (r: string)
    ensures EndsWith(r, ".java")
    ensures |f| >= 6 ==> r[..|r| - 5] + f[|f| - 6..] == f
    ensures |f| < 6 ==> r == ".java"
  {
    DropLast(f, 6) + ".java"
  }

  /** A ".proto" source becomes the same path with ".java". */
  lemma GenJavaFileOfProto(base: string)
    ensures GenJavaFile(base + ".proto") == base + ".java"
  {
    var f := base + ".proto";
    assert f[..|f| - 6] == base;
  }

  /** Joining under "build/<pkg>" puts exactly one "/" before the name. */
  lemma BuildJoin(pkg: string, f: string)
    requires Rel(pkg) && Rel(f)
    ensures PathJoin(BuildPkgDir(pkg), f) == "build/" + pkg + "/" + f
    ensures PathJoin("build/" + pkg, f) == "build/" + pkg + "/" + f
  {
    assert Rel("build");
    RelJoin("build", pkg);
    var d := "build/" + pkg;
    assert d[|d| - 1] == pkg[|pkg| - 1];
    RelJoin(d, f);
  }

  /** Under relative names the jar, stamp, deploy and start-script paths are
      plain "/" concatenations under "build/<pkg>". */
  lemma JavaPathShapes(pkg: string, name: string)
    requires Rel(pkg) && Rel(name)
    ensures Target(JRule(JavaLibrary, name, pkg, [], [], [])) == "build/" + pkg + "/" + JarName(name)
    ensures Target(JRule(JavaLib, name, pkg, [], [], [])) == "build/" + pkg + "/" + (name + ".stamp")
    ensures DeployTarget(pkg, name) == "build/" + pkg + "/" + (name + "_deploy.jar")
    ensures StartShellName(pkg, name) == "build/" + pkg + "/" + name
  {
    assert Target(JRule(JavaLibrary, name, pkg, [], [], [])) == "build/" + pkg + "/" + JarName(name) by {
      var jn := JarName(name);
      assert jn[0] == 'l' && jn[|jn| - 1] == 'r';
      BuildJoin(pkg, jn);
    }
    assert Target(JRule(JavaLib, name, pkg, [], [], [])) == "build/" + pkg + "/" + (name + ".stamp") by {
      var st := name + ".stamp";
      assert st[0] == name[0] && st[|st| - 1] == 'p';
      BuildJoin(pkg, st);
    }
    assert DeployTarget(pkg, name) == "build/" + pkg + "/" + (name + "_deploy.jar") by {
      var dp := name + "_deploy.jar";
      assert dp[0] == name[0] && dp[|dp| - 1] == 'r';
      BuildJoin(pkg, dp);
    }
    BuildJoin(pkg, name);
  }

  /** `mainClass` is "<realPackageName>/<name>", or the bare name when the
      real package name is empty. */
  lemma MainClassShape(pkg: string, name: string)
    requires Rel(pkg) && Rel(name)
    ensures RealPackageName(pkg) != "" ==> MainClass(pkg, name) == RealPackageName(pkg) + "/" + name
    ensures RealPackageName(pkg) == "" ==> MainClass(pkg, name) == name
  {
    var rp := RealPackageName(pkg);
    assert !StartsWith(name, "/") by { assert name[..1] == [name[0]]; }
    if rp != "" {
      assert rp[|rp| - 1] == pkg[|pkg| - 1];
      assert !EndsWith(rp, "/") by { assert rp[|rp| - 1..] == [rp[|rp| - 1]]; }
    }
  }

  // ---- classpaths ----

  /** `javaClassPathList`: the dependencies' classpaths, then the rule's own
      library path. `lp` holds every rule's `libraryPath` by index (it is
      `LibPaths(g)` wherever the rules are emitted). */
  function ClassPath(g: seq<JRule>, rank: seq<nat>, lp: seq<string>, id: nat): string
    requires JRanked(g, rank) && |lp| == |g| && id < |g|
    decreases rank[id], 1
  {
    var j := Javac(g, rank, lp, id);
    if j == "" then lp[id] else j + ":" + lp[id]
  }

  /** `javacClassPathList`: the dependencies' classpaths folded with ":". */
  function Javac(g: seq<JRule>, rank: seq<nat>, lp: seq<string>, id: nat): string
    requires JRanked(g, rank) && |lp| == |g| && id < |g|
    decreases rank[id], 0, |g[id].deps| + 1
  {
    Fold(":", DepClassPaths(g, rank, lp, id, |g[id].deps|))
  }

  /** The classpaths of the first `k` dependencies. */
  function DepClassPaths(g: seq<JRule>, rank: seq<nat>, lp: seq<string>, id: nat, k: nat): (r: seq<string>)
    requires JRanked(g, rank) && |lp| == |g| && id < |g| && k <= |g[id].deps|
    ensures |r| == k
    decreases rank[id], 0, k
  {
    if k == 0 then [] else DepClassPaths(g, rank, lp, id, k - 1) + [ClassPath(g, rank, lp, g[id].deps[k - 1])]
  }

  /** Every rule's own library path, by index. */
  function LibPaths(g: seq<JRule>): (r: seq<string>)
    ensures |r| == |g|
    ensures forall j :: 0 <= j < |g| ==> r[j] == LibPath(g[j])
  {
    Map(g, LibPath)
  }

  /** Reference definition: the entries of the classpath, each dependency's
      entries in declaration order and the rule's own library path (from
      `lp`) last. Nothing is removed, so a rule reached twice is listed twice. */
  function Entries(g: seq<JRule>, rank: seq<nat>, lp: seq<string>, id: nat): (r: seq<string>)
    requires JRanked(g, rank) && |lp| == |g| && id < |g|
    ensures |r| > 0 && r[|r| - 1] == lp[id]
    decreases rank[id], 1
  {
    DepEntries(g, rank, lp, id, |g[id].deps|) + [lp[id]]
  }

  function DepEntries(g: seq<JRule>, rank: seq<nat>, lp: seq<string>, id: nat, k: nat): seq<string>
    requires JRanked(g, rank) && |lp| == |g| && id < |g| && k <= |g[id].deps|
    decreases rank[id], 0, k
  {
    if k == 0 then [] else DepEntries(g, rank, lp, id, k - 1) + Entries(g, rank, lp, g[id].deps[k - 1])
  }

  predicate NonEmptyAll(xs: seq<string>) {
    forall j :: 0 <= j < |xs| ==> xs[j] != ""
  }

  /** Every rule's library path is a non-empty string. */
  predicate PathsNonEmpty(g: seq<JRule>) {
    NonEmptyAll(LibPaths(g))
  }

  /** `sep.join` of two non-empty lists is the joins of the halves around a separator. */
  lemma {:induction false} JoinWithAppend(sep: string, a: seq<string>, b: seq<string>)
    requires |a| > 0 && |b| > 0
    ensures JoinWith(sep, a + b) == JoinWith(sep, a) + sep + JoinWith(sep, b)
    decreases |b|
  {
    var n := |b| - 1;
    if n == 0 {
      JoinWithSnoc(sep, a, b[0]);
      assert a + b == a + [b[0]];
    } else {
      JoinWithAppend(sep, a, b[..n]);
      JoinWithSnoc(sep, a + b[..n], b[n]);
      JoinWithSnoc(sep, b[..n], b[n]);
      assert a + b == (a + b[..n]) + [b[n]];
      assert b == b[..n] + [b[n]];
    }
  }

  /** With non-empty library paths the classpath string is exactly the
      entries joined by ":". */
  lemma {:induction false} ClassPathJoins(g: seq<JRule>, rank: seq<nat>, lp: seq<string>, id: nat)
    requires JRanked(g, rank) && |lp| == |g| && id < |g| && NonEmptyAll(lp)
    ensures ClassPath(g, rank, lp, id) == JoinWith(":", Entries(g, rank, lp, id))
    decreases rank[id], 1
  {
    var k := |g[id].deps|;
    DepsJoin(g, rank, lp, id, k);
    var own := lp[id];
    var ds := DepClassPaths(g, rank, lp, id, k);
    var de := DepEntries(g, rank, lp, id, k);
    FoldNonEmpty(":", ds);
    if k == 0 {
      assert Entries(g, rank, lp, id) == [own];
    } else {
      DepEntriesHead(g, rank, lp, id, k);
      JoinWithHead(":", de);
      assert Javac(g, rank, lp, id) != "";
      JoinWithSnoc(":", de, own);
    }
  }

  /** The dependency part: the first `k` classpaths, joined, are the first
      `k` dependencies' entries, joined; every classpath is non-empty. */
  lemma {:induction false} DepsJoin(g: seq<JRule>, rank: seq<nat>, lp: seq<string>, id: nat, k: nat)
    requires JRanked(g, rank) && |lp| == |g| && id < |g| && k <= |g[id].deps| && NonEmptyAll(lp)
    ensures forall i :: 0 <= i < k ==> DepClassPaths(g, rank, lp, id, k)[i] != ""
    ensures JoinWith(":", DepClassPaths(g, rank, lp, id, k)) == JoinWith(":", DepEntries(g, rank, lp, id, k))
    decreases rank[id], 0, k
  {
    if k > 0 {
      var d := g[id].deps[k - 1];
      DepsJoin(g, rank, lp, id, k - 1);
      ClassPathJoins(g, rank, lp, d);
      var cp := ClassPath(g, rank, lp, d);
      var e := Entries(g, rank, lp, d);
      var ps := DepClassPaths(g, rank, lp, id, k - 1);
      var es := DepEntries(g, rank, lp, id, k - 1);
      assert cp != "" by {
        if Javac(g, rank, lp, d) != "" {
          assert |cp| > |Javac(g, rank, lp, d)|;
        }
      }
      assert DepClassPaths(g, rank, lp, id, k) == ps + [cp];
      assert DepEntries(g, rank, lp, id, k) == es + e;
      if k == 1 {
        assert ps + [cp] == [cp];
        assert es + e == e;
      } else {
        DepEntriesHead(g, rank, lp, id, k - 1);
        EntriesHead(g, rank, lp, d);
        JoinWithSnoc(":", ps, cp);
        JoinWithAppend(":", es, e);
      }
    }
  }

  /** The first entry of a classpath is non-empty when all library paths are. */
  lemma {:induction false} EntriesHead(g: seq<JRule>, rank: seq<nat>, lp: seq<string>, id: nat)
    requires JRanked(g, rank) && |lp| == |g| && id < |g| && NonEmptyAll(lp)
    ensures Entries(g, rank, lp, id)[0] != ""
    decreases rank[id], 1
  {
    var k := |g[id].deps|;
    if k > 0 {
      DepEntriesHead(g, rank, lp, id, k);
    }
  }

  lemma {:induction false} DepEntriesHead(g: seq<JRule>, rank: seq<nat>, lp: seq<string>, id: nat, k: nat)
    requires JRanked(g, rank) && |lp| == |g| && id < |g| && 0 < k <= |g[id].deps| && NonEmptyAll(lp)
    ensures |DepEntries(g, rank, lp, id, k)| > 0 && DepEntries(g, rank, lp, id, k)[0] != ""
    decreases rank[id], 0, k
  {
    if k == 1 {
      EntriesHead(g, rank, lp, g[id].deps[0]);
      assert DepEntries(g, rank, lp, id, 1) == [] + Entries(g, rank, lp, g[id].deps[0]);
    } else {
      DepEntriesHead(g, rank, lp, id, k - 1);
    }
  }

  /** The entries of the first `m` dependencies start the entries of the first `k`. */
  lemma {:induction false} DepEntriesPrefix(g: seq<JRule>, rank: seq<nat>, lp: seq<string>, id: nat, m: nat, k: nat)
    requires JRanked(g, rank) && |lp| == |g| && id < |g| && m <= k <= |g[id].deps|
    ensures |DepEntries(g, rank, lp, id, m)| <= |DepEntries(g, rank, lp, id, k)|
    ensures forall p :: 0 <= p < |DepEntries(g, rank, lp, id, m)| ==> DepEntries(g, rank, lp, id, k)[p] == DepEntries(g, rank, lp, id, m)[p]
    decreases k
  {
    if m < k {
      DepEntriesPrefix(g, rank, lp, id, m, k - 1);
      var a := DepEntries(g, rank, lp, id, k - 1);
      var b := Entries(g, rank, lp, g[id].deps[k - 1]);
      assert DepEntries(g, rank, lp, id, k) == a + b;
      assert forall p :: 0 <= p < |a| ==> (a + b)[p] == a[p];
    }
  }

  /** Where an entry of the `j`-th dependency lands in the rule's entries:
      after the entries of the dependencies before it. */
  lemma EntryPosition(g: seq<JRule>, rank: seq<nat>, lp: seq<string>, id: nat, j: nat, x: string) returns (q: nat)
    requires JRanked(g, rank) && |lp| == |g| && id < |g| && j < |g[id].deps|
    requires x in Entries(g, rank, lp, g[id].deps[j])
    ensures |DepEntries(g, rank, lp, id, j)| <= q < |DepEntries(g, rank, lp, id, j + 1)|
    ensures q < |Entries(g, rank, lp, id)| && Entries(g, rank, lp, id)[q] == x
  {
    var n := |g[id].deps|;
    var dj := Entries(g, rank, lp, g[id].deps[j]);
    var pj :| 0 <= pj < |dj| && dj[pj] == x;
    var before := DepEntries(g, rank, lp, id, j);
    assert DepEntries(g, rank, lp, id, j + 1) == before + dj;
    q := |before| + pj;
    assert DepEntries(g, rank, lp, id, j + 1)[q] == x;
    DepEntriesPrefix(g, rank, lp, id, j + 1, n);
    var e := Entries(g, rank, lp, id);
    assert e == DepEntries(g, rank, lp, id, n) + [lp[id]];
    assert e[q] == DepEntries(g, rank, lp, id, n)[q];
  }

  /** No deduplication: an entry reachable through two dependencies is listed
      twice, so in the diamond a -> {b, c} -> d the jar of d appears twice. */
  lemma TwoPathsRepeat(g: seq<JRule>, rank: seq<nat>, lp: seq<string>, id: nat, i: nat, j: nat, x: string) returns (p: nat, q: nat)
    requires JRanked(g, rank) && |lp| == |g| && id < |g| && i < j < |g[id].deps|
    requires x in Entries(g, rank, lp, g[id].deps[i]) && x in Entries(g, rank, lp, g[id].deps[j])
    ensures p < q < |Entries(g, rank, lp, id)| && Entries(g, rank, lp, id)[p] == x && Entries(g, rank, lp, id)[q] == x
    ensures !NoDup(Entries(g, rank, lp, id))
  {
    p := EntryPosition(g, rank, lp, id, i, x);
    q := EntryPosition(g, rank, lp, id, j, x);
    var e := Entries(g, rank, lp, id);
    DepEntriesGrow(g, rank, lp, id, i + 1, j);
    assert e[p] == e[q];
  }

  lemma {:induction false} DepEntriesGrow(g: seq<JRule>, rank: seq<nat>, lp: seq<string>, id: nat, m: nat, k: nat)
    requires JRanked(g, rank) && |lp| == |g| && id < |g| && m <= k <= |g[id].deps|
    ensures |DepEntries(g, rank, lp, id, m)| <= |DepEntries(g, rank, lp, id, k)|
    decreases k
  {
    if m < k {
      DepEntriesGrow(g, rank, lp, id, m, k - 1);
    }
  }

  // ---- the deploy step's `split(":")` ----

  /** Python's `s.split(c)` for a single character: the pieces between the
      occurrences of `c`, at least one. */
  function Split(s: string, c: char): (r: seq<string>)
    ensures |r| > 0
    decreases |s|
  {
    var i := FirstIndexOf(s, c);
    if i == |s| then [s] else [s[..i]] + Split(s[i + 1..], c)
  }

  /** Splitting undoes joining, when no piece holds the separator. */
  lemma {:induction false} SplitJoin(xs: seq<string>, c: char)
    requires |xs| > 0 && forall i :: 0 <= i < |xs| ==> !HasChar(xs[i], c)
    ensures Split(JoinWith([c], xs), c) == xs
  {
    var s := JoinWith([c], xs);
    var x := xs[0];
    if |xs| == 1 {
      assert FirstIndexOf(s, c) == |s|;
    } else {
      var rest := JoinWith([c], xs[1..]);
      assert s == x + [c] + rest;
      assert s[|x|] == c;
      assert forall k :: 0 <= k < |x| ==> s[k] == x[k];
      assert FirstIndexOf(s, c) == |x|;
      assert s[..|x|] == x;
      assert s[|x| + 1..] == rest;
      SplitJoin(xs[1..], c);
      assert xs == [x] + xs[1..];
    }
  }
}
