/** The `emitMake` walk of the Java rules in blade3/java.py. Each class
    writes its own Makefile rules and then, for `java_library`,
    `java_binary` and `java_proto`, visits its dependencies in order; the
    `emited` flag of the rule object is set only after that recursion, so
    a rule is marked after everything it depends on. `java_lib` and
    `java_data` write one rule and never recurse. The Makefile text is not
    modelled: an action keeps its target, its prerequisite string, the
    classpath and the source list its commands use, and the other words of
    its command. */
module JavaEmit {
  import opened Text
  import opened Lists
  import opened Dedup
  import opened Java

  datatype JStep =
    | Compile      // `emitSelfMake`: javac the sources into the class root, then jar them
    | StartScript  // a binary's start script, named after the rule
    | DeployAlias  // "<name>_deploy : <deploy jar>"
    | Deploy       // unzip every classpath entry into the deploy directory and jar it
    | GenJava      // protoc from one ".proto" source
    | Stamp        // `java_lib`: touch the stamp file
    | DataJar      // `java_data`: jar the sources as they are

  datatype JAction = JAction(step: JStep, target: string, prereqs: string, classpath: string, srcList: string, args: seq<string>)

  /** The sources a compile step announces, one "compiling" line each. */
  function Announced(a: JAction): seq<string> {
    Compiled(a.srcList)
  }

  /** The jars a deploy step unzips: its classpath split at ":". */
  function Unzipped(a: JAction): seq<string> {
    Split(a.classpath, ':')
  }

  /** The rules whose `emited` flag is set, the order in which the flags
      were set, and the actions written so far. */
  datatype JState = JState(emitted: set<nat>, log: seq<nat>, out: seq<JAction>)

  const Start := JState({}, [], [])

  // ---- the strings of one rule ----

  /** `makeDependsList`: the source list, then " " and the target of each
      dependency. With no sources it starts with a space. */
  function Prereqs(first: string, ts: seq<string>): string {
    if |ts| == 0 then first else Prereqs(first, ts[..|ts| - 1]) + " " + ts[|ts| - 1]
  }

  /** The loop is `" ".join` of the source list and the targets, whatever
      the source list is. */
  lemma {:induction false} PrereqsJoin(first: string, ts: seq<string>)
    ensures Prereqs(first, ts) == JoinWith(" ", [first] + ts)
  {
    if |ts| > 0 {
      var n := |ts| - 1;
      PrereqsJoin(first, ts[..n]);
      JoinWithSnoc(" ", [first] + ts[..n], ts[n]);
      assert [first] + ts == ([first] + ts[..n]) + [ts[n]];
    } else {
      assert [first] + ts == [first];
    }
  }

  function DepTargets(g: seq<JRule>, rank: seq<nat>, id: nat): (r: seq<string>)
    requires JRanked(g, rank) && id < |g|
    ensures |r| == |g[id].deps|
    ensures forall i :: 0 <= i < |r| ==> r[i] == Target(g[g[id].deps[i]])
  {
    seq(|g[id].deps|, i requires 0 <= i < |g[id].deps| => Target(g[g[id].deps[i]]))
  }

  predicate NonEmpty(w: string) {
    w != ""
  }

  /** The sources the compile step announces: the words of the source list
      split at " ", stripped, and kept when non-blank. */
  function Compiled(srcList: string): (r: seq<string>)
    ensures forall i :: 0 <= i < |r| ==> r[i] != "" && NoEdgeSpace(r[i])
  {
    var ws := Map(Split(srcList, ' '), Strip);
    var r := Filter(ws, NonEmpty);
    assert forall i :: 0 <= i < |r| ==> r[i] in ws;
    r
  }

  /** A path with no whitespace at all. */
  predicate Word(w: string) {
    w != "" && forall k :: 0 <= k < |w| ==> !IsSpace(w[k])
  }

  /** The compile step announces exactly the sources, in order, when every
      source path is a single word. */
  lemma CompiledSources(paths: seq<string>)
    requires forall i :: 0 <= i < |paths| ==> Word(paths[i])
    ensures Compiled(Fold(" ", paths)) == paths
  {
    FoldNonEmpty(" ", paths);
    if |paths| == 0 {
      CompiledEmpty();
    } else {
      CompiledWords(paths);
    }
  }

  /** An empty source list splits into one empty word, which is dropped. */
  lemma CompiledEmpty()
    ensures Compiled("") == []
  {
    assert Split("", ' ') == [""];
    var ws := Map([""], Strip);
    assert ws == [""];
    assert Filter(ws, NonEmpty) == Filter([], NonEmpty) + [];
  }

  lemma CompiledWords(paths: seq<string>)
    requires |paths| > 0 && forall i :: 0 <= i < |paths| ==> Word(paths[i])
    ensures Compiled(JoinWith(" ", paths)) == paths
  {
    assert Split(JoinWith(" ", paths), ' ') == paths by {
      forall i | 0 <= i < |paths| ensures !HasChar(paths[i], ' ') {
        assert forall k :: 0 <= k < |paths[i]| ==> paths[i][k] != ' ';
      }
      SplitJoin(paths, ' ');
      assert [' '] == " ";
    }
    assert Map(paths, Strip) == paths by {
      forall i | 0 <= i < |paths| ensures Map(paths, Strip)[i] == paths[i] {
        assert NoEdgeSpace(paths[i]);
      }
    }
    FilterAll(paths, NonEmpty);
  }

  /** `makeSrcList` over a given source list. */
  function SrcPaths(pkg: string, srcs: seq<string>): (r: seq<string>)
    ensures |r| == |srcs|
  {
    Map(srcs, SrcIn(pkg))
  }

  /** `emitSelfMake` with the rule's sources replaced by `srcs` (a proto
      compiles its generated files), given the dependencies' targets and the
      `javacClassPathList` string. */
  function CompileAction(n: JRule, srcs: seq<string>, targets: seq<string>, javac: string): JAction {
    var srcList := Fold(" ", SrcPaths(n.pkg, srcs));
    JAction(Compile, Target(n), Prereqs(srcList, targets), javac, srcList, [ClassRoot(n.pkg), LibPath(n)])
  }

  /** The generated file of one proto source, as the rule's target writes it. */
  function GenPath(pkg: string, src: string): string {
    pkg + "/" + GenJavaFile(src)
  }

  function GenAction(pkg: string, src: string): JAction {
    JAction(GenJava, GenPath(pkg, src), pkg + "/" + src, "", "", [])
  }

  function GenActions(pkg: string, srcs: seq<string>): (r: seq<JAction>)
    ensures |r| == |srcs|
    ensures forall i :: 0 <= i < |srcs| ==> r[i] == GenAction(pkg, srcs[i])
  {
    Map(srcs, (s: string) => GenAction(pkg, s))
  }

  /** A proto's jar: `emitSelfMake` after `srcsList` was replaced by the
      generated files. */
  function ProtoJar(n: JRule, targets: seq<string>, javac: string): JAction {
    CompileAction(n, Map(n.srcs, GenJavaFile), targets, javac)
  }

  /** The rules a `java_binary` writes before its jar, given its
      `javaClassPathList` string. */
  function BinaryActions(n: JRule, cp: string): (r: seq<JAction>)
    ensures |r| == 3
  {
    [ JAction(StartScript, n.name, Target(n), cp, "", [JavaOps(n.javaops), MainClass(n.pkg, n.name), StartShellName(n.pkg, n.name)]),
      JAction(DeployAlias, DeployName(n.name), DeployTarget(n.pkg, n.name), "", "", []),
      JAction(Deploy, DeployTarget(n.pkg, n.name), Target(n), cp, "", [DeployDir(n.pkg), MainClass(n.pkg, n.name)]) ]
  }

  /** Everything a rule writes on its first visit, before its dependencies,
      given the dependencies' targets and its two classpath strings. */
  function OwnActionsWith(n: JRule, targets: seq<string>, javac: string, cp: string): (r: seq<JAction>)
    ensures |r| > 0
  {
    match n.kind
    case JavaLibrary => [CompileAction(n, n.srcs, targets, javac)]
    case JavaBinary => BinaryActions(n, cp) + [CompileAction(n, n.srcs, targets, javac)]
    case JavaProto => GenActions(n.pkg, n.srcs) + [ProtoJar(n, targets, javac)]
    case JavaLib => [JAction(Stamp, Target(n), SrcList(n), "", SrcList(n), [])]
    case JavaData => [JAction(DataJar, Target(n), SrcList(n), "", SrcList(n), [LibPath(n)])]
  }

  function OwnActions(g: seq<JRule>, rank: seq<nat>, id: nat): (r: seq<JAction>)
    requires JRanked(g, rank) && id < |g|
    ensures |r| > 0
  {
    var lp := LibPaths(g);
    OwnActionsWith(g[id], DepTargets(g, rank, id), Javac(g, rank, lp, id), ClassPath(g, rank, lp, id))
  }

  /** The classes whose `emitMake` visits the dependencies. */
  predicate Recurses(k: JKind) {
    k == JavaLibrary || k == JavaBinary || k == JavaProto
  }

  // ---- the invariant ----

  /** The log holds each marked rule exactly once. */
  ghost predicate Wf(st: JState) {
    && NoDup(st.log)
    && (forall x :: x in st.log <==> x in st.emitted)
  }

  predicate Grows(a: JState, b: JState) {
    a.emitted <= b.emitted && a.log <= b.log && a.out <= b.out
  }

  /** Setting the flag of a rule not marked yet keeps the log in step. */
  lemma LogAppend(log: seq<nat>, emitted: set<nat>, k: nat)
    requires NoDup(log) && (forall x :: x in log <==> x in emitted) && k !in emitted
    ensures NoDup(log + [k]) && (forall x :: x in log + [k] <==> x in emitted + {k})
  {
    var l := log + [k];
    forall i, j | 0 <= i < j < |l| ensures l[i] != l[j] {
      if j == |log| {
        assert l[i] == log[i];
        assert log[i] in log;
      } else {
        assert l[i] == log[i] && l[j] == log[j];
      }
    }
  }

  function Mark(st: JState, id: nat): (r: JState)
    ensures Grows(st, r)
  {
    JState(st.emitted + {id}, st.log + [id], st.out)
  }

  lemma GrowsTrans(a: JState, b: JState, c: JState)
    requires Grows(a, b) && Grows(b, c)
    ensures Grows(a, c)
  {
  }

  // ---- the walk ----

  /** `emitMake` of rule `id`: nothing when its flag is set; otherwise its
      own actions, the dependencies in order for the recursing classes,
      and then the flag. Only rules of smaller rank are marked on the way,
      so the rule itself is still unmarked when its flag is set. */
  function Emit(g: seq<JRule>, rank: seq<nat>, id: nat, st: JState): (r: JState)
    requires JRanked(g, rank) && id < |g|
    ensures Grows(st, r)
    ensures id in r.emitted
    ensures id in st.emitted ==> r == st
    ensures forall x :: x in r.emitted && x !in st.emitted ==> x < |g| && rank[x] <= rank[id]
    ensures Wf(st) ==> Wf(r)
    decreases rank[id], 1
  {
    if id in st.emitted then st
    else
      var st1 := FirstVisit(g, rank, id, st);
      var st2 := if Recurses(g[id].kind) then EmitDeps(g, rank, id, 0, st1) else st1;
      assert id !in st2.emitted;
      GrowsTrans(st, st2, Mark(st2, id));
      assert Wf(st) ==> Wf(Mark(st2, id)) by {
        if Wf(st) {
          LogAppend(st2.log, st2.emitted, id);
        }
      }
      Mark(st2, id)
  }

  /** The rule's own actions, written before anything is marked. */
  function FirstVisit(g: seq<JRule>, rank: seq<nat>, id: nat, st: JState): (r: JState)
    requires JRanked(g, rank) && id < |g|
    ensures r.emitted == st.emitted && r.log == st.log && st.out <= r.out
  {
    st.(out := st.out + OwnActions(g, rank, id))
  }

  /** The loop over `depRulesList` from position `k` on: every rule it
      marks has a rank below the rule's own. */
  function EmitDeps(g: seq<JRule>, rank: seq<nat>, id: nat, k: nat, st: JState): (r: JState)
    requires JRanked(g, rank) && id < |g| && k <= |g[id].deps|
    ensures Grows(st, r)
    ensures forall x :: x in r.emitted && x !in st.emitted ==> x < |g| && rank[x] < rank[id]
    ensures Wf(st) ==> Wf(r)
    decreases rank[id], 0, |g[id].deps| - k
  {
    if k == |g[id].deps| then st
    else
      var st1 := Emit(g, rank, g[id].deps[k], st);
      EmitDeps(g, rank, id, k + 1, st1)
  }

  /** The loop leaves every dependency from position `k` on marked. */
  lemma {:induction false} EmitDepsCovers(g: seq<JRule>, rank: seq<nat>, id: nat, k: nat, st: JState, i: nat)
    requires JRanked(g, rank) && id < |g| && k <= i < |g[id].deps|
    ensures g[id].deps[i] in EmitDeps(g, rank, id, k, st).emitted
    decreases |g[id].deps| - k
  {
    var st1 := Emit(g, rank, g[id].deps[k], st);
    assert EmitDeps(g, rank, id, k, st) == EmitDeps(g, rank, id, k + 1, st1);
    if i > k {
      EmitDepsCovers(g, rank, id, k + 1, st1, i);
    }
  }

  // ---- what the walk promises ----

  /** A second visit changes nothing. */
  lemma EmitIdempotent(g: seq<JRule>, rank: seq<nat>, id: nat, st: JState)
    requires JRanked(g, rank) && id < |g|
    ensures Emit(g, rank, id, Emit(g, rank, id, st)) == Emit(g, rank, id, st)
  {
    var r := Emit(g, rank, id, st);
    assert id in r.emitted;
  }

  /** On the first visit of a recursing rule its own actions come first,
      every dependency is marked, and the rule's flag is set last: its log
      entry follows those of all the dependencies it marked. */
  lemma FirstVisitEmits(g: seq<JRule>, rank: seq<nat>, id: nat, st: JState)
    requires JRanked(g, rank) && id < |g| && Recurses(g[id].kind) && id !in st.emitted
    ensures var r := Emit(g, rank, id, st);
      && st.out + OwnActions(g, rank, id) <= r.out
      && |r.log| > 0 && r.log[|r.log| - 1] == id
      && forall i :: 0 <= i < |g[id].deps| ==> g[id].deps[i] in r.emitted
  {
    var st1 := FirstVisit(g, rank, id, st);
    var st2 := EmitDeps(g, rank, id, 0, st1);
    assert Emit(g, rank, id, st) == Mark(st2, id);
    forall i | 0 <= i < |g[id].deps| ensures g[id].deps[i] in st2.emitted {
      EmitDepsCovers(g, rank, id, 0, st1, i);
    }
  }

  /** `java_lib` and `java_data` write their one rule and mark only themselves. */
  lemma LeafEmits(g: seq<JRule>, rank: seq<nat>, id: nat, st: JState)
    requires JRanked(g, rank) && id < |g| && !Recurses(g[id].kind) && id !in st.emitted
    ensures var r := Emit(g, rank, id, st);
      && r.emitted == st.emitted + {id}
      && r.log == st.log + [id]
      && |r.out| == |st.out| + 1
      && r.out[|st.out|].target == Target(g[id])
      && r.out[|st.out|].prereqs == SrcList(g[id])
  {
  }

  /** From no marked rule, every rule is marked at most once and only
      existing rules are marked. */
  lemma EmitOnce(g: seq<JRule>, rank: seq<nat>, id: nat)
    requires JRanked(g, rank) && id < |g|
    ensures NoDup(Emit(g, rank, id, Start).log)
    ensures forall x :: x in Emit(g, rank, id, Start).log ==> x < |g|
  {
    assert Wf(Start);
  }

  // ---- the recipes ----

  /** Every entry of a classpath is some rule's library path. */
  lemma {:induction false} EntriesFromTable(g: seq<JRule>, rank: seq<nat>, lp: seq<string>, id: nat)
    requires JRanked(g, rank) && |lp| == |g| && id < |g|
    ensures forall x :: x in Entries(g, rank, lp, id) ==> x in lp
    decreases rank[id], 1
  {
    DepEntriesFromTable(g, rank, lp, id, |g[id].deps|);
  }

  lemma {:induction false} DepEntriesFromTable(g: seq<JRule>, rank: seq<nat>, lp: seq<string>, id: nat, k: nat)
    requires JRanked(g, rank) && |lp| == |g| && id < |g| && k <= |g[id].deps|
    ensures forall x :: x in DepEntries(g, rank, lp, id, k) ==> x in lp
    decreases rank[id], 0, k
  {
    if k > 0 {
      DepEntriesFromTable(g, rank, lp, id, k - 1);
      EntriesFromTable(g, rank, lp, g[id].deps[k - 1]);
    }
  }

  /** The deploy step unzips exactly the classpath entries, one per
      dependency path: when no library path is empty or holds ":", the
      `split(":")` of the classpath gives back the entries. */
  lemma DeployUnpacksEntries(g: seq<JRule>, rank: seq<nat>, id: nat)
    requires JRanked(g, rank) && id < |g|
    requires forall j :: 0 <= j < |g| ==> LibPath(g[j]) != "" && !HasChar(LibPath(g[j]), ':')
    ensures var d := BinaryActions(g[id], ClassPath(g, rank, LibPaths(g), id))[2];
      d.step == Deploy && Unzipped(d) == Entries(g, rank, LibPaths(g), id)
  {
    var lp := LibPaths(g);
    assert NonEmptyAll(lp);
    ClassPathJoins(g, rank, lp, id);
    EntriesFromTable(g, rank, lp, id);
    var e := Entries(g, rank, lp, id);
    forall i | 0 <= i < |e| ensures !HasChar(e[i], ':') {
      assert e[i] in lp;
    }
    SplitJoin(e, ':');
    assert [':'] == ":";
  }

  /** A binary's start script and deploy jar are built from its own jar,
      and the deploy alias points at the deploy jar. */
  lemma BinaryRecipe(n: JRule, targets: seq<string>, javac: string, cp: string)
    requires n.kind == JavaBinary
    ensures var acts := OwnActionsWith(n, targets, javac, cp);
      && |acts| == 4
      && acts[0].prereqs == acts[3].target == acts[2].prereqs
      && acts[1].prereqs == acts[2].target
      && acts[3].step == Compile
      && acts[0].classpath == acts[2].classpath == cp
      && acts[3].classpath == javac
  {
  }

  /** The compile step of a rule announces its sources under the package,
      and its prerequisites are those sources and the dependencies' targets. */
  lemma CompileRecipe(n: JRule, srcs: seq<string>, targets: seq<string>, javac: string)
    requires forall i :: 0 <= i < |srcs| ==> Word(SrcPaths(n.pkg, srcs)[i])
    ensures Announced(CompileAction(n, srcs, targets, javac)) == SrcPaths(n.pkg, srcs)
    ensures CompileAction(n, srcs, targets, javac).prereqs == JoinWith(" ", [JoinWith(" ", SrcPaths(n.pkg, srcs))] + targets)
  {
    var ps := SrcPaths(n.pkg, srcs);
    CompiledSources(ps);
    FoldNonEmpty(" ", ps);
    PrereqsJoin(Fold(" ", ps), targets);
  }

  /** A proto's jar compiles exactly the files its protoc steps generate,
      in source order. */
  lemma ProtoCompilesGenerated(n: JRule, targets: seq<string>, javac: string)
    requires Rel(n.pkg)
    requires forall i :: 0 <= i < |n.srcs| ==> Rel(n.srcs[i]) && Word(n.pkg + "/" + GenJavaFile(n.srcs[i]))
    ensures var c := ProtoJar(n, targets, javac);
      var gs := GenActions(n.pkg, n.srcs);
      && c.step == Compile
      && |Announced(c)| == |gs|
      && forall i :: 0 <= i < |gs| ==> gs[i].step == GenJava && Announced(c)[i] == gs[i].target
  {
    var gens := Map(n.srcs, GenJavaFile);
    var ps := SrcPaths(n.pkg, gens);
    var gs := GenActions(n.pkg, n.srcs);
    assert forall i :: 0 <= i < |gs| ==> ps[i] == gs[i].target by {
      GenPathsJoin(n.pkg, n.srcs);
    }
    assert Announced(ProtoJar(n, targets, javac)) == ps by {
      assert forall i :: 0 <= i < |gens| ==> Word(ps[i]);
      CompileRecipe(n, gens, targets, javac);
    }
    var a := Announced(ProtoJar(n, targets, javac));
    forall i | 0 <= i < |gs| ensures gs[i].step == GenJava && a[i] == gs[i].target {
      assert a[i] == ps[i];
    }
  }

  /** Under a relative package each generated path is the plain "/"
      concatenation the protoc rule writes. */
  lemma GenPathsJoin(pkg: string, srcs: seq<string>)
    requires Rel(pkg) && forall i :: 0 <= i < |srcs| ==> Rel(srcs[i])
    ensures forall i :: 0 <= i < |srcs| ==> SrcPaths(pkg, Map(srcs, GenJavaFile))[i] == GenPath(pkg, srcs[i])
  {
    var gens := Map(srcs, GenJavaFile);
    var ps := SrcPaths(pkg, gens);
    forall i | 0 <= i < |srcs| ensures ps[i] == GenPath(pkg, srcs[i]) {
      assert ps[i] == PathJoin(pkg, gens[i]);
      GenPathJoin(pkg, srcs[i]);
    }
  }

  lemma GenPathJoin(pkg: string, src: string)
    requires Rel(pkg) && Rel(src)
    ensures PathJoin(pkg, GenJavaFile(src)) == GenPath(pkg, src)
  {
    var f := GenJavaFile(src);
    assert f[0] != '/' by {
      if |src| >= 6 {
        assert f[..|f| - 5] + src[|src| - 6..] == src;
        if |f| > 5 {
          assert f[0] == src[0];
        }
      }
    }
    assert !StartsWith(f, "/");
    assert !EndsWith(pkg, "/");
  }
}
