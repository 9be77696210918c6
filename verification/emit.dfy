/** Recipe emission (the `emitMake` methods of blade3/cc.py, blade3/genrule.py,
    blade3/data.py and blade3/shell.py). A recipe is a sequence of actions,
    each with its targets, its prerequisites (a set: make ignores their order,
    and the source builds several of them from Python sets) and, for archive
    and link steps, the ordered inputs of its command. The Makefile text
    itself is not modelled.

    Two global sets make emission walk the graph once: `emitted_target_names`,
    keyed by the rule's target for the first setting, and
    `emitted_pub_packages`, which lets the publish-tree symlink of a package be
    written once. Both live in `EmitState`, together with a log of the keys in
    the order they were first emitted. */
module Emit {
  import opened Base
  import opened Text
  import opened Kinds
  import opened Dedup
  import opened Paths
  import opened Graph
  import opened Exports
  import Declare

  datatype Step =
    | Compile       // a C or C++ source to an object
    | MetaCompile   // the layout-check source of a Python extension
    | Archive       // objects to a static library
    | Link          // objects and archives to a binary
    | Protoc        // a ".proto" file to its generated source and header
    | ProtoCompile  // a generated source to an object
    | Layout        // the struct-check layout merge of a proto library
    | PackageLink   // the publish-tree symlink of a whole package
    | PubLink       // a target symlinked to its publish-tree copy
    | Placeholder   // a target with no prerequisites and no command
    | Command       // a `gen_rule` running its commands

  datatype Action = Action(step: Step, targets: seq<string>, prereqs: set<string>, inputs: seq<string>)

  datatype EmitState = EmitState(emitted: set<string>, log: seq<string>, pubPkgs: set<string>, out: seq<Action>)

  const Start := EmitState({}, [], {}, [])

  // ---- building blocks ----

  /** One action per setting, in order. */
  function ForEach(ss: seq<string>, f: string -> Action): (r: seq<Action>)
    ensures |r| == |ss|
    ensures forall i :: 0 <= i < |ss| ==> r[i] == f(ss[i])
  {
    seq(|ss|, i requires 0 <= i < |ss| => f(ss[i]))
  }

  /** The nested loop "for x in xs: for y in ys". */
  function ForEachPair(xs: seq<string>, ys: seq<string>, f: (string, string) -> Action): (r: seq<Action>)
    ensures |r| == |xs| * |ys|
  {
    if |xs| == 0 then [] else ForEach(ys, y => f(xs[0], y)) + ForEachPair(xs[1..], ys, f)
  }

  lemma {:induction false} PairMember(xs: seq<string>, ys: seq<string>, f: (string, string) -> Action, x: string, y: string)
    requires x in xs && y in ys
    ensures f(x, y) in ForEachPair(xs, ys, f)
  {
    var j :| 0 <= j < |ys| && ys[j] == y;
    if xs[0] == x {
      assert ForEach(ys, y => f(xs[0], y))[j] == f(x, y);
    } else {
      PairMember(xs[1..], ys, f, x, y);
    }
  }

  lemma {:induction false} PairSource(xs: seq<string>, ys: seq<string>, f: (string, string) -> Action, a: Action)
    requires a in ForEachPair(xs, ys, f)
    ensures exists x, y :: x in xs && y in ys && a == f(x, y)
  {
    var head := ForEach(ys, y => f(xs[0], y));
    if a in head {
      var j :| 0 <= j < |ys| && head[j] == a;
      assert xs[0] in xs && ys[j] in ys && a == f(xs[0], ys[j]);
    } else {
      PairSource(xs[1..], ys, f, a);
      var x, y :| x in xs[1..] && y in ys && a == f(x, y);
      assert x in xs;
    }
  }

  predicate NoPkgLink(acts: seq<Action>) {
    forall i :: 0 <= i < |acts| ==> acts[i].step != PackageLink
  }

  /** The memoisation key: the rule's target for the first setting. */
  function MemoKey(n: Node): string {
    MakeTargetName(n.kind, Settings[0], n.pkg, n.name)
  }

  /** The classes whose `emitMake` is memoised: the library, binary and pyext
      families. Data rules re-emit on every visit; shell rules emit nothing. */
  predicate Memoised(k: Kind) {
    !Terminal(k)
  }

  /** `depPackageNames`: the packages of the direct dependencies. */
  function DepPackageNames(g: seq<Node>, rank: seq<nat>, id: nat): (r: set<string>)
    requires Ranked(g, rank) && id < |g|
    ensures forall i :: 0 <= i < |g[id].deps| ==> g[g[id].deps[i]].pkg in r
  {
    set i | 0 <= i < |g[id].deps| :: g[g[id].deps[i]].pkg
  }

  /** The words of `protoTarget`: the last generated source of each proto
      dependency that has sources (see `Paths.MakeProtoTarget`). */
  function ProtoPrereqs(g: seq<Node>, rank: seq<nat>, id: nat): set<string>
    requires Ranked(g, rank) && id < |g|
  {
    set i | 0 <= i < |g[id].deps| && g[g[id].deps[i]].kind == ProtoLibrary && |g[g[id].deps[i]].srcs| > 0
      :: GenSrcPath(g[g[id].deps[i]].pkg, Last(g[g[id].deps[i]].srcs))
  }

  function Last(s: seq<string>): string
    requires |s| > 0
  {
    s[|s| - 1]
  }

  function AsSet(s: seq<string>): (r: set<string>)
    ensures forall x :: x in r <==> x in s
  {
    set x | x in s
  }

  // ---- the per-class recipes ----

  function CompileOf(g: seq<Node>, rank: seq<nat>, id: nat, src: string, s: string): Action
    requires Ranked(g, rank) && id < |g|
  {
    var n := g[id];
    Action(Compile, [ObjectPath(ObjectOf(src), s, n.pkg)], ProtoPrereqs(g, rank, id) + {SrcPath(n.pkg, src)}, [])
  }

  /** `emitSrcMake`: one compile action per source and setting, and nothing else. */
  function Compiles(g: seq<Node>, rank: seq<nat>, id: nat): (r: seq<Action>)
    requires Ranked(g, rank) && id < |g|
    ensures forall src, s :: src in g[id].srcs && s in Settings ==> CompileOf(g, rank, id, src, s) in r
    ensures forall a :: a in r ==> a.step == Compile
    ensures NoPkgLink(r)
  {
    var f := (src, s) => CompileOf(g, rank, id, src, s);
    var r := ForEachPair(g[id].srcs, Settings, f);
    assert forall src, s :: src in g[id].srcs && s in Settings ==> CompileOf(g, rank, id, src, s) in r by {
      forall src, s | src in g[id].srcs && s in Settings ensures CompileOf(g, rank, id, src, s) in r {
        PairMember(g[id].srcs, Settings, f, src, s);
      }
    }
    assert forall a :: a in r ==> a.step == Compile by {
      forall a | a in r ensures a.step == Compile {
        PairSource(g[id].srcs, Settings, f, a);
      }
    }
    r
  }

  /** What an archive or link step waits for besides its inputs. */
  function BasePrereqs(g: seq<Node>, rank: seq<nat>, id: nat): set<string>
    requires Ranked(g, rank) && id < |g|
  {
    DepPackageNames(g, rank, id) + PBHeaders(g, rank, id)
  }

  function LibArchive(g: seq<Node>, rank: seq<nat>, id: nat, s: string): Action
    requires Ranked(g, rank) && id < |g|
  {
    var n := g[id];
    var objs := ObjectPathList(n.srcs, s, n.pkg);
    Action(Archive, [MakeTargetName(n.kind, s, n.pkg, n.name)], BasePrereqs(g, rank, id) + AsSet(objs), objs)
  }

  /** `CCLibrary.emitSelfMake`: compile, then archive per setting. */
  function LibSelf(g: seq<Node>, rank: seq<nat>, id: nat): (r: seq<Action>)
    requires Ranked(g, rank) && id < |g|
    ensures NoPkgLink(r)
  {
    Compiles(g, rank, id) + ForEach(Settings, s => LibArchive(g, rank, id, s))
  }

  /** The package symlink of `emitPubMake`, only for a package not linked yet. */
  function PkgLink(pkg: string, pub: set<string>): seq<Action> {
    if pkg in pub then [] else [Action(PackageLink, [pkg], {"pub/src/" + pkg}, [])]
  }

  function PubTarget(n: Node, s: string): Action {
    Action(PubLink, [MakeTargetName(n.kind, s, n.pkg, n.name)], {n.pkg, PubLibraryPath(s, n.pkg, n.name)}, [])
  }

  /** `CCLibrary.emitPubMake` without its package symlink: a symlink target per setting. */
  function PubTargets(n: Node, ss: seq<string>): (r: seq<Action>)
    ensures |r| == |ss| && NoPkgLink(r)
    ensures forall i :: 0 <= i < |ss| ==> r[i].targets == [MakeTargetName(n.kind, ss[i], n.pkg, n.name)]
  {
    ForEach(ss, s => PubTarget(n, s))
  }

  /** The protoc step of a proto library, one per ".proto" source. */
  function Protocs(g: seq<Node>, rank: seq<nat>, id: nat): (r: seq<Action>)
    requires Ranked(g, rank) && id < |g|
    ensures |r| == |g[id].srcs|
    ensures forall a :: a in r ==> a.step == Protoc
    ensures NoPkgLink(r)
  {
    var n := g[id];
    var pre := ProtoPrereqs(g, rank, id);
    ForEach(n.srcs, src => Action(Protoc, [GenSrcPath(n.pkg, src), GenHeaderPath(n.pkg, src)], pre + {SrcPath(n.pkg, src)}, []))
  }

  function ProtoCompileOf(g: seq<Node>, rank: seq<nat>, id: nat, s: string, src: string): Action
    requires Ranked(g, rank) && id < |g|
  {
    var n := g[id];
    Action(ProtoCompile, [ObjectPath(ProtoObjectOf(src), s, n.pkg)],
      {GenSrcPath(n.pkg, src)} + PBHeaders(g, rank, id) + AsSet(DepLibPaths(g, rank, id, s)), [])
  }

  /** Compile every generated source for every setting, struct-check ones included. */
  function ProtoCompiles(g: seq<Node>, rank: seq<nat>, id: nat): (r: seq<Action>)
    requires Ranked(g, rank) && id < |g|
    ensures forall s, src :: s in AllSettings && src in g[id].srcs ==> ProtoCompileOf(g, rank, id, s, src) in r
    ensures forall a :: a in r ==> a.step == ProtoCompile
    ensures NoPkgLink(r)
  {
    var f := (s, src) => ProtoCompileOf(g, rank, id, s, src);
    var r := ForEachPair(AllSettings, g[id].srcs, f);
    assert forall s, src :: s in AllSettings && src in g[id].srcs ==> ProtoCompileOf(g, rank, id, s, src) in r by {
      forall s, src | s in AllSettings && src in g[id].srcs ensures ProtoCompileOf(g, rank, id, s, src) in r {
        PairMember(AllSettings, g[id].srcs, f, s, src);
      }
    }
    assert forall a :: a in r ==> a.step == ProtoCompile by {
      forall a | a in r ensures a.step == ProtoCompile {
        PairSource(AllSettings, g[id].srcs, f, a);
      }
    }
    r
  }

  function ProtoArchive(n: Node, s: string, step: Step): Action {
    var objs := ProtoObjectPathList(n.srcs, s, n.pkg);
    Action(step, [MakeTargetName(n.kind, s, n.pkg, n.name)], AsSet(objs), objs)
  }

  /** The proto library's own `emitSelfMake`: protoc per source, compile for
      every setting including the two struct-check ones, archive for the
      regular settings, layout merge for the struct-check ones. */
  function ProtoSelf(g: seq<Node>, rank: seq<nat>, id: nat): (r: seq<Action>)
    requires Ranked(g, rank) && id < |g|
    ensures NoPkgLink(r)
  {
    var a, b, c := Protocs(g, rank, id), ProtoCompiles(g, rank, id), ProtoArchives(g[id]);
    NoLinkConcat(a, b);
    NoLinkConcat(a + b, c);
    a + b + c
  }

  /** An archive per regular setting, then a layout merge per struct-check setting. */
  function ProtoArchives(n: Node): (r: seq<Action>)
    ensures |r| == |Settings| + |StructSettings|
    ensures forall i :: 0 <= i < |Settings| ==> r[i] == ProtoArchive(n, Settings[i], Archive)
    ensures forall i :: 0 <= i < |StructSettings| ==> r[|Settings| + i] == ProtoArchive(n, StructSettings[i], Layout)
    ensures NoPkgLink(r)
  {
    ForEach(Settings, s => ProtoArchive(n, s, Archive)) + ForEach(StructSettings, s => ProtoArchive(n, s, Layout))
  }

  lemma NoLinkConcat(a: seq<Action>, b: seq<Action>)
    requires NoPkgLink(a) && NoPkgLink(b)
    ensures NoPkgLink(a + b)
  {
    forall i | |a| <= i < |a + b| ensures (a + b)[i].step != PackageLink {
      assert (a + b)[i] == b[i - |a|];
    }
  }

  function BinLink(g: seq<Node>, rank: seq<nat>, id: nat, s: string): Action
    requires Ranked(g, rank) && id < |g|
  {
    var n := g[id];
    var objs := ObjectPathList(n.srcs, s, n.pkg);
    var libs := Export(g, rank, id, LibPaths(s));
    Action(Link, [MakeTargetName(n.kind, s, n.pkg, n.name)], BasePrereqs(g, rank, id) + AsSet(objs) + AsSet(libs), objs + libs)
  }

  /** `CCBinary.emitMake` before recursing: compile, then link per setting. */
  function BinSelf(g: seq<Node>, rank: seq<nat>, id: nat): (r: seq<Action>)
    requires Ranked(g, rank) && id < |g|
    ensures NoPkgLink(r)
  {
    Compiles(g, rank, id) + ForEach(Settings, s => BinLink(g, rank, id, s))
  }

  /** `CCPyExt.emitMake` before recursing: compile, plus the layout-check
      source per setting; the link step is commented out in the source. */
  function PyExtSelf(g: seq<Node>, rank: seq<nat>, id: nat): (r: seq<Action>)
    requires Ranked(g, rank) && id < |g|
    ensures NoPkgLink(r)
  {
    var n := g[id];
    Compiles(g, rank, id)
      + ForEach(Settings, s => Action(MetaCompile, [MetaObject(s, n.pkg, n.name)], {MetaSource(n.pkg, n.name)}, []))
  }

  /** `CCData.emitMake`: an empty target per setting, struct-check ones included. */
  function Placeholders(n: Node): (r: seq<Action>)
    ensures |r| == |AllSettings| && NoPkgLink(r)
    ensures forall i :: 0 <= i < |r| ==> r[i].prereqs == {} && r[i].inputs == []
  {
    ForEach(AllSettings, s => Action(Placeholder, [MakeTargetName(n.kind, s, n.pkg, n.name)], {}, []))
  }

  /** What a memoised rule emits for itself on its first visit, split around
      the package symlink: before it, the symlink (possibly nothing), after it. */
  function OwnParts(g: seq<Node>, rank: seq<nat>, id: nat, pub: set<string>): (r: (seq<Action>, seq<Action>, seq<Action>))
    requires Ranked(g, rank) && id < |g|
    ensures NoPkgLink(r.0) && NoPkgLink(r.2)
    ensures r.1 == if LibraryLike(g[id].kind) && g[id].pubOnly then PkgLink(g[id].pkg, pub) else []
  {
    var n := g[id];
    if n.kind == ProtoLibrary then
      if n.pubOnly then (Protocs(g, rank, id), PkgLink(n.pkg, pub), PubTargets(n, AllSettings))
      else (ProtoSelf(g, rank, id), [], [])
    else if LibraryLike(n.kind) then
      if n.pubOnly then ([], PkgLink(n.pkg, pub), PubTargets(n, Settings))
      else (LibSelf(g, rank, id), [], [])
    else if n.kind == CcPyExt then (PyExtSelf(g, rank, id), [], [])
    else (BinSelf(g, rank, id), [], [])
  }

  function OwnActions(g: seq<Node>, rank: seq<nat>, id: nat, pub: set<string>): seq<Action>
    requires Ranked(g, rank) && id < |g|
  {
    var p := OwnParts(g, rank, id, pub);
    p.0 + p.1 + p.2
  }

  /** The publish-tree packages after a rule's first visit. */
  function NewPub(n: Node, pub: set<string>): set<string> {
    if LibraryLike(n.kind) && n.pubOnly then pub + {n.pkg} else pub
  }

  // ---- the invariant ----

  /** Each package symlink is written at most once, and only for a package
      recorded in `emitted_pub_packages`. */
  predicate LinkedOnce(out: seq<Action>, pub: set<string>) {
    && (forall i :: 0 <= i < |out| && out[i].step == PackageLink ==> |out[i].targets| == 1 && out[i].targets[0] in pub)
    && (forall i, j :: 0 <= i < j < |out| && out[i].step == PackageLink && out[j].step == PackageLink ==>
          out[i].targets != out[j].targets)
  }

  /** The log holds each emitted key exactly once. */
  ghost predicate Wf(st: EmitState) {
    && NoDup(st.log)
    && (forall k :: k in st.log <==> k in st.emitted)
    && LinkedOnce(st.out, st.pubPkgs)
  }

  predicate Grows(a: EmitState, b: EmitState) {
    a.emitted <= b.emitted && a.pubPkgs <= b.pubPkgs && a.log <= b.log && a.out <= b.out
  }

  /** Appending actions without a package symlink keeps the invariant. */
  lemma LinkedOnceNoLink(out: seq<Action>, pub: set<string>, c: seq<Action>)
    requires LinkedOnce(out, pub) && NoPkgLink(c)
    ensures LinkedOnce(out + c, pub)
  {
    var o := out + c;
    forall i | |out| <= i < |o| ensures o[i].step != PackageLink {
      assert o[i] == c[i - |out|];
    }
  }

  /** Appending the package symlink, which is written only for a package
      not recorded yet, keeps the invariant once the package is recorded. */
  lemma LinkedOnceAddLink(out: seq<Action>, pub: set<string>, pkg: string)
    requires LinkedOnce(out, pub)
    ensures LinkedOnce(out + PkgLink(pkg, pub), pub + {pkg})
  {
    if pkg in pub {
      assert out + PkgLink(pkg, pub) == out;
      assert pub + {pkg} == pub;
    } else {
      var o := out + PkgLink(pkg, pub);
      forall i | 0 <= i < |out| && o[i].step == PackageLink ensures o[i].targets != [pkg] {
        assert o[i] == out[i];
      }
    }
  }

  /** A rule's own actions keep the invariant: the symlink, if any, sits
      between two stretches without one. */
  lemma LinkedOnceAppend(out: seq<Action>, pub: set<string>, a: seq<Action>, pkg: string, b: seq<Action>)
    requires LinkedOnce(out, pub) && NoPkgLink(a) && NoPkgLink(b)
    ensures LinkedOnce(out + a + PkgLink(pkg, pub) + b, pub + {pkg})
  {
    LinkedOnceNoLink(out, pub, a);
    LinkedOnceAddLink(out + a, pub, pkg);
    LinkedOnceNoLink(out + a + PkgLink(pkg, pub), pub + {pkg}, b);
  }

  lemma LinkedOnceAppendPlain(out: seq<Action>, pub: set<string>, a: seq<Action>, b: seq<Action>)
    requires LinkedOnce(out, pub) && NoPkgLink(a) && NoPkgLink(b)
    ensures LinkedOnce(out + a + [] + b, pub)
  {
    LinkedOnceNoLink(out, pub, a);
    assert out + a + [] == out + a;
    LinkedOnceNoLink(out + a, pub, b);
  }

  /** Recording a fresh key keeps the log repetition-free and in step with the set. */
  lemma LogAppend(log: seq<string>, emitted: set<string>, k: string)
    requires NoDup(log) && (forall x :: x in log <==> x in emitted) && k !in emitted
    ensures NoDup(log + [k]) && (forall x :: x in log + [k] <==> x in emitted + {k})
  {
    var l := log + [k];
    forall i, j | 0 <= i < j < |l| ensures l[i] != l[j] {
      if j == |log| {
        assert l[i] == log[i];
        assert log[i] in log;
      } else {
        assert l[i] == log[i] && l[j] == log[j];
      }
    }
  }

  /** The first visit of a memoised rule keeps the invariant. */
  lemma FirstVisitWf(g: seq<Node>, rank: seq<nat>, id: nat, st: EmitState)
    requires Ranked(g, rank) && id < |g| && MemoKey(g[id]) !in st.emitted
    ensures Wf(st) ==> Wf(FirstVisit(g, rank, id, st))
  {
    if !Wf(st) { return; }
    var n := g[id];
    var p := OwnParts(g, rank, id, st.pubPkgs);
    var r := FirstVisit(g, rank, id, st);
    if LibraryLike(n.kind) && n.pubOnly {
      LinkedOnceAppend(st.out, st.pubPkgs, p.0, n.pkg, p.2);
    } else {
      LinkedOnceAppendPlain(st.out, st.pubPkgs, p.0, p.2);
    }
    assert LinkedOnce(r.out, r.pubPkgs);
    LogAppend(st.log, st.emitted, MemoKey(n));
  }

  /** The state after a memoised rule's own actions, before its dependencies. */
  function FirstVisit(g: seq<Node>, rank: seq<nat>, id: nat, st: EmitState): (r: EmitState)
    requires Ranked(g, rank) && id < |g|
    ensures Grows(st, r)
  {
    var n := g[id];
    var p := OwnParts(g, rank, id, st.pubPkgs);
    EmitState(st.emitted + {MemoKey(n)}, st.log + [MemoKey(n)], NewPub(n, st.pubPkgs), st.out + p.0 + p.1 + p.2)
  }

  // ---- the walk ----

  /** `emitMake` of rule `id`. Library classes check their sources first,
      on every visit; a memoised rule whose key was emitted before stops
      there; otherwise it emits its own actions and then visits each
      dependency in order. Data rules always append their placeholders and
      never recurse; shell rules do nothing. */
  function Emit(g: seq<Node>, rank: seq<nat>, id: nat, st: EmitState): (r: Result<EmitState>)
    requires Ranked(g, rank) && id < |g|
    ensures r.Ok? ==> Grows(st, r.value)
    ensures r.Ok? && Wf(st) ==> Wf(r.value)
    ensures r.Ok? && Memoised(g[id].kind) ==> MemoKey(g[id]) in r.value.emitted
    ensures r.Err? ==> LibraryLike(g[id].kind) || |g[id].deps| > 0
    decreases rank[id], 1
  {
    var n := g[id];
    if n.kind == ShellScript || n.kind == SsTest then Ok(st)
    else if n.kind == CcData then
      var r := st.(out := st.out + Placeholders(n));
      assert Wf(st) ==> Wf(r) by {
        if Wf(st) {
          LinkedOnceNoLink(st.out, st.pubPkgs, Placeholders(n));
        }
      }
      Ok(r)
    else
      var chk := if LibraryLike(n.kind) then Declare.CheckSrcs(n.srcs, FlagsOf(n.kind)) else Ok(());
      if chk.Err? then Err(chk.error)
      else if MemoKey(n) in st.emitted then Ok(st)
      else
        FirstVisitWf(g, rank, id, st);
        EmitDeps(g, rank, id, 0, FirstVisit(g, rank, id, st))
  }

  /** The loop over `depRulesList` from position `k` on. */
  function EmitDeps(g: seq<Node>, rank: seq<nat>, id: nat, k: nat, st: EmitState): (r: Result<EmitState>)
    requires Ranked(g, rank) && id < |g| && k <= |g[id].deps|
    ensures r.Ok? ==> Grows(st, r.value)
    ensures r.Ok? && Wf(st) ==> Wf(r.value)
    ensures r.Err? ==> k < |g[id].deps|
    decreases rank[id], 0, |g[id].deps| - k
  {
    if k == |g[id].deps| then Ok(st)
    else
      var st1 :- Emit(g, rank, g[id].deps[k], st);
      EmitDeps(g, rank, id, k + 1, st1)
  }

  /** The loop leaves every memoised dependency from position `k` on emitted. */
  lemma {:induction false} EmitDepsCovers(g: seq<Node>, rank: seq<nat>, id: nat, k: nat, st: EmitState, i: nat)
    requires Ranked(g, rank) && id < |g| && k <= i < |g[id].deps| && Memoised(g[g[id].deps[i]].kind)
    requires EmitDeps(g, rank, id, k, st).Ok?
    ensures MemoKey(g[g[id].deps[i]]) in EmitDeps(g, rank, id, k, st).value.emitted
    decreases |g[id].deps| - k
  {
    var st1 := Emit(g, rank, g[id].deps[k], st).value;
    assert EmitDeps(g, rank, id, k, st) == EmitDeps(g, rank, id, k + 1, st1);
    if i > k {
      EmitDepsCovers(g, rank, id, k + 1, st1, i);
    }
  }

  // ---- what the walk promises ----

  /** A memoised rule whose key was emitted before adds nothing and does not
      recurse; a library still checks its sources first. */
  lemma Revisit(g: seq<Node>, rank: seq<nat>, id: nat, st: EmitState)
    requires Ranked(g, rank) && id < |g| && Memoised(g[id].kind) && MemoKey(g[id]) in st.emitted
    ensures !LibraryLike(g[id].kind) ==> Emit(g, rank, id, st) == Ok(st)
    ensures LibraryLike(g[id].kind) ==>
      Emit(g, rank, id, st) == if Declare.CheckSrcs(g[id].srcs, FlagsOf(g[id].kind)).Ok? then Ok(st)
                               else Err(Declare.CheckSrcs(g[id].srcs, FlagsOf(g[id].kind)).error)
  {
  }

  /** On the first visit a memoised rule records its key, writes its own
      actions, and every memoised dependency ends up emitted too. */
  lemma FirstVisitEmits(g: seq<Node>, rank: seq<nat>, id: nat, st: EmitState)
    requires Ranked(g, rank) && id < |g| && Memoised(g[id].kind) && MemoKey(g[id]) !in st.emitted
    requires Emit(g, rank, id, st).Ok?
    ensures var r := Emit(g, rank, id, st).value;
      && st.log + [MemoKey(g[id])] <= r.log
      && st.out + OwnActions(g, rank, id, st.pubPkgs) <= r.out
      && forall i :: 0 <= i < |g[id].deps| && Memoised(g[g[id].deps[i]].kind) ==> MemoKey(g[g[id].deps[i]]) in r.emitted
  {
    var p := OwnParts(g, rank, id, st.pubPkgs);
    var fv := FirstVisit(g, rank, id, st);
    Assoc(st.out, p.0, p.1, p.2);
    assert Emit(g, rank, id, st) == EmitDeps(g, rank, id, 0, fv);
    forall i | 0 <= i < |g[id].deps| && Memoised(g[g[id].deps[i]].kind)
      ensures MemoKey(g[g[id].deps[i]]) in EmitDeps(g, rank, id, 0, fv).value.emitted
    {
      EmitDepsCovers(g, rank, id, 0, fv, i);
    }
  }

  lemma Assoc(a: seq<Action>, b: seq<Action>, c: seq<Action>, d: seq<Action>)
    ensures a + (b + c + d) == a + b + c + d
  {
  }

  /** Visiting a memoised rule a second time changes nothing. */
  lemma EmitIdempotent(g: seq<Node>, rank: seq<nat>, id: nat, st: EmitState)
    requires Ranked(g, rank) && id < |g| && Memoised(g[id].kind) && Emit(g, rank, id, st).Ok?
    ensures Emit(g, rank, id, Emit(g, rank, id, st).value) == Emit(g, rank, id, st)
  {
    var r := Emit(g, rank, id, st).value;
    Revisit(g, rank, id, r);
    if LibraryLike(g[id].kind) {
      assert Declare.CheckSrcs(g[id].srcs, FlagsOf(g[id].kind)).Ok?;
    }
  }

  /** Data rules are not memoised: a second visit writes the placeholders again. */
  lemma DataReemits(g: seq<Node>, rank: seq<nat>, id: nat, st: EmitState)
    requires Ranked(g, rank) && id < |g| && g[id].kind == CcData
    ensures Emit(g, rank, id, st).Ok?
    ensures Emit(g, rank, id, Emit(g, rank, id, st).value)
         == Ok(st.(out := st.out + Placeholders(g[id]) + Placeholders(g[id])))
  {
  }

  /** Starting from empty sets, no key is emitted twice and no package is
      symlinked twice. */
  lemma EmitOnce(g: seq<Node>, rank: seq<nat>, id: nat)
    requires Ranked(g, rank) && id < |g| && Emit(g, rank, id, Start).Ok?
    ensures NoDup(Emit(g, rank, id, Start).value.log)
    ensures LinkedOnce(Emit(g, rank, id, Start).value.out, Emit(g, rank, id, Start).value.pubPkgs)
  {
    assert Wf(Start);
  }

  /** Library names are lower-cased in the archive name, so two libraries of
      one package whose names differ only in case share a key: once one is
      emitted, the other emits nothing. */
  lemma CaseCollision(g: seq<Node>, rank: seq<nat>, a: nat, b: nat, st: EmitState)
    requires Ranked(g, rank) && a < |g| && b < |g|
    requires g[a].kind == CcLibrary && g[b].kind == CcLibrary && g[a].pkg == g[b].pkg
    requires Lower(g[a].name) == Lower(g[b].name)
    requires Emit(g, rank, a, st).Ok?
    ensures Emit(g, rank, b, Emit(g, rank, a, st).value).Ok? ==> Emit(g, rank, b, Emit(g, rank, a, st).value) == Emit(g, rank, a, st)
  {
    assert MemoKey(g[a]) == MemoKey(g[b]);
  }

  // ---- what the recipes contain ----

  /** A library archives, per regular setting, exactly the objects its compile
      actions produce, and waits for the generated headers of every proto
      library it reaches. */
  lemma LibraryRecipe(g: seq<Node>, rank: seq<nat>, id: nat, s: string)
    requires Ranked(g, rank) && id < |g| && s in Settings
    ensures LibArchive(g, rank, id, s) in LibSelf(g, rank, id)
    ensures LibArchive(g, rank, id, s).targets == [MakeTargetName(g[id].kind, s, g[id].pkg, g[id].name)]
    ensures forall o :: o in LibArchive(g, rank, id, s).inputs ==>
      exists a :: a in LibSelf(g, rank, id) && a.step == Compile && a.targets == [o]
    ensures forall p :: p in Reach(g, rank, id) ==> OwnHeaders(g[p]) <= LibArchive(g, rank, id, s).prereqs
  {
    var n := g[id];
    var arch := ForEach(Settings, s => LibArchive(g, rank, id, s));
    var j :| 0 <= j < |Settings| && Settings[j] == s;
    assert arch[j] == LibArchive(g, rank, id, s);
    assert LibSelf(g, rank, id) == Compiles(g, rank, id) + arch;
    var objs := ObjectPathList(n.srcs, s, n.pkg);
    forall o | o in objs ensures exists a :: a in LibSelf(g, rank, id) && a.step == Compile && a.targets == [o] {
      var i :| 0 <= i < |objs| && objs[i] == o;
      var a := CompileOf(g, rank, id, n.srcs[i], s);
      assert n.srcs[i] in n.srcs;
      assert a in Compiles(g, rank, id);
      assert a in LibSelf(g, rank, id) && a.step == Compile && a.targets == [o];
    }
    forall p | p in Reach(g, rank, id) ensures OwnHeaders(g[p]) <= LibArchive(g, rank, id, s).prereqs {
      PBHeadersCover(g, rank, id, p);
    }
  }

  /** A binary links, per regular setting, its objects followed by the
      archives its dependencies export, deduplicated by last occurrence; its
      own name never appears among them. */
  lemma BinaryRecipe(g: seq<Node>, rank: seq<nat>, id: nat, s: string)
    requires Ranked(g, rank) && id < |g| && BinaryLike(g[id].kind) && s in Settings
    ensures BinLink(g, rank, id, s) in BinSelf(g, rank, id)
    ensures BinLink(g, rank, id, s).inputs == ObjectPathList(g[id].srcs, s, g[id].pkg) + DepLibPaths(g, rank, id, s)
    ensures forall i, x :: 0 <= i < |g[id].deps| && x in Export(g, rank, g[id].deps[i], LibPaths(s)) ==>
      x in BinLink(g, rank, id, s).inputs
  {
    var links := ForEach(Settings, s => BinLink(g, rank, id, s));
    var j :| 0 <= j < |Settings| && Settings[j] == s;
    assert links[j] == BinLink(g, rank, id, s);
    assert BinSelf(g, rank, id) == Compiles(g, rank, id) + links;
    BinaryExportsDeps(g, rank, id, s);
    forall i, x | 0 <= i < |g[id].deps| && x in Export(g, rank, g[id].deps[i], LibPaths(s))
      ensures x in BinLink(g, rank, id, s).inputs
    {
      ExportMembers(g, rank, id, LibPaths(s), x);
    }
  }

  /** A proto library compiles for all four settings but archives only for
      the two regular ones; the struct-check ones get a layout merge. */
  lemma ProtoRecipe(g: seq<Node>, rank: seq<nat>, id: nat)
    requires Ranked(g, rank) && id < |g| && g[id].kind == ProtoLibrary
    ensures forall s, src :: s in AllSettings && src in g[id].srcs ==> ProtoCompileOf(g, rank, id, s, src) in ProtoSelf(g, rank, id)
    ensures forall a :: a in ProtoSelf(g, rank, id) && a.step == Archive ==>
      exists s :: s in Settings && a.targets == [LibraryPath(s, g[id].pkg, g[id].name)]
    ensures forall a :: a in ProtoSelf(g, rank, id) && a.step == Layout ==>
      exists s :: s in StructSettings && a.targets == [LibraryPath(s, g[id].pkg, g[id].name)]
  {
    var n := g[id];
    var a, b, c := Protocs(g, rank, id), ProtoCompiles(g, rank, id), ProtoArchives(n);
    assert ProtoSelf(g, rank, id) == a + b + c;
    ProtoArchivesShape(n);
    forall x: Action | x in a + b + c && (x.step == Archive || x.step == Layout) ensures x in c {
      assert x !in a && x !in b;
    }
  }

  /** The archive and layout steps of a proto library, by setting family. */
  lemma ProtoArchivesShape(n: Node)
    requires n.kind == ProtoLibrary
    ensures forall x :: x in ProtoArchives(n) && x.step == Archive ==>
      exists s :: s in Settings && x.targets == [LibraryPath(s, n.pkg, n.name)]
    ensures forall x :: x in ProtoArchives(n) && x.step == Layout ==>
      exists s :: s in StructSettings && x.targets == [LibraryPath(s, n.pkg, n.name)]
  {
    var c := ProtoArchives(n);
    forall x | x in c
      ensures x.step == Archive ==> exists s :: s in Settings && x.targets == [LibraryPath(s, n.pkg, n.name)]
      ensures x.step == Layout ==> exists s :: s in StructSettings && x.targets == [LibraryPath(s, n.pkg, n.name)]
    {
      var i := IndexOf(c, x);
      if i < |Settings| {
        var s := Settings[i];
        assert x == ProtoArchive(n, s, Archive);
        assert s in Settings;
      } else {
        var s := StructSettings[i - |Settings|];
        assert x == ProtoArchive(n, s, Layout);
        assert s in StructSettings;
      }
    }
  }

  lemma IndexOf(c: seq<Action>, x: Action) returns (i: nat)
    requires x in c
    ensures i < |c| && c[i] == x
  {
    i :| 0 <= i < |c| && c[i] == x;
  }

  // ---- gen_rule (blade3/genrule.py) ----

  /** A `gen_rule` object: its commands and its `emited` flag. */
  datatype GenRule = GenRule(pkg: string, name: string, cmds: seq<string>, emited: bool)

  /** `GenRule.emitMake`: one action "<pkg>.<name>" depending on the
      package's BUILD file, unless the flag is already set. */
  function GenRuleEmit(r: GenRule): (res: (GenRule, seq<Action>))
    ensures res.0.emited && res.0.(emited := r.emited) == r
    ensures r.emited <==> res.1 == []
    ensures !r.emited ==> res.1 == [Action(Command, [r.pkg + "." + r.name], {r.pkg + "/BUILD"}, r.cmds)]
  {
    if r.emited then (r, [])
    else (r.(emited := true), [Action(Command, [r.pkg + "." + r.name], {r.pkg + "/BUILD"}, r.cmds)])
  }

  /** Emitting a `gen_rule` twice writes its action once. */
  lemma GenRuleOnce(r: GenRule)
    ensures var first := GenRuleEmit(r); GenRuleEmit(first.0) == (first.0, [])
  {
  }

  // ---- the package-level loop (blade3/package.py) ----

  /** `rule.emitMake(f)` for each rule to build, in order, sharing the sets. */
  function EmitAll(g: seq<Node>, rank: seq<nat>, ids: seq<nat>, st: EmitState): (r: Result<EmitState>)
    requires Ranked(g, rank) && forall k :: 0 <= k < |ids| ==> ids[k] < |g|
    ensures r.Ok? ==> Grows(st, r.value)
    ensures r.Ok? && Wf(st) ==> Wf(r.value)
    ensures r.Ok? ==> forall k :: 0 <= k < |ids| && Memoised(g[ids[k]].kind) ==> MemoKey(g[ids[k]]) in r.value.emitted
  {
    if |ids| == 0 then Ok(st)
    else
      var st1 :- Emit(g, rank, ids[0], st);
      var r := EmitAll(g, rank, ids[1..], st1);
      assert r.Ok? ==> forall k :: 1 <= k < |ids| && Memoised(g[ids[k]].kind) ==> MemoKey(g[ids[k]]) in r.value.emitted by {
        if r.Ok? {
          forall k | 1 <= k < |ids| && Memoised(g[ids[k]].kind) ensures MemoKey(g[ids[k]]) in r.value.emitted {
            assert ids[1..][k - 1] == ids[k];
          }
        }
      }
      r
  }
}
