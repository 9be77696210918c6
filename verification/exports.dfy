/** The export lists of blade3/cc.py, blade3/shell.py and blade3/data.py:
    what a rule hands to whatever links against it. A library
    (`CCLibrary`, and the JNI, MPI and proto libraries that inherit from it)
    lists its own entry and then its dependencies' entries; a binary, a test
    or a Python extension lists only its dependencies' entries; data and
    shell rules list nothing. Every list goes through `simplifyDepList`
    (`Dedup.KeepLast`). The three lists differ only in the entry a library
    contributes for itself. */
module Exports {
  import opened Text
  import opened Kinds
  import opened Dedup
  import opened Paths
  import opened Graph

  /** Which of the three lists: `exportLibNameList`, `exportLibPathList`
      or `exportLibDirList` for a setting. */
  datatype View = Names | LibPaths(setting: string) | LibDirs(setting: string)

  /** The entry a library contributes for itself: its bare rule name (no
      package), its archive (under the publish tree when the package is
      publish-only), or the target directory of its package (always in the
      build tree). */
  function Own(n: Node, v: View): string {
    match v
    case Names => n.name
    case LibPaths(s) => if n.pubOnly then PubLibraryPath(s, n.pkg, n.name) else LibraryPath(s, n.pkg, n.name)
    case LibDirs(s) => TargetDir(s, n.pkg)
  }

  /** The export list of node `id`. */
  function Export(g: seq<Node>, rank: seq<nat>, id: nat, v: View): (r: seq<string>)
    requires Ranked(g, rank) && id < |g|
    ensures NoDup(r)
    ensures Terminal(g[id].kind) ==> r == []
    ensures LibraryLike(g[id].kind) ==> Own(g[id], v) in r
    decreases rank[id], 1
  {
    var k := g[id].kind;
    if Terminal(k) then []
    else if LibraryLike(k) then KeepLast([Own(g[id], v)] + Collect(g, rank, id, v, 0))
    else KeepLast(Collect(g, rank, id, v, 0))
  }

  /** The dependencies' export lists from position `k` on, concatenated in
      declared order (the loop `res = res + dep.export...()`). */
  function Collect(g: seq<Node>, rank: seq<nat>, id: nat, v: View, k: nat): seq<string>
    requires Ranked(g, rank) && id < |g| && k <= |g[id].deps|
    decreases rank[id], 0, |g[id].deps| - k
  {
    if k == |g[id].deps| then []
    else Export(g, rank, g[id].deps[k], v) + Collect(g, rank, id, v, k + 1)
  }

  /** Every dependency from `k` on contributes its whole export list. */
  lemma {:induction false} CollectHas(g: seq<Node>, rank: seq<nat>, id: nat, v: View, k: nat, i: nat, x: string)
    requires Ranked(g, rank) && id < |g| && k <= i < |g[id].deps|
    requires x in Export(g, rank, g[id].deps[i], v)
    ensures x in Collect(g, rank, id, v, k)
    decreases i - k
  {
    var e, rest := Export(g, rank, g[id].deps[k], v), Collect(g, rank, id, v, k + 1);
    assert Collect(g, rank, id, v, k) == e + rest;
    if k < i {
      CollectHas(g, rank, id, v, k + 1, i, x);
      assert x in rest;
    } else {
      assert x in e;
    }
  }

  /** Nothing else enters the concatenation. */
  lemma {:induction false} CollectFrom(g: seq<Node>, rank: seq<nat>, id: nat, v: View, k: nat, x: string)
    requires Ranked(g, rank) && id < |g| && k <= |g[id].deps|
    requires x in Collect(g, rank, id, v, k)
    ensures exists i :: k <= i < |g[id].deps| && x in Export(g, rank, g[id].deps[i], v)
    decreases |g[id].deps| - k
  {
    var deps := g[id].deps;
    if x !in Export(g, rank, deps[k], v) {
      CollectFrom(g, rank, id, v, k + 1, x);
      var i :| k + 1 <= i < |deps| && x in Export(g, rank, deps[i], v);
      assert k <= i;
    }
  }

  /** An entry is in the concatenation from `k` on iff some dependency from
      `k` on exports it. */
  lemma CollectMembers(g: seq<Node>, rank: seq<nat>, id: nat, v: View, k: nat, x: string)
    requires Ranked(g, rank) && id < |g| && k <= |g[id].deps|
    ensures x in Collect(g, rank, id, v, k) <==> exists i :: k <= i < |g[id].deps| && x in Export(g, rank, g[id].deps[i], v)
  {
    if x in Collect(g, rank, id, v, k) {
      CollectFrom(g, rank, id, v, k, x);
    }
    if i :| k <= i < |g[id].deps| && x in Export(g, rank, g[id].deps[i], v) {
      CollectHas(g, rank, id, v, k, i, x);
    }
  }

  /** Membership in an export list, by the rule's family: a library's list
      holds its own entry and whatever a dependency exports, a binary's or
      pyext's only what a dependency exports, a data or shell rule's nothing. */
  lemma ExportMembers(g: seq<Node>, rank: seq<nat>, id: nat, v: View, x: string)
    requires Ranked(g, rank) && id < |g|
    ensures x in Export(g, rank, id, v) <==>
      || (LibraryLike(g[id].kind) && x == Own(g[id], v))
      || (!Terminal(g[id].kind) && exists i :: 0 <= i < |g[id].deps| && x in Export(g, rank, g[id].deps[i], v))
  {
    CollectMembers(g, rank, id, v, 0, x);
  }

  /** Link order: a library's own archive comes before every archive its
      dependencies export, unless a dependency exports it again (then its
      last occurrence decides). A static linker then resolves the library's
      undefined symbols against the archives that follow it. */
  lemma OwnBeforeDeps(g: seq<Node>, rank: seq<nat>, id: nat, v: View, x: string)
    requires Ranked(g, rank) && id < |g| && LibraryLike(g[id].kind)
    requires x in Collect(g, rank, id, v, 0) && Own(g[id], v) !in Collect(g, rank, id, v, 0)
    ensures LastBefore(Own(g[id], v), x, Export(g, rank, id, v))
  {
    var o, c := Own(g[id], v), Collect(g, rank, id, v, 0);
    LastBeforeConcat([o], c, o, x);
    KeepLastPreservesOrder([o] + c, o, x);
  }

  /** A dependency's entries keep their relative order in the dependent's list
      when nothing later in the concatenation repeats them. */
  lemma DepOrderKept(g: seq<Node>, rank: seq<nat>, id: nat, v: View, u: string, x: string)
    requires Ranked(g, rank) && id < |g| && !Terminal(g[id].kind)
    requires LastBefore(u, x, Collect(g, rank, id, v, 0))
    ensures LastBefore(u, x, Export(g, rank, id, v))
  {
    var c := Collect(g, rank, id, v, 0);
    if LibraryLike(g[id].kind) {
      LastBeforeConcat([Own(g[id], v)], c, u, x);
      KeepLastPreservesOrder([Own(g[id], v)] + c, u, x);
    } else {
      KeepLastPreservesOrder(c, u, x);
    }
  }

  /** Names are bare rule names, so a library that depends on a library of
      the same name in another package exports that name once: the two
      archives collapse into one entry. */
  lemma SameNameCollapses(g: seq<Node>, rank: seq<nat>, id: nat)
    requires Ranked(g, rank) && id < |g| && LibraryLike(g[id].kind) && |g[id].deps| == 1
    requires var d := g[id].deps[0]; LibraryLike(g[d].kind) && g[d].name == g[id].name && g[d].deps == []
    ensures Export(g, rank, id, Names) == [g[id].name]
  {
    var d := g[id].deps[0];
    var n := g[id].name;
    assert Collect(g, rank, d, Names, 0) == [];
    assert Export(g, rank, d, Names) == [n] by {
      assert KeepLast([n]) == [n];
    }
    assert Collect(g, rank, id, Names, 1) == [];
    assert Collect(g, rank, id, Names, 0) == [n];
    assert [n] + [n] == [n, n];
    assert KeepLast([n, n]) == KeepLast([n]) by {
      assert [n, n][1..] == [n];
    }
  }

  /** The directory list ignores whether the package is publish-only; the
      path list does not. */
  lemma PubOnlyChoosesTree(n: Node, s: string)
    requires Setting(s) && Rel(n.pkg) && Rel(n.name)
    ensures Own(n.(pubOnly := true), LibDirs(s)) == Own(n.(pubOnly := false), LibDirs(s))
    ensures Own(n.(pubOnly := true), LibPaths(s)) != Own(n.(pubOnly := false), LibPaths(s))
  {
    PubAndBuildTreesDisjoint(s, n.pkg, n.name);
  }

  /** `depLibPathList`: the dependencies' archives without the rule's own. */
  function DepLibPaths(g: seq<Node>, rank: seq<nat>, id: nat, s: string): (r: seq<string>)
    requires Ranked(g, rank) && id < |g|
    ensures NoDup(r)
    ensures forall x :: x in r <==> x in Collect(g, rank, id, LibPaths(s), 0)
  {
    KeepLast(Collect(g, rank, id, LibPaths(s), 0))
  }

  /** A binary's archive list is exactly its dependencies' archive list. */
  lemma BinaryExportsDeps(g: seq<Node>, rank: seq<nat>, id: nat, s: string)
    requires Ranked(g, rank) && id < |g| && (BinaryLike(g[id].kind) || g[id].kind == CcPyExt)
    ensures Export(g, rank, id, LibPaths(s)) == DepLibPaths(g, rank, id, s)
  {
  }

  /** The export list does not depend on which rank witnesses acyclicity. */
  lemma {:induction false} ExportRankFree(g: seq<Node>, r1: seq<nat>, r2: seq<nat>, id: nat, v: View)
    requires Ranked(g, r1) && Ranked(g, r2) && id < |g|
    ensures Export(g, r1, id, v) == Export(g, r2, id, v)
    decreases r1[id], 1
  {
    CollectRankFree(g, r1, r2, id, v, 0);
  }

  lemma {:induction false} CollectRankFree(g: seq<Node>, r1: seq<nat>, r2: seq<nat>, id: nat, v: View, k: nat)
    requires Ranked(g, r1) && Ranked(g, r2) && id < |g| && k <= |g[id].deps|
    ensures Collect(g, r1, id, v, k) == Collect(g, r2, id, v, k)
    decreases r1[id], 0, |g[id].deps| - k
  {
    if k < |g[id].deps| {
      ExportRankFree(g, r1, r2, g[id].deps[k], v);
      CollectRankFree(g, r1, r2, id, v, k + 1);
    }
  }

  /** The generated headers of a proto library: one per ".proto" source. */
  function OwnHeaders(n: Node): set<string> {
    if n.kind == ProtoLibrary then GenHeaderPathSet(n.pkg, n.srcs) else {}
  }

  /** `depPBHeaderPathSet`, which every C++-family class inherits: the
      dependencies' own sets, plus the generated headers of each dependency
      that is a proto library. */
  function PBHeaders(g: seq<Node>, rank: seq<nat>, id: nat): set<string>
    requires Ranked(g, rank) && id < |g|
    decreases rank[id], 1
  {
    PBHeadersFrom(g, rank, id, 0)
  }

  function PBHeadersFrom(g: seq<Node>, rank: seq<nat>, id: nat, k: nat): set<string>
    requires Ranked(g, rank) && id < |g| && k <= |g[id].deps|
    decreases rank[id], 0, |g[id].deps| - k
  {
    if k == |g[id].deps| then {}
    else
      var d := g[id].deps[k];
      PBHeaders(g, rank, d) + OwnHeaders(g[d]) + PBHeadersFrom(g, rank, id, k + 1)
  }

  /** Every proto library reachable from a rule, however indirectly, has its
      generated headers in the rule's set: the recursion computes the
      transitive closure. */
  lemma {:induction false} PBHeadersCover(g: seq<Node>, rank: seq<nat>, id: nat, p: nat)
    requires Ranked(g, rank) && id < |g| && p in Reach(g, rank, id)
    ensures OwnHeaders(g[p]) <= PBHeaders(g, rank, id)
    decreases rank[id], 1
  {
    PBHeadersFromCover(g, rank, id, 0, p);
  }

  lemma {:induction false} PBHeadersFromCover(g: seq<Node>, rank: seq<nat>, id: nat, k: nat, p: nat)
    requires Ranked(g, rank) && id < |g| && k <= |g[id].deps| && p in ReachFrom(g, rank, id, k)
    ensures OwnHeaders(g[p]) <= PBHeadersFrom(g, rank, id, k)
    decreases rank[id], 0, |g[id].deps| - k
  {
    var d := g[id].deps[k];
    if p != d && p !in Reach(g, rank, d) {
      PBHeadersFromCover(g, rank, id, k + 1, p);
    } else if p != d {
      PBHeadersCover(g, rank, d, p);
    }
  }

  /** Conversely, every header in the set belongs to some reachable proto
      library. */
  lemma {:induction false} PBHeadersSource(g: seq<Node>, rank: seq<nat>, id: nat, h: string) returns (p: nat)
    requires Ranked(g, rank) && id < |g| && h in PBHeaders(g, rank, id)
    ensures p in Reach(g, rank, id) && h in OwnHeaders(g[p])
    decreases rank[id], 1
  {
    p := PBHeadersFromSource(g, rank, id, 0, h);
  }

  lemma {:induction false} PBHeadersFromSource(g: seq<Node>, rank: seq<nat>, id: nat, k: nat, h: string) returns (p: nat)
    requires Ranked(g, rank) && id < |g| && k <= |g[id].deps| && h in PBHeadersFrom(g, rank, id, k)
    ensures p in ReachFrom(g, rank, id, k) && h in OwnHeaders(g[p])
    decreases rank[id], 0, |g[id].deps| - k
  {
    var d := g[id].deps[k];
    if h in OwnHeaders(g[d]) {
      p := d;
    } else if h in PBHeaders(g, rank, d) {
      p := PBHeadersSource(g, rank, d, h);
      assert p in Reach(g, rank, d);
    } else {
      p := PBHeadersFromSource(g, rank, id, k + 1, h);
    }
  }
}
