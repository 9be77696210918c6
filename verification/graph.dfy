/** The dependency graph the emission phase walks: one node per rule object,
    carrying what the export and emission methods of blade3/cc.py read from
    the rule and its package, and the resolved `depRulesList` as indices.

    The walks recurse into dependencies and terminate only because the graph
    is acyclic (expansion refuses cycles). The model takes the acyclicity as
    a `rank` that strictly decreases along every edge. */
module Graph {
  import opened Kinds
  import opened Workspace

  datatype Node = Node(
    kind: Kind, name: string, pkg: string, pubOnly: bool,
    srcs: seq<string>, deps: seq<nat>)

  /** Every edge leads to an existing node of smaller rank. */
  predicate Ranked(g: seq<Node>, rank: seq<nat>) {
    && |rank| == |g|
    && forall j, i :: 0 <= j < |g| && 0 <= i < |g[j].deps| ==> g[j].deps[i] < |g| && rank[g[j].deps[i]] < rank[j]
  }

  /** The view of rule object `j` of a world. */
  function NodeOf(w: World, j: nat): Node
    requires Placed(w, j)
  {
    var o := w.rules[j];
    var p := w.pkgs[o.pkg];
    Node(o.spec.kind, o.spec.name, p.name, p.isPubOnly, o.spec.srcs, o.depRules)
  }

  /** The graph of a world: node `j` is rule object `j`. */
  function NodesOf(w: World): (g: seq<Node>)
    requires Placement(w)
    ensures |g| == |w.rules|
    ensures forall j :: 0 <= j < |w.rules| ==> g[j] == NodeOf(w, j)
  {
    seq(|w.rules|, j requires 0 <= j < |w.rules| => NodeOf(w, j))
  }

  /** The rules reachable from `id` through one or more dependency edges. */
  function Reach(g: seq<Node>, rank: seq<nat>, id: nat): (r: set<nat>)
    requires Ranked(g, rank) && id < |g|
    ensures forall p :: p in r ==> p < |g| && rank[p] < rank[id]
    decreases rank[id], 1
  {
    ReachFrom(g, rank, id, 0)
  }

  function ReachFrom(g: seq<Node>, rank: seq<nat>, id: nat, k: nat): (r: set<nat>)
    requires Ranked(g, rank) && id < |g| && k <= |g[id].deps|
    ensures forall p :: p in r ==> p < |g| && rank[p] < rank[id]
    decreases rank[id], 0, |g[id].deps| - k
  {
    if k == |g[id].deps| then {}
    else
      var d := g[id].deps[k];
      {d} + Reach(g, rank, d) + ReachFrom(g, rank, id, k + 1)
  }

  /** Reachability is closed under edges: a dependency and everything it
      reaches are reachable. */
  lemma {:induction false} ReachStep(g: seq<Node>, rank: seq<nat>, id: nat, k: nat, i: nat)
    requires Ranked(g, rank) && id < |g| && k <= i < |g[id].deps|
    ensures g[id].deps[i] in ReachFrom(g, rank, id, k)
    ensures Reach(g, rank, g[id].deps[i]) <= ReachFrom(g, rank, id, k)
    decreases i - k
  {
    if k < i {
      ReachStep(g, rank, id, k + 1, i);
    }
  }

  /** Reachable through a first edge: every reachable rule is a dependency
      or is reachable from one. */
  lemma {:induction false} ReachVia(g: seq<Node>, rank: seq<nat>, id: nat, k: nat, p: nat) returns (i: nat)
    requires Ranked(g, rank) && id < |g| && k <= |g[id].deps|
    requires p in ReachFrom(g, rank, id, k)
    ensures k <= i < |g[id].deps|
    ensures p == g[id].deps[i] || p in Reach(g, rank, g[id].deps[i])
    decreases |g[id].deps| - k
  {
    var d := g[id].deps[k];
    if p == d || p in Reach(g, rank, d) {
      i := k;
    } else {
      i := ReachVia(g, rank, id, k + 1, p);
    }
  }
}
