/** Dependency expansion (blade3/rule.py `expandRule`, blade3/package.py
    `expandRules`): every dependency string of a rule is parsed and resolved
    to a rule object, loading packages on the way; then each resolved rule
    is checked against the expansion stack (a dependency cycle is fatal) and
    expanded in turn if it was not yet. */
module Expand {
  import opened Base
  import opened Text
  import opened Reference
  import opened Packages
  import opened Declare
  import opened Workspace

  /** `w2` is `w1` with packages loaded: still valid, old packages and rule
      objects untouched, the stack as it was, and the rules created on the
      way not expanded. */
  ghost predicate Advanced(w1: World, w2: World, build: BuildFiles) {
    && Valid(w2, build) && Grows(w1, w2) && w2.stack == w1.stack
    && w2.rules[..|w1.rules|] == w1.rules
    && forall j :: |w1.rules| <= j < |w2.rules| ==> !w2.rules[j].expanded
  }

  lemma AdvancedRefl(w: World, build: BuildFiles)
    requires Valid(w, build)
    ensures Advanced(w, w, build)
  {
    assert w.rules[..|w.rules|] == w.rules;
  }

  lemma AdvancedTrans(w1: World, w2: World, w3: World, build: BuildFiles)
    requires Advanced(w1, w2, build) && Advanced(w2, w3, build)
    ensures Advanced(w1, w3, build)
  {
    assert w3.rules[..|w1.rules|] == w3.rules[..|w2.rules|][..|w1.rules|];
  }

  /** Rule `t` is what reference `ref` in a dependency of rule `from` names:
      a rule of that name listed by a package of the named spelling, or by
      the rule's own package when the reference has no package part. */
  predicate Targets(w: World, from: nat, ref: Ref, t: nat)
    requires Placed(w, from)
  {
    && Placed(w, t)
    && w.rules[t].spec.name == ref.rule
    && RuleRef(ref.rule, t) in w.pkgs[w.rules[t].pkg].ruleList
    && if ref.pkg == "" then w.rules[t].pkg == w.rules[from].pkg
       else w.pkgs[w.rules[t].pkg].name == ref.pkg || w.pkgs[w.rules[t].pkg].name == Normalize(ref.pkg)
  }

  /** The dependency string `dep` parses and names rule `t`. */
  predicate Resolves(w: World, from: nat, dep: string, t: nat)
    requires Placed(w, from)
  {
    ParseRule(dep).Ok? && Targets(w, from, ParseRule(dep).value, t)
  }

  /** Every dependency in `deps` names the rule listed at the same
      position, from `off` on, in `now`. */
  predicate AllResolve(w: World, from: nat, deps: seq<string>, now: seq<nat>, off: nat)
    requires Placed(w, from)
  {
    off + |deps| <= |now| && forall k :: 0 <= k < |deps| ==> Resolves(w, from, deps[k], now[off + k])
  }

  /** A rule a reference names stays named after more packages are loaded.
      This is not "names only that rule": a package reached under a second
      spelling is created again, and the reference may then name a newer
      rule as well. */
  lemma TargetsStable(w1: World, w2: World, from: nat, ref: Ref, t: nat)
    requires Grows(w1, w2) && Placed(w1, from) && Targets(w1, from, ref, t)
    ensures Placed(w2, from) && Targets(w2, from, ref, t)
  {
  }

  /** The package a parsed reference names: the referring rule's own for an
      empty package part, the one registered in the global map under the raw
      name if there is one, otherwise a newly loaded one. */
  method PickPackage(w: World, from: nat, ref: Ref, build: BuildFiles, version: string)
    returns (r: Result<(World, nat)>)
    requires Valid(w, build) && from < |w.rules|
    ensures ref.pkg == "" ==> r == Ok((w, w.rules[from].pkg))
    ensures ref.pkg != "" && ref.pkg in w.global ==> r == Ok((w, w.global[ref.pkg]))
    ensures ref.pkg != "" && ref.pkg !in w.global && StartsWith(Normalize(ref.pkg), "pub/") ==>
      r == Err(PublishTreePackage(Normalize(ref.pkg)))
    ensures ref.pkg != "" && ref.pkg !in w.global && !StartsWith(Normalize(ref.pkg), "pub/") && Normalize(ref.pkg) !in build ==>
      r == Err(PackageNotFound(Normalize(ref.pkg)))
    ensures r.Ok? ==> Advanced(w, r.value.0, build) && r.value.1 < |r.value.0.pkgs|
    ensures r.Ok? && ref.pkg != "" ==>
      r.value.0.pkgs[r.value.1].name == ref.pkg || r.value.0.pkgs[r.value.1].name == Normalize(ref.pkg)
  {
    if ref.pkg == "" {
      AdvancedRefl(w, build);
      return Ok((w, w.rules[from].pkg));
    } else if ref.pkg in w.global {
      AdvancedRefl(w, build);
      return Ok((w, w.global[ref.pkg]));
    } else {
      r := LoadPackage(w, ref.pkg, build, version);
    }
  }

  /** The first loop of `expandRule` for one parsed dependency: pick the
      package and look the rule up in it; a missing rule is an error naming
      the rule and the rule that depends on it. */
  method ResolveRef(w: World, from: nat, ref: Ref, build: BuildFiles, version: string)
    returns (r: Result<(World, nat)>)
    requires Valid(w, build) && from < |w.rules|
    ensures ref.pkg == "" ==> (r.Err? <==> ref.rule !in w.pkgs[w.rules[from].pkg].ruleMap)
    ensures ref.pkg == "" && r.Err? ==>
      r.error == RuleNotFound(FullRuleName(w.pkgs[w.rules[from].pkg].name, ref.rule), FullName(w, from))
    ensures r.Ok? ==> Advanced(w, r.value.0, build) && Placed(r.value.0, from) && Targets(r.value.0, from, ref, r.value.1)
  {
    if ref.pkg == "" {
      AdvancedRefl(w, build);
      r := LookupIn(w, w, w.rules[from].pkg, from, ref, build);
    } else {
      var picked :- PickPackage(w, from, ref, build, version);
      r := LookupIn(w, picked.0, picked.1, from, ref, build);
    }
  }

  /** The rule lookup in the picked package `pi` of `cur`. */
  method LookupIn(w: World, cur: World, pi: nat, from: nat, ref: Ref, build: BuildFiles)
    returns (r: Result<(World, nat)>)
    requires Valid(w, build) && from < |w.rules| && Advanced(w, cur, build) && pi < |cur.pkgs|
    requires ref.pkg == "" ==> pi == w.rules[from].pkg
    requires ref.pkg != "" ==> cur.pkgs[pi].name == ref.pkg || cur.pkgs[pi].name == Normalize(ref.pkg)
    ensures r.Err? <==> ref.rule !in cur.pkgs[pi].ruleMap
    ensures r.Err? ==> r.error == RuleNotFound(FullRuleName(cur.pkgs[pi].name, ref.rule), FullName(w, from))
    ensures r.Ok? ==> r.value.0 == cur && Placed(cur, from) && Targets(cur, from, ref, r.value.1)
  {
    assert PkgOk(cur, pi);
    var found := GetRule(cur.pkgs[pi], ref.rule);
    if found.None? {
      return Err(RuleNotFound(FullRuleName(cur.pkgs[pi].name, ref.rule), FullName(w, from)));
    }
    FoundTarget(w, cur, pi, from, ref, found.value, build);
    return Ok((cur, found.value));
  }

  /** A rule listed by the picked package is the target of the reference. */
  lemma FoundTarget(w: World, cur: World, pi: nat, from: nat, ref: Ref, t: nat, build: BuildFiles)
    requires Valid(w, build) && from < |w.rules| && Advanced(w, cur, build) && pi < |cur.pkgs|
    requires ref.pkg == "" ==> pi == w.rules[from].pkg
    requires ref.pkg != "" ==> cur.pkgs[pi].name == ref.pkg || cur.pkgs[pi].name == Normalize(ref.pkg)
    requires RuleRef(ref.rule, t) in cur.pkgs[pi].ruleList
    ensures Placed(cur, from) && Targets(cur, from, ref, t)
  {
    assert PkgOk(cur, pi);
    var k :| 0 <= k < |cur.pkgs[pi].ruleList| && cur.pkgs[pi].ruleList[k] == RuleRef(ref.rule, t);
    assert cur.rules[from] == cur.rules[..|w.rules|][from];
  }

  /** The first loop of `expandRule`: every dependency resolved, in order.
      A dependency that does not parse stops the loop with an error. */
  method ResolveAll(w: World, id: nat, deps: seq<string>, build: BuildFiles, version: string)
    returns (r: Result<(World, seq<nat>)>)
    requires Valid(w, build) && id < |w.rules|
    ensures (exists k :: 0 <= k < |deps| && ParseRule(deps[k]).Err?) ==> r.Err?
    ensures r.Ok? ==> Advanced(w, r.value.0, build) && Placed(r.value.0, id) && |r.value.1| == |deps|
    ensures r.Ok? ==> AllResolve(r.value.0, id, deps, r.value.1, 0)
  {
    var cur := w;
    var resolved: seq<nat> := [];
    var k := 0;
    AdvancedRefl(w, build);
    while k < |deps|
      invariant k <= |deps| && |resolved| == k
      invariant Advanced(w, cur, build) && Placed(cur, id)
      invariant forall m :: 0 <= m < k ==> ParseRule(deps[m]).Ok?
      invariant forall m :: 0 <= m < k ==> Resolves(cur, id, deps[m], resolved[m])
    {
      var parsed := ParseRule(deps[k]);
      if parsed.Err? {
        return Err(parsed.error);
      }
      var step :- ResolveRef(cur, id, parsed.value, build, version);
      ResolveStep(w, cur, step.0, id, deps, resolved, k, step.1, build);
      cur := step.0;
      resolved := resolved + [step.1];
      k := k + 1;
    }
    assert AllResolve(cur, id, deps, resolved, 0);
    return Ok((cur, resolved));
  }

  lemma ResolveStep(w: World, cur: World, next: World, id: nat, deps: seq<string>, resolved: seq<nat>, k: nat, t: nat,
                    build: BuildFiles)
    requires Advanced(w, cur, build) && Advanced(cur, next, build) && Placed(cur, id)
    requires k < |deps| == |deps| && |resolved| == k && ParseRule(deps[k]).Ok?
    requires forall m :: 0 <= m < k ==> Resolves(cur, id, deps[m], resolved[m])
    requires Placed(next, id) && Targets(next, id, ParseRule(deps[k]).value, t)
    ensures Advanced(w, next, build)
    ensures forall m :: 0 <= m < k + 1 ==> Resolves(next, id, deps[m], (resolved + [t])[m])
  {
    AdvancedTrans(w, cur, next, build);
    forall m | 0 <= m < k + 1 ensures Resolves(next, id, deps[m], (resolved + [t])[m]) {
      if m < k {
        TargetsStable(cur, next, id, ParseRule(deps[m]).value, resolved[m]);
      }
    }
  }

  /** The set of full names not on the stack shrinks when a name outside
      the stack is pushed. */
  lemma PushShrinks(all: set<string>, stack: seq<string>, name: string)
    requires name in all && name !in stack
    ensures |all - set x | x in stack + [name]| < |all - set x | x in stack|
  {
    var before := all - set x | x in stack;
    var after := all - set x | x in stack + [name];
    assert after == before - {name};
    assert name in before;
  }

  /** The frame of an expansion from `w1` to `w2`: rule `id` and the rules
      it newly expanded may change; a rule that was expanded, or whose full
      name was on the stack, is left as it was. */
  predicate Framed(w1: World, w2: World, id: nat)
    requires |w1.rules| <= |w2.rules| && Placement(w1)
  {
    forall j :: 0 <= j < |w1.rules| && j != id && (w1.rules[j].expanded || FullName(w1, j) in w1.stack) ==>
      w2.rules[j] == w1.rules[j]
  }

  /** What a successful `expandRule` of rule `id` leaves behind: the rule is
      expanded, its resolved dependencies are appended to the ones it had,
      in the order of its `deps`, and every one of them is expanded and was
      neither on the stack nor the rule itself. */
  ghost predicate Expansion(w: World, w2: World, id: nat, build: BuildFiles)
    requires Valid(w, build) && id < |w.rules|
  {
    && Valid(w2, build) && Grows(w, w2) && w2.stack == w.stack
    && Framed(w, w2, id)
    && w2.rules[id].expanded
    && var before := w.rules[id].depRules;
    && var deps := w.rules[id].spec.deps;
    && var now := w2.rules[id].depRules;
    && |now| == |before| + |deps| && now[..|before|] == before
    && Placed(w2, id) && AllResolve(w2, id, deps, now, |before|)
    && (forall d :: d in now ==> d < |w2.rules| && w2.rules[d].expanded && FullName(w2, d) !in w.stack + [FullName(w, id)])
  }

  /** `expandRule`: push the rule's full name, resolve every dependency
      (appending to `depRulesList`), check and expand the whole dependency
      list, then pop and mark the rule expanded.

      The measure is the number of full names the BUILD files can produce
      that are not on the stack: each nested call pushes a new one. */
  method ExpandRule(w: World, id: nat, build: BuildFiles, version: string) returns (r: Result<World>)
    requires Valid(w, build) && id < |w.rules|
    requires FullName(w, id) !in w.stack
    ensures r.Ok? ==> Expansion(w, r.value, id, build)
    decreases |AllNames(build) - set x | x in w.stack|, 0
  {
    assert RuleOk(w, id, build);
    var name := FullName(w, id);
    ValidAnyStack(w, build, w.stack + [name]);
    var pushed := w.(stack := w.stack + [name]);
    var res :- ResolveAll(pushed, id, w.rules[id].spec.deps, build, version);
    var mid := Attach(w, pushed, res.0, id, res.1, build);
    PushShrinks(AllNames(build), w.stack, name);
    var after :- CheckAndExpand(mid, id, mid.rules[id].depRules, build, version);
    var done := SetRule(after, id, after.rules[id].(expanded := true), build);
    ExpandFinish(w, mid, after, done, id, build);
    return Ok(done.(stack := w.stack));
  }

  /** The state after the first loop of `expandRule`: the name pushed and
      the resolved rules appended to `depRulesList`. */
  ghost predicate Attached(w: World, mid: World, id: nat, build: BuildFiles)
    requires Valid(w, build) && id < |w.rules|
  {
    && Valid(mid, build) && Grows(w, mid) && mid.stack == w.stack + [FullName(w, id)]
    && (forall j :: 0 <= j < |w.rules| && j != id ==> mid.rules[j] == w.rules[j])
    && mid.rules[id].spec == w.rules[id].spec && mid.rules[id].expanded == w.rules[id].expanded
    && var before := w.rules[id].depRules;
    && var deps := w.rules[id].spec.deps;
    && var now := mid.rules[id].depRules;
    && |now| == |before| + |deps| && now[..|before|] == before
    && Placed(mid, id) && AllResolve(mid, id, deps, now, |before|)
    && (forall d :: d in now ==> d < |mid.rules|)
  }

  /** Append the resolved rules to rule `id` of the world the first loop
      left. */
  function Attach(w: World, pushed: World, cur: World, id: nat, resolved: seq<nat>, ghost build: BuildFiles): (mid: World)
    requires Valid(w, build) && id < |w.rules| && pushed == w.(stack := w.stack + [FullName(w, id)])
    requires Advanced(pushed, cur, build) && Placed(cur, id) && |resolved| == |w.rules[id].spec.deps|
    requires AllResolve(cur, id, w.rules[id].spec.deps, resolved, 0)
    ensures Attached(w, mid, id, build)
  {
    AttachPre(w, pushed, cur, id, resolved, build);
    var mid := SetRule(cur, id, cur.rules[id].(depRules := w.rules[id].depRules + resolved), build);
    AttachShape(w, cur, mid, id, resolved);
    AttachResolves(cur, mid, id, w.rules[id].spec.deps, w.rules[id].depRules, resolved);
    mid
  }

  lemma AttachPre(w: World, pushed: World, cur: World, id: nat, resolved: seq<nat>, build: BuildFiles)
    requires Valid(w, build) && id < |w.rules| && pushed == w.(stack := w.stack + [FullName(w, id)])
    requires Advanced(pushed, cur, build) && Placed(cur, id) && |resolved| == |w.rules[id].spec.deps|
    requires AllResolve(cur, id, w.rules[id].spec.deps, resolved, 0)
    ensures Grows(w, cur) && cur.stack == w.stack + [FullName(w, id)]
    ensures forall j :: 0 <= j < |w.rules| ==> cur.rules[j] == w.rules[j]
    ensures forall d :: d in w.rules[id].depRules + resolved ==> d < |cur.rules|
  {
    assert RuleOk(w, id, build);
    forall j | 0 <= j < |w.rules| ensures cur.rules[j] == w.rules[j] {
      assert cur.rules[j] == cur.rules[..|w.rules|][j];
    }
    forall d | d in resolved ensures d < |cur.rules| {
      var k :| 0 <= k < |resolved| && resolved[k] == d;
      assert Resolves(cur, id, w.rules[id].spec.deps[k], resolved[0 + k]);
    }
  }

  /** The shape of rule `id` after the append: attributes kept, old
      dependencies first, every dependency an existing rule. */
  lemma AttachShape(w: World, cur: World, mid: World, id: nat, resolved: seq<nat>)
    requires id < |w.rules| && Grows(w, cur) && Grows(cur, mid)
    requires forall j :: 0 <= j < |w.rules| ==> cur.rules[j] == w.rules[j]
    requires forall d :: d in w.rules[id].depRules + resolved ==> d < |cur.rules|
    requires mid.rules == cur.rules[id := cur.rules[id].(depRules := w.rules[id].depRules + resolved)]
    ensures Grows(w, mid)
    ensures forall j :: 0 <= j < |w.rules| && j != id ==> mid.rules[j] == w.rules[j]
    ensures mid.rules[id].spec == w.rules[id].spec && mid.rules[id].expanded == w.rules[id].expanded
    ensures |mid.rules[id].depRules| == |w.rules[id].depRules| + |resolved|
    ensures mid.rules[id].depRules[..|w.rules[id].depRules|] == w.rules[id].depRules
    ensures forall d :: d in mid.rules[id].depRules ==> d < |mid.rules|
  {
    assert (w.rules[id].depRules + resolved)[..|w.rules[id].depRules|] == w.rules[id].depRules;
  }

  /** The rules resolved from `cur` still resolve once they are appended
      to `before` in the rule object. */
  lemma AttachResolves(cur: World, mid: World, id: nat, deps: seq<string>, before: seq<nat>, resolved: seq<nat>)
    requires Grows(cur, mid) && Placed(cur, id) && |resolved| == |deps|
    requires AllResolve(cur, id, deps, resolved, 0)
    requires mid.rules[id].depRules == before + resolved
    ensures Placed(mid, id) && AllResolve(mid, id, deps, mid.rules[id].depRules, |before|)
  {
    var all := before + resolved;
    forall k | 0 <= k < |deps| ensures Resolves(cur, id, deps[k], all[|before| + k]) {
      assert all[|before| + k] == resolved[0 + k];
    }
    ResolvesStable(cur, mid, id, deps, all, |before|);
  }

  /** Loading more packages does not change what a rule's dependencies,
      listed from `off` on in `now`, resolve to. */
  lemma ResolvesStable(w1: World, w2: World, id: nat, deps: seq<string>, now: seq<nat>, off: nat)
    requires Grows(w1, w2) && Placed(w1, id) && AllResolve(w1, id, deps, now, off)
    ensures Placed(w2, id) && AllResolve(w2, id, deps, now, off)
  {
    forall k | 0 <= k < |deps| ensures Resolves(w2, id, deps[k], now[off + k]) {
      assert Resolves(w1, id, deps[k], now[off + k]);
      TargetsStable(w1, w2, id, ParseRule(deps[k]).value, now[off + k]);
    }
  }

  /** The part of the world a `CheckAndExpand` loop has handled: the first
      `n` entries of `all` are expanded, none of them is on the stack or is
      rule `id`, and the frame of the expansions holds. */
  ghost predicate Checked(w: World, w2: World, id: nat, all: seq<nat>, n: nat, build: BuildFiles)
    requires Valid(w, build) && id < |w.rules|
  {
    && n <= |all|
    && Valid(w2, build) && Grows(w, w2) && w2.stack == w.stack && w2.rules[id] == w.rules[id]
    && Framed(w, w2, id)
    && (forall p :: 0 <= p < n ==> all[p] != id)
    && (forall p :: 0 <= p < n ==> all[p] < |w2.rules| && w2.rules[all[p]].expanded && FullName(w2, all[p]) !in w.stack)
  }

  /** The second loop of `expandRule`: each resolved rule whose full name is
      on the stack is a dependency cycle, reported with both full names;
      each one not yet expanded is expanded now. */
  method CheckAndExpand(w: World, id: nat, all: seq<nat>, build: BuildFiles, version: string) returns (r: Result<World>)
    requires Valid(w, build) && id < |w.rules| && FullName(w, id) in w.stack
    requires forall d :: d in all ==> d < |w.rules|
    ensures id in all ==> r.Err?
    ensures |all| > 0 && Placed(w, all[0]) && FullName(w, all[0]) in w.stack ==>
      r == Err(CyclicDependency(FullName(w, id), FullName(w, all[0])))
    ensures r.Ok? ==> Checked(w, r.value, id, all, |all|, build)
    decreases |AllNames(build) - set x | x in w.stack|, 1
  {
    var cur := w;
    var m := 0;
    CheckStart(w, id, all, build);
    while m < |all|
      invariant m <= |all| && Checked(w, cur, id, all, m, build)
      invariant m == 0 ==> cur == w
    {
      var t := all[m];
      assert t in all;
      if FullName(cur, t) in cur.stack {
        return Err(CyclicDependency(FullName(w, id), FullName(cur, t)));
      }
      if !cur.rules[t].expanded {
        var next :- ExpandRule(cur, t, build, version);
        CheckStep(w, cur, next, id, all, m, build);
        cur := next;
      } else {
        CheckSkip(w, cur, id, all, m, build);
      }
      m := m + 1;
    }
    assert |all| > 0 && Placed(w, all[0]) ==> FullName(cur, all[0]) == FullName(w, all[0]);
    return Ok(cur);
  }

  lemma CheckStart(w: World, id: nat, all: seq<nat>, build: BuildFiles)
    requires Valid(w, build) && id < |w.rules|
    ensures Checked(w, w, id, all, 0, build)
  {
  }

  /** A rule already expanded and not on the stack is passed over. */
  lemma CheckSkip(w: World, cur: World, id: nat, all: seq<nat>, m: nat, build: BuildFiles)
    requires Valid(w, build) && id < |w.rules| && FullName(w, id) in w.stack
    requires Checked(w, cur, id, all, m, build) && m < |all| && all[m] < |cur.rules|
    requires cur.rules[all[m]].expanded && FullName(cur, all[m]) !in cur.stack
    ensures Checked(w, cur, id, all, m + 1, build)
  {
    FullNameStable(w, cur, id);
  }

  /** One nested expansion keeps the invariant of `CheckAndExpand`. */
  lemma CheckStep(w: World, cur: World, next: World, id: nat, all: seq<nat>, m: nat, build: BuildFiles)
    requires Valid(w, build) && id < |w.rules| && FullName(w, id) in w.stack
    requires Checked(w, cur, id, all, m, build) && m < |all| && all[m] < |cur.rules|
    requires !cur.rules[all[m]].expanded && FullName(cur, all[m]) !in cur.stack
    requires Expansion(cur, next, all[m], build)
    ensures Checked(w, next, id, all, m + 1, build)
  {
    var t := all[m];
    FullNameStable(w, cur, id);
    assert id != t;
    forall j | 0 <= j < |w.rules| && j != id && (w.rules[j].expanded || FullName(w, j) in w.stack)
      ensures next.rules[j] == w.rules[j]
    {
      FullNameStable(w, cur, j);
      assert cur.rules[j] == w.rules[j];
    }
    forall p | 0 <= p < m + 1
      ensures all[p] < |next.rules| && next.rules[all[p]].expanded && FullName(next, all[p]) !in w.stack
    {
      FullNameStable(cur, next, all[p]);
    }
  }

  /** The postcondition of `ExpandRule` from the states after its phases:
      `mid` after resolution, `after` after the nested expansions, `done`
      with the rule marked expanded. */
  lemma ExpandFinish(w: World, mid: World, after: World, done: World, id: nat, build: BuildFiles)
    requires Valid(w, build) && id < |w.rules| && Attached(w, mid, id, build)
    requires Checked(mid, after, id, mid.rules[id].depRules, |mid.rules[id].depRules|, build)
    requires Valid(done, build) && Grows(after, done) && done.stack == after.stack
    requires done.rules == after.rules[id := after.rules[id].(expanded := true)]
    ensures Expansion(w, done.(stack := w.stack), id, build)
  {
    var w2 := done.(stack := w.stack);
    ValidAnyStack(done, build, w.stack);
    GrowsTrans(mid, after, w2);
    GrowsTrans(w, mid, w2);
    FinishFrame(w, mid, after, w2, id);
    ResolvesStable(mid, w2, id, w.rules[id].spec.deps, mid.rules[id].depRules, |w.rules[id].depRules|);
    FinishDeps(w, mid, after, w2, id, mid.rules[id].depRules);
  }

  lemma GrowsTrans(w1: World, w2: World, w3: World)
    requires Grows(w1, w2) && Grows(w2, w3)
    ensures Grows(w1, w3)
  {
  }

  /** The frame of the whole expansion from the frames of its phases. */
  lemma FinishFrame(w: World, mid: World, after: World, w2: World, id: nat)
    requires id < |w.rules| && Placement(w) && Placement(mid) && Grows(w, mid)
    requires mid.stack == w.stack + [FullName(w, id)]
    requires forall j :: 0 <= j < |w.rules| && j != id ==> mid.rules[j] == w.rules[j]
    requires |mid.rules| <= |after.rules| && Framed(mid, after, id)
    requires |w2.rules| == |after.rules| && forall j :: 0 <= j < |after.rules| && j != id ==> w2.rules[j] == after.rules[j]
    ensures Framed(w, w2, id)
  {
    forall j | 0 <= j < |w.rules| && j != id && (w.rules[j].expanded || FullName(w, j) in w.stack)
      ensures w2.rules[j] == w.rules[j]
    {
      FullNameStable(w, mid, j);
      assert after.rules[j] == mid.rules[j];
    }
  }

  /** Every dependency the expansion left is expanded and off the stack. */
  lemma FinishDeps(w: World, mid: World, after: World, w2: World, id: nat, all: seq<nat>)
    requires id < |w.rules| && Placement(w) && Grows(w, mid)
    requires mid.stack == w.stack + [FullName(w, id)]
    requires Placement(after) && Extends(after, w2) && Placement(w2) && id < |w2.rules| && w2.rules[id].depRules == all
    requires forall p :: 0 <= p < |all| ==> all[p] < |after.rules| && after.rules[all[p]].expanded && FullName(after, all[p]) !in mid.stack
    ensures forall d :: d in w2.rules[id].depRules ==>
      d < |w2.rules| && w2.rules[d].expanded && FullName(w2, d) !in w.stack + [FullName(w, id)]
  {
    forall d | d in w2.rules[id].depRules
      ensures d < |w2.rules| && w2.rules[d].expanded && FullName(w2, d) !in w.stack + [FullName(w, id)]
    {
      var p :| 0 <= p < |all| && all[p] == d;
      FullNameStable(after, w2, d);
    }
  }

  /** Replace a rule object by one with the same package, attributes and
      valid dependencies. */
  function SetRule(w: World, id: nat, o: RuleObj, ghost build: BuildFiles): (r: World)
    requires Valid(w, build) && id < |w.rules|
    requires o.pkg == w.rules[id].pkg && o.spec == w.rules[id].spec
    requires forall d :: d in o.depRules ==> d < |w.rules|
    requires w.rules[id].expanded ==> o.expanded
    ensures Valid(r, build) && Grows(w, r) && r.stack == w.stack && r.global == w.global
    ensures r.rules == w.rules[id := o] && r.pkgs == w.pkgs
  {
    var r := w.(rules := w.rules[id := o]);
    assert forall i :: 0 <= i < |r.pkgs| ==> PkgOk(r, i) by {
      forall i | 0 <= i < |r.pkgs| ensures PkgOk(r, i) {
        assert PkgOk(w, i);
      }
    }
    assert forall j :: 0 <= j < |r.rules| ==> RuleOk(r, j, build) by {
      forall j | 0 <= j < |r.rules| ensures RuleOk(r, j, build) {
        assert RuleOk(w, j, build);
        assert FullName(r, j) == FullName(w, j);
      }
    }
    r
  }

  /** `expandRules`: every rule the package lists is expanded in turn from
      an empty stack, whether or not an earlier one already expanded it (a
      second expansion appends the resolved dependencies again). */
  method ExpandRules(w: World, pi: nat, build: BuildFiles, version: string) returns (r: Result<World>)
    requires Valid(w, build) && pi < |w.pkgs| && w.stack == []
    ensures r.Ok? ==> Valid(r.value, build) && Grows(w, r.value) && r.value.stack == []
    ensures r.Ok? ==> forall k :: 0 <= k < |w.pkgs[pi].ruleList| ==>
      var t := w.pkgs[pi].ruleList[k].id; t < |r.value.rules| && r.value.rules[t].expanded
  {
    var cur := w;
    var k := 0;
    assert PkgOk(w, pi);
    while k < |w.pkgs[pi].ruleList|
      invariant k <= |w.pkgs[pi].ruleList|
      invariant Valid(cur, build) && Grows(w, cur) && cur.stack == []
      invariant forall m :: 0 <= m < k ==>
        var t := w.pkgs[pi].ruleList[m].id; t < |cur.rules| && cur.rules[t].expanded
    {
      var id := w.pkgs[pi].ruleList[k].id;
      var next :- ExpandRule(cur, id, build, version);
      ExpandRulesStep(w, cur, next, pi, k, build);
      cur := next;
      k := k + 1;
    }
    return Ok(cur);
  }

  lemma ExpandRulesStep(w: World, cur: World, next: World, pi: nat, k: nat, build: BuildFiles)
    requires Valid(w, build) && pi < |w.pkgs| && PkgOk(w, pi) && k < |w.pkgs[pi].ruleList|
    requires Valid(cur, build) && Grows(w, cur)
    requires forall m :: 0 <= m < k ==>
      var t := w.pkgs[pi].ruleList[m].id; t < |cur.rules| && cur.rules[t].expanded
    requires w.pkgs[pi].ruleList[k].id < |cur.rules|
    requires Expansion(cur, next, w.pkgs[pi].ruleList[k].id, build)
    ensures Grows(w, next) && next.stack == cur.stack
    ensures forall m :: 0 <= m < k + 1 ==>
      var t := w.pkgs[pi].ruleList[m].id; t < |next.rules| && next.rules[t].expanded
  {
  }
}
