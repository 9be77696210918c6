/** Dependency references (blade3/rule.py `parseRule`, `fullRuleName`).

    A reference is written `//pkg/BUILD:name` (a rule of another package, the
    path taken from the code-base root) or `:name` (a rule of the referring
    package). The source splits it with the pattern `/?/?(.*?):(.+)`, matched
    at the start of the string without DOTALL, so `.` never crosses a newline.
    This module models that pattern exactly: `FindSep` is the leftmost colon
    the lazy group can stop at. */
module Reference {
  import opened Base
  import opened Text

  /** A parsed reference: `pkg` is "" for a rule of the referring package. */
  datatype Ref = Ref(pkg: string, rule: string)

  /** Position `k` is a colon the pattern can split at: `(.+)` needs at least
      one non-newline character after it. */
  predicate Sep(dep: string, k: int) {
    0 <= k && k + 1 < |dep| && dep[k] == ':' && dep[k + 1] != '\n'
  }

  predicate NoNewline(dep: string, lo: int, hi: int) {
    forall t :: lo <= t < hi && 0 <= t < |dep| ==> dep[t] != '\n'
  }

  /** The colon the lazy group `(.*?)` stops at when it starts at `i`: the
      first separator, provided no newline comes before it. */
  function FindSep(dep: string, i: nat): (r: Option<nat>)
    requires i <= |dep|
    ensures r.Some? ==> i <= r.value && Sep(dep, r.value) && NoNewline(dep, i, r.value)
    ensures r.Some? ==> forall j :: i <= j < r.value ==> !Sep(dep, j)
    ensures r.None? ==> forall j :: i <= j && Sep(dep, j) ==> !NoNewline(dep, i, j)
    decreases |dep| - i
  {
    if i == |dep| || dep[i] == '\n' then None
    else if Sep(dep, i) then Some(i)
    else FindSep(dep, i + 1)
  }

  /** End of the greedy group `(.+)` that starts at `i`: the first newline, or the end. */
  function LineEnd(dep: string, i: nat): (r: nat)
    requires i <= |dep|
    ensures i <= r <= |dep|
    ensures r < |dep| ==> dep[r] == '\n'
    ensures NoNewline(dep, i, r)
  {
    i + FirstIndexOf(dep[i..], '\n')
  }

  /** Where the lazy group starts: after the leading "//", if any. */
  function GroupStart(dep: string): nat {
    if StartsWith(dep, "//") then 2 else 0
  }

  /** The two groups of the pattern, when it matches: the text between the
      leading "//" and the separator, and the rest of the line after it. */
  function Groups(dep: string): (r: Option<(string, string)>)
    ensures r.Some? ==> !HasChar(r.value.0, '\n') && !HasChar(r.value.1, '\n') && |r.value.1| > 0
  {
    var s := GroupStart(dep);
    match FindSep(dep, s)
    case None => None
    case Some(k) =>
      var e := LineEnd(dep, k + 1);
      var g1, g2 := dep[s..k], dep[k + 1..e];
      assert forall i :: 0 <= i < |g1| ==> g1[i] == dep[s + i];
      assert forall i :: 0 <= i < |g2| ==> g2[i] == dep[k + 1 + i];
      Some((g1, g2))
  }

  /** What `parseRule` makes of the two groups: both are stripped, and a
      non-empty package part must end in "/BUILD", which is removed. */
  function Interpret(dep: string, g1: string, g2: string): (r: Result<Ref>)
    ensures r.Ok? ==> r.value.rule == Strip(g2)
    ensures r.Ok? && r.value.pkg != "" ==> Strip(g1) == r.value.pkg + "/BUILD"
    ensures r.Err? ==> r.error == MissingBuildSuffix(dep)
  {
    var pkg := Strip(g1);
    var rule := Strip(g2);
    if |pkg| == 0 then Ok(Ref("", rule))
    else if !EndsWith(pkg, "/BUILD") then Err(MissingBuildSuffix(dep))
    else
      assert pkg == DropLast(pkg, 6) + "/BUILD";
      Ok(Ref(DropLast(pkg, 6), rule))
  }

  /** `parseRule`: the start check, then the pattern, then the "/BUILD" suffix. */
  function ParseRule(dep: string): (r: Result<Ref>)
    ensures !StartsWith(dep, "//") && !StartsWith(dep, ":") <==> r == Err(InvalidReferenceStart(dep))
    ensures (StartsWith(dep, "//") || StartsWith(dep, ":")) && Groups(dep).None? <==> r == Err(MalformedReference(dep))
    ensures r.Ok? ==> Groups(dep).Some? && r == Interpret(dep, Groups(dep).value.0, Groups(dep).value.1)
  {
    if !StartsWith(dep, "//") && !StartsWith(dep, ":") then Err(InvalidReferenceStart(dep))
    else
      match Groups(dep)
      case None => Err(MalformedReference(dep))
      case Some((g1, g2)) => Interpret(dep, g1, g2)
  }

  /** `fullRuleName`: the "pkg:rule" key used on the expansion stack. */
  function FullRuleName(pkg: string, rule: string): (r: string)
    ensures |r| == |pkg| + 1 + |rule|
    ensures r[..|pkg|] == pkg && r[|pkg|] == ':' && r[|pkg| + 1..] == rule
  {
    pkg + ":" + rule
  }

  /** Distinct (package, rule) pairs get distinct keys as long as package
      names hold no colon, which `ParseRuleNoColonInPackage` guarantees for
      every parsed reference. */
  lemma FullRuleNameInjective(p1: string, r1: string, p2: string, r2: string)
    requires !HasChar(p1, ':') && !HasChar(p2, ':')
    requires FullRuleName(p1, r1) == FullRuleName(p2, r2)
    ensures p1 == p2 && r1 == r2
  {
  }

  /** The package group never holds a colon: the lazy group stops at the
      first usable colon, and a colon followed by a newline would put that
      newline inside the group. */
  lemma {:induction false} GroupNoColon(dep: string)
    requires Groups(dep).Some?
    ensures !HasChar(Groups(dep).value.0, ':')
  {
    var s := GroupStart(dep);
    var k := FindSep(dep, s).value;
    var g := dep[s..k];
    forall t | 0 <= t < |g| ensures g[t] != ':' {
      assert g[t] == dep[s + t];
      assert dep[s + t + 1] != '\n';
      assert !Sep(dep, s + t);
    }
  }

  /** Stripping and removing the suffix keep only characters of the group. */
  lemma InterpretChars(dep: string, g1: string, g2: string, c: char)
    requires Interpret(dep, g1, g2).Ok?
    ensures c in Interpret(dep, g1, g2).value.pkg ==> c in g1
    ensures c in Interpret(dep, g1, g2).value.rule ==> c in g2
  {
    StripChars(g1, c);
    StripChars(g2, c);
    var pkg := Strip(g1);
    if |pkg| > 0 {
      assert pkg == DropLast(pkg, 6) + "/BUILD";
    }
  }

  lemma StripChars(s: string, c: char)
    ensures c in Strip(s) ==> c in s
  {
    var i := LeadSpace(s);
    var r := Strip(s);
    if c in r {
      var j :| 0 <= j < |r| && r[j] == c;
      assert s[i + j] == c;
    }
  }

  /** Package names of parsed references hold neither a colon nor a newline,
      so their `fullRuleName` keys are unambiguous (`FullRuleNameInjective`). */
  lemma ParseRuleNoColonInPackage(dep: string)
    requires ParseRule(dep).Ok?
    ensures !HasChar(ParseRule(dep).value.pkg, ':')
    ensures !HasChar(ParseRule(dep).value.pkg, '\n')
    ensures !HasChar(ParseRule(dep).value.rule, '\n')
  {
    var g := Groups(dep).value;
    GroupNoColon(dep);
    InterpretChars(dep, g.0, g.1, ':');
    InterpretChars(dep, g.0, g.1, '\n');
  }

  /** The written form of a reference. */
  function Format(ref: Ref): string {
    if ref.pkg == "" then ":" + ref.rule else "//" + ref.pkg + "/BUILD:" + ref.rule
  }

  /** A reference whose parts can be written and read back. */
  predicate Writable(ref: Ref) {
    && !HasChar(ref.pkg, ':') && !HasChar(ref.pkg, '\n')
    && (ref.pkg == "" || !IsSpace(ref.pkg[0]))
    && |ref.rule| > 0 && !HasChar(ref.rule, '\n') && NoEdgeSpace(ref.rule)
  }

  /** Reading back a written reference gives the same reference. */
  lemma ParseFormat(ref: Ref)
    requires Writable(ref)
    ensures ParseRule(Format(ref)) == Ok(ref)
  {
    var dep := Format(ref);
    if ref.pkg == "" {
      GroupsOfLocal(ref.rule);
    } else {
      GroupsOfAbsolute(ref.pkg, ref.rule);
      var g := ref.pkg + "/BUILD";
      assert g[|g| - 1] == 'D' && g[0] == ref.pkg[0];
      assert Strip(g) == g;
      assert g[|g| - 6..] == "/BUILD";
    }
  }

  lemma GroupsOfLocal(rule: string)
    requires |rule| > 0 && !HasChar(rule, '\n')
    ensures var dep := ":" + rule;
      StartsWith(dep, ":") && !StartsWith(dep, "//") && Groups(dep) == Some(("", rule))
  {
    var dep := ":" + rule;
    assert dep[0] == ':' && dep[1] == rule[0];
    assert GroupStart(dep) == 0;
    assert FindSep(dep, 0) == Some(0);
    assert dep[1..] == rule;
    LineEndNoNewline(dep, 1);
    assert dep[0..0] == "" && dep[1..|dep|] == rule;
  }

  lemma GroupsOfAbsolute(pkg: string, rule: string)
    requires !HasChar(pkg, ':') && !HasChar(pkg, '\n')
    requires |rule| > 0 && !HasChar(rule, '\n')
    ensures var dep := "//" + pkg + "/BUILD:" + rule;
      StartsWith(dep, "//") && Groups(dep) == Some((pkg + "/BUILD", rule))
  {
    var g := pkg + "/BUILD";
    var dep := "//" + g + ":" + rule;
    assert dep == "//" + pkg + "/BUILD:" + rule;
    assert dep[..2] == "//";
    var k := 2 + |g|;
    assert dep[k] == ':' && dep[k + 1] == rule[0];
    forall j | 2 <= j < k ensures !Sep(dep, j) && dep[j] != '\n' {
      assert dep[j] == g[j - 2];
      if j - 2 < |pkg| {
        assert g[j - 2] == pkg[j - 2];
      }
    }
    FindSepFirst(dep, 2, k);
    assert GroupStart(dep) == 2;
    assert dep[k + 1..] == rule;
    LineEndNoNewline(dep, k + 1);
    assert dep[2..k] == g && dep[k + 1..|dep|] == rule;
  }

  lemma LineEndNoNewline(dep: string, i: nat)
    requires i <= |dep| && !HasChar(dep[i..], '\n')
    ensures LineEnd(dep, i) == |dep|
  {
  }

  /** If `k` is a separator and nothing before it (from `i`) is a separator or
      a newline, the lazy group stops exactly at `k`. */
  lemma {:induction false} FindSepFirst(dep: string, i: nat, k: nat)
    requires i <= k && Sep(dep, k)
    requires forall j :: i <= j < k ==> !Sep(dep, j) && dep[j] != '\n'
    ensures FindSep(dep, i) == Some(k)
    decreases k - i
  {
    if i < k {
      FindSepFirst(dep, i + 1, k);
    }
  }

  /** The two accepted forms (stated for a variable equal to the literal,
      which keeps the verifier from evaluating the parser on the constant). */
  lemma ParseRuleAbsoluteExample(d: string)
    requires d == "//a/b/BUILD:x"
    ensures ParseRule(d) == Ok(Ref("a/b", "x"))
  {
    assert d == Format(Ref("a/b", "x"));
    ParseFormat(Ref("a/b", "x"));
  }

  lemma ParseRuleLocalExample(d: string)
    requires d == ":x"
    ensures ParseRule(d) == Ok(Ref("", "x"))
  {
    assert d == Format(Ref("", "x"));
    ParseFormat(Ref("", "x"));
  }

  /** A package part without "/BUILD" is rejected. */
  lemma ParseRuleSuffixExample(d: string)
    requires d == "//a/b:x"
    ensures ParseRule(d) == Err(MissingBuildSuffix(d))
  {
    assert d[..2] == "//";
    assert Sep(d, 5);
    FindSepFirst(d, 2, 5);
    assert d[2..5] == "a/b";
    assert Strip(d[2..5]) == "a/b";
  }

  /** A reference with no usable colon does not match the pattern. */
  lemma ParseRuleMalformedExamples()
    ensures ParseRule("//a/b/BUILD") == Err(MalformedReference("//a/b/BUILD"))
    ensures ParseRule(":") == Err(MalformedReference(":"))
  {
    var m := "//a/b/BUILD";
    assert m[..2] == "//";
    assert forall j :: 2 <= j < |m| ==> m[j] != ':';
    FindSepNone(m, 2);
    assert FindSep(":", 0) == None;
  }

  lemma {:induction false} FindSepNone(dep: string, i: nat)
    requires i <= |dep|
    requires forall j :: i <= j < |dep| ==> dep[j] != ':'
    ensures FindSep(dep, i) == None
    decreases |dep| - i
  {
    if i < |dep| && dep[i] != '\n' {
      FindSepNone(dep, i + 1);
    }
  }
}
