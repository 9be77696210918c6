/** The command line of blade3/pconfig.py `main`. A first pass checks every
    argument: it must be a relative path to a file called BUILD, and no
    BUILD file may be named twice. A second pass then reads each file's
    package and expands its rules, in argument order. Writing the Makefile
    from the packages is the Makefile module's business. */
module Args {
  import opened Base
  import opened Text
  import opened Dedup
  import opened Packages
  import opened Workspace
  import opened Expand

  const BuildSuffix := "/BUILD"

  /** The argument with a leading "./" removed. */
  function DropDot(s: string): (r: string)
    ensures StartsWith(s, "./") ==> r == s[2..]
    ensures !StartsWith(s, "./") ==> r == s
  {
    if StartsWith(s, "./") then s[2..] else s
  }

  predicate Escapes(s: string) {
    StartsWith(s, "/") || StartsWith(s, "../")
  }

  /** The first pass on one argument, as written: the path test looks at
      the stripped argument before its "./" is removed. */
  function CheckArgAsWritten(arg: string): (r: Result<string>)
    ensures r.Ok? <==> !Escapes(Strip(arg)) && EndsWith(DropDot(Strip(arg)), BuildSuffix)
    ensures r.Ok? ==> r.value == DropDot(Strip(arg))
  {
    var a := Strip(arg);
    if Escapes(a) then Err(NotRelativePath(a))
    else if !EndsWith(DropDot(a), BuildSuffix) then Err(NotBuildFile(DropDot(a)))
    else Ok(DropDot(a))
  }

  /** "./../<p>" passes the first pass although it names a file outside
      the workspace: the "../" only shows once "./" is gone. The corrected
      check refuses it. */
  lemma DotDotSlipsThrough(p: string)
    requires EndsWith(p, BuildSuffix) && NoEdgeSpace(p)
    ensures CheckArgAsWritten("./../" + p) == Ok("../" + p)
    ensures Escapes("../" + p)
    ensures CheckArg("./../" + p) == Err(NotRelativePath("../" + p))
  {
    DotDotStrip(p);
    DotDotDrop(p);
    DotDotEscapes(p);
  }

  lemma DotDotStrip(p: string)
    requires |p| > 0 && NoEdgeSpace(p)
    ensures Strip("./../" + p) == "./../" + p
  {
    var a := "./../" + p;
    assert a[0] == '.' && a[|a| - 1] == p[|p| - 1];
    assert NoEdgeSpace(a);
  }

  lemma DotDotDrop(p: string)
    ensures !Escapes("./../" + p)
    ensures DropDot("./../" + p) == "../" + p
  {
    var a := "./../" + p;
    assert a[0] == '.' && a[1] == '/';
    assert a[..2] == "./";
    assert a[2..] == "../" + p;
  }

  lemma DotDotEscapes(p: string)
    requires EndsWith(p, BuildSuffix)
    ensures Escapes("../" + p) && EndsWith("../" + p, BuildSuffix)
  {
    var v := "../" + p;
    assert v[..3] == "../";
    assert v[|v| - 6..] == p[|p| - 6..];
  }

  /** The first pass on one argument with the path test applied after "./"
      is removed as well: an accepted argument never leaves the workspace. */
  function CheckArg(arg: string): (r: Result<string>)
    ensures r.Ok? <==> !Escapes(Strip(arg)) && !Escapes(DropDot(Strip(arg))) && EndsWith(DropDot(Strip(arg)), BuildSuffix)
    ensures r.Ok? ==> r.value == DropDot(Strip(arg)) && !Escapes(r.value)
    ensures r.Err? ==> r.error == NotRelativePath(Strip(arg)) || r.error == NotRelativePath(DropDot(Strip(arg)))
                       || r.error == NotBuildFile(DropDot(Strip(arg)))
  {
    var a := Strip(arg);
    if Escapes(a) then Err(NotRelativePath(a))
    else if Escapes(DropDot(a)) then Err(NotRelativePath(DropDot(a)))
    else if !EndsWith(DropDot(a), BuildSuffix) then Err(NotBuildFile(DropDot(a)))
    else Ok(DropDot(a))
  }

  /** The correction only refuses more: whatever it accepts, the check as
      written accepts with the same value. */
  lemma CheckArgRefines(arg: string)
    ensures CheckArg(arg).Ok? ==> CheckArgAsWritten(arg) == CheckArg(arg)
    ensures CheckArgAsWritten(arg).Ok? && !Escapes(CheckArgAsWritten(arg).value) ==> CheckArg(arg) == CheckArgAsWritten(arg)
  {
  }

  /** A path without surrounding whitespace, spelled with or without "./",
      passes as the same BUILD file under either check: the two spellings
      are repeats. */
  lemma DotSpellingsAgree(p: string)
    requires NoEdgeSpace(p) && p != "" && !Escapes(p) && !StartsWith(p, "./") && EndsWith(p, BuildSuffix)
    ensures CheckArgAsWritten("./" + p) == CheckArgAsWritten(p) == Ok(p)
    ensures CheckArg("./" + p) == CheckArg(p) == Ok(p)
  {
    var q := "./" + p;
    assert NoEdgeSpace(q) by {
      assert q[0] == '.' && q[|q| - 1] == p[|p| - 1];
    }
    assert q[..2] == "./";
    assert q[2..] == p;
    assert !StartsWith(q, "/") by {
      assert q[0] == '.';
    }
    assert !StartsWith(q, "../") by {
      assert q[1] == '/';
    }
  }

  /** The first pass over already checked arguments, in order: the first
      failure ends the run, and so does a file named a second time. */
  function Collect(rs: seq<Result<string>>): (r: Result<seq<string>>)
    ensures r.Ok? ==> |r.value| == |rs| && NoDup(r.value)
    ensures r.Ok? ==> forall i :: 0 <= i < |rs| ==> rs[i] == Ok(r.value[i])
  {
    if |rs| == 0 then Ok([])
    else
      var n := |rs| - 1;
      var prev :- Collect(rs[..n]);
      var v :- rs[n];
      if v in prev then Err(RepeatedBuildFile(v))
      else
        var r := prev + [v];
        assert NoDup(r) by {
          forall i, j | 0 <= i < j < |r| ensures r[i] != r[j] {
            if j == n {
              assert r[i] == prev[i];
            }
          }
        }
        assert forall i :: 0 <= i < n ==> rs[..n][i] == rs[i];
        Ok(r)
  }

  /** Collecting succeeds exactly when every result is a success and no two
      results are the same file. */
  lemma {:induction false} CollectOk(rs: seq<Result<string>>)
    ensures Collect(rs).Ok? <==>
      && (forall i :: 0 <= i < |rs| ==> rs[i].Ok?)
      && (forall i, j :: 0 <= i < j < |rs| ==> rs[i] != rs[j])
  {
    if |rs| > 0 {
      var n := |rs| - 1;
      var p := rs[..n];
      CollectOk(p);
      assert forall i :: 0 <= i < n ==> p[i] == rs[i];
      var prev := Collect(p);
      if prev.Ok? && rs[n].Ok? {
        var v := rs[n].value;
        if v in prev.value {
          var i :| 0 <= i < n && prev.value[i] == v;
          assert rs[i] == rs[n];
        }
      }
    }
  }

  /** Each argument checked on its own, as the program does. */
  function Checks(args: seq<string>): (r: seq<Result<string>>)
    ensures |r| == |args| && forall i :: 0 <= i < |args| ==> r[i] == CheckArgAsWritten(args[i])
  {
    seq(|args|, i requires 0 <= i < |args| => CheckArgAsWritten(args[i]))
  }

  /** The first pass over the command line, as the program runs it. */
  function CheckArgs(args: seq<string>): (r: Result<seq<string>>)
    ensures r.Ok? ==> |r.value| == |args| && NoDup(r.value)
    ensures r.Ok? ==> forall i :: 0 <= i < |args| ==> CheckArgAsWritten(args[i]) == Ok(r.value[i])
  {
    Collect(Checks(args))
  }

  /** The first pass succeeds exactly when every argument passes on its own
      and no two arguments name the same BUILD file. */
  lemma CheckArgsOk(args: seq<string>)
    ensures CheckArgs(args).Ok? <==>
      && (forall i :: 0 <= i < |args| ==> CheckArgAsWritten(args[i]).Ok?)
      && (forall i, j :: 0 <= i < j < |args| ==> CheckArgAsWritten(args[i]) != CheckArgAsWritten(args[j]))
  {
    CollectOk(Checks(args));
  }

  /** Each argument under the corrected check. */
  function StrictChecks(args: seq<string>): (r: seq<Result<string>>)
    ensures |r| == |args| && forall i :: 0 <= i < |args| ==> r[i] == CheckArg(args[i])
  {
    seq(|args|, i requires 0 <= i < |args| => CheckArg(args[i]))
  }

  /** The first pass with the corrected check: no accepted path leaves the
      workspace. */
  function CheckArgsStrict(args: seq<string>): (r: Result<seq<string>>)
    ensures r.Ok? ==> |r.value| == |args| && NoDup(r.value)
    ensures r.Ok? ==> forall i :: 0 <= i < |args| ==> CheckArg(args[i]) == Ok(r.value[i]) && !Escapes(r.value[i])
  {
    Collect(StrictChecks(args))
  }

  /** The corrected first pass only refuses more: when it succeeds, the
      program's first pass succeeds with the same BUILD paths. */
  lemma CheckArgsRefines(args: seq<string>)
    ensures CheckArgsStrict(args).Ok? ==> CheckArgs(args) == CheckArgsStrict(args)
  {
    if CheckArgsStrict(args).Ok? {
      forall i | 0 <= i < |args| ensures Checks(args)[i] == StrictChecks(args)[i] {
        CheckArgRefines(args[i]);
      }
      assert Checks(args) == StrictChecks(args);
    }
  }

  /** The program accepts "./../x/BUILD" and goes on to read package
      "../x". */
  lemma CheckArgsDotDotExample()
    ensures CheckArgs(["./../x/BUILD"]) == Ok(["../x/BUILD"])
  {
    var args := ["./../x/BUILD"];
    DotDotSlipsThrough("x/BUILD");
    assert args[0] == "./../" + "x/BUILD";
    assert "../" + "x/BUILD" == "../x/BUILD";
    CheckArgsOk(args);
    var v := CheckArgs(args).value;
    assert v[0] == "../x/BUILD";
    assert v == ["../x/BUILD"];
  }

  /** The corrected first pass refuses the same command line. */
  lemma CheckArgsStrictDotDotExample()
    ensures CheckArgsStrict(["./../x/BUILD"]) == Err(NotRelativePath("../x/BUILD"))
  {
    DotDotSlipsThrough("x/BUILD");
    assert "./../" + "x/BUILD" == "./../x/BUILD";
    assert "../" + "x/BUILD" == "../x/BUILD";
    var rs := StrictChecks(["./../x/BUILD"]);
    assert rs == [Err(NotRelativePath("../x/BUILD"))];
    assert rs[..0] == [];
  }

  /** The second pass's `packageName[:-6]`: the package directory of an
      accepted BUILD path. */
  function PackageOf(path: string): (r: string)
    requires EndsWith(path, BuildSuffix)
    ensures r + BuildSuffix == path
  {
    path[..|path| - 6]
  }

  /** One step of the second pass: the package at `raw` is read and its
      rules expanded. Packages read before keep their place and content. */
  method ReadPackage(w: World, raw: string, build: BuildFiles, version: string) returns (r: Result<(World, nat)>)
    requires Valid(w, build) && w.stack == []
    ensures r.Ok? ==> var (w3, pi) := r.value;
      && Valid(w3, build) && Grows(w, w3) && w3.stack == []
      && pi == |w.pkgs| && pi < |w3.pkgs| && w3.pkgs[pi].name == Normalize(raw)
  {
    var loaded :- LoadPackage(w, raw, build, version);
    var (w2, pi) := loaded;
    var w3 :- ExpandRules(w2, pi, build, version);
    GrowsTrans(w, w2, w3);
    return Ok((w3, pi));
  }

  /** The package directories of accepted BUILD paths, in order. */
  function PackagesOf(paths: seq<string>): (r: seq<string>)
    requires forall m :: 0 <= m < |paths| ==> EndsWith(paths[m], BuildSuffix)
    ensures |r| == |paths| && forall m :: 0 <= m < |paths| ==> r[m] + BuildSuffix == paths[m]
  {
    seq(|paths|, m requires 0 <= m < |paths| => PackageOf(paths[m]))
  }

  /** The second pass: each accepted file's package is read (registered in
      the global map, its BUILD file run) and its rules expanded, in
      argument order. Nothing is read when the first pass fails. */
  method Configure(w: World, args: seq<string>, build: BuildFiles, version: string) returns (r: Result<(World, seq<nat>)>)
    requires Valid(w, build) && w.stack == []
    ensures CheckArgs(args).Err? ==> r == Err(CheckArgs(args).error)
    ensures r.Ok? ==> CheckArgs(args).Ok? && |r.value.1| == |args|
    ensures r.Ok? ==> Valid(r.value.0, build) && Grows(w, r.value.0) && r.value.0.stack == []
    ensures r.Ok? ==> forall k :: 0 <= k < |args| ==>
      && r.value.1[k] < |r.value.0.pkgs|
      && r.value.0.pkgs[r.value.1[k]].name == Normalize(PackageOf(CheckArgs(args).value[k]))
  {
    var names :- CheckArgs(args);
    forall m | 0 <= m < |names| ensures EndsWith(names[m], BuildSuffix) {
      assert CheckArgAsWritten(args[m]) == Ok(names[m]);
    }
    var dirs := PackagesOf(names);
    r := ReadAll(w, dirs, build, version);
  }

  /** The packages at `raws` read one after the other, each from the world
      the one before left. */
  method ReadAll(w: World, raws: seq<string>, build: BuildFiles, version: string) returns (r: Result<(World, seq<nat>)>)
    requires Valid(w, build) && w.stack == []
    ensures r.Ok? ==> |r.value.1| == |raws|
    ensures r.Ok? ==> Valid(r.value.0, build) && Grows(w, r.value.0) && r.value.0.stack == []
    ensures r.Ok? ==> forall k :: 0 <= k < |raws| ==>
      && r.value.1[k] < |r.value.0.pkgs|
      && r.value.0.pkgs[r.value.1[k]].name == Normalize(raws[k])
    decreases |raws|
  {
    if |raws| == 0 {
      return Ok((w, []));
    }
    var n := |raws| - 1;
    var done :- ReadAll(w, raws[..n], build, version);
    var (cur, pis) := done;
    var loaded :- ReadPackage(cur, raws[n], build, version);
    var (w3, pi) := loaded;
    GrowsTrans(w, cur, w3);
    forall k | 0 <= k < n ensures pis[k] < |w3.pkgs| && w3.pkgs[pis[k]].name == Normalize(raws[k]) {
      assert raws[..n][k] == raws[k];
      assert w3.pkgs[pis[k]] == cur.pkgs[pis[k]];
    }
    return Ok((w3, pis + [pi]));
  }
}
