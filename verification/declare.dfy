/** Rule declarations as a BUILD file makes them (blade3/cc.py constructors,
    blade3/shell.py, blade3/data.py, blade3/genrule.py `ProtoLibrary` and
    `SetPackageAttr`). Running the BUILD file is replaced by its result: the
    list of calls it makes, each a descriptor name with keyword arguments.
    Each constructor is split at `addRule`, since some of its checks run
    before registration and some after. */
module Declare {
  import opened Base
  import opened Text
  import opened Kinds
  import opened Dedup
  import opened Packages

  /** The Python values a keyword argument can hold, as far as the checks
      distinguish them. A float is kept as its exact value, which is all
      the comparisons with `True` and `False` look at. */
  datatype Value = VStr(s: string) | VBool(b: bool) | VInt(i: int) | VFloat(x: real) | VList(items: seq<Value>) | VOther

  /** One call in a BUILD file: the descriptor name and its keyword
      arguments in the order the call gives them. */
  datatype Call = Call(fn: string, kwargs: seq<(string, Value)>)

  function Get(kwargs: seq<(string, Value)>, key: string): (r: Option<Value>)
    ensures r.Some? <==> exists i :: 0 <= i < |kwargs| && kwargs[i].0 == key
    ensures r.Some? ==> (key, r.value) in kwargs
  {
    if |kwargs| == 0 then None
    else if kwargs[0].0 == key then Some(kwargs[0].1)
    else Get(kwargs[1..], key)
  }

  predicate Has(kwargs: seq<(string, Value)>, key: string) {
    Get(kwargs, key).Some?
  }

  predicate IsStr(v: Value) {
    v.VStr?
  }

  /** The strings of a list of string values. */
  function Strs(vs: seq<Value>): (r: seq<string>)
    requires forall i :: 0 <= i < |vs| ==> IsStr(vs[i])
    ensures |r| == |vs| && forall i :: 0 <= i < |vs| ==> vs[i] == VStr(r[i])
  {
    if |vs| == 0 then []
    else
      assert IsStr(vs[0]);
      [vs[0].s] + Strs(vs[1..])
  }

  function AsValues(ss: seq<string>): (r: seq<Value>)
    ensures |r| == |ss| && forall i :: 0 <= i < |ss| ==> r[i] == VStr(ss[i])
  {
    if |ss| == 0 then [] else [VStr(ss[0])] + AsValues(ss[1..])
  }

  /** `checkArguments`: the value must be a list whose items are all strings. */
  function CheckArguments(attr: string, v: Value): (r: Result<seq<string>>)
    ensures r.Ok? <==> v.VList? && forall i :: 0 <= i < |v.items| ==> IsStr(v.items[i])
    ensures r.Ok? ==> AsValues(r.value) == v.items
    ensures r.Err? ==> r.error == NotStringList(attr)
  {
    if v.VList? && forall i :: 0 <= i < |v.items| ==> IsStr(v.items[i]) then
      var ss := Strs(v.items);
      assert AsValues(ss) == v.items;
      Ok(ss)
    else Err(NotStringList(attr))
  }

  /** A list argument that defaults to the empty list. */
  function ListArg(kwargs: seq<(string, Value)>, key: string): Value {
    match Get(kwargs, key)
    case Some(v) => v
    case None => VList([])
  }

  // ---- filterSrc ----

  /** Reference definition: the sources not excluded, in order. */
  function Kept(srcs: seq<string>, excludes: seq<string>): (r: seq<string>)
    ensures forall x :: x in r <==> x in srcs && x !in excludes
    ensures |r| <= |srcs|
  {
    if |srcs| == 0 then []
    else
      var init, last := srcs[..|srcs| - 1], srcs[|srcs| - 1];
      assert srcs == init + [last];
      Kept(init, excludes) + (if last in excludes then [] else [last])
  }

  /** Filtering never reorders: a source kept keeps as many copies as it had. */
  lemma {:induction false} KeptCounts(srcs: seq<string>, excludes: seq<string>, x: string)
    ensures x !in excludes ==> multiset(Kept(srcs, excludes))[x] == multiset(srcs)[x]
    ensures x in excludes ==> multiset(Kept(srcs, excludes))[x] == 0
    decreases |srcs|
  {
    if |srcs| > 0 {
      var init, last := srcs[..|srcs| - 1], srcs[|srcs| - 1];
      assert srcs == init + [last];
      KeptCounts(init, excludes, x);
    }
  }

  /** `filterSrc`: one pass over the sources, skipping excluded names. */
  method FilterSrc(srcs: seq<string>, excludes: seq<string>) returns (res: seq<string>)
    ensures res == Kept(srcs, excludes)
  {
    res := [];
    var i := 0;
    while i < |srcs|
      invariant 0 <= i <= |srcs|
      invariant res == Kept(srcs[..i], excludes)
    {
      assert srcs[..i + 1][..i] == srcs[..i];
      if srcs[i] !in excludes {
        res := res + [srcs[i]];
      }
      i := i + 1;
    }
    assert srcs[..|srcs|] == srcs;
  }

  // ---- checkBaseName ----

  /** The key the base-name check files a source under: its name without the
      extension, for ".cpp" and ".c" sources only. */
  function Key(f: string): (r: Option<string>)
    ensures r.Some? ==> f == r.value + ".cpp" || f == r.value + ".c"
  {
    var (stem, e) := SplitExt(f);
    if e == ".cpp" || e == ".c" then Some(stem) else None
  }

  /** The keys of a source list, position by position. */
  function Keys(srcs: seq<string>): (r: seq<Option<string>>)
    ensures |r| == |srcs| && forall i :: 0 <= i < |srcs| ==> r[i] == Key(srcs[i])
  {
    seq(|srcs|, i requires 0 <= i < |srcs| => Key(srcs[i]))
  }

  /** Positions `i < j` hold the same present key. */
  predicate Repeat<K(==)>(keys: seq<Option<K>>, i: int, j: int)
    requires 0 <= i < j < |keys|
  {
    keys[i].Some? && keys[i] == keys[j]
  }

  /** No repeat among the first `n` keys. */
  predicate RepeatFree<K(==)>(keys: seq<Option<K>>, n: int)
    requires 0 <= n <= |keys|
  {
    forall i, j :: 0 <= i < j < n ==> !Repeat(keys, i, j)
  }

  /** Sources `i < j` clash: both are filed under the same key. */
  predicate Clash(srcs: seq<string>, i: int, j: int)
    requires 0 <= i < j < |srcs|
  {
    Repeat(Keys(srcs), i, j)
  }

  /** No clash among the first `n` sources. */
  predicate ClashFree(srcs: seq<string>, n: int)
    requires 0 <= n <= |srcs|
  {
    RepeatFree(Keys(srcs), n)
  }

  /** The scan of `checkBaseName` over the keys: a dictionary from key to the
      position that first had it, stopping at the first repeated key. */
  method FirstRepeat<K(==)>(keys: seq<Option<K>>) returns (r: Option<(nat, nat)>)
    ensures r.None? <==> RepeatFree(keys, |keys|)
    ensures r.Some? ==> r.value.0 < r.value.1 < |keys| && Repeat(keys, r.value.0, r.value.1)
                        && RepeatFree(keys, r.value.1)
  {
    var seen: map<K, nat> := map[];
    var j := 0;
    while j < |keys|
      invariant 0 <= j <= |keys|
      invariant RepeatFree(keys, j)
      invariant forall b :: b in seen ==> seen[b] < j && keys[seen[b]] == Some(b)
      invariant forall i :: 0 <= i < j && keys[i].Some? ==> keys[i].value in seen
    {
      if keys[j].Some? {
        var b := keys[j].value;
        if b in seen {
          assert Repeat(keys, seen[b], j);
          return Some((seen[b], j));
        }
        forall i | 0 <= i < j ensures !Repeat(keys, i, j) {
          if keys[i].Some? {
            assert keys[i].value in seen;
          }
        }
        seen := seen[b := j];
      }
      j := j + 1;
    }
    return None;
  }

  /** `checkBaseName`: scanning in order, the first source filed under a key
      already seen is an error naming the earlier and the later file. The
      error is determined: `j` is the first clashing position and `i` the
      only earlier source with its key. */
  method CheckBaseName(srcs: seq<string>) returns (r: Result<()>)
    ensures r.Ok? <==> ClashFree(srcs, |srcs|)
    ensures r.Err? ==> exists i, j :: 0 <= i < j < |srcs| && Clash(srcs, i, j) && ClashFree(srcs, j)
                        && r.error == ConflictingSources(srcs[i], srcs[j])
  {
    var keys := Keys(srcs);
    var found := FirstRepeat(keys);
    if found.None? {
      assert RepeatFree(keys, |srcs|);
      return Ok(());
    }
    var (i, j) := found.value;
    assert Clash(srcs, i, j) && ClashFree(srcs, j);
    assert !ClashFree(srcs, |srcs|) by {
      assert Repeat(keys, i, j);
    }
    return Err(ConflictingSources(srcs[i], srcs[j]));
  }

  /** Only ".cpp" and ".c" sources are checked: ".cc" sources may share a
      base name with each other or with a ".c" file. */
  lemma CcSourcesNeverClash(srcs: seq<string>)
    requires forall i :: 0 <= i < |srcs| ==> EndsWith(srcs[i], ".cc")
    ensures ClashFree(srcs, |srcs|)
  {
    forall i | 0 <= i < |srcs| ensures Key(srcs[i]).None? {
      var f := srcs[i];
      assert f[|f| - 2] == 'c' && f[|f| - 1] == 'c';
    }
  }

  // ---- checkSrcs ----

  /** The per-file rule of `checkSrcs`, by the kind's flags. */
  function SourceError(f: string, fl: Flags): (r: Option<Error>)
    ensures r.Some? && r.value.SourceOutsidePackage? ==> StartsWith(f, "/") || Contains(f, "..")
    ensures r.None? ==> !StartsWith(f, "/") && !Contains(f, "..")
  {
    if StartsWith(f, "/") || Contains(f, "..") then Some(SourceOutsidePackage(f))
    else if fl.isProto then (if EndsWith(f, ".proto") then None else Some(WrongSourceType(f, ".proto")))
    else if fl.isShellScript || fl.isScriptTest then (if EndsWith(f, ".sh") then None else Some(WrongSourceType(f, ".sh")))
    else if fl.isData then None
    else if (fl.isBinary || fl.isUnittest || fl.isLibrary || fl.isPyext || fl.isMpi || fl.isJniUsed)
            && !EndsWith(f, ".cc") && !EndsWith(f, ".c") && !EndsWith(f, ".cpp")
      then Some(WrongSourceType(f, ".c or .cc"))
    else None
  }

  /** `checkSrcs`: the first source that breaks the rule of its kind is
      reported; a list where none does passes. */
  function CheckSrcs(srcs: seq<string>, fl: Flags): (r: Result<()>)
    ensures r.Ok? <==> forall i :: 0 <= i < |srcs| ==> SourceError(srcs[i], fl).None?
    ensures r.Err? ==> exists i :: 0 <= i < |srcs| && SourceError(srcs[i], fl) == Some(r.error)
                        && forall j :: 0 <= j < i ==> SourceError(srcs[j], fl).None?
  {
    if |srcs| == 0 then Ok(())
    else match SourceError(srcs[0], fl)
      case Some(e) => Err(e)
      case None =>
        var rest := CheckSrcs(srcs[1..], fl);
        if rest.Err? then
          var i :| 0 <= i < |srcs[1..]| && SourceError(srcs[1..][i], fl) == Some(rest.error)
                   && forall j :: 0 <= j < i ==> SourceError(srcs[1..][j], fl).None?;
          assert SourceError(srcs[i + 1], fl) == Some(rest.error);
          Err(rest.error)
        else Ok(())
  }

  /** Every kind accepts a plain C++ source except proto, shell and script
      test rules; data rules accept any file inside the package; the C++
      kinds accept exactly ".cc", ".c" and ".cpp" and refuse anything else
      as "must be .c or .cc". */
  lemma CheckSrcsByKind(k: Kind, f: string)
    requires !StartsWith(f, "/") && !Contains(f, "..")
    ensures EndsWith(f, ".cc") && !FlagsOf(k).isProto && !FlagsOf(k).isShellScript ==> SourceError(f, FlagsOf(k)).None?
    ensures !FlagsOf(k).isProto && !FlagsOf(k).isShellScript && !FlagsOf(k).isScriptTest && !FlagsOf(k).isData ==>
              (SourceError(f, FlagsOf(k)).None? <==> EndsWith(f, ".cc") || EndsWith(f, ".c") || EndsWith(f, ".cpp"))
              && (SourceError(f, FlagsOf(k)).Some? ==> SourceError(f, FlagsOf(k)) == Some(WrongSourceType(f, ".c or .cc")))
    ensures k == CcData ==> SourceError(f, FlagsOf(k)).None?
    ensures k == ProtoLibrary ==> (SourceError(f, FlagsOf(k)).None? <==> EndsWith(f, ".proto"))
    ensures FlagsOf(k).isShellScript ==> (SourceError(f, FlagsOf(k)).None? <==> EndsWith(f, ".sh"))
  {
  }

  // ---- the constructors ----

  /** The attributes of a constructed rule. `ldflags` is the list the binary
      constructors build (empty for the others); pyext keeps its argument
      as given, since nothing reads it. */
  datatype Spec = Spec(
    kind: Kind, name: string, srcs: seq<string>, deps: seq<string>,
    cppflags: seq<string>, cflags: seq<string>, cxxflags: seq<string>,
    ldflags: seq<Value>, pyextLdflags: Value)

  /** What the constructor knows before `addRule`: the name, the checked
      source list, and the raw dependency argument. */
  datatype Header = Header(name: string, srcs: seq<string>, depsArg: Value)

  /** `CCLibrary.__init__` up to `addRule`: "name" and "srcs" must be given
      and "srcs" must be a list of strings. */
  function DeclareHeader(kwargs: seq<(string, Value)>): (r: Result<Header>)
    ensures !Has(kwargs, "name") ==> r == Err(MissingArgument("name"))
    ensures Has(kwargs, "name") && !Has(kwargs, "srcs") ==> r == Err(MissingArgument("srcs"))
    ensures r.Ok? ==> Get(kwargs, "name") == Some(VStr(r.value.name))
    ensures r.Ok? ==> Get(kwargs, "srcs") == Some(VList(AsValues(r.value.srcs)))
  {
    if !Has(kwargs, "name") then Err(MissingArgument("name"))
    else if !Has(kwargs, "srcs") then Err(MissingArgument("srcs"))
    else
      var n := Get(kwargs, "name").value;
      if !n.VStr? then Err(ScriptError("name"))
      else
        var srcs :- CheckArguments("srcs", Get(kwargs, "srcs").value);
        Ok(Header(n.s, srcs, ListArg(kwargs, "deps")))
  }

  /** The flag the constructor appends to `cxxflags`: the `git describe`
      output, quoted for the shell (the version is a parameter here). */
  function VersionFlag(version: string): string {
    "-DGIT_DESC=\\\"" + Strip(version) + "\\\""
  }

  /** `CCLibrary.__init__` after `addRule`, then the subclass constructor:
      the dependency, exclusion and flag lists must be string lists, the
      kept sources must not clash, the version flag is appended to
      `cxxflags`, "src" is rejected as a misspelling, and binaries build
      their linker flags. */
  method DeclareBody(k: Kind, kwargs: seq<(string, Value)>, h: Header, version: string) returns (r: Result<Spec>)
    ensures r.Ok? ==> r.value.kind == k && r.value.name == h.name
    ensures r.Ok? ==> ListArg(kwargs, "excludes").VList?
    ensures r.Ok? ==> forall x :: x in r.value.srcs <==> x in h.srcs && VStr(x) !in ListArg(kwargs, "excludes").items
    ensures r.Ok? ==> ClashFree(r.value.srcs, |r.value.srcs|)
    ensures r.Ok? ==> h.depsArg.VList? && AsValues(r.value.deps) == h.depsArg.items
    ensures r.Ok? ==> |r.value.cxxflags| > 0 && r.value.cxxflags[|r.value.cxxflags| - 1] == VersionFlag(version)
    ensures r.Ok? ==> !Has(kwargs, "src")
    ensures r.Ok? ==> LinkerArgs(k, kwargs) == Ok(r.value.ldflags)
    ensures !h.depsArg.VList? ==> r == Err(NotStringList("deps"))
    ensures Has(kwargs, "src") ==> r.Err?
    ensures r.Err? ==> !r.error.WrongSourceType?
  {
    var ds :- DeclareSources(kwargs, h);
    var flags :- DeclareFlags(kwargs, version);
    var (cppflags, cflags, cxxflags) := flags;
    if Has(kwargs, "src") {
      return Err(MisspelledSrcs);
    }
    var ld :- LinkerArgs(k, kwargs);
    var pyLd := if k == CcPyExt then ListArg(kwargs, "ldflags") else VList([]);
    var spec := Spec(k, h.name, ds.1, ds.0, cppflags, cflags, cxxflags, ld, pyLd);
    if k == SsTest {
      ScriptTestSuffixCheckIsInert(spec);
      r := ScriptTestInit(spec);
    } else {
      r := Ok(spec);
    }
  }

  /** The flag lists of `DeclareBody`: `cppflags`, `cflags` and `cxxflags`
      must be string lists, and the version flag is appended to `cxxflags`. */
  method DeclareFlags(kwargs: seq<(string, Value)>, version: string) returns (r: Result<(seq<string>, seq<string>, seq<string>)>)
    ensures r.Ok? ==> var cxx := r.value.2; |cxx| > 0 && cxx[|cxx| - 1] == VersionFlag(version)
    ensures r.Ok? ==> ListArg(kwargs, "cppflags").VList? && AsValues(r.value.0) == ListArg(kwargs, "cppflags").items
    ensures r.Ok? ==> ListArg(kwargs, "cflags").VList? && AsValues(r.value.1) == ListArg(kwargs, "cflags").items
    ensures r.Err? ==> !r.error.WrongSourceType?
  {
    var cppflags :- CheckArguments("cppflags", ListArg(kwargs, "cppflags"));
    var cflags :- CheckArguments("cflags", ListArg(kwargs, "cflags"));
    var cxxArg := ListArg(kwargs, "cxxflags");
    if !cxxArg.VList? {
      return Err(ScriptError("cxxflags"));
    }
    var cxxflags :- CheckArguments("cxxflags", VList(cxxArg.items + [VStr(VersionFlag(version))]));
    assert AsValues(cxxflags)[|cxxflags| - 1] == VStr(VersionFlag(version));
    return Ok((cppflags, cflags, cxxflags));
  }

  /** The first part of `DeclareBody`: the dependency and exclusion lists
      must be string lists, and the kept sources must not clash. The result
      is the dependency list and the kept sources. */
  method DeclareSources(kwargs: seq<(string, Value)>, h: Header) returns (r: Result<(seq<string>, seq<string>)>)
    ensures r.Ok? ==> ListArg(kwargs, "excludes").VList?
    ensures r.Ok? ==> forall x :: x in r.value.1 <==> x in h.srcs && VStr(x) !in ListArg(kwargs, "excludes").items
    ensures r.Ok? ==> ClashFree(r.value.1, |r.value.1|)
    ensures r.Ok? ==> h.depsArg.VList? && AsValues(r.value.0) == h.depsArg.items
    ensures !h.depsArg.VList? ==> r == Err(NotStringList("deps"))
    ensures r.Err? ==> !r.error.WrongSourceType?
  {
    var deps :- CheckArguments("deps", h.depsArg);
    var exArg := ListArg(kwargs, "excludes");
    var excludes :- CheckArguments("excludes", exArg);
    assert forall x :: VStr(x) in exArg.items <==> x in excludes by {
      assert AsValues(excludes) == exArg.items;
    }
    var srcs := FilterSrc(h.srcs, excludes);
    var _ :- CheckBaseName(srcs);
    return Ok((deps, srcs));
  }

  /** The `ldflags` the binary constructors build: `CCBinary` requires the
      argument (it appends to `self.ldflags`, which only the argument sets)
      and appends "-g"; `CCTest` then appends "-lgtest" unless present. */
  function LinkerArgs(k: Kind, kwargs: seq<(string, Value)>): (r: Result<seq<Value>>)
    ensures !BinaryLike(k) ==> r == Ok([])
    ensures BinaryLike(k) && r.Ok? ==> Get(kwargs, "ldflags").Some? && Get(kwargs, "ldflags").value.VList?
    ensures BinaryLike(k) && r.Ok? ==> var given := Get(kwargs, "ldflags").value.items;
      r.value == given + [VStr("-g")] + (if k == CcTest && VStr("-lgtest") !in given then [VStr("-lgtest")] else [])
    ensures BinaryLike(k) && (Get(kwargs, "ldflags").None? || !Get(kwargs, "ldflags").value.VList?) ==> r == Err(ScriptError("ldflags"))
  {
    if !BinaryLike(k) then Ok([])
    else match Get(kwargs, "ldflags")
      case None => Err(ScriptError("ldflags"))
      case Some(v) =>
        if !v.VList? then Err(ScriptError("ldflags"))
        else
          var withDebug := v.items + [VStr("-g")];
          if k == CcTest && VStr("-lgtest") !in withDebug then Ok(withDebug + [VStr("-lgtest")])
          else Ok(withDebug)
  }

  /** `getLinkerFlags`: the linker flags deduplicated, last occurrence kept. */
  function LinkerFlags(ldflags: seq<Value>): (r: seq<Value>)
    ensures NoDup(r) && forall x :: x in r <==> x in ldflags
  {
    KeepLast(ldflags)
  }

  /** A binary's linker flags keep every given flag once and end with "-g";
      a test's end with "-g" then "-lgtest" when it did not ask for gtest. */
  lemma {:induction false} BinaryLinkerFlagsOrder(k: Kind, kwargs: seq<(string, Value)>)
    requires BinaryLike(k) && LinkerArgs(k, kwargs).Ok?
    ensures var fl := LinkerFlags(LinkerArgs(k, kwargs).value);
      VStr("-g") in fl && (forall x :: x in Get(kwargs, "ldflags").value.items ==> x in fl)
    ensures var given := Get(kwargs, "ldflags").value.items;
      k != CcTest || VStr("-lgtest") in given ==>
        LastBefore(VStr("-g"), VStr("-g"), LinkerFlags(LinkerArgs(k, kwargs).value)) == false
        && LinkerFlags(LinkerArgs(k, kwargs).value)[|LinkerFlags(LinkerArgs(k, kwargs).value)| - 1] == VStr("-g")
    ensures var given := Get(kwargs, "ldflags").value.items;
      k == CcTest && VStr("-lgtest") !in given ==>
        LastBefore(VStr("-g"), VStr("-lgtest"), LinkerFlags(LinkerArgs(k, kwargs).value))
  {
    var given := Get(kwargs, "ldflags").value.items;
    var args := LinkerArgs(k, kwargs).value;
    var fl := LinkerFlags(args);
    if k == CcTest && VStr("-lgtest") !in given {
      assert args == (given + [VStr("-g")]) + [VStr("-lgtest")];
      KeepLastPreservesOrder(args, VStr("-g"), VStr("-lgtest"));
      LastBeforeConcat(given + [VStr("-g")], [VStr("-lgtest")], VStr("-g"), VStr("-lgtest"));
    } else {
      assert args == given + [VStr("-g")];
      KeepLastEndsWith(given, VStr("-g"));
    }
  }

  /** Deduplicating keeps the final element of the input last. */
  lemma {:induction false} KeepLastEndsWith<T(!new)>(s: seq<T>, x: T)
    ensures |KeepLast(s + [x])| > 0 && KeepLast(s + [x])[|KeepLast(s + [x])| - 1] == x
    decreases |s|
  {
    if |s| == 0 {
      assert KeepLast([x]) == [x];
    } else {
      assert (s + [x])[1..] == s[1..] + [x];
      KeepLastEndsWith(s[1..], x);
    }
  }

  /** The "_test.sh" check of `SSTest.__init__` runs over `self.srcList`,
      the attribute `Rule.__init__` sets to [] and nothing refills (the
      sources live in `srcsList`). */
  function ScriptTestSuffixCheck(srcList: seq<string>): (r: Result<()>)
    ensures r.Ok? <==> forall i :: 0 <= i < |srcList| ==> EndsWith(srcList[i], "_test.sh")
  {
    if |srcList| == 0 then Ok(())
    else if !EndsWith(srcList[0], "_test.sh") then Err(WrongSourceType(srcList[0], "_test.sh"))
    else ScriptTestSuffixCheck(srcList[1..])
  }

  /** `Rule.__init__`'s `self.srcList`, which nothing refills. */
  const RuleSrcList: seq<string> := []

  /** The rest of `SSTest.__init__` once `CCLibrary.__init__` has built the
      rule: the "_test.sh" loop over `srcList`. */
  function ScriptTestInit(spec: Spec): (r: Result<Spec>)
    ensures r.Ok? ==> r.value == spec
  {
    match ScriptTestSuffixCheck(RuleSrcList)
    case Ok(_) => Ok(spec)
    case Err(e) => Err(e)
  }

  /** The `ss_test` constructor never refuses a rule for its source names:
      its loop sees `srcList`, not the declared sources. Run over the
      declared sources, the same loop would refuse any that lacks the
      "_test.sh" suffix. */
  lemma ScriptTestSuffixCheckIsInert(spec: Spec)
    ensures ScriptTestInit(spec) == Ok(spec)
    ensures (exists i :: 0 <= i < |spec.srcs| && !EndsWith(spec.srcs[i], "_test.sh")) ==> ScriptTestSuffixCheck(spec.srcs).Err?
  {
  }

  // ---- set_package_attr ----

  /** Python's `value == True` / `value == False`: an int or a float equal
      to 1 or 0 compares equal as well. */
  predicate PyTrue(v: Value) { v == VBool(true) || v == VInt(1) || v == VFloat(1.0) }
  predicate PyFalse(v: Value) { v == VBool(false) || v == VInt(0) || v == VFloat(0.0) }

  /** The two errors `SetPackageAttr` reports about an argument. */
  predicate KeyError(e: Error, key: string) {
    e == UnknownPackageAttr(key) || e == InvalidPackageAttr(key)
  }

  /** `SetPackageAttr.__init__`: arguments are visited in order; any key but
      "private" is an error, a true value makes the package private, a false
      value changes nothing, and any other value is an error. */
  function SetPackageAttr(p: Package, kwargs: seq<(string, Value)>): (r: Result<Package>)
    ensures r.Ok? <==> forall i :: 0 <= i < |kwargs| ==> kwargs[i].0 == "private" && (PyTrue(kwargs[i].1) || PyFalse(kwargs[i].1))
    ensures r.Ok? ==> r.value == p.(isPrivate := p.isPrivate || exists i :: 0 <= i < |kwargs| && PyTrue(kwargs[i].1))
    ensures r.Err? ==> exists i :: 0 <= i < |kwargs| && KeyError(r.error, kwargs[i].0)
    decreases |kwargs|
  {
    if |kwargs| == 0 then Ok(p)
    else
      var (key, v) := kwargs[0];
      if key != "private" then Err(UnknownPackageAttr(key))
      else if !PyTrue(v) && !PyFalse(v) then Err(InvalidPackageAttr(key))
      else
        var q := if PyTrue(v) then p.(isPrivate := true) else p;
        var rest := SetPackageAttr(q, kwargs[1..]);
        if rest.Err? then
          var i :| 0 <= i < |kwargs[1..]| && KeyError(rest.error, kwargs[1..][i].0);
          assert kwargs[1..][i] == kwargs[i + 1];
          rest
        else
          assert forall i :: 0 < i < |kwargs| ==> kwargs[i] == kwargs[1..][i - 1];
          assert (exists i :: 0 <= i < |kwargs| && PyTrue(kwargs[i].1)) ==
                 (PyTrue(v) || exists i :: 0 <= i < |kwargs[1..]| && PyTrue(kwargs[1..][i].1));
          rest
  }
}
