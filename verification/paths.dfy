/** Artifact names and paths (blade3/cc.py, blade3/genrule.py, blade3/shell.py,
    blade3/dirs.py). Every function here is a deterministic string function of
    the rule kind, rule name, package name and setting; `os.path.join` is
    modelled by `Text.PathJoin`, and `RelPath` lemmas give the plain "/"-joined
    shape for relative names. */
module Paths {
  import opened Text
  import opened Kinds
  import opened StrOrder

  /** `build_dir` and `settings_list` (blade3/dirs.py). */
  const BuildDir := ".build"
  const Settings: seq<string> := ["debug", "release"]
  /** The two layout-checking settings that proto and data rules add. */
  const StructSettings: seq<string> := ["struct_check_dbg", "struct_check_opt"]
  const AllSettings: seq<string> := Settings + StructSettings

  /** A setting name: one path component. */
  predicate Setting(s: string) {
    Rel(s) && !HasChar(s, '/')
  }

  lemma SettingsAreComponents()
    ensures forall s :: s in AllSettings ==> Setting(s)
    ensures Settings[0] == "debug" && |AllSettings| == 4
  {
    assert AllSettings == ["debug", "release", "struct_check_dbg", "struct_check_opt"];
  }

  /** `libraryName`: the archive file name, lower-cased. */
  function LibraryName(name: string): (r: string)
    ensures |r| == |name| + 5
    ensures StartsWith(r, "lib") && EndsWith(r, ".a")
    ensures r[3..|r| - 2] == Lower(name)
  {
    "lib" + Lower(name) + ".a"
  }

  function TargetRootDir(s: string): string {
    PathJoin(PathJoin(BuildDir, s), "targets")
  }

  function TargetDir(s: string, pkg: string): string {
    PathJoin(TargetRootDir(s), pkg)
  }

  /** `libraryPath`: the archive under the per-setting target tree. */
  function LibraryPath(s: string, pkg: string, name: string): string {
    PathJoin(TargetDir(s, pkg), LibraryName(name))
  }

  /** `makeTargetName` of every registered kind: the archive for libraries
      (and for data, shell and proto rules, which inherit it), the bare rule
      name for binaries and tests, and the rule name with ".so" for pyext. */
  function MakeTargetName(k: Kind, s: string, pkg: string, name: string): string {
    if BinaryLike(k) then PathJoin(TargetDir(s, pkg), name)
    else if k == CcPyExt then PathJoin(TargetDir(s, pkg), name + ".so")
    else LibraryPath(s, pkg, name)
  }

  function PubTargetRootDir(s: string): string {
    PathJoin(PathJoin("pub", s), "targets")
  }

  function PubTargetDir(s: string, pkg: string): string {
    PathJoin(PubTargetRootDir(s), pkg)
  }

  /** `pubLibraryPath`: the archive of a publish-only package, under "pub". */
  function PubLibraryPath(s: string, pkg: string, name: string): string {
    PathJoin(PubTargetDir(s, pkg), LibraryName(name))
  }

  function ObjectRoot(s: string): string {
    PathJoin(PathJoin(BuildDir, s), "objs")
  }

  /** `objectPath`: an object file under the package's object directory. */
  function ObjectPath(file: string, s: string, pkg: string): string {
    PathJoin(PathJoin(ObjectRoot(s), pkg), file)
  }

  /** `objectDir(obj, s)`: the directory `obj` lands in, keeping any
      sub-directory of the source. */
  function ObjectDir(obj: string, s: string, pkg: string): string {
    var d := Dirname(obj);
    if d == "" then PathJoin(ObjectRoot(s), pkg) else PathJoin(PathJoin(ObjectRoot(s), pkg), d)
  }

  /** `srcPath`: a source file of the package, from the code-base root. */
  function SrcPath(pkg: string, f: string): string {
    PathJoin(pkg, f)
  }

  /** The object file of a C or C++ source: its extension replaced by ".o". */
  function ObjectOf(src: string): string {
    SplitExt(src).0 + ".o"
  }

  /** `objectPathList`: one object per source, in source order. The source
      builds a space-separated string with a leading space; the model keeps
      the list. */
  function ObjectPathList(srcs: seq<string>, s: string, pkg: string): (r: seq<string>)
    ensures |r| == |srcs|
    ensures forall i :: 0 <= i < |srcs| ==> r[i] == ObjectPath(ObjectOf(srcs[i]), s, pkg)
  {
    if |srcs| == 0 then [] else [ObjectPath(ObjectOf(srcs[0]), s, pkg)] + ObjectPathList(srcs[1..], s, pkg)
  }

  /** Joining a non-empty directory that does not end in "/" with a name
      that does not start with "/" puts exactly one "/" between them. */
  lemma JoinPlain(a: string, b: string)
    requires a != "" && a[|a| - 1] != '/' && b != "" && b[0] != '/'
    ensures PathJoin(a, b) == a + "/" + b
  {
    assert !StartsWith(b, "/") by { assert b[..1] == [b[0]]; }
    assert !EndsWith(a, "/") by { assert a[|a| - 1..] == [a[|a| - 1]]; }
  }

  /** Three nested joins of relative components. */
  lemma Join3(root: string, s: string, sub: string, pkg: string)
    requires Rel(root) && Rel(s) && Rel(sub) && Rel(pkg)
    ensures PathJoin(PathJoin(PathJoin(root, s), sub), pkg) == root + "/" + s + "/" + sub + "/" + pkg
  {
    JoinPlain(root, s);
    var a := root + "/" + s;
    JoinPlain(a, sub);
    var b := a + "/" + sub;
    JoinPlain(b, pkg);
  }

  lemma TargetDirShape(s: string, pkg: string)
    requires Setting(s) && Rel(pkg)
    ensures TargetDir(s, pkg) == ".build/" + s + "/targets/" + pkg
  {
    assert Rel(".build") && Rel("targets");
    Join3(".build", s, "targets", pkg);
  }

  lemma PubTargetDirShape(s: string, pkg: string)
    requires Setting(s) && Rel(pkg)
    ensures PubTargetDir(s, pkg) == "pub/" + s + "/targets/" + pkg
  {
    assert Rel("pub") && Rel("targets");
    Join3("pub", s, "targets", pkg);
  }

  /** Under relative names the archive paths are plain "/" concatenations. */
  lemma LibraryPathShapes(s: string, pkg: string, name: string)
    requires Setting(s) && Rel(pkg) && Rel(name)
    ensures LibraryPath(s, pkg, name) == ".build/" + s + "/targets/" + pkg + "/" + LibraryName(name)
    ensures PubLibraryPath(s, pkg, name) == "pub/" + s + "/targets/" + pkg + "/" + LibraryName(name)
  {
    TargetDirShape(s, pkg);
    PubTargetDirShape(s, pkg);
    var ln := LibraryName(name);
    assert ln[0] == 'l' && ln[|ln| - 1] == 'a';
    JoinPlain(TargetDir(s, pkg), ln);
    JoinPlain(PubTargetDir(s, pkg), ln);
  }

  /** Under relative names a binary is named by the rule and a Python
      extension by the rule with ".so", inside the target directory. */
  lemma TargetNameShapes(s: string, pkg: string, name: string)
    requires Setting(s) && Rel(pkg) && Rel(name)
    ensures MakeTargetName(CcBinary, s, pkg, name) == ".build/" + s + "/targets/" + pkg + "/" + name
    ensures MakeTargetName(CcPyExt, s, pkg, name) == ".build/" + s + "/targets/" + pkg + "/" + name + ".so"
  {
    TargetDirShape(s, pkg);
    var td := TargetDir(s, pkg);
    JoinPlain(td, name);
    JoinPlain(td, name + ".so");
  }

  /** The build tree and the publish tree never share a path: the first
      starts with ".build/", the second with "pub/". */
  lemma PubAndBuildTreesDisjoint(s: string, pkg: string, name: string)
    requires Setting(s) && Rel(pkg) && Rel(name)
    ensures LibraryPath(s, pkg, name) != PubLibraryPath(s, pkg, name)
  {
    LibraryPathShapes(s, pkg, name);
    assert LibraryPath(s, pkg, name)[0] == '.';
    assert PubLibraryPath(s, pkg, name)[0] == 'p';
  }

  // ---- proto_library (blade3/genrule.py) ----

  /** `genSrcPath`: the generated C++ source of a ".proto" file: the source path
      without its last six characters (Python's `[:-6]`) under ".build/pb/c++". */
  function GenSrcPath(pkg: string, f: string): (r: string)
    ensures StartsWith(r, ".build/pb/c++/") && EndsWith(r, ".pb.cc")
  {
    var r := BuildDir + "/pb/c++/" + DropLast(SrcPath(pkg, f), 6) + ".pb.cc";
    assert r[..14] == ".build/pb/c++/";
    r
  }

  /** `genHeaderPath`: the generated header, beside the generated source. */
  function GenHeaderPath(pkg: string, f: string): (r: string)
    ensures StartsWith(r, ".build/pb/c++/") && EndsWith(r, ".pb.h")
  {
    var r := BuildDir + "/pb/c++/" + DropLast(SrcPath(pkg, f), 6) + ".pb.h";
    assert r[..14] == ".build/pb/c++/";
    r
  }

  /** For a relative package and a ".proto" file name the generated paths
      are the source path with ".proto" replaced. */
  lemma GenPathsOfProto(pkg: string, stem: string)
    requires Rel(pkg) && |stem| > 0 && stem[0] != '/'
    ensures GenSrcPath(pkg, stem + ".proto") == ".build/pb/c++/" + pkg + "/" + stem + ".pb.cc"
    ensures GenHeaderPath(pkg, stem + ".proto") == ".build/pb/c++/" + pkg + "/" + stem + ".pb.h"
  {
    var f := stem + ".proto";
    assert f[0] == stem[0];
    JoinPlain(pkg, f);
    assert (pkg + "/" + f)[..|pkg + "/" + f| - 6] == pkg + "/" + stem;
  }

  /** A generated source is never a generated header. */
  lemma GenSrcNotHeader(pkg: string, f: string, g: string)
    ensures GenSrcPath(pkg, f) != GenHeaderPath(pkg, g)
  {
    var a, b := GenSrcPath(pkg, f), GenHeaderPath(pkg, g);
    assert a[|a| - 1] == 'c' && b[|b| - 1] == 'h';
  }

  /** `genHeaderPathSet`: exactly the generated header of each source. */
  function GenHeaderPathSet(pkg: string, srcs: seq<string>): (r: set<string>)
    ensures forall h :: h in r <==> exists f :: f in srcs && h == GenHeaderPath(pkg, f)
  {
    set f | f in srcs :: GenHeaderPath(pkg, f)
  }

  /** The object of a generated source: "<src minus its last six characters>.pb.o". */
  function ProtoObjectOf(src: string): string {
    DropLast(src, 6) + ".pb.o"
  }

  /** Proto `objectPathList`: one ".pb.o" per source, in source order. */
  function ProtoObjectPathList(srcs: seq<string>, s: string, pkg: string): (r: seq<string>)
    ensures |r| == |srcs|
    ensures forall i :: 0 <= i < |srcs| ==> r[i] == ObjectPath(ProtoObjectOf(srcs[i]), s, pkg)
  {
    if |srcs| == 0 then [] else [ObjectPath(ProtoObjectOf(srcs[0]), s, pkg)] + ProtoObjectPathList(srcs[1..], s, pkg)
  }

  /** `makeProtoTarget` as written: the loop assigns instead of appending, so
      each iteration overwrites the result and only the last source counts. */
  method MakeProtoTarget(pkg: string, srcs: seq<string>) returns (res: string)
    ensures |srcs| == 0 ==> res == ""
    ensures |srcs| > 0 ==> res == GenSrcPath(pkg, srcs[|srcs| - 1]) + " "
  {
    res := "";
    var i := 0;
    while i < |srcs|
      invariant 0 <= i <= |srcs|
      invariant i == 0 ==> res == ""
      invariant i > 0 ==> res == SrcToken(pkg, srcs[i - 1])
    {
      res := SrcToken(pkg, srcs[i]);
      i := i + 1;
    }
    assert i == |srcs|;
  }

  /** One generated source followed by a space. */
  function SrcToken(pkg: string, f: string): string {
    GenSrcPath(pkg, f) + " "
  }

  /** `protoTarget` of a rule: the proto target of each proto dependency,
      each followed by a space, in dependency order. */
  function ProtoTarget(protoDeps: seq<(string, seq<string>)>): (r: string)
    ensures |protoDeps| == 0 ==> r == ""
  {
    if |protoDeps| == 0 then ""
    else ProtoTargetOf(protoDeps[0].0, protoDeps[0].1) + " " + ProtoTarget(protoDeps[1..])
  }

  /** The closed form of `makeProtoTarget`: "" for no sources, otherwise the
      last source's generated path followed by one space. */
  function ProtoTargetOf(pkg: string, srcs: seq<string>): string {
    if |srcs| == 0 then "" else GenSrcPath(pkg, srcs[|srcs| - 1]) + " "
  }

  // ---- shell scripts (blade3/shell.py) ----

  /** `scriptsPathList`: "<pkg>/<file>" for each source, by string formatting
      rather than `os.path.join`. */
  function ScriptsPathList(pkg: string, srcs: seq<string>): (r: seq<string>)
    ensures |r| == |srcs|
    ensures forall i :: 0 <= i < |srcs| ==> r[i] == pkg + "/" + srcs[i]
  {
    if |srcs| == 0 then [] else [pkg + "/" + srcs[0]] + ScriptsPathList(pkg, srcs[1..])
  }

  // ---- pyext layout work-around (blade3/cc.py `CCPyExt.emitSrcMake`) ----

  function MetaSource(pkg: string, name: string): string {
    ".build/meta_cc/" + pkg + "/" + name + ".cc"
  }

  function MetaObject(s: string, pkg: string, name: string): string {
    ".build/" + s + "/meta_objs/" + pkg + "/" + name + ".o"
  }

  // ---- compile command (blade3/cc.py `compileTool`) ----

  /** A C file (".c") is compiled with the C compiler, everything else with
      the C++ compiler. */
  predicate IsCSource(f: string) {
    EndsWith(f, ".c")
  }

  /** `" ".join(sorted(set(flags)))` preceded by a space, or nothing for an
      empty list. */
  function FlagGroup(flags: seq<string>): string {
    if |flags| > 0 then " " + JoinWith(" ", SortedSet(flags)) else ""
  }

  /** `compileTool`: the compiler and the setting's flag variables, then the
      rule's preprocessor flags, then its C or C++ flags, each group sorted
      and deduplicated. */
  function CompileTool(f: string, s: string, cppflags: seq<string>, cflags: seq<string>, cxxflags: seq<string>): (r: string)
    ensures IsCSource(f) ==> StartsWith(r, "${" + Upper(s) + "_CC} ")
    ensures !IsCSource(f) ==> StartsWith(r, "${" + Upper(s) + "_CXX} ")
  {
    var u := Upper(s);
    var head := if IsCSource(f)
      then "${" + u + "_CC} ${" + u + "_CPPFLAGS} ${" + u + "_CFLAGS}"
      else "${" + u + "_CXX} ${" + u + "_CPPFLAGS} ${" + u + "_CXXFLAGS}";
    assert IsCSource(f) ==> head[..|"${" + u + "_CC} "|] == "${" + u + "_CC} ";
    assert !IsCSource(f) ==> head[..|"${" + u + "_CXX} "|] == "${" + u + "_CXX} ";
    head + FlagGroup(cppflags) + (if IsCSource(f) then FlagGroup(cflags) else FlagGroup(cxxflags))
  }

  /** A flag group depends only on the set of flags: reordering or repeating
      flags does not change the command. */
  lemma FlagGroupSetOnly(a: seq<string>, b: seq<string>)
    requires forall x :: x in a <==> x in b
    ensures FlagGroup(a) == FlagGroup(b)
  {
    SortedListingUnique(SortedSet(a), SortedSet(b));
    assert |a| > 0 ==> a[0] in b;
    assert |b| > 0 ==> b[0] in a;
  }

  /** The compile command depends only on the sets of flags given. */
  lemma CompileToolSetOnly(f: string, s: string, p1: seq<string>, c1: seq<string>, x1: seq<string>,
                           p2: seq<string>, c2: seq<string>, x2: seq<string>)
    requires forall y :: y in p1 <==> y in p2
    requires forall y :: y in c1 <==> y in c2
    requires forall y :: y in x1 <==> y in x2
    ensures CompileTool(f, s, p1, c1, x1) == CompileTool(f, s, p2, c2, x2)
  {
    FlagGroupSetOnly(p1, p2);
    FlagGroupSetOnly(c1, c2);
    FlagGroupSetOnly(x1, x2);
  }
}
