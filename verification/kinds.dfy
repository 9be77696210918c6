/** The closed set of rule kinds a BUILD file can declare, their flag sets
    (blade3/rule.py `Rule.__init__` and each subclass constructor), and the
    registration table that maps descriptor function names to them
    (blade3/rule_generator.py). The Java classes and `gen_rule` exist in the
    code base but are not registered, so a BUILD file cannot reach them. */
module Kinds {
  import opened Base

  datatype Kind =
    | CcLibrary | CcBinary | CcJniLibrary | CcMpiLibrary | CcMpiBinary | CcTest
    | CcPyExt | CcData | ShellScript | SsTest | ProtoLibrary

  /** The `is_*` attributes every rule object carries. */
  datatype Flags = Flags(
    isBinary: bool, isUnittest: bool, isProto: bool, isLibrary: bool, isPyext: bool,
    isMpi: bool, isData: bool, isShellScript: bool, isScriptTest: bool, isJniUsed: bool)

  const NoFlags := Flags(false, false, false, false, false, false, false, false, false, false)

  /** The flags each constructor leaves set: `CCLibrary` sets `is_library`, and
      each subclass clears or adds flags after calling its parent. */
  function FlagsOf(k: Kind): (f: Flags)
    ensures f.isUnittest ==> f.isBinary
    ensures f.isScriptTest ==> f.isShellScript
    ensures f.isBinary ==> !f.isLibrary && !f.isPyext
  {
    match k
    case CcLibrary => NoFlags.(isLibrary := true)
    case CcBinary => NoFlags.(isBinary := true)
    case CcJniLibrary => NoFlags.(isLibrary := true, isJniUsed := true)
    case CcMpiLibrary => NoFlags.(isLibrary := true, isMpi := true)
    case CcMpiBinary => NoFlags.(isBinary := true, isMpi := true)
    case CcTest => NoFlags.(isBinary := true, isUnittest := true)
    case CcPyExt => NoFlags.(isPyext := true)
    case CcData => NoFlags.(isData := true)
    case ShellScript => NoFlags.(isShellScript := true)
    case SsTest => NoFlags.(isShellScript := true, isScriptTest := true)
    case ProtoLibrary => NoFlags.(isLibrary := true, isProto := true)
  }

  /** Classes derived from `CCBinary`: their target is the bare rule name,
      they link, and they export only what their dependencies export. */
  predicate BinaryLike(k: Kind) {
    k == CcBinary || k == CcMpiBinary || k == CcTest
  }

  /** Classes that export nothing (`CCData`, `ShellScript`, `SSTest`). */
  predicate Terminal(k: Kind) {
    k == CcData || k == ShellScript || k == SsTest
  }

  /** Classes that put their own archive first in their export lists. */
  predicate LibraryLike(k: Kind) {
    k == CcLibrary || k == CcJniLibrary || k == CcMpiLibrary || k == ProtoLibrary
  }

  /** Every kind falls in exactly one export family: library, binary, pyext or terminal. */
  lemma FamiliesPartition(k: Kind)
    ensures LibraryLike(k) <==> FlagsOf(k).isLibrary
    ensures BinaryLike(k) <==> FlagsOf(k).isBinary
    ensures k == CcPyExt <==> FlagsOf(k).isPyext
    ensures Terminal(k) <==> FlagsOf(k).isData || FlagsOf(k).isShellScript
    ensures (if LibraryLike(k) then 1 else 0) + (if BinaryLike(k) then 1 else 0)
          + (if k == CcPyExt then 1 else 0) + (if Terminal(k) then 1 else 0) == 1
  {
  }

  /** The flags identify the class: no two kinds share a flag set. */
  lemma FlagsIdentifyKind(k1: Kind, k2: Kind)
    requires FlagsOf(k1) == FlagsOf(k2)
    ensures k1 == k2
  {
  }

  /** The descriptor function name (`buildName`) of each kind. */
  function BuildName(k: Kind): string {
    match k
    case CcLibrary => "cc_library"
    case CcBinary => "cc_binary"
    case CcJniLibrary => "cc_jni_library"
    case CcMpiLibrary => "cc_mpi_library"
    case CcMpiBinary => "cc_mpi_binary"
    case CcTest => "cc_test"
    case CcPyExt => "cc_pyext"
    case CcData => "cc_data"
    case ShellScript => "shell_script"
    case SsTest => "ss_test"
    case ProtoLibrary => "proto_library"
  }

  /** What a descriptor function name is bound to while a BUILD file runs. */
  datatype Entry = RuleEntry(kind: Kind) | PackageAttrEntry

  const PackageAttrName := "set_package_attr"

  function EntryName(e: Entry): string {
    match e
    case RuleEntry(k) => BuildName(k)
    case PackageAttrEntry => PackageAttrName
  }

  /** The registration table (`rules` in blade3/rule_generator.py): the names
      `insertIntoContext` binds while a BUILD file runs. */
  function Lookup(fn: string): (r: Option<Entry>)
    ensures r.Some? ==> EntryName(r.value) == fn
    ensures r.None? ==> fn != PackageAttrName && forall k: Kind :: BuildName(k) != fn
  {
    if fn == "cc_library" then Some(RuleEntry(CcLibrary))
    else if fn == "cc_binary" then Some(RuleEntry(CcBinary))
    else if fn == "cc_jni_library" then Some(RuleEntry(CcJniLibrary))
    else if fn == "cc_mpi_library" then Some(RuleEntry(CcMpiLibrary))
    else if fn == "cc_mpi_binary" then Some(RuleEntry(CcMpiBinary))
    else if fn == "cc_test" then Some(RuleEntry(CcTest))
    else if fn == "cc_pyext" then Some(RuleEntry(CcPyExt))
    else if fn == "cc_data" then Some(RuleEntry(CcData))
    else if fn == "shell_script" then Some(RuleEntry(ShellScript))
    else if fn == "ss_test" then Some(RuleEntry(SsTest))
    else if fn == "proto_library" then Some(RuleEntry(ProtoLibrary))
    else if fn == "set_package_attr" then Some(PackageAttrEntry)
    else None
  }

  /** No two entries share a name, so the lookup finds every entry back. */
  lemma LookupEntryName(e: Entry)
    ensures Lookup(EntryName(e)) == Some(e)
  {
    var r := Lookup(EntryName(e));
    assert r.Some?;
    match r.value
    case RuleEntry(k) =>
    case PackageAttrEntry =>
  }

  /** The Java rules and `gen_rule` cannot be declared in a BUILD file. */
  lemma UnregisteredNames(fn: string)
    requires fn in {"java_library", "java_binary", "java_proto", "java_lib", "java_data", "gen_rule"}
    ensures Lookup(fn) == None
  {
  }
}
