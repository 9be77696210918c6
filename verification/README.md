# blade3 Makefile generator — a Dafny model of its core

blade3 reads BUILD files and writes a Makefile. A BUILD file declares rules by calling
descriptor functions (`cc_library`, `cc_binary`, `cc_test`, `proto_library`, `cc_data`,
`shell_script`, `ss_test`, `set_package_attr`, …). The generator then works in four steps:

- It registers each rule in its package.
- It resolves every `//pkg/BUILD:rule` or `:rule` reference, loading packages on first use
  and refusing dependency cycles.
- It computes per-rule export lists, which give the link order.
- It writes one recipe per rule, each rule only once, followed by the top-level targets and
  two manifests (`.blade/files_to_pub` and `.blade/exe_files`).

This project models that core:

- the command line of `pconfig.py`;
- the package registry and rule declarations;
- the reference parser and the dependency expander;
- deduplication and the export lists;
- artifact paths;
- recipe emission for the C++ family and for the Java rules;
- the package-level selection of rules, targets and manifest lines.

Modules follow the source:

| module | file | covers |
|---|---|---|
| `Base` | base.dfy | result, option and error types |
| `Text` | text.dfy | Python 2 string and `posixpath` helpers |
| `Dedup` | dedup.dfy | `simplifyDepList` |
| `StrOrder` | order.dfy | `sorted(set(…))` |
| `Lists` | lists.dfy | comprehension combinators |
| `Kinds` | kinds.dfy | rule kinds, flags and the registration table |
| `Paths` | paths.dfy | names and paths |
| `Packages` | packages.dfy | `Package` |
| `Reference` | reference.dfy | `parseRule` |
| `Declare` | declare.dfy | constructors and source checks |
| `Workspace` | world.dfy | package and rule arenas, and reading a BUILD file |
| `Expand` | expand.dfy | `expandRule` and `expandRules` |
| `Graph` | graph.dfy | the dependency graph |
| `Exports` | exports.dfy | export lists |
| `Emit` | emit.dfy | C++-family `emitMake` and `gen_rule` |
| `Makefile` | makefile.dfy | top-level `emitMake` |
| `Java` | java.dfy | Java names and classpaths |
| `JavaEmit` | javaemit.dfy | Java `emitMake` |
| `Args` | args.dfy | `pconfig.main` |

Modelling choices:

- Every `sys.exit` becomes an `Err` value.
- Python objects become indices into arenas, so object identity is kept. This matters in one
  case: a package reached under a second spelling is created again, and the global map then
  points at the newer object.
- A package's publish-only flag is an input. No code in the modelled files sets `isPubOnly`
  to True; blade3/package.py:296 only initialises it to False. Every publish-only branch
  (`Makefile.RulesToBuildMembers`, `Emit.OwnParts`, `Exports.PubOnlyChoosesTree`,
  `Makefile.ManifestMembers`) depends on that flag as given.
- Running a BUILD file is replaced by a map from package name to the list of calls the file
  makes.
- The `git describe` output is a `version` parameter.
- The walks over the acyclic graph take a `rank` that decreases along every edge.
- A recipe is a sequence of actions. Each action keeps its targets, its prerequisites (as a
  set) and its ordered inputs. The Makefile text itself is not modelled.

Three behaviours of the code a reader might not expect:

- `.blade/exe_files` lists every binary rule, not only the test executables
  (blade3/package.py:220-225).
- Only the unit tests of a publish-only package are built. These are binaries, so they are
  compiled and linked: `CCBinary.emitMake` has no publish-only branch (blade3/cc.py:542-570).
- Shell rules (`shell_script`, `ss_test`) emit nothing at all; only `cc_data` writes
  placeholder targets (blade3/shell.py:39-40, blade3/data.py:43-49).

Behaviour modelled as the code does it, where a fix would change what the rest of the program sees:

- `makeProtoTarget` assigns where it evidently meant to append, so only the last generated
  source of a proto library becomes a prerequisite of its dependents' compile steps
  (`Paths.MakeProtoTarget`, `Emit.ProtoPrereqs`).
- The "_test.sh" check of `ss_test` iterates the always-empty `srcList`
  (`Declare.ScriptTestInit`).
- The command line is checked as written, so "./../x/BUILD" is accepted (`Args.CheckArgs`,
  `Args.Configure`). The corrected check stands beside it (`Args.CheckArgsStrict`).
- `files_to_pub` names archives as written, with the rule name not lower-cased
  (`Makefile.Manifest(false, …)`). The corrected manifest is `Makefile.Manifest(true, …)`.
- The `ldflags`-on-a-library check in `CCLibrary.__init__` never fires, because `buildName`
  is never "library". The model has no such check.
- `expandRules` re-expands rules that are already expanded, appending their dependencies a
  second time (`Expand.ExpandRules`).

## Model

| member | source | states |
|---|---|---|
| Args.CheckArgAsWritten | blade3/pconfig.py:12-23 | An argument passes the first loop exactly when its stripped form starts with neither "/" nor "../" and, with a leading "./" removed, ends in "/BUILD". The accepted value is that stripped, de-dotted path. |
| Args.DotDotSlipsThrough | blade3/pconfig.py:13-18 | For every BUILD path p, "./../p" passes the check as written with the value "../p", which leaves the workspace. The corrected check refuses it as a non-relative path. |
| Args.CheckArg | blade3/pconfig.py:12-23 | Corrected check: the relative-path test also runs after "./" is removed. Success means the value does not escape; each failure names the offending path and the rule it broke. |
| Args.CheckArgRefines | blade3/pconfig.py:13-18 | The correction only refuses more. Whatever it accepts, the check as written accepts with the same value, and the two agree on every accepted value that does not escape. |
| Args.DotSpellingsAgree | blade3/pconfig.py:18-28 | "./p" and "p" check to the same BUILD path, so naming both is a repeat. |
| Args.Collect | blade3/pconfig.py:25-28 | When collecting succeeds there is one value per argument, in order, and no value appears twice. |
| Args.CollectOk | blade3/pconfig.py:11-28 | Collecting succeeds exactly when every argument passes on its own and no two arguments give the same result. |
| Args.CheckArgs | blade3/pconfig.py:11-28 | The program's first loop: on success, one checked BUILD path per argument, in order, with no duplicates, each the value the check as written gives. |
| Args.CheckArgsOk | blade3/pconfig.py:11-28 | The program's first loop succeeds exactly when every argument passes the check as written and no two arguments check to the same path. |
| Args.CheckArgsStrict | blade3/pconfig.py:11-28 | Corrected first loop: the same loop with the corrected check. No accepted path leaves the workspace. |
| Args.CheckArgsRefines | blade3/pconfig.py:11-28 | When the corrected loop succeeds, the program's loop succeeds with the same BUILD paths. |
| Args.CheckArgsDotDotExample | blade3/pconfig.py:13-18 | The program accepts the command line "./../x/BUILD" as "../x/BUILD". |
| Args.CheckArgsStrictDotDotExample | blade3/pconfig.py:13-18 | The corrected loop refuses that command line as a non-relative path. |
| Args.PackageOf | blade3/pconfig.py:41 | `[:-6]` of an accepted path is the directory whose "/BUILD" it is. |
| Args.ReadPackage | blade3/pconfig.py:42-47 | A package read and expanded keeps the world valid and the stack empty, leaves earlier packages untouched, and is the newest package object, under the normalised name. |
| Args.ReadAll | blade3/pconfig.py:33-48 | Reading the packages one after another: one package object per name, each registered under its normalised name, and the world only grows. |
| Args.Configure | blade3/pconfig.py:9-48 | The program's run: nothing is read when the first loop as written fails, and its error is the result. On success, argument k's package is loaded under the normalised directory of its checked BUILD path, so "./../x/BUILD" reads package "../x". |
| Text.Strip | blade3/pconfig.py:12 | `str.strip()`: the slice left after leading and trailing whitespace is removed, with no whitespace at either end. A string without edge whitespace is unchanged. |
| Text.Lower | blade3/cc.py:221 | `str.lower()` on a byte string: the same length, ASCII letters lowered one by one. |
| Text.SplitExt | blade3/cc.py:135 | `os.path.splitext`: the two parts concatenate to the path, and the extension is empty or a "." with no "/" after it. |
| Text.PathJoin | blade3/cc.py:223-230 | `os.path.join`: an absolute second part wins; otherwise exactly one "/" separates a non-empty first part from the second. |
| Text.Dirname | blade3/package.py:184 | `os.path.dirname` is a prefix of its argument. |
| Text.DirnameOfJoin | blade3/package.py:183-184 | The directory of "<dir>/<file>" is `<dir>` when the file name has no "/". |
| Dedup.KeepLast | blade3/cc.py:23-36 | Reference definition of the deduplication: no duplicates, exactly the input's values, never longer than the input. |
| Dedup.SimplifyDepList | blade3/cc.py:23-36 | The reverse, keep-first, reverse loop computes the reference definition. |
| Dedup.KeepLastPreservesOrder | blade3/cc.py:23-36 | Two values appear in the output in the order of their last occurrences in the input. |
| Dedup.KeepLastOfNoDup | blade3/cc.py:23-36 | A list without duplicates is returned unchanged. |
| Dedup.KeepLastIdempotent | blade3/cc.py:23-36 | Deduplicating twice is deduplicating once. |
| Dedup.KeepLastExample | blade3/cc.py:23-36 | A B C A D B becomes C A D B. |
| Dedup.LastBeforeConcat | blade3/cc.py:252-254 | In a concatenation, the order of last occurrences is decided by the later part whenever the later part holds the first value. |
| StrOrder.SortedSet | blade3/cc.py:336 | `sorted(set(xs))` is strictly increasing and holds exactly the values of xs. |
| StrOrder.SortedListingUnique | blade3/cc.py:336 | A set of strings has only one strictly sorted listing, so the printed flags depend only on the set. |
| Kinds.FlagsOf | blade3/rule.py:43-52 | The flags each constructor leaves: a unit test is a binary, a script test is a shell script, and a binary is neither a library nor an extension. |
| Kinds.FamiliesPartition | blade3/cc.py:486-487 | Every kind is in exactly one export family: library, binary, pyext, or data and shell. The families match the `is_library`, `is_binary`, `is_pyext`, `is_data` and `is_shell_script` flags. |
| Kinds.FlagsIdentifyKind | blade3/rule.py:43-52 | No two kinds share a flag set. |
| Kinds.Lookup | blade3/rule_generator.py:12-29 | The names bound while a BUILD file runs. A name found is that entry's `buildName`; a name not found is neither a rule's nor "set_package_attr". |
| Kinds.LookupEntryName | blade3/rule_generator.py:27-29 | Every registered entry is found back under its own name. |
| Kinds.UnregisteredNames | blade3/rule_generator.py:12-25 | The Java descriptors and `gen_rule` are not reachable from a BUILD file. |
| Paths.SettingsAreComponents | blade3/dirs.py:14-16 | "debug" comes first. The two regular settings and the two struct-check settings are four single path components. |
| Paths.LibraryName | blade3/cc.py:219-221 | "lib" + the lower-cased rule name + ".a". |
| Paths.TargetDirShape | blade3/cc.py:223-227 | The target directory is ".build/<setting>/targets/<pkg>". |
| Paths.PubTargetDirShape | blade3/cc.py:236-240 | The publish target directory is "pub/<setting>/targets/<pkg>". |
| Paths.LibraryPathShapes | blade3/cc.py:229-243 | The archive lies in the target directory and the published archive in the publish directory, both under `libraryName`. |
| Paths.TargetNameShapes | blade3/cc.py:502-504 | A binary's target is ".build/<setting>/targets/<pkg>/<name>"; a pyext's is the same plus ".so". |
| Paths.PubAndBuildTreesDisjoint | blade3/cc.py:229-243 | The build and publish paths of an archive never coincide. |
| Paths.ObjectPathList | blade3/cc.py:316-322 | One object per source, in source order: the source with its extension replaced by ".o", under the package's object directory. |
| Paths.GenSrcPath | blade3/genrule.py:60-61 | The generated source lies under ".build/pb/c++/" and ends in ".pb.cc". |
| Paths.GenHeaderPath | blade3/genrule.py:63-64 | The generated header lies under ".build/pb/c++/" and ends in ".pb.h". |
| Paths.GenPathsOfProto | blade3/genrule.py:60-64 | For "<stem>.proto" the generated files are ".build/pb/c++/<pkg>/<stem>.pb.cc" and ".pb.h". |
| Paths.GenSrcNotHeader | blade3/genrule.py:60-64 | A generated source is never a generated header. |
| Paths.GenHeaderPathSet | blade3/genrule.py:66-70 | Exactly the generated header of each source. |
| Paths.ProtoObjectPathList | blade3/genrule.py:72-77 | One ".pb.o" object per source, in order, under the package's object directory. |
| Paths.MakeProtoTarget | blade3/genrule.py:79-83 | The loop assigns, so the result is "" for no sources and otherwise only the last source's generated path plus a space. |
| Paths.ScriptsPathList | blade3/shell.py:72-73 | "<pkg>/<file>" for each source, in order. |
| Paths.CompileTool | blade3/cc.py:328-345 | A ".c" file is compiled with the setting's C compiler; everything else with its C++ compiler. |
| Paths.FlagGroupSetOnly | blade3/cc.py:335-342 | A printed flag group depends only on the set of flags. |
| Paths.CompileToolSetOnly | blade3/cc.py:328-345 | The compile command depends only on the sets of preprocessor, C and C++ flags. |
| Packages.Normalize | blade3/package.py:282-287 | A leading "./" and then one trailing "/" are removed, and nothing else changes. |
| Packages.NormalizeSpellings | blade3/package.py:270-287 | "p", "./p", "p/" and "./p/" all name package p. |
| Packages.CheckPackage | blade3/package.py:308-311 | A name under "pub/" is refused, and any other name passes. |
| Packages.NewPackage | blade3/package.py:287-299 | A new package has no rules, consistent list and map, and is neither private nor publish-only. |
| Packages.AddRule | blade3/package.py:331-337 | A new name goes to the end of `ruleList` and into `ruleMap`, keeping them in sync. A repeated name is an error and changes nothing. |
| Packages.GetRule | blade3/package.py:339-342 | A rule is found exactly when some listed rule has the name, and then it is that rule. |
| Packages.AddThenGet | blade3/package.py:331-342 | After `addRule` the name finds the new rule, and every other name finds what it found before. |
| Packages.RealPackageName | blade3/package.py:410-418 | Only the first matching prefix among "java/", "javatest/" and "third_party/java/" is removed; a name without one is unchanged. |
| Packages.RealPackageNameOfPrefixed | blade3/package.py:410-418 | The stripping is one prefix deep. |
| Packages.PackageRoot | blade3/package.py:420-421 | The first "/"-segment of the real package name. |
| Reference.FindSep | blade3/rule.py:37 | The lazy group of the pattern stops at the first colon that has a non-newline character after it, provided no newline comes before that colon. |
| Reference.Groups | blade3/rule.py:37 | When the pattern matches, neither group holds a newline and the second is not empty. |
| Reference.GroupNoColon | blade3/rule.py:37 | The package group never holds a colon. |
| Reference.Interpret | blade3/rule.py:128-138 | Both groups are stripped. A non-empty package part must end in "/BUILD", which is removed; otherwise the result is an error naming the reference. |
| Reference.ParseRule | blade3/rule.py:120-138 | A reference starting with neither "//" nor ":" is rejected. One the pattern does not match is malformed. Otherwise the groups are interpreted. |
| Reference.ParseRuleNoColonInPackage | blade3/rule.py:120-138 | A parsed package name holds no colon and no newline, and neither does the rule name. |
| Reference.ParseFormat | blade3/rule.py:120-138 | Parsing the written form of a reference gives that reference back. |
| Reference.ParseRuleAbsoluteExample | blade3/rule.py:125-138 | "//a/b/BUILD:x" parses to package "a/b", rule "x". |
| Reference.ParseRuleLocalExample | blade3/rule.py:125-138 | ":x" parses to the referring package's rule "x". |
| Reference.ParseRuleSuffixExample | blade3/rule.py:131-135 | "//a/b:x" is rejected for lacking "/BUILD". |
| Reference.ParseRuleMalformedExamples | blade3/rule.py:125-127 | "//a/b/BUILD" and ":" do not match the pattern. |
| Reference.FullRuleName | blade3/rule.py:111-112 | "<pkg>:<rule>", with the colon right after the package. |
| Reference.FullRuleNameInjective | blade3/rule.py:111-112 | Distinct rules get distinct stack keys when package names hold no colon. |
| Declare.CheckArguments | blade3/cc.py:191-202 | An argument passes exactly when it is a list of strings. The error names the attribute. |
| Declare.Kept | blade3/cc.py:204-210 | Reference definition: exactly the sources not excluded. |
| Declare.KeptCounts | blade3/cc.py:204-210 | Each kept source keeps all its copies, and an excluded one keeps none. |
| Declare.FilterSrc | blade3/cc.py:204-210 | The loop computes the reference definition. |
| Declare.Key | blade3/cc.py:135-136 | Only ".cpp" and ".c" sources are filed, under their name without the extension. |
| Declare.FirstRepeat | blade3/cc.py:131-142 | The dictionary scan finds no repeat exactly when there is none. Otherwise it stops at the first position whose key was seen, naming the earlier position. |
| Declare.CheckBaseName | blade3/cc.py:131-142 | Passes exactly when no two ".c"/".cpp" sources share a base name. Otherwise the error names the earlier and the later file of the first clash. |
| Declare.CcSourcesNeverClash | blade3/cc.py:134-136 | ".cc" sources never clash. |
| Declare.SourceError | blade3/cc.py:146-175 | The per-file rule of `checkSrcs`: a path starting with "/" or containing ".." is outside the package, and no other path is. |
| Declare.CheckSrcs | blade3/cc.py:144-175 | Passes exactly when every source satisfies its kind's rule. Otherwise the error is that of the first source that fails. |
| Declare.CheckSrcsByKind | blade3/cc.py:152-175 | Proto rules accept exactly ".proto" and shell rules exactly ".sh". Data rules accept any file inside the package. The C++ kinds accept exactly ".cc", ".c" and ".cpp", and refuse any other file with "must be .c or .cc". |
| Declare.DeclareHeader | blade3/cc.py:52-66 | "name" and then "srcs" must be given, and "srcs" must be a list of strings. |
| Declare.DeclareFlags | blade3/cc.py:84-108 | `cppflags`, `cflags` and `cxxflags` must be string lists; the first two are kept as given, and the version flag ends `cxxflags`. |
| Declare.DeclareSources | blade3/cc.py:68-83 | "deps" and "excludes" must be string lists. The kept sources are those not excluded, and none clash. |
| Declare.DeclareBody | blade3/cc.py:68-129 | The rest of the constructor: string-list arguments, excluded sources dropped, no clash, the version flag last in `cxxflags`, and "src" rejected. Binaries get their linker flags, and `ss_test` runs its suffix loop (blade3/shell.py:58-61). No constructor fails for a source's type. |
| Declare.LinkerArgs | blade3/cc.py:478-484 | A binary needs an `ldflags` list and appends "-g". A test then appends "-lgtest" unless it is given. Other kinds have none. |
| Declare.LinkerFlags | blade3/cc.py:489-493 | The printed linker flags hold every flag once. |
| Declare.BinaryLinkerFlagsOrder | blade3/cc.py:641-648 | A binary's linker flags keep every given flag and end with "-g". A test that did not ask for gtest ends with "-g" then "-lgtest". |
| Declare.ScriptTestSuffixCheck | blade3/shell.py:58-61 | The check passes exactly when every name in the list it iterates ends with "_test.sh". |
| Declare.ScriptTestInit | blade3/shell.py:55-61 | The tail of the `ss_test` constructor: when it succeeds, the rule is unchanged. |
| Declare.ScriptTestSuffixCheckIsInert | blade3/shell.py:55-61 | The `ss_test` constructor accepts every rule whatever its declared sources, because its loop sees `srcList`. The same loop over the declared sources would refuse any source without "_test.sh". |
| Declare.SetPackageAttr | blade3/genrule.py:204-217 | Succeeds exactly when every key is "private" with a value equal to True or False. Python's equality applies, so 1, 1.0, 0 and 0.0 qualify. A true value makes the package private, and nothing else changes. Otherwise the error names an offending key. |
| Workspace.RegisterPackage | blade3/package.py:269-301 | A new empty package with the normalised name joins the arena, and the global map points at it. |
| Workspace.ExecBuild | blade3/package.py:376-386 | After a BUILD file runs, the package lists the rule names the file declares, in order. It is private exactly when a `set_package_attr` call passes a true value. |
| Workspace.ExecCall | blade3/package.py:392-403 | A call to an unbound name is a script error. |
| Workspace.ExecAttr | blade3/genrule.py:204-217 | A `set_package_attr` call changes only the private flag of the current package. |
| Workspace.ExecRule | blade3/cc.py:63-73 | A rule call registers one new rule object in the current package. |
| Workspace.MakesPrivateSnoc | blade3/genrule.py:212-213 | Only a `set_package_attr` call with a true value makes the package private. |
| Workspace.AddRuleObj | blade3/cc.py:72-73 | The new rule object goes to the end of the arena and its package lists it; nothing else changes. |
| Workspace.LoadPackage | blade3/package.py:345-390 | A "pub/" name and a missing BUILD file are errors. Otherwise the package is registered under its normalised name, lists its declared rules (at least one), and is private as its file says. Its new rules are not yet expanded. |
| Expand.TargetsStable | blade3/rule.py:80-84 | A rule a reference names stays named after more packages are loaded. A package re-created under a second spelling can add a newer rule the reference also names, so the reference need not name only the old rule. |
| Expand.PickPackage | blade3/rule.py:77-87 | An empty package part picks the referring rule's package. A name in the global map picks that package. Otherwise the package is loaded, with its errors. |
| Expand.LookupIn | blade3/rule.py:88-95 | A rule missing from the picked package is an error naming the target and the referring rule. A rule found is the one the package lists. |
| Expand.ResolveRef | blade3/rule.py:67-96 | One reference resolves to the rule the package lists under that name. A local miss is an error naming both rules. |
| Expand.ResolveAll | blade3/rule.py:66-96 | A reference that does not parse is an error. Otherwise each dependency resolves to one rule, in declared order. |
| Expand.PushShrinks | blade3/rule.py:114-115 | Pushing a new full name shrinks the set of names not on the stack, which is the termination measure. |
| Expand.ExpandRule | blade3/rule.py:56-109 | The dependencies are appended in order and each is expanded. None was on the stack or is the rule itself. The rule is marked expanded, the stack is restored, and already-expanded rules are left alone. |
| Expand.CheckAndExpand | blade3/rule.py:99-105 | A first dependency already on the stack is the cycle error naming the rule's and that dependency's full names, and a rule depending on itself always fails. On success, every dependency ends expanded and none was on the stack. |
| Expand.CheckSkip | blade3/rule.py:104-105 | An already-expanded dependency is not expanded again. |
| Expand.ExpandRules | blade3/package.py:405-408 | Every rule the package lists ends expanded, the stack ends empty, and earlier packages are untouched. |
| Exports.Export | blade3/cc.py:249-297 | An export list has no duplicates. Data and shell rules export nothing, and a library's list holds its own entry. |
| Exports.CollectMembers | blade3/cc.py:252-253 | The concatenation holds exactly what some dependency exports. |
| Exports.ExportMembers | blade3/cc.py:249-254 | An entry is exported exactly when it is a library's own entry or something a dependency exports, the latter only for non-terminal kinds. |
| Exports.OwnBeforeDeps | blade3/cc.py:275-283 | A library's own archive comes before every archive its dependencies export, unless a dependency exports it again. |
| Exports.DepOrderKept | blade3/cc.py:249-254 | The order of last occurrences in the concatenation is kept. |
| Exports.SameNameCollapses | blade3/cc.py:251 | Export names are bare rule names, so same-named libraries in two packages collapse into one entry. |
| Exports.PubOnlyChoosesTree | blade3/cc.py:275-297 | Publish-only changes the path list but not the directory list. |
| Exports.DepLibPaths | blade3/cc.py:285-290 | The dependencies' archives, without duplicates. |
| Exports.BinaryExportsDeps | blade3/cc.py:512-516 | A binary's or pyext's archive list is exactly its dependencies' list. |
| Exports.ExportRankFree | blade3/cc.py:249-297 | Export lists do not depend on the acyclicity witness. |
| Exports.PBHeadersCover | blade3/cc.py:262-273 | Every proto library reachable from a rule has its generated headers in the rule's set. |
| Exports.PBHeadersSource | blade3/cc.py:262-273 | Every header in the set belongs to a reachable proto library. |
| Emit.DepPackageNames | blade3/cc.py:256-260 | The package of every direct dependency is listed. |
| Emit.Compiles | blade3/cc.py:354-368 | One compile action per source and setting, and only compile actions. |
| Emit.LibSelf | blade3/cc.py:400-412 | Compile, then archive per setting; no package symlink. |
| Emit.PubTargets | blade3/cc.py:432-441 | One symlink target per setting, named by the rule's target. |
| Emit.Protocs | blade3/genrule.py:92-103 | One protoc action per ".proto" source. |
| Emit.ProtoCompiles | blade3/genrule.py:109-127 | Every generated source is compiled for all four settings. |
| Emit.ProtoArchives | blade3/genrule.py:129-156 | An archive per regular setting, then a layout merge per struct-check setting. |
| Emit.Placeholders | blade3/data.py:43-49 | One target with no prerequisites per setting, struct-check settings included. |
| Emit.ProtoSelf | blade3/genrule.py:91-156 | A proto library's own actions (protoc, compiles, archives) never include the package symlink. |
| Emit.BinSelf | blade3/cc.py:548-565 | A binary's own actions (compiles, then one link per setting) never include the package symlink. |
| Emit.PyExtSelf | blade3/cc.py:719-735 | A Python extension's own actions never include the package symlink. |
| Emit.OwnParts | blade3/cc.py:455-458 | Only a library of a publish-only package writes the package symlink. |
| Emit.FirstVisitWf | blade3/cc.py:450-453 | Recording the key on the first visit keeps each key in the log exactly once. |
| Emit.LinkedOnceAddLink | blade3/cc.py:422-423 | The package symlink is written only for a package not recorded yet, and then the package is recorded. |
| Emit.FirstVisit | blade3/cc.py:453-458 | The first visit only adds: the key joins the emitted set and the log, and the own actions follow the earlier output. |
| Emit.EmitDeps | blade3/cc.py:460-461 | The dependency loop only adds and keeps the log well-formed. It can fail only while dependencies remain. |
| Emit.Emit | blade3/cc.py:447-463 | A memoised rule's key ends emitted, and the log keeps each key once. Only libraries (through `checkSrcs`) and rules with dependencies can fail. |
| Emit.EmitDepsCovers | blade3/cc.py:460-461 | Every memoised dependency ends emitted. |
| Emit.Revisit | blade3/cc.py:447-452 | A second visit adds nothing and does not recurse; a library still checks its sources. |
| Emit.FirstVisitEmits | blade3/cc.py:447-461 | On the first visit, the key is logged, the own actions are written first, and every memoised dependency ends emitted. |
| Emit.EmitIdempotent | blade3/cc.py:447-463 | Visiting a memoised rule again changes nothing. |
| Emit.DataReemits | blade3/data.py:43-49 | A data rule is not memoised, and a second visit writes its placeholders again. |
| Emit.EmitOnce | blade3/cc.py:450-453 | From empty sets, no key is emitted twice and no package is symlinked twice. |
| Emit.CaseCollision | blade3/cc.py:219-221 | Two libraries of a package whose names differ only in case share a key, so the second emits nothing. |
| Emit.LibraryRecipe | blade3/cc.py:400-412 | The archive takes exactly the objects the compile actions produce, and waits for the headers of every reachable proto library. |
| Emit.BinaryRecipe | blade3/cc.py:550-565 | The link takes the objects, then the deduplicated dependency archives, which include everything any dependency exports. |
| Emit.ProtoRecipe | blade3/genrule.py:105-156 | All four settings compile. Only the regular ones archive, and the struct-check ones merge layouts. |
| Emit.ProtoArchivesShape | blade3/genrule.py:129-156 | Archive steps target the regular settings' archives, and layout steps target the struct-check settings'. |
| Emit.GenRuleEmit | blade3/genrule.py:37-46 | One command action "<pkg>.<name>" depending on the BUILD file, unless the flag is set. The flag is then set. |
| Emit.GenRuleOnce | blade3/genrule.py:37-46 | A second emission writes nothing. |
| Emit.EmitAll | blade3/package.py:61-62 | After the loop every memoised rule to build is emitted, and keys stay unique. |
| Makefile.RulesToBuildMembers | blade3/package.py:51-59 | A rule is built exactly when a given package lists it, and only if it is a unit test when the package is publish-only. |
| Makefile.RulesToBuildOrder | blade3/package.py:51-59 | Packages in order, and each rule list in declaration order. |
| Makefile.TargetsWhere | blade3/package.py:72-73 | One target per selected rule. |
| Makefile.TargetsWhereMembers | blade3/package.py:71-81 | A target is listed exactly when a selected rule has it. |
| Makefile.TestsAreDefaults | blade3/package.py:71-81 | Every test target is a default target, and data and shell rules are never default targets. |
| Makefile.ScriptFilesMembers | blade3/package.py:102-105 | Exactly "<pkg>/<src>" of each script test's sources. |
| Makefile.ScriptFilesEmpty | blade3/package.py:102-114 | No script file exactly when no script test has a source. |
| Makefile.TestTargetSum | blade3/package.py:78-82 | The same number of test targets per setting. |
| Makefile.UntilDie | blade3/package.py:116-121 | The placeholder exactly when there is no unit test and no script source. |
| Makefile.SettingUntilDie | blade3/package.py:94-99 | A setting's placeholder exactly when it has no unit test. |
| Makefile.UntilDieAgrees | blade3/package.py:78-121 | No test at all exactly when every setting has none and there is no script file. |
| Makefile.MakefileDepsAreBuildFiles | blade3/package.py:124 | The Makefile depends on "<name>/BUILD" for every loaded package, and on nothing else. |
| Makefile.PublishedArchiveIsBuilt | blade3/package.py:174-178 | The corrected line publishes the archive the library recipe builds, into the directory where publish-only consumers look for it. |
| Makefile.ArchiveCaseMismatch | blade3/package.py:174-178 | As written, a rule named "Base" publishes "libBase.a", which the build never makes. |
| Makefile.AsWrittenAgreesOnLowerCase | blade3/package.py:174-178 | The as-written and corrected lines agree on lower-case names. |
| Makefile.SrcEntryDir | blade3/package.py:183-185 | A file directly in the package is copied to "pub/src/<pkg>". |
| Makefile.SrcEntries | blade3/package.py:182-185 | One line per source, in order. |
| Makefile.LibLine | blade3/package.py:174-178 | The archive line, as written or corrected, is copied into "pub/<setting>/targets/<pkg>". The two forms agree on lower-case rule names. |
| Makefile.RuleEntries | blade3/package.py:171-192 | A library's archive line per setting, and a data or shell rule's sources, and nothing else. |
| Makefile.ManifestMembers | blade3/package.py:167-198 | Private and publish-only packages publish nothing; every other package publishes its lines. |
| Makefile.LibLinePublished | blade3/package.py:167-178 | Each library of a published package has its archive line in the manifest, per setting. |
| Makefile.LibrariesPublishedAsWritten | blade3/package.py:167-178 | The file the program writes lists "lib<name>.a" for each library of a published package, per setting. This is the archive the build makes only when the name is lower case. |
| Makefile.LibrariesPublished | blade3/package.py:167-178 | With the corrected line, each library archive the build makes is published, per setting, into the publish tree. |
| Makefile.BuildFilesPublished | blade3/package.py:196-198 | Each published package lists its BUILD file. |
| Makefile.NodeExes | blade3/package.py:221-225 | A binary's executable per setting, and nothing for other kinds. |
| Makefile.ListingExes | blade3/package.py:220-225 | A package lists the executables of its rules. |
| Makefile.ExeFilesMembers | blade3/package.py:216-226 | Every given package contributes its rules' executables, private and publish-only ones included. |
| Makefile.ExePathIsTarget | blade3/package.py:225 | A listed executable is its binary's make target. |
| Java.JarName | blade3/java.py:49-50 | "lib" + the lower-cased name + ".jar". |
| Java.FoldIsJoin | blade3/java.py:64-71 | The accumulator loop is `sep.join` of the list without its leading empty items. |
| Java.FoldNonEmpty | blade3/java.py:266-273 | Without empty items, the loop is exactly `sep.join`. |
| Java.JavaPathShapes | blade3/java.py:52-161 | The jar, stamp, deploy jar and start script lie directly under "build/<pkg>". |
| Java.MainClassShape | blade3/java.py:151-152 | "<realPackageName>/<name>", or the bare name when the real package name is empty. |
| Java.JavaOpsJoin | blade3/java.py:163-167 | The options are joined by spaces, with one trailing space. |
| Java.GenJavaFile | blade3/java.py:227-228 | The source without its last six characters, plus ".java". |
| Java.GenJavaFileOfProto | blade3/java.py:227-228 | "<base>.proto" becomes "<base>.java". |
| Java.Entries | blade3/java.py:73-86 | Reference definition of the classpath entries: the rule's own library path comes last. |
| Java.ClassPathJoins | blade3/java.py:73-86 | With non-empty library paths, the classpath string is the entries joined by ":". |
| Java.EntryPosition | blade3/java.py:75-79 | A dependency's entries follow those of the dependencies before it. |
| Java.TwoPathsRepeat | blade3/java.py:73-86 | There is no deduplication: an entry reached through two dependencies is listed twice. |
| Java.Split | blade3/java.py:190 | `split(":")` gives at least one piece. |
| Java.SplitJoin | blade3/java.py:190 | Splitting undoes joining when no piece holds the separator. |
| JavaEmit.PrereqsJoin | blade3/java.py:55-59 | The prerequisites are `" ".join` of the source list and the dependencies' targets. |
| JavaEmit.DepTargets | blade3/java.py:57-58 | The target of each dependency, in order. |
| JavaEmit.Compiled | blade3/java.py:113-115 | Announced words are non-blank and stripped. |
| JavaEmit.CompiledSources | blade3/java.py:113-115 | The compile step announces exactly the sources, in order, when each source path is one word. |
| JavaEmit.CompiledEmpty | blade3/java.py:113-115 | No sources, no announcement. |
| JavaEmit.SrcPaths | blade3/java.py:64-71 | One path per source. |
| JavaEmit.GenActions | blade3/java.py:235-240 | One protoc step per proto source. |
| JavaEmit.BinaryActions | blade3/java.py:173-207 | A binary writes three rules before its jar. |
| JavaEmit.OwnActionsWith | blade3/java.py:169-209 | Every Java rule writes at least one action on its first visit. |
| JavaEmit.OwnActions | blade3/java.py:104-123 | The own actions, fed with the rule's dependency targets and its classpaths, are never empty. |
| JavaEmit.FirstVisit | blade3/java.py:97 | Writing the own actions marks nothing and logs nothing; it only extends the output. |
| JavaEmit.Mark | blade3/java.py:102 | Setting the flag only adds. |
| JavaEmit.Emit | blade3/java.py:94-102 | After a visit the rule is marked. A marked rule changes nothing, only rules ranked at or below it are marked, and the log keeps each rule once. |
| JavaEmit.EmitDeps | blade3/java.py:99-100 | The dependency loop marks only rules ranked below the rule. |
| JavaEmit.EmitDepsCovers | blade3/java.py:99-100 | Every dependency ends marked. |
| JavaEmit.EmitIdempotent | blade3/java.py:94-96 | A second visit changes nothing. |
| JavaEmit.FirstVisitEmits | blade3/java.py:94-102 | The own actions come first, all dependencies end marked, and the rule's flag is set last. |
| JavaEmit.LeafEmits | blade3/java.py:275-284 | `java_lib` and `java_data` write one rule and mark only themselves. |
| JavaEmit.EmitOnce | blade3/java.py:94-102 | From nothing marked, each rule is marked at most once. |
| JavaEmit.EntriesFromTable | blade3/java.py:82-86 | Every classpath entry is some rule's library path. |
| JavaEmit.DeployUnpacksEntries | blade3/java.py:190-193 | The deploy step unzips exactly the classpath entries. |
| JavaEmit.BinaryRecipe | blade3/java.py:173-209 | The start script and the deploy jar are built from the rule's jar, and the alias points at the deploy jar. The classpaths are as stated. |
| JavaEmit.CompileRecipe | blade3/java.py:108-123 | The compile step announces its sources, and its prerequisites are those sources and the dependencies' targets. |
| JavaEmit.ProtoCompilesGenerated | blade3/java.py:234-244 | A proto's jar compiles exactly the files its protoc steps generate, in order. |
| JavaEmit.GenPathsJoin | blade3/java.py:236-239 | Each generated path is the "/" concatenation the protoc rule writes. |

## Left out

- Reading BUILD files from disk and `exec`-ing them: a map from package name to the calls each file makes stands in for them.
- The checks that look at the file system: nested packages, sub-directories holding other packages, and whether the BUILD file exists on disk. A package not in the map counts as missing.
- `glob` in `expandFileList`: declared source and exclude lists are taken as already expanded.
- The `git describe` subprocess: its output is a `version` parameter.
- The Makefile text and the `.blade/*` file writes: actions and lists stand in for them, and `print`, `dump` and the diagnostics are dropped.
- `findFiles` and `os.walk`: the header, test and proto lines of `files_to_pub`, `.blade/src_files`, `.blade/all_deps` and the lint rules all come from directory walks.
- `emitStaticCheck`, and `emitDependencies`, which only recurses and writes nothing.
- The order of Python sets and dictionaries: prerequisites built from sets are sets, and so are the Makefile's own prerequisites.
- `os.getcwd` and `dirPrefix`: they are only used for file-system checks.
- blade3/color_print.py and blade3/regen_makefile.py, which only do terminal colouring and run a subprocess.
- Acyclicity of the emission graph is an input, the `rank` witness, rather than derived from expansion.
- Paths.ObjectPathList, Paths.ProtoObjectPathList, Paths.ProtoTarget: the space-separated strings, with their leading or trailing spaces, are kept as lists.
- Paths.ProtoTarget: its contract states only the empty case; `Paths.MakeProtoTarget` and `Emit.ProtoPrereqs` carry the content.
- Paths.CompileTool: states the compiler choice and the dependence on flag sets, not the full command text.
- Declare.DeclareHeader: a `name` that is not a string is a configuration error, whereas Python would carry on with it.
- Declare.LinkerArgs: the pyext `ldflags` argument is kept as given, since nothing reads it.
- Declare.LinkerArgs, Declare.BinaryLinkerFlagsOrder: each rule's `ldflags` is its own value. In Python, two rules of one BUILD file can share one list object, and blade3/cc.py:484 and blade3/cc.py:648 append to that object in place. A `cc_binary` sharing its list with a later `cc_test` then links with "-g -lgtest", not ending in "-g". The same holds for `cxxflags`, to which blade3/cc.py:106 appends the version flag in place. Object identity across calls is not modelled.
- JavaEmit.BinaryActions, JavaEmit.OwnActionsWith: commands are reduced to their target, prerequisites, classpath, source list and remaining words.
- The JavaProto rewrite of `srcsList` is visible only in that rule's compile step (`JavaEmit.ProtoJar`), not in its stored sources.
- Java graph: the Java descriptors are not registered in blade3/rule_generator.py, so their graph is an input and not produced by expansion.
- Args.Configure: stops after reading the packages. Dumping the packages and writing the Makefile are modelled separately by `Makefile` and `Emit`.

## Findings

| source | as written | input that shows it | evidently intended | confidence | as-written member | corrected member |
|---|---|---|---|---|---|---|
| blade3/package.py:174-178 | The `files_to_pub` archive line formats `lib%s.a` with the rule name unchanged. | A library named "Base" in package "base": the line names ".build/debug/targets/base/libBase.a", but the recipe builds "libbase.a". | The archive's real name, `libraryName()`, which lower-cases the rule name. | not executed | Makefile.ArchiveCaseMismatch | Makefile.PublishedArchiveIsBuilt |
| blade3/pconfig.py:13-18 | The relative-path test runs before a leading "./" is removed. | "./../x/BUILD" passes as "../x/BUILD", a file outside the workspace. | Test the path once "./" is gone, so that an accepted argument never leaves the workspace. | not executed | Args.DotDotSlipsThrough | Args.CheckArg |
