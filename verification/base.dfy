/** Shared result types and the error taxonomy of the Makefile generator.
    Every diagnostic that ends the run with `sys.exit` (or an exception escaping
    the execution of a BUILD file) becomes an `Err` value here. */
module Base {

  datatype Option<T> = None | Some(value: T)

  datatype Error =
    // reference strings (rule.py)
    | InvalidReferenceStart(dep: string)          // neither "//" nor ":"
    | MalformedReference(dep: string)             // the reference pattern does not match
    | MissingBuildSuffix(dep: string)             // package part lacks "/BUILD"
    | RuleNotFound(target: string, referrer: string)
    | CyclicDependency(from: string, to: string)
    // packages (package.py, pconfig.py)
    | PublishTreePackage(name: string)            // package path under "pub/"
    | PackageNotFound(name: string)               // no BUILD file for the package
    | EmptyPackage(name: string)                  // BUILD file declares no rule
    | DuplicateRule(name: string)
    | NotRelativePath(arg: string)
    | NotBuildFile(arg: string)
    | RepeatedBuildFile(arg: string)
    // rule declarations (cc.py, genrule.py)
    | MissingArgument(attr: string)
    | NotStringList(attr: string)
    | MisspelledSrcs
    | ConflictingSources(first: string, second: string)
    | ScriptError(what: string)                   // an exception raised while running a BUILD file
    | UnknownPackageAttr(key: string)
    | InvalidPackageAttr(key: string)
    // sources checked before emission (cc.py)
    | SourceOutsidePackage(src: string)
    | WrongSourceType(src: string, expected: string)

  datatype Result<T> = Ok(value: T) | Err(error: Error) {
    predicate IsFailure() { Err? }
    function PropagateFailure<U>(): Result<U>
      requires Err?
    {
      Err(error)
    }
    function Extract(): T
      requires Ok?
    {
      value
    }
  }
}
