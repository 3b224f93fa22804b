/** The webpack loader that adds source-location attributes to JSX elements: it
    skips files that are not `.jsx`/`.tsx` and files under `node_modules`, and
    falls back to the original source whenever the transform throws or yields no
    code, so it never fails a build.

    The transform (`transformSourceCode` on this file with injection enabled) is
    given by its outcome. */
module SourceAttributeLoader {
  import opened Common

  /** What the transform produced: an exception, or a result with optional code
      and source map. */
  datatype TransformOutcome = Threw | Transformed(code: Option<string>, sourceMap: Option<string>)

  /** How the loader answers webpack: by returning code, or through
      `this.callback(null, code, map)`. */
  datatype LoaderOutput = Returned(code: string) | Callback(code: string, sourceMap: string)

  /** `/\.[jt]sx$/` */
  predicate IsJsxFile(resourcePath: string) {
    EndsWith(resourcePath, ".jsx") || EndsWith(resourcePath, ".tsx")
  }

  predicate Skipped(resourcePath: string) {
    !IsJsxFile(resourcePath) || Contains(resourcePath, "node_modules")
  }

  function Load(source: string, resourcePath: string, outcome: TransformOutcome): (out: LoaderOutput)
    ensures Skipped(resourcePath) ==> out == Returned(source)
    ensures !Skipped(resourcePath) && (outcome.Threw? || outcome.code.None? || outcome.code.value == "") ==>
      out == Returned(source)
    ensures !Skipped(resourcePath) && outcome.Transformed? && outcome.code.Some? && outcome.code.value != "" ==>
      (outcome.sourceMap.Some? ==> out == Callback(outcome.code.value, outcome.sourceMap.value))
      && (outcome.sourceMap.None? ==> out == Returned(outcome.code.value))
  {
    if !IsJsxFile(resourcePath) then Returned(source)
    else if Contains(resourcePath, "node_modules") then Returned(source)
    else match outcome
      case Threw => Returned(source)
      case Transformed(code, sourceMap) =>
        if code.Some? && code.value != "" then
          if sourceMap.Some? then Callback(code.value, sourceMap.value) else Returned(code.value)
        else Returned(source)
  }

  /** The code webpack receives is the original source or the transform's
      non-empty code, and never empty unless the source itself was. */
  lemma OutputIsSourceOrTransformed(source: string, resourcePath: string, outcome: TransformOutcome)
    ensures var out := Load(source, resourcePath, outcome);
      out.code == source
      || (outcome.Transformed? && outcome.code.Some? && out.code == outcome.code.value && out.code != "")
    ensures Load(source, resourcePath, outcome).code == "" ==> source == ""
  {
  }

  /** For skipped files the transform's outcome plays no part. */
  lemma SkippedIgnoresTransform(source: string, resourcePath: string, a: TransformOutcome, b: TransformOutcome)
    requires Skipped(resourcePath)
    ensures Load(source, resourcePath, a) == Load(source, resourcePath, b)
  {
  }
}
