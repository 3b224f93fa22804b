/** The dev-server middleware that serves a plugin's source file compiled for the
    browser, and the import rewrite it applies while compiling: `react` imports
    read `window.React`, devtools API imports destructure
    `window.__REACT_DEVTOOLS_API__`, and imports that bind nothing at run time
    are removed.

    Import declarations are a small datatype. The file system, and Babel itself
    (reading and compiling the file, with the rewrite as one of its plugins), are
    parameters of the handler. */
module PluginFile {
  import opened Common
  import opened UriComponent

  const FilePath := "/__react_devtools__/file"
  const ApiSources := {"react-devtools-plus/api", "@react-devtools-plus/api"}

  // ---------------------------------------------------------------------------
  // The ImportDeclaration visitor

  datatype Specifier =
    | DefaultSpecifier(local: string)
    | NamespaceSpecifier(local: string)
    /** `{ imported as local }`, `typeOnly` for `{ type imported }` */
    | NamedSpecifier(imported: string, local: string, typeOnly: bool)

  datatype ImportDeclaration = ImportDeclaration(source: string, specifiers: seq<Specifier>)

  /** One property of an object destructuring pattern. */
  datatype Property = Property(key: string, value: string, shorthand: bool)

  /** What the visitor does with a declaration. */
  datatype Visit =
    | Keep
    | Remove
    /** `const <local> = window.<global>` */
    | BindGlobal(local: string, global: string)
    /** `const { key: value, ... } = window.<global>` */
    | DestructureGlobal(properties: seq<Property>, global: string)

  /** The local name of the first specifier of the kind wanted (`find`). */
  function FirstLocal(specs: seq<Specifier>, wantDefault: bool): (r: Option<string>)
    ensures r.None? <==> forall i :: 0 <= i < |specs| ==> !OfKind(specs[i], wantDefault)
    ensures r.Some? ==>
      exists i :: 0 <= i < |specs| && OfKind(specs[i], wantDefault) && specs[i].local == r.value
        && forall j :: 0 <= j < i ==> !OfKind(specs[j], wantDefault)
  {
    if specs == [] then None
    else if OfKind(specs[0], wantDefault) then Some(specs[0].local)
    else
      var r := FirstLocal(specs[1..], wantDefault);
      assert forall j :: 1 <= j < |specs| ==> specs[j] == specs[1..][j - 1];
      if r.Some? then
        var k :| 0 <= k < |specs[1..]| && OfKind(specs[1..][k], wantDefault) && specs[1..][k].local == r.value
          && forall j :: 0 <= j < k ==> !OfKind(specs[1..][j], wantDefault);
        assert specs[k + 1] == specs[1..][k];
        r
      else r
  }

  predicate OfKind(s: Specifier, wantDefault: bool) {
    if wantDefault then s.DefaultSpecifier? else s.NamespaceSpecifier?
  }

  /** A named specifier's parts. */
  datatype NamedImport = NamedImport(imported: string, local: string, typeOnly: bool)

  /** The named specifiers, in source order. */
  function Named(specs: seq<Specifier>): seq<NamedImport> {
    if specs == [] then []
    else
      var head := specs[0];
      (if head.NamedSpecifier? then [NamedImport(head.imported, head.local, head.typeOnly)] else []) + Named(specs[1..])
  }

  /** The type-only named specifiers. */
  function TypeOnly(named: seq<NamedImport>): seq<NamedImport> {
    if named == [] then [] else (if named[0].typeOnly then [named[0]] else []) + TypeOnly(named[1..])
  }

  /** The named specifiers that bind values. */
  function Values(named: seq<NamedImport>): seq<NamedImport> {
    if named == [] then [] else (if named[0].typeOnly then [] else [named[0]]) + Values(named[1..])
  }

  /** The destructuring property for a value specifier. */
  function PropertyOf(s: NamedImport): Property {
    Property(s.imported, s.local, s.imported == s.local)
  }

  /** The ImportDeclaration visitor. */
  function Rewrite(d: ImportDeclaration): (v: Visit)
    ensures v == Keep <==> d.source != "react" && d.source !in ApiSources
    ensures v.BindGlobal? ==>
      d.source == "react" && v.global == "React"
      && exists i :: 0 <= i < |d.specifiers| && !d.specifiers[i].NamedSpecifier? && d.specifiers[i].local == v.local
    ensures v.DestructureGlobal? ==>
      d.source in ApiSources && v.global == "__REACT_DEVTOOLS_API__" && v.properties != []
  {
    if d.source == "react" then
      var def := FirstLocal(d.specifiers, true);
      if def.Some? then BindGlobal(def.value, "React")
      else
        var ns := FirstLocal(d.specifiers, false);
        if ns.Some? then BindGlobal(ns.value, "React") else Remove
    else if d.source in ApiSources then
      var named := Named(d.specifiers);
      if |named| == |TypeOnly(named)| then Remove
      else
        var values := Values(named);
        if |values| > 0 then
          DestructureGlobal(seq(|values|, i requires 0 <= i < |values| => PropertyOf(values[i])), "__REACT_DEVTOOLS_API__")
        else Remove
    else Keep
  }

  // ---------------------------------------------------------------------------
  // Properties of the rewrite

  /** reaches `react`: bound from the first default specifier, else from the first
      namespace specifier, and removed when it has neither. */
  lemma ReactRewrite(d: ImportDeclaration)
    requires d.source == "react"
    ensures FirstLocal(d.specifiers, true).Some? ==>
      Rewrite(d) == BindGlobal(FirstLocal(d.specifiers, true).value, "React")
    ensures FirstLocal(d.specifiers, true).None? && FirstLocal(d.specifiers, false).Some? ==>
      Rewrite(d) == BindGlobal(FirstLocal(d.specifiers, false).value, "React")
    ensures Rewrite(d) == Remove <==>
      forall i :: 0 <= i < |d.specifiers| ==> d.specifiers[i].NamedSpecifier?
  {
    if Rewrite(d) != Remove {
      assert FirstLocal(d.specifiers, true).Some? || FirstLocal(d.specifiers, false).Some?;
    }
  }

  /** The named specifiers split into the type-only ones and the value ones. */
  lemma {:induction false} NamedSplits(named: seq<NamedImport>)
    ensures |named| == |TypeOnly(named)| + |Values(named)|
    decreases |named|
  {
    if named != [] {
      NamedSplits(named[1..]);
    }
  }

  /** An API import is removed exactly when all its named specifiers are type-only
      (no named specifier at all included); otherwise it becomes a destructuring of
      its value specifiers, in order, shorthand exactly where the imported and
      local names agree. The visitor's last `remove` is never reached. */
  lemma ApiRewrite(d: ImportDeclaration)
    requires d.source in ApiSources
    ensures var named := Named(d.specifiers);
      (Rewrite(d) == Remove <==> |named| == |TypeOnly(named)|)
      && (Rewrite(d) != Remove ==>
            var values := Values(named);
            Rewrite(d).DestructureGlobal? && Rewrite(d).global == "__REACT_DEVTOOLS_API__"
            && |values| > 0 && |Rewrite(d).properties| == |values|
            && forall i :: 0 <= i < |values| ==>
                 Rewrite(d).properties[i].key == values[i].imported
                 && Rewrite(d).properties[i].value == values[i].local
                 && (Rewrite(d).properties[i].shorthand <==> values[i].imported == values[i].local))
  {
    NamedSplits(Named(d.specifiers));
  }

  /** The value specifiers are exactly the named ones that are not type-only, in
      order. */
  lemma {:induction false} ValuesMeaning(named: seq<NamedImport>, x: NamedImport)
    ensures x in Values(named) <==> x in named && !x.typeOnly
    decreases |named|
  {
    if named != [] {
      ValuesMeaning(named[1..], x);
      assert named == [named[0]] + named[1..];
    }
  }

  /** Imports from any other module are left alone. */
  lemma OtherImportsKept(d: ImportDeclaration)
    requires d.source != "react" && d.source !in ApiSources
    ensures Rewrite(d) == Keep
  {
  }

  // ---------------------------------------------------------------------------
  // The request handler

  /** What reading and compiling the file yields: an exception, or Babel's result
      (with or without code). */
  datatype Compiled = CompileThrew | CompileResult(code: Option<string>)

  datatype Body = Text(text: string) | ErrorJson | JavaScript(code: string)

  datatype Response = Next | Respond(status: int, body: Body)

  /** JSX parsing is on exactly for `.jsx` and `.tsx` files. */
  predicate IsJsx(path: string) {
    EndsWith(path, ".jsx") || EndsWith(path, ".tsx")
  }

  /** What the handler answers once it has the file's path: 404 when there is no
      such file, 500 when reading or compiling throws, else 200 with the compiled
      code (`result?.code || ''`). */
  function ServeFile(path: string, fileExists: string -> bool, compile: (string, bool) -> Compiled): (r: Response)
    ensures r.Respond?
    ensures r.status == 404 <==> !fileExists(path)
    ensures r.status == 200 ==>
      fileExists(path) && compile(path, IsJsx(path)).CompileResult?
      && r.body == JavaScript(compile(path, IsJsx(path)).code.GetOr(""))
    ensures fileExists(path) && compile(path, IsJsx(path)).CompileThrew? ==> r == Respond(500, ErrorJson)
  {
    if !fileExists(path) then Respond(404, Text("File not found"))
    else match compile(path, IsJsx(path))
      case CompileThrew => Respond(500, ErrorJson)
      case CompileResult(code) => Respond(200, JavaScript(code.GetOr("")))
  }

  /** The handler: `pathParam` is the `path` query parameter as
      `url.searchParams.get` returns it, that is already URL-decoded once;
      `fileExists` is the file system's answer, `compile` Babel run on the file
      with the JSX flag. The handler decodes the parameter a second time. */
  function Handle(pathname: string, pathParam: Option<string>, fileExists: string -> bool,
                  compile: (string, bool) -> Compiled): (r: Response)
    ensures r.Next? <==> pathname != FilePath
    ensures pathname == FilePath && (pathParam.None? || pathParam.value == "") ==>
      r == Respond(400, Text("Missing path parameter"))
    ensures pathname == FilePath && pathParam.Some? && pathParam.value != "" ==>
      var decoded := Decode(pathParam.value);
      (decoded.None? ==> r == Respond(500, ErrorJson))
      && (decoded.Some? && !fileExists(decoded.value) ==> r == Respond(404, Text("File not found")))
      && (decoded.Some? && fileExists(decoded.value) ==>
            var c := compile(decoded.value, IsJsx(decoded.value));
            (c.CompileThrew? ==> r == Respond(500, ErrorJson))
            && (c.CompileResult? ==> r == Respond(200, JavaScript(c.code.GetOr("")))))
  {
    if pathname != FilePath then Next
    else if pathParam.None? || pathParam.value == "" then Respond(400, Text("Missing path parameter"))
    else
      var decoded := Decode(pathParam.value);
      if decoded.None? then Respond(500, ErrorJson)
      else ServeFile(decoded.value, fileExists, compile)
  }

  /** A `path` parameter whose URL-decoded value is the URI-component encoding of
      a path names exactly that file: the answer for it depends only on that
      file. */
  lemma EncodedPathNamesFile(path: string, fileExists: string -> bool, compile: (string, bool) -> Compiled)
    requires path != ""
    ensures Handle(FilePath, Some(Encode(path)), fileExists, compile) ==
      if !fileExists(path) then Respond(404, Text("File not found"))
      else match compile(path, IsJsx(path))
        case CompileThrew => Respond(500, ErrorJson)
        case CompileResult(code) => Respond(200, JavaScript(code.GetOr("")))
  {
    DecodeEncode(path);
    EncodeNonEmpty(path);
  }

  /** As written, a client that encodes the path once (so that the parameter's
      URL-decoded value is the path itself) cannot fetch a file whose name holds
      a `%` that does not start an escape: the second decoding throws and the
      answer is 500, whether or not the file exists. */
  lemma PercentNameRejected(fileExists: string -> bool, compile: (string, bool) -> Compiled)
    ensures Handle(FilePath, Some("100%.tsx"), fileExists, compile) == Respond(500, ErrorJson)
    ensures HandleDecodedOnce(FilePath, Some("100%.tsx"), fileExists, compile)
      == ServeFile("100%.tsx", fileExists, compile)
  {
    assert Decode("%.tsx").None? by {
      assert "%.tsx"[1] == '.';
    }
    PrefixKeepsError('0', "%.tsx");
    PrefixKeepsError('0', "0%.tsx");
    PrefixKeepsError('1', "00%.tsx");
  }

  /** A character other than `%` in front of an undecodable string leaves it
      undecodable. */
  lemma PrefixKeepsError(c: char, s: string)
    requires c != '%' && Decode(s).None?
    ensures Decode([c] + s).None?
  {
    assert ([c] + s)[1..] == s;
  }

  /** The handler decoding the parameter only once, as `url.searchParams.get`
      already does. */
  function HandleDecodedOnce(pathname: string, pathParam: Option<string>, fileExists: string -> bool,
                             compile: (string, bool) -> Compiled): (r: Response)
    ensures r.Next? <==> pathname != FilePath
    ensures pathname == FilePath && (pathParam.None? || pathParam.value == "") ==>
      r == Respond(400, Text("Missing path parameter"))
  {
    if pathname != FilePath then Next
    else if pathParam.None? || pathParam.value == "" then Respond(400, Text("Missing path parameter"))
    else ServeFile(pathParam.value, fileExists, compile)
  }

  /** With the correction, every non-empty URL-decoded `path` parameter names
      exactly that file: 404 exactly when it is missing, otherwise the outcome of
      compiling it. */
  lemma DecodedOnceNamesFile(path: string, fileExists: string -> bool, compile: (string, bool) -> Compiled)
    requires path != ""
    ensures var r := HandleDecodedOnce(FilePath, Some(path), fileExists, compile);
      r.Respond? && (r.status == 404 <==> !fileExists(path))
      && (fileExists(path) ==>
            (compile(path, IsJsx(path)).CompileThrew? ==> r == Respond(500, ErrorJson))
            && (compile(path, IsJsx(path)).CompileResult? ==>
                  r == Respond(200, JavaScript(compile(path, IsJsx(path)).code.GetOr("")))))
  {
  }

  lemma EncodeNonEmpty(s: string)
    requires s != ""
    ensures Encode(s) != ""
  {
    DecodeEncode(s);
    assert Decode("") == Some("");
  }
}
