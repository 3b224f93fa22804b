/** The webpack integration: the compiler options it reads and reassigns, the
    entry rewrite that adds the overlay module to the application's main entry,
    and the dev-server hook that chains the devtools routes after the user's own
    `setupMiddlewares`.

    Webpack entry values are modelled as data. An object entry is the list of its
    (key, value) pairs in `Object.keys` order; a descriptor's fields other than
    `import` are kept as an opaque map. */
module Webpack {
  import opened Common
  import opened Vite

  // ---------------------------------------------------------------------------
  // Entry values

  /** A descriptor's `import` field: missing, one module, or a list. */
  datatype ImportField = NoImport | ImportOne(name: string) | ImportMany(modules: seq<string>)

  /** The value under one key of an object entry. */
  datatype EntryItem =
    | ItemString(name: string)
    | ItemArray(modules: seq<string>)
    | ItemDescriptor(imports: ImportField, rest: map<string, string>)

  /** A resolved `entry` option. `EntryOther` stands for any other value (such as
      undefined), which passes through untouched. */
  datatype Entries =
    | EntryString(name: string)
    | EntryArray(modules: seq<string>)
    | EntryObject(fields: seq<(string, EntryItem)>)
    | EntryOther

  predicate IsMainKey(k: string) {
    k == "main" || k == "app" || k == "index"
  }

  /** The key of an object entry that receives the overlay:
      `keys.find(main | app | index) || keys[0]`, and none when that is missing
      or the empty (falsy) key. */
  function TargetIndex(fields: seq<(string, EntryItem)>): (r: Option<nat>)
    ensures r.Some? ==> r.value < |fields|
    ensures r.Some? && IsMainKey(fields[r.value].0) ==>
      forall j :: 0 <= j < r.value ==> !IsMainKey(fields[j].0)
    ensures r.Some? && !IsMainKey(fields[r.value].0) ==>
      r.value == 0 && fields[0].0 != "" && forall j :: 0 <= j < |fields| ==> !IsMainKey(fields[j].0)
    ensures r.None? ==> forall j :: 0 <= j < |fields| ==> !IsMainKey(fields[j].0)
    ensures r.None? <==> fields == [] || (fields[0].0 == "" && forall j :: 0 <= j < |fields| ==> !IsMainKey(fields[j].0))
  {
    var found := FirstMainKey(fields, 0);
    if found.Some? then found
    else if |fields| > 0 && fields[0].0 != "" then Some(0)
    else None
  }

  /** The first position at or after `from` holding a main key. */
  function FirstMainKey(fields: seq<(string, EntryItem)>, from: nat): (r: Option<nat>)
    requires from <= |fields|
    ensures r.Some? ==>
      from <= r.value < |fields| && IsMainKey(fields[r.value].0)
      && forall j :: from <= j < r.value ==> !IsMainKey(fields[j].0)
    ensures r.None? ==> forall j :: from <= j < |fields| ==> !IsMainKey(fields[j].0)
    decreases |fields| - from
  {
    if from == |fields| then None
    else if IsMainKey(fields[from].0) then Some(from)
    else FirstMainKey(fields, from + 1)
  }

  /** The modules an entry item imports. */
  function ItemImports(item: EntryItem): seq<string> {
    match item
    case ItemString(m) => [m]
    case ItemArray(ms) => ms
    case ItemDescriptor(imports, _) =>
      match imports
      case NoImport => []
      case ImportOne(m) => if m == "" then [] else [m]
      case ImportMany(ms) => ms
  }

  /** The rewritten target: a descriptor importing the item's modules followed by
      the overlay. A descriptor with a (truthy) import keeps its other fields; any
      other item becomes a bare descriptor. */
  function WithOverlay(item: EntryItem, overlayPath: string): (r: EntryItem)
    ensures r.ItemDescriptor? && r.imports == ImportMany(ItemImports(item) + [overlayPath])
    ensures item.ItemDescriptor? && ItemImports(item) != [] ==> r.rest == item.rest
    ensures !item.ItemDescriptor? ==> r.rest == map[]
  {
    match item
    case ItemDescriptor(imports, rest) =>
      if imports.ImportMany? || (imports.ImportOne? && imports.name != "")
      then ItemDescriptor(ImportMany(ItemImports(item) + [overlayPath]), rest)
      else ItemDescriptor(ImportMany(ItemImports(item) + [overlayPath]), map[])
    case _ => ItemDescriptor(ImportMany(ItemImports(item) + [overlayPath]), map[])
  }

  /** The body of the entry function injectOverlayToEntry installs, applied to the
      resolved original entry. */
  function InjectOverlay(entries: Entries, overlayPath: string): (r: Entries)
    ensures entries.EntryString? ==>
      r == EntryObject([("main", ItemDescriptor(ImportMany([entries.name, overlayPath]), map[]))])
    ensures entries.EntryArray? ==>
      r == EntryObject([("main", ItemDescriptor(ImportMany(entries.modules + [overlayPath]), map[]))])
    ensures entries.EntryOther? ==> r == entries
    ensures entries.EntryObject? ==>
      r.EntryObject? && |r.fields| == |entries.fields|
      && (forall j :: 0 <= j < |r.fields| ==> r.fields[j].0 == entries.fields[j].0)
  {
    match entries
    case EntryString(m) => EntryObject([("main", ItemDescriptor(ImportMany([m, overlayPath]), map[]))])
    case EntryArray(ms) => EntryObject([("main", ItemDescriptor(ImportMany(ms + [overlayPath]), map[]))])
    case EntryObject(fields) =>
      var target := TargetIndex(fields);
      if target.None? then entries
      else
        var i := target.value;
        EntryObject(fields[i := (fields[i].0, WithOverlay(fields[i].1, overlayPath))])
    case EntryOther => entries
  }

  /** For an object entry exactly the target key changes, and its imports end with
      the overlay after the ones it had; with no target nothing changes. */
  lemma ObjectEntryMeaning(fields: seq<(string, EntryItem)>, overlayPath: string)
    ensures var r := InjectOverlay(EntryObject(fields), overlayPath).fields;
      var t := TargetIndex(fields);
      (t.None? ==> r == fields)
      && (t.Some? ==>
            (forall j :: 0 <= j < |fields| && j != t.value ==> r[j] == fields[j])
            && r[t.value].1 == WithOverlay(fields[t.value].1, overlayPath)
            && ItemImports(r[t.value].1) == ItemImports(fields[t.value].1) + [overlayPath])
  {
  }

  /** Every shape the original entry can take ends up importing the overlay last
      in the main entry, after all the modules that entry had. */
  lemma OverlayLast(entries: Entries, overlayPath: string)
    requires entries.EntryString? || entries.EntryArray?
      || (entries.EntryObject? && TargetIndex(entries.fields).Some?)
    ensures var r := InjectOverlay(entries, overlayPath);
      var i := if entries.EntryObject? then TargetIndex(entries.fields).value else 0;
      r.EntryObject? && i < |r.fields|
      && var imports := ItemImports(r.fields[i].1);
         |imports| >= 1 && imports[|imports| - 1] == overlayPath
  {
  }

  /** An object with no keys is returned unchanged. */
  lemma EmptyObjectUnchanged(overlayPath: string)
    ensures InjectOverlay(EntryObject([]), overlayPath) == EntryObject([])
  {
  }

  /** The `entry` option: a value, or a function producing one (awaited). */
  datatype EntrySource = StaticEntry(entries: Entries) | EntryFunction(produce: () -> Entries)

  function Resolve(source: EntrySource): Entries {
    match source
    case StaticEntry(e) => e
    case EntryFunction(f) => f()
  }

  // ---------------------------------------------------------------------------
  // Dev server

  type Middleware = string

  /** A `setupMiddlewares` hook: none, the user's own, or the devtools wrapper
      around whatever hook was there before. */
  datatype SetupHook =
    | NoHook
    | UserHook(run: seq<Middleware> -> seq<Middleware>)
    | DevtoolsHook(original: SetupHook)

  /** The routes the devtools wrapper mounts on the dev server's app. */
  const DevtoolsRoutes := ["/__open-in-editor", "/__react_devtools__"]

  /** Running a hook on a middleware list: the list it returns, and the routes it
      mounted on the app (when the server has one). */
  function RunHook(hook: SetupHook, middlewares: seq<Middleware>, hasApp: bool): (r: (seq<Middleware>, seq<string>))
    ensures hook.NoHook? ==> r == (middlewares, [])
    ensures hook.UserHook? ==> r == (hook.run(middlewares), [])
    ensures !hasApp ==> r.1 == []
    ensures forall k :: 0 <= k < |r.1| ==> r.1[k] in DevtoolsRoutes
    ensures hook.DevtoolsHook? && hasApp ==> |r.1| >= 2 && r.1[|r.1| - 2..] == DevtoolsRoutes
  {
    match hook
    case NoHook => (middlewares, [])
    case UserHook(f) => (f(middlewares), [])
    case DevtoolsHook(original) =>
      var (list, routes) := RunHook(original, middlewares, hasApp);
      (list, routes + (if hasApp then DevtoolsRoutes else []))
  }

  /** The devtools wrapper calls the original hook first and returns its middleware
      list unchanged; it only adds its two routes to the app. */
  lemma WrapperChainsOriginal(original: SetupHook, middlewares: seq<Middleware>, hasApp: bool)
    ensures RunHook(DevtoolsHook(original), middlewares, hasApp).0 == RunHook(original, middlewares, hasApp).0
    ensures original.UserHook? ==> RunHook(DevtoolsHook(original), middlewares, hasApp).0 == original.run(middlewares)
    ensures original.NoHook? ==> RunHook(DevtoolsHook(original), middlewares, hasApp) == (middlewares, if hasApp then DevtoolsRoutes else [])
  {
    if original.NoHook? {
      var empty: seq<string> := [];
      assert RunHook(original, middlewares, hasApp) == (middlewares, empty);
      assert empty + DevtoolsRoutes == DevtoolsRoutes && empty + empty == empty;
    }
  }

  datatype DevServer = DevServer(setupMiddlewares: SetupHook)

  /** `compiler.options`, as far as the integration reads and writes it. */
  class CompilerOptions {
    var mode: Option<string>
    var entry: EntrySource
    var devServer: Option<DevServer>

    constructor (mode: Option<string>, entry: EntrySource, devServer: Option<DevServer>)
      ensures this.mode == mode && this.entry == entry && this.devServer == devServer
    {
      this.mode := mode;
      this.entry := entry;
      this.devServer := devServer;
    }

    /** getWebpackModeAndCommand: the mode, `development` when unset or empty, and
        `serve` exactly when there is a dev-server configuration. */
    function ModeAndCommand(): (r: (string, Command))
      reads this
      ensures r.1 == Serve <==> devServer.Some?
      ensures mode.Some? && mode.value != "" ==> r.0 == mode.value
      ensures mode.None? || mode.value == "" ==> r.0 == "development"
    {
      (if mode.Some? && mode.value != "" then mode.value else "development",
       if devServer.Some? then Serve else Build)
    }

    /** injectOverlayToEntry: replaces the entry by a function that resolves the
        original entry and adds the overlay to it. */
    method InjectOverlayToEntry(overlayPath: string)
      modifies this
      ensures entry.EntryFunction?
      ensures Resolve(entry) == InjectOverlay(Resolve(old(entry)), overlayPath)
      ensures mode == old(mode) && devServer == old(devServer)
    {
      var original := entry;
      entry := EntryFunction(() => InjectOverlay(Resolve(original), overlayPath));
    }

    /** setupWebpackDevServerMiddlewares: creates the dev-server configuration if
        missing and wraps its `setupMiddlewares` hook; afterwards the command is
        `serve`. */
    method SetupDevServerMiddlewares()
      modifies this
      ensures devServer == Some(DevServer(DevtoolsHook(if old(devServer).Some? then old(devServer).value.setupMiddlewares else NoHook)))
      ensures ModeAndCommand().1 == Serve
      ensures mode == old(mode) && entry == old(entry)
    {
      if devServer.None? {
        devServer := Some(DevServer(NoHook));
      }
      var original := devServer.value.setupMiddlewares;
      devServer := Some(devServer.value.(setupMiddlewares := DevtoolsHook(original)));
    }
  }
}
