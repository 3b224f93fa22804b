/** The decision logic and data rewrites of the legacy Vite plugin: when the
    devtools are enabled, which chunk a module goes to, how the overlay entry is
    added to the Rollup input, how the built overlay bundle is found, and which
    modules get the overlay import prepended.

    The overlay directory (`DIR_OVERLAY`), the environment variables, whether
    `index.html` exists, and the user's chunking function and `appendTo` pattern
    are inputs. */
module Vite {
  import opened Common

  const OverlayChunkName := "react-devtools-overlay"
  const VirtualPathPrefix := "virtual:react-devtools-path:"
  /** The line transform prepends. */
  const OverlayImportLine := "import '" + VirtualPathPrefix + "overlay.ts';\n"

  // ---------------------------------------------------------------------------
  // shouldEnableDevTools

  datatype Command = Build | Serve

  /** The `enabledEnvironments` option: absent, a boolean, or a list of names. */
  datatype EnabledEnvironments = Unset | Flag(on: bool) | Envs(names: seq<string>)

  /** `envOverride` is VITE_REACT_DEVTOOLS_ENABLED and `nodeEnv` NODE_ENV, each
      None when unset (an environment variable that is set is a string). */
  function ShouldEnableDevTools(envOverride: Option<string>, nodeEnv: Option<string>,
                                enabled: EnabledEnvironments, mode: string, command: Command): (on: bool)
    ensures envOverride.Some? ==> (on <==> envOverride.value == "true")
    ensures envOverride.None? && (enabled.Unset? || enabled == Flag(true)) ==> (on <==> command == Serve)
    ensures envOverride.None? && enabled == Flag(false) ==> !on
    ensures envOverride.None? && enabled.Envs? ==>
      (on <==> mode in enabled.names || (nodeEnv.Some? && nodeEnv.value != "" && nodeEnv.value in enabled.names))
  {
    if envOverride.Some? then envOverride.value == "true"
    else match enabled
      case Flag(b) => b && command == Serve
      case Envs(names) =>
        var env := if nodeEnv.Some? && nodeEnv.value != "" then nodeEnv.value else mode;
        env in names || mode in names
      case Unset => command == Serve
  }

  /** Without the override, a build is enabled only through an environment
      list, and that list decides alike for serve and build. */
  lemma BuildNeedsEnvironmentList(nodeEnv: Option<string>, enabled: EnabledEnvironments, mode: string)
    ensures ShouldEnableDevTools(None, nodeEnv, enabled, mode, Build) ==> enabled.Envs?
    ensures enabled.Envs? ==>
      ShouldEnableDevTools(None, nodeEnv, enabled, mode, Build) == ShouldEnableDevTools(None, nodeEnv, enabled, mode, Serve)
  {
  }

  // ---------------------------------------------------------------------------
  // manualChunks

  predicate IsOverlayPath(id: string, dirOverlay: string) {
    Contains(id, OverlayChunkName) || Contains(id, dirOverlay)
  }

  /** Any module id that has the overlay chunk name or the overlay directory
      inside it is an overlay path. */
  lemma OverlayPathMeaning(pre: string, post: string, dirOverlay: string)
    ensures IsOverlayPath(pre + OverlayChunkName + post, dirOverlay)
    ensures IsOverlayPath(pre + dirOverlay + post, dirOverlay)
  {
    var a := pre + OverlayChunkName + post;
    assert a[|pre|..][..|OverlayChunkName|] == OverlayChunkName;
    assert a[|pre|..|pre| + |OverlayChunkName|] == OverlayChunkName;
    var b := pre + dirOverlay + post;
    assert b[|pre|..][..|dirOverlay|] == dirOverlay;
    assert b[|pre|..|pre| + |dirOverlay|] == dirOverlay;
  }

  /** The chunking function installed in each output config: overlay modules go to
      the overlay chunk whatever the user's function says; every other module is
      left to the user's function when there is one (None is null or undefined). */
  function ManualChunks(id: string, dirOverlay: string, user: Option<string -> Option<string>>): (chunk: Option<string>)
    ensures IsOverlayPath(id, dirOverlay) ==> chunk == Some(OverlayChunkName)
    ensures !IsOverlayPath(id, dirOverlay) && user.Some? ==> chunk == user.value(id)
    ensures !IsOverlayPath(id, dirOverlay) && user.None? ==> chunk.None?
  {
    if IsOverlayPath(id, dirOverlay) then Some(OverlayChunkName)
    else if user.Some? then user.value(id)
    else None
  }

  /** Installing the function never sends a module that is not an overlay module
      to the overlay chunk unless the user's function already did. */
  lemma OverlayChunkOnlyForOverlay(id: string, dirOverlay: string, user: Option<string -> Option<string>>)
    requires ManualChunks(id, dirOverlay, user) == Some(OverlayChunkName)
    ensures IsOverlayPath(id, dirOverlay) || (user.Some? && user.value(id) == Some(OverlayChunkName))
  {
  }

  // ---------------------------------------------------------------------------
  // createRollupInput

  /** A Rollup `input` option. */
  datatype RollupInput =
    | NoInput
    | InputString(entry: string)
    | InputArray(entries: seq<string>)
    | InputObject(named: map<string, string>)

  /** The entry modules an input names, leaving out one under the overlay key. */
  function KeptEntries(input: RollupInput): set<string> {
    match input
    case NoInput => {}
    case InputString(e) => if e == "" then {} else {e}
    case InputArray(es) => set i | 0 <= i < |es| :: es[i]
    case InputObject(m) => set k | k in m && k != OverlayChunkName :: m[k]
  }

  function Entries(input: RollupInput): set<string> {
    match input
    case NoInput => {}
    case InputString(e) => {e}
    case InputArray(es) => set i | 0 <= i < |es| :: es[i]
    case InputObject(m) => set k | k in m :: m[k]
  }

  /** createRollupInput as written. `indexHtml` is the resolved `index.html` path
      when that file exists. An array gets the overlay appended, an object gets
      the overlay key; anything else (unset, or a string entry, which is neither)
      falls to the `index.html` default. */
  function CreateRollupInput(existing: RollupInput, overlayInput: string, indexHtml: Option<string>): (r: RollupInput)
    ensures existing.InputArray? ==> r == InputArray(existing.entries + [overlayInput])
    ensures existing.InputObject? ==>
      r.InputObject? && r.named.Keys == existing.named.Keys + {OverlayChunkName}
      && r.named[OverlayChunkName] == overlayInput
      && forall k :: k in existing.named && k != OverlayChunkName ==> r.named[k] == existing.named[k]
    ensures !existing.InputArray? && !existing.InputObject? && indexHtml.Some? ==>
      r == InputObject(map["main" := indexHtml.value, OverlayChunkName := overlayInput])
    ensures !existing.InputArray? && !existing.InputObject? && indexHtml.None? ==> r == InputString(overlayInput)
  {
    match existing
    case InputArray(es) => InputArray(es + [overlayInput])
    case InputObject(m) => InputObject(m[OverlayChunkName := overlayInput])
    case _ =>
      if indexHtml.Some? then InputObject(map["main" := indexHtml.value, OverlayChunkName := overlayInput])
      else InputString(overlayInput)
  }

  /** A single string entry is dropped: with an `index.html` present the build
      gets that page and the overlay, and the configured entry is gone. */
  lemma StringInputDropped()
    ensures var r := CreateRollupInput(InputString("src/main.ts"), "overlay", Some("/app/index.html"));
      "src/main.ts" in KeptEntries(InputString("src/main.ts")) && "src/main.ts" !in Entries(r)
  {
    var r := CreateRollupInput(InputString("src/main.ts"), "overlay", Some("/app/index.html"));
    var m := map["main" := "/app/index.html", OverlayChunkName := "overlay"];
    assert r == InputObject(m);
    assert m.Keys == {"main", OverlayChunkName};
    assert forall k :: k in m ==> m[k] != "src/main.ts";
  }

  /** createRollupInput keeping a string entry, as an array beside the overlay. */
  function CreateRollupInputKeepingEntry(existing: RollupInput, overlayInput: string, indexHtml: Option<string>): (r: RollupInput)
    ensures existing.InputString? && existing.entry != "" ==> Entries(r) == {existing.entry, overlayInput}
    ensures !(existing.InputString? && existing.entry != "") ==> r == CreateRollupInput(existing, overlayInput, indexHtml)
  {
    if existing.InputString? && existing.entry != "" then
      var r := InputArray([existing.entry, overlayInput]);
      assert r.entries[0] == existing.entry && r.entries[1] == overlayInput;
      r
    else CreateRollupInput(existing, overlayInput, indexHtml)
  }

  /** With the correction the overlay is always an entry and no configured entry
      is lost. */
  lemma KeepsEveryEntry(existing: RollupInput, overlayInput: string, indexHtml: Option<string>)
    ensures var r := CreateRollupInputKeepingEntry(existing, overlayInput, indexHtml);
      overlayInput in Entries(r) && KeptEntries(existing) <= Entries(r)
  {
    var r := CreateRollupInputKeepingEntry(existing, overlayInput, indexHtml);
    match existing
    case InputArray(es) =>
      assert r.entries[|es|] == overlayInput;
      forall e | e in KeptEntries(existing) ensures e in Entries(r) {
        var i :| 0 <= i < |es| && es[i] == e;
        assert r.entries[i] == e;
      }
    case InputObject(m) =>
      assert r.named[OverlayChunkName] == overlayInput;
      forall e | e in KeptEntries(existing) ensures e in Entries(r) {
        var k :| k in m && k != OverlayChunkName && m[k] == e;
        assert r.named[k] == e;
      }
    case InputString(s) =>
      if s != "" {
        assert r.entries[0] == s && r.entries[1] == overlayInput;
      } else if indexHtml.Some? {
        assert r.named[OverlayChunkName] == overlayInput;
      }
    case NoInput =>
      if indexHtml.Some? {
        assert r.named[OverlayChunkName] == overlayInput;
      }
  }

  // ---------------------------------------------------------------------------
  // findOverlayBundle

  /** An output bundle entry: null, or an asset or chunk with its name and file
      name. */
  datatype BundleItem = Nothing | Output(kind: string, name: Option<string>, fileName: string)

  predicate IsOverlayChunk(key: string, item: BundleItem) {
    item.Output? && item.kind == "chunk" && (key == OverlayChunkName || item.name == Some(OverlayChunkName))
  }

  /** findOverlayBundle: the file name of the first chunk, in the bundle's key
      order, that is keyed or named as the overlay chunk; None when there is
      none. */
  method FindOverlayBundle(bundle: seq<(string, BundleItem)>) returns (r: Option<string>)
    ensures r.None? <==> forall i :: 0 <= i < |bundle| ==> !IsOverlayChunk(bundle[i].0, bundle[i].1)
    ensures r.Some? ==>
      exists i :: 0 <= i < |bundle| && IsOverlayChunk(bundle[i].0, bundle[i].1)
        && r.value == bundle[i].1.fileName
        && forall j :: 0 <= j < i ==> !IsOverlayChunk(bundle[j].0, bundle[j].1)
  {
    for i := 0 to |bundle|
      invariant forall j :: 0 <= j < i ==> !IsOverlayChunk(bundle[j].0, bundle[j].1)
    {
      var (key, chunk) := bundle[i];
      if chunk.Output? && chunk.kind == "chunk" && (key == OverlayChunkName || chunk.name == Some(OverlayChunkName)) {
        return Some(chunk.fileName);
      }
    }
    return None;
  }

  // ---------------------------------------------------------------------------
  // configResolved

  /** The dev server's file-system options. */
  class ServerFs {
    /** `server.fs.allow`, None when unset. */
    var allow: Option<seq<string>>

    constructor (allow: Option<seq<string>>)
      ensures this.allow == allow
    {
      this.allow := allow;
    }

    /** Adds the overlay directory and its parent to the allowed paths, after the
        ones already there. */
    method AllowOverlay(dirOverlay: string, overlayParent: string)
      modifies this
      ensures allow == Some(old(allow).GetOr([]) + [dirOverlay, overlayParent])
    {
      allow := Some(allow.GetOr([]) + [dirOverlay, overlayParent]);
    }
  }

  // ---------------------------------------------------------------------------
  // transform

  /** The `appendTo` option: unset, a file-name suffix, or a regular expression
      (given by what its `test` answers). */
  datatype AppendTo = NoAppend | Suffix(suffix: string) | Pattern(test: string -> bool)

  predicate Matches(appendTo: AppendTo, fileName: string) {
    match appendTo
    case NoAppend => false
    case Suffix(s) => s != [] && EndsWith(fileName, s)
    case Pattern(test) => test(fileName)
  }

  /** transform: for client modules whose file name (the id before any `?`)
      matches `appendTo`, the code with the overlay import prepended; None
      (null) otherwise, which also covers SSR, an unset and an empty `appendTo`. */
  function Transform(code: string, id: string, ssr: bool, appendTo: AppendTo): (r: Option<string>)
    ensures r.Some? <==> !ssr && Matches(appendTo, BeforeFirst(id, '?'))
    ensures r.Some? ==> r.value == OverlayImportLine + code
  {
    if ssr then None
    else
      var fileName := BeforeFirst(id, '?');
      if appendTo.NoAppend? || appendTo == Suffix("") then None
      else
        var matches := match appendTo
          case Suffix(s) => EndsWith(fileName, s)
          case Pattern(test) => test(fileName)
          case NoAppend => false;
        if matches then Some(OverlayImportLine + code) else None
  }

  /** The transformed code is the original preceded by exactly one line. */
  lemma PrependsOneLine(code: string, id: string, ssr: bool, appendTo: AppendTo)
    requires Transform(code, id, ssr, appendTo).Some?
    ensures var out := Transform(code, id, ssr, appendTo).value;
      out[|OverlayImportLine|..] == code
      && out[|OverlayImportLine| - 1] == '\n'
      && forall k :: 0 <= k < |OverlayImportLine| - 1 ==> out[k] != '\n'
  {
    var out := Transform(code, id, ssr, appendTo).value;
    assert out == OverlayImportLine + code;
    assert forall k :: 0 <= k < |OverlayImportLine| ==> out[k] == OverlayImportLine[k];
  }

  /** The query part of a module id plays no part in the decision. */
  lemma {:induction false} QueryIgnored(code: string, file: string, query: string, ssr: bool, appendTo: AppendTo)
    requires '?' !in file
    ensures Transform(code, file + "?" + query, ssr, appendTo) == Transform(code, file, ssr, appendTo)
  {
    BeforeFirstAt(file, query);
    BeforeFirstNone(file);
  }

  lemma {:induction false} BeforeFirstAt(file: string, query: string)
    requires '?' !in file
    ensures BeforeFirst(file + "?" + query, '?') == file
    decreases |file|
  {
    if file != [] {
      assert (file + "?" + query)[1..] == file[1..] + "?" + query;
      BeforeFirstAt(file[1..], query);
    }
  }

  lemma {:induction false} BeforeFirstNone(file: string)
    requires '?' !in file
    ensures BeforeFirst(file, '?') == file
    decreases |file|
  {
    if file != [] {
      BeforeFirstNone(file[1..]);
    }
  }
}
