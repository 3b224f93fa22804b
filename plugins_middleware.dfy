/** The dev-server middleware that serves the plugin manifest: one exact path is
    answered with the configured plugins as JSON, each plugin's view `src` passed
    through the optional path transform; every other request goes to `next`.

    The request is given by its URL's pathname (URL parsing is not modelled);
    plugin fields other than `view`, and view fields other than `src`, are kept as
    opaque maps. */
module PluginsMiddleware {
  import opened Common

  const ManifestPath := "/__react_devtools__/plugins-manifest.json"

  datatype View = View(src: Option<string>, rest: map<string, string>)

  datatype UserPlugin = UserPlugin(view: Option<View>, rest: map<string, string>)

  /** A view to rewrite: one with a (truthy) non-empty `src`. */
  predicate HasSrc(p: UserPlugin) {
    p.view.Some? && p.view.value.src.Some? && p.view.value.src.value != ""
  }

  /** The manifest entry of one plugin. */
  function ManifestEntry(p: UserPlugin, transformPath: Option<string -> string>): (q: UserPlugin)
    ensures HasSrc(p) && transformPath.Some? ==>
      q.rest == p.rest && q.view.Some? && q.view.value.rest == p.view.value.rest
      && q.view.value.src == Some(transformPath.value(p.view.value.src.value))
    ensures !HasSrc(p) || transformPath.None? ==> q == p
  {
    if HasSrc(p) && transformPath.Some? then
      p.(view := Some(p.view.value.(src := Some(transformPath.value(p.view.value.src.value)))))
    else p
  }

  /** The plugins the manifest lists: the configured ones (none when unset), in
      order, each rewritten by ManifestEntry. */
  function Manifest(plugins: Option<seq<UserPlugin>>, transformPath: Option<string -> string>): (m: seq<UserPlugin>)
    ensures plugins.None? ==> m == []
    ensures plugins.Some? ==>
      |m| == |plugins.value|
      && forall i :: 0 <= i < |m| ==> m[i] == ManifestEntry(plugins.value[i], transformPath)
  {
    if plugins.None? then []
    else seq(|plugins.value|, i requires 0 <= i < |plugins.value| => ManifestEntry(plugins.value[i], transformPath))
  }

  /** Without a path transform the manifest is the configured list itself. */
  lemma NoTransformIsIdentity(plugins: seq<UserPlugin>)
    ensures Manifest(Some(plugins), None) == plugins
  {
  }

  /** The rewrite touches only `src`: applying it never changes which plugins have
      a view with a source. */
  lemma RewriteKeepsShape(p: UserPlugin, transformPath: Option<string -> string>)
    ensures ManifestEntry(p, transformPath).view.Some? == p.view.Some?
    ensures ManifestEntry(p, transformPath).view.Some? ==>
      ManifestEntry(p, transformPath).view.value.src.Some? == p.view.value.src.Some?
  {
  }

  /** What the middleware does with a request. */
  datatype Outcome = Next | ServeManifest(headers: seq<(string, string)>, plugins: seq<UserPlugin>)

  const ManifestHeaders := [("Content-Type", "application/json"), ("Access-Control-Allow-Origin", "*")]

  /** createPluginsMiddleware's handler. */
  function Handle(pathname: string, plugins: Option<seq<UserPlugin>>, transformPath: Option<string -> string>): (o: Outcome)
    ensures o.ServeManifest? <==> pathname == ManifestPath
    ensures o.ServeManifest? ==> o.headers == ManifestHeaders && o.plugins == Manifest(plugins, transformPath)
  {
    if pathname == ManifestPath then ServeManifest(ManifestHeaders, Manifest(plugins, transformPath))
    else Next
  }
}
