# react-devtools-plus, modelled in Dafny

This project models the decision logic and state of react-devtools-plus, a set of developer tools for React applications. It covers eight parts:

- **Element inspector** (`Inspector`). The browser-side inspector walks up the fiber tree from the element under the pointer. It highlights what it found, emits "select component" or "open in editor" to its subscribers, and switches itself off.
- **Open in editor** (`OpenInEditor`). First the dev-server endpoint is requested. If that fails, the editor is opened once through its URL protocol.
- **Client pages** (`Routes`, `Overview`). The routes page flattens the router's route tree into rows with full paths and navigates through RPC. The overview page counts the components of the tree.
- **React Scan integration** (`ScanPerformance`, `ScanAdapter`, `ScanPlugin`, `ScanIndex`). It covers:
  - the adapter's singleton scan instance and its options record;
  - the start, stop, setOptions and toolbar controls, and what they send to React Scan;
  - grouping React Scan's report into per-component performance records, and the summary of those records;
  - the devtools plugin, with its setup, teardown and RPC wrappers;
  - the package entry `initScan`, `getScan` and `resetScan`.
- **Vite plugin** (`Vite`). It covers:
  - when the devtools are enabled;
  - the chunk assignment of overlay modules;
  - how the overlay entry is added to the Rollup input;
  - the search for the built overlay bundle;
  - the file-system allow list;
  - the transform that prepends the overlay import.
- **Webpack integration** (`Webpack`). It covers the rewrite of the `entry` option that adds the overlay to the main entry, and the wrapping of the dev server's `setupMiddlewares` hook.
- **Dev-server middlewares** (`PluginsMiddleware`, `PluginFile`). These are:
  - the plugin manifest endpoint;
  - the plugin file endpoint, which compiles a plugin source for the browser;
  - the Babel import rewrite that endpoint applies.
- **Source-attribute loader** (`SourceAttributeLoader`). This is the webpack loader that adds source-location attributes to JSX elements, or falls back to the original source.

State that the source changes in place is modelled by classes whose methods state their whole new state:

- the inspector's module variables;
- the scan adapter's `scanInstance` and `currentOptions`;
- the plugin closure's `scanInstance` and `context`;
- webpack's `compiler.options`;
- the routes page's React state;
- Vite's `server.fs`.

What the code calls but does not define becomes a parameter. This covers React, React Scan's internals and `getOptions`, Babel, the file system, `fetch`, `localStorage`, the user's `manualChunks` and the `appendTo` regular expression. React Scan itself is a recorder object (`ScanAdapter.ReactScan`) that logs the calls it receives.

JavaScript values are modelled as follows:

- Option records are maps from key to value, so object spread is map union.
- Truthiness and `||` defaults are written out.
- `encodeURIComponent` / `decodeURIComponent` are modelled as ECMA-262 (section 19.2.6) defines them on strings of Unicode scalar values (`UriComponent`), with their round trip proved. Strings here are sequences of Dafny `char`, which holds no lone surrogate, so the URIError encodeURIComponent throws on one does not arise.

## Model

| member | source | states |
|---|---|---|
| Inspector.Chain | packages/react-devtools-kit/src/core/inspector/index.ts:29-51 | the `return` chain walked from a fiber: it starts at that fiber, each element's parent is the next element, every element is a live fiber, and it ends at a fiber with no parent (empty for null) |
| Inspector.ChainFuelIndependent | packages/react-devtools-kit/src/core/inspector/index.ts:29-51 | the chain does not depend on the step bound used to define it |
| Inspector.ChainSuffix | packages/react-devtools-kit/src/core/inspector/index.ts:37 | after i steps up, the rest of the walk is the chain of the fiber reached |
| Inspector.ChainIsSimple | packages/react-devtools-kit/src/core/inspector/index.ts:31-38 | in a well-formed fiber tree a walk never visits the same fiber twice, so the loops end |
| Inspector.ChainStep | packages/react-devtools-kit/src/core/inspector/index.ts:37 | the chain of a fiber is that fiber followed by the chain of its parent |
| Inspector.FirstMatch | packages/react-devtools-kit/src/core/inspector/index.ts:31-39 | the index of the first matching element of a chain, none exactly when no element matches |
| Inspector.FindNearestComponentFiber | packages/react-devtools-kit/src/core/inspector/index.ts:29-40 | the loop returns the first fiber on the chain that shouldIncludeFiber(_, false) accepts, and null when no fiber on it does |
| Inspector.FindSourceFiber | packages/react-devtools-kit/src/core/inspector/index.ts:42-51 | the loop returns the first fiber on the chain that carries `_debugSource`, and null when none does |
| Inspector.FirstMatchAfterSkipped | packages/react-devtools-kit/src/core/inspector/index.ts:34-37 | skipping fibers that do not qualify does not change the nearest match (the loop step) |
| Inspector.FirstOnChainMeaning | packages/react-devtools-kit/src/core/inspector/index.ts:29-51 | the fiber found is on the chain and qualifies, no nearer fiber qualifies, and null means no fiber of the chain qualifies |
| Inspector.SelfFirst | packages/react-devtools-kit/src/core/inspector/index.ts:34-36 | a fiber that qualifies itself is its own nearest match |
| Inspector.NullStart | packages/react-devtools-kit/src/core/inspector/index.ts:30-39 | a walk from null finds nothing |
| Inspector.SourceFiberOnChain | packages/react-devtools-kit/src/core/inspector/index.ts:74-94 | the source fiber found carries a source and is only found from a non-null fiber, so the fallback `highlightNode(sourceFiber)` never runs |
| Inspector.InspectorState.constructor | packages/react-devtools-kit/src/core/inspector/index.ts:5-9 | the module starts disabled, in select-component mode, with no subscribers |
| Inspector.InspectorState.OnInspectorSelect | packages/react-devtools-kit/src/core/inspector/index.ts:11-14 | adds the callback to the select set, nothing else changes |
| Inspector.InspectorState.DisposeSelect | packages/react-devtools-kit/src/core/inspector/index.ts:13 | removes the callback and reports whether it was registered |
| Inspector.InspectorState.OnOpenInEditor | packages/react-devtools-kit/src/core/inspector/index.ts:16-19 | adds the callback to the open-in-editor set, nothing else changes |
| Inspector.InspectorState.DisposeOpenInEditor | packages/react-devtools-kit/src/core/inspector/index.ts:18 | removes the callback and reports whether it was registered |
| Inspector.InspectorState.ToggleInspector | packages/react-devtools-kit/src/core/inspector/index.ts:141-158 | sets the flag, changes the mode only when one is given, attaches listeners exactly while enabled, hides the highlight when disabling |
| Inspector.InspectorState.HandleMouseOver | packages/react-devtools-kit/src/core/inspector/index.ts:53-100 | nothing when disabled; in select mode it highlights the nearest component fiber or hides; in editor mode it highlights the hovered fiber with the nearest source, or hides |
| Inspector.InspectorState.HandleClick | packages/react-devtools-kit/src/core/inspector/index.ts:102-135 | prevents the event exactly when enabled; in each mode, when a fiber is found, emits its id or source location to exactly the registered callbacks and disables; otherwise changes nothing |
| OpenInEditor.EndpointUrl | packages/react-devtools-kit/src/core/open-in-editor/index.ts:30 | the endpoint URL is the route prefix followed by a URL-safe query value that decodes to exactly `file:line:column` |
| OpenInEditor.Editor | packages/react-devtools-kit/src/core/open-in-editor/index.ts:7 | the stored editor when it is a non-empty string, `vscode` otherwise |
| OpenInEditor.ProtocolUrl | packages/react-devtools-kit/src/core/open-in-editor/index.ts:11 | `editor://file/` followed by the location |
| OpenInEditor.LocationRoundTrip | packages/react-devtools-kit/src/core/open-in-editor/index.ts:11 | splitting the location at its last two colons gives back the file name, line and column, whatever colons the file name holds |
| OpenInEditor.SplitJoined | packages/react-devtools-kit/src/core/open-in-editor/index.ts:30 | splitting `f:l:c` at the last two colons recovers f, l and c when l and c hold no colon |
| OpenInEditor.TryOpenWithProtocol | packages/react-devtools-kit/src/core/open-in-editor/index.ts:4-25 | succeeds exactly when storage is readable and the link works, and then navigates to the protocol URL of the chosen editor; otherwise reports failure |
| OpenInEditor.OpenInEditorEffects | packages/react-devtools-kit/src/core/open-in-editor/index.ts:27-51 | for a file name of Unicode scalar values, requests the endpoint URL first; the fallback runs once, exactly when the outcome is not an ok response |
| OpenInEditor.FallbackExactlyOnce | packages/react-devtools-kit/src/core/open-in-editor/index.ts:32-44 | an ok response never opens the editor protocol; in every other outcome the editor is opened exactly when storage is readable and the link works |
| Common.IntToStringRoundTrip | packages/react-devtools-kit/src/core/open-in-editor/index.ts:11 | the decimal text of a line or column number reads back as that number |
| UriComponent.EncodeIsUrlSafe | packages/react-devtools-kit/src/core/open-in-editor/index.ts:30 | encodeURIComponent yields only unreserved characters and `%` escapes |
| UriComponent.Encode | packages/react-devtools-kit/src/core/open-in-editor/index.ts:30 | encodeURIComponent never shortens a string and leaves a string of unreserved characters unchanged |
| UriComponent.Decode | packages/react-devtools/src/middleware/plugin-file.ts:28 | decodeURIComponent never lengthens a string and leaves a string without `%` unchanged; None stands for its URIError |
| UriComponent.DecodeEncode | packages/react-devtools/src/middleware/plugin-file.ts:28 | decodeURIComponent of encodeURIComponent(s) is s, for every string of Unicode scalar values |
| Routes.CollapseSlashes | packages/react-devtools-client/src/pages/RoutesPage.tsx:45 | collapsing keeps the first character, never lengthens and is empty only for the empty string |
| Routes.CollapseSlashesMeaning | packages/react-devtools-client/src/pages/RoutesPage.tsx:45 | the result has no `//`, keeps every non-slash character in order, and leaves a string without `//` unchanged |
| Routes.CollapseSlashesIdempotent | packages/react-devtools-client/src/pages/RoutesPage.tsx:45 | collapsing twice is collapsing once |
| Routes.FullPath | packages/react-devtools-client/src/pages/RoutesPage.tsx:43-45 | an absolute path is kept; a relative one becomes the parent's and its own characters joined without `//`; never empty, and absolute under an empty or absolute parent |
| Routes.FlattenRoutes | packages/react-devtools-client/src/pages/RoutesPage.tsx:40-52 | the loop produces Flatten: each route's row followed by its children's rows under its full path |
| Routes.FlattenMeaning | packages/react-devtools-client/src/pages/RoutesPage.tsx:40-52 | one row per route of the tree in pre-order, each its route with only the path replaced; from the top level every path is absolute |
| Routes.FlattenOneMeaning | packages/react-devtools-client/src/pages/RoutesPage.tsx:46-49 | a route's rows are its own row followed by its descendants' rows |
| Routes.RowKeepsFullPath | packages/react-devtools-client/src/pages/RoutesPage.tsx:46 | the `'/'` default is never taken: a row carries its full path and keeps its children |
| Routes.RoutesView.constructor | packages/react-devtools-client/src/pages/RoutesPage.tsx:122-124 | the page starts with empty paths and no routes |
| Routes.RoutesView.FetchRouterInfo | packages/react-devtools-client/src/pages/RoutesPage.tsx:129-149 | a non-null report sets the current path, the input and the routes; no client, null or an exception changes nothing |
| Routes.RoutesView.HandleNavigate | packages/react-devtools-client/src/pages/RoutesPage.tsx:159-174 | the request is sent when there is a client, and only a true answer moves the current path and the input |
| Routes.RoutesView.HandleInputSubmit | packages/react-devtools-client/src/pages/RoutesPage.tsx:176-181 | navigates to the input exactly when it is non-empty and differs from the current path, the condition that enables the button |
| Routes.RoutesView.ActiveRows | packages/react-devtools-client/src/pages/RoutesPage.tsx:288 | active rows are rows of the flattened list, and none is active for an empty or relative current path |
| Overview.Nodes | packages/react-devtools-client/src/pages/OverviewPage.tsx:11-17 | a tree's nodes in pre-order start with its root |
| Overview.CountComponents | packages/react-devtools-client/src/pages/OverviewPage.tsx:11-17 | the loop's count is the number of nodes of the tree, at least one |
| Overview.CountRecurrence | packages/react-devtools-client/src/pages/OverviewPage.tsx:12-15 | a node counts one more than the sum of its children's counts; a leaf counts one |
| Overview.NodesOfAllLength | packages/react-devtools-client/src/pages/OverviewPage.tsx:13-15 | the nodes of a forest number the sum of the trees' counts |
| Overview.NodesClosedUnderChildren | packages/react-devtools-client/src/pages/OverviewPage.tsx:13-15 | every child of a counted node is counted |
| Overview.ComponentCount | packages/react-devtools-client/src/pages/OverviewPage.tsx:38 | zero without a tree, otherwise its node count |
| ScanPerformance.NameOf | packages/react-devtools-scan/src/adapter.ts:133 | the entry's name when non-empty, `Unknown` otherwise; never empty |
| ScanPerformance.ToRecord | packages/react-devtools-scan/src/adapter.ts:156-163 | a record carries the component's totals; its average times the render count is the total time, and is 0 without renders |
| ScanPerformance.Insert | packages/react-devtools-scan/src/adapter.ts:166 | insertion is a permutation adding exactly the new record |
| ScanPerformance.InsertSorted | packages/react-devtools-scan/src/adapter.ts:166 | inserting into a slowest-first list keeps it slowest first |
| ScanPerformance.SortByTotalTime | packages/react-devtools-scan/src/adapter.ts:166 | the sort is a permutation of its input |
| ScanPerformance.SortByTotalTimeSorted | packages/react-devtools-scan/src/adapter.ts:166 | the sorted records are slowest first and are the same records |
| ScanPerformance.ExtractPerformanceData | packages/react-devtools-scan/src/adapter.ts:115-173 | empty without a Store or reportData; otherwise the two loops yield exactly the per-component records, sorted slowest first |
| ScanPerformance.UnsortedMeaning | packages/react-devtools-scan/src/adapter.ts:155-164 | before sorting, one record per name in first-appearance order, each with the totals of exactly that name's entries |
| ScanPerformance.NamesInEntries | packages/react-devtools-scan/src/adapter.ts:132-153 | a name is a key of the map exactly when some entry has it |
| ScanPerformance.NamesDistinct | packages/react-devtools-scan/src/adapter.ts:152 | no name is a key twice |
| ScanPerformance.ExtractedOnePerComponent | packages/react-devtools-scan/src/adapter.ts:132-166 | every component of the report has a record, there are as many records as names, and every record is that of a reported component |
| ScanPerformance.LastRenderTimeMeaning | packages/react-devtools-scan/src/adapter.ts:148-150 | the last render time is the time of the last entry that has one, null when none has |
| ScanPerformance.CalculatePerformanceSummary | packages/react-devtools-scan/src/adapter.ts:178-193 | counts the records, totals their renders and unnecessary renders, keeps the first ten (or all when fewer), and the average times the renders is the total time (0 without renders) |
| ScanPerformance.SummaryKeepsSlowest | packages/react-devtools-scan/src/adapter.ts:192 | on a slowest-first list the kept records are slowest first, are records of the list, and no record left out is slower than one kept |
| ScanPerformance.SlowestOfReport | packages/react-devtools-scan/src/adapter.ts:115-193 | the summary of a report lists at most ten of its components, slowest first, and every component left out is at most as slow as each one listed |
| ScanPerformance.SortKeepsSums | packages/react-devtools-scan/src/adapter.ts:166 | sorting changes neither the render total nor the unnecessary-render total |
| ScanPerformance.TotalsOfNames | packages/react-devtools-scan/src/adapter.ts:141-146 | the per-name totals add up to the totals over all entries |
| ScanPerformance.SummaryOfReport | packages/react-devtools-scan/src/adapter.ts:305-308 | the summary counts every entry's renders and unnecessary renders once, and one component per distinct name |
| ScanAdapter.Effective | packages/react-devtools-scan/src/adapter.ts:209-212 | with a truthy `enabled` the toolbar is forced on, otherwise the options pass unchanged; other keys never change |
| ScanAdapter.IsActive | packages/react-devtools-scan/src/adapter.ts:275-281 | active exactly when React Scan reports `enabled === true`, from a plain record or a signal's value |
| ScanAdapter.GetToolbarVisibility | packages/react-devtools-scan/src/adapter.ts:293-299 | visible unless React Scan reports `showToolbar === false`, and visible when it reports nothing |
| ScanAdapter.LastSent | packages/react-devtools-scan/src/adapter.ts:275-299 | what React Scan reports is the options of its last scan or setOptions call, nothing before any |
| ScanAdapter.ReactScan.constructor | packages/react-devtools-scan/src/adapter.ts:85 | React Scan starts having received nothing |
| ScanAdapter.ReactScan.Send | packages/react-devtools-scan/src/adapter.ts:217 | a call is appended to React Scan's log |
| ScanAdapter.Adapter.constructor | packages/react-devtools-scan/src/adapter.ts:85-86 | the module starts with no instance and empty options |
| ScanAdapter.Adapter.GetScanInstance | packages/react-devtools-scan/src/adapter.ts:433-443 | an instance is created from the options only when none exists and options are given; later options are ignored; it fails exactly with neither |
| ScanAdapter.Adapter.ResetScanInstance | packages/react-devtools-scan/src/adapter.ts:448-451 | back to no instance and empty options |
| ScanAdapter.Adapter.SetOptions | packages/react-devtools-scan/src/adapter.ts:204-229 | merges the options; when enabled, restarts React Scan with the effective options and applies the toolbar override, otherwise only passes the options on |
| ScanAdapter.Adapter.Start | packages/react-devtools-scan/src/adapter.ts:231-267 | resumes a paused instrumentation, starts React Scan with `enabled` and `showToolbar` on, records only `enabled: true`, applies the override |
| ScanAdapter.Adapter.Stop | packages/react-devtools-scan/src/adapter.ts:269-273 | records `enabled: false` and passes the options to React Scan |
| ScanAdapter.Adapter.SetToolbar | packages/react-devtools-scan/src/adapter.ts:283-291 | records the toolbar choice and applies the matching override |
| ScanAdapter.Adapter.GetPerformanceSummary | packages/react-devtools-scan/src/adapter.ts:305-308 | the summary of the sorted grouped records: it counts every reported render and unnecessary render, one component per name, and lists the at most ten slowest components, slowest first, with none left out slower than one listed |
| ScanAdapter.StartActivates | packages/react-devtools-scan/src/adapter.ts:231-267 | after start React Scan reports itself active with the toolbar visible |
| ScanAdapter.StopDeactivates | packages/react-devtools-scan/src/adapter.ts:269-281 | after stop React Scan reports itself inactive |
| ScanAdapter.ToolbarKeepsReport | packages/react-devtools-scan/src/adapter.ts:283-291 | showing or hiding the toolbar does not change what React Scan reports |
| ScanPlugin.ScanOptionsOf | packages/react-devtools-scan/src/plugin.ts:44-47 | the configuration without `autoStart`, other keys unchanged |
| ScanPlugin.StartOptions | packages/react-devtools-scan/src/plugin.ts:64-73 | `enabled` and `showToolbar` default to true, every configured key except `autoStart` overrides, nothing else is added |
| ScanPlugin.StartOptionsOverride | packages/react-devtools-scan/src/plugin.ts:64-73 | each key of the start options reads as configured, as the default true, or as undefined |
| ScanPlugin.StartActionAsWritten | packages/react-devtools-scan/src/plugin.ts:205-223 | rpc.start starts exactly when an instance exists and never auto-initialises |
| ScanPlugin.StartActionIntended | packages/react-devtools-scan/src/plugin.ts:212-217 | auto-initialisation exactly when no instance exists and the plugin holds none |
| ScanPlugin.AutoInitializeUnreachable | packages/react-devtools-scan/src/plugin.ts:205-223 | with no instance and none held, the code as written fails where the intended code initialises |
| ScanPlugin.Plugin.constructor | packages/react-devtools-scan/src/plugin.ts:40-47 | a new plugin holds no instance or context |
| ScanPlugin.Plugin.Setup | packages/react-devtools-scan/src/plugin.ts:58-150 | keeps the context; with autoStart, starts React Scan with the start options and holds the adapter's instance; listens and registers the five RPCs only when the context can |
| ScanPlugin.Plugin.Teardown | packages/react-devtools-scan/src/plugin.ts:155-166 | stops the held instance if any, then clears it, the adapter and the context |
| ScanPlugin.Plugin.GetOptions | packages/react-devtools-scan/src/plugin.ts:175-183 | the current options exactly when an instance exists, null otherwise; no state changes |
| ScanPlugin.Plugin.SetOptions | packages/react-devtools-scan/src/plugin.ts:188-200 | true exactly when an instance exists: the options are merged and React Scan receives scan with the effective options and the toolbar override when `enabled` is truthy, else setOptions with the merged options; false with nothing changed otherwise |
| ScanPlugin.Plugin.Start | packages/react-devtools-scan/src/plugin.ts:205-223 | true exactly when an instance exists: `enabled` is recorded and React Scan is resumed when paused, sent scan with `enabled` and `showToolbar` on, and the toolbar override; false with nothing changed otherwise |
| ScanPlugin.Plugin.StartOrInitialize | packages/react-devtools-scan/src/plugin.ts:205-223 | corrected rpc.start: starts an existing instance with the same calls to React Scan as start, and otherwise initialises React Scan and the adapter from the configuration when no instance is held |
| ScanPlugin.Plugin.Stop | packages/react-devtools-scan/src/plugin.ts:228-240 | true and stopped exactly when an instance exists; false with nothing changed otherwise |
| ScanPlugin.Plugin.IsActive | packages/react-devtools-scan/src/plugin.ts:245-253 | active exactly when an instance exists and React Scan reports `enabled === true` |
| ScanIndex.DefaultOptions | packages/react-devtools-scan/src/index.ts:36-42 | every caller option wins; missing keys default to enabled-in-development, toolbar on, overlay mode, synced |
| ScanIndex.DefaultsWithoutOptions | packages/react-devtools-scan/src/index.ts:36-42 | without options React Scan is active exactly in development, with the toolbar visible |
| ScanIndex.InitScan | packages/react-devtools-scan/src/index.ts:34-49 | starts React Scan with the merged defaults and returns the adapter's instance, created from them only when none existed |
| ScanIndex.GetScan | packages/react-devtools-scan/src/index.ts:66-73 | the instance, or null instead of the error; no state changes |
| ScanIndex.ResetScan | packages/react-devtools-scan/src/index.ts:86-88 | afterwards there is no instance and the options are empty |
| Vite.ShouldEnableDevTools | packages/react-devtools/src/vite.ts:160-183 | the environment override decides when set; `true` or unset enables only serve; `false` never; a list enables when it names the NODE_ENV (or mode) or the mode |
| Vite.OverlayPathMeaning | packages/react-devtools/src/vite.ts:34-36 | any module id that has the overlay chunk name or the overlay directory inside it is an overlay path |
| Vite.BuildNeedsEnvironmentList | packages/react-devtools/src/vite.ts:169-182 | without the override a build is enabled only through a list, which decides alike for serve and build |
| Vite.ManualChunks | packages/react-devtools/src/vite.ts:41-49 | overlay modules go to the overlay chunk; others are left to the user's function, or null |
| Vite.OverlayChunkOnlyForOverlay | packages/react-devtools/src/vite.ts:41-49 | a module lands in the overlay chunk only if it is an overlay module or the user's function put it there |
| Vite.CreateRollupInput | packages/react-devtools/src/vite.ts:53-80 | an array gets the overlay appended, an object the overlay key; anything else becomes the index.html default with the overlay, or the overlay alone |
| Vite.CreateRollupInputKeepingEntry | packages/react-devtools/src/vite.ts:53-80 | the corrected input: a non-empty string entry becomes a list of that entry and the overlay; every other input is built as the code does |
| Vite.StringInputDropped | packages/react-devtools/src/vite.ts:58-77 | a string input with an index.html present is lost from the build's entries |
| Vite.KeepsEveryEntry | packages/react-devtools/src/vite.ts:53-80 | with the correction the overlay is always an entry and no configured entry is lost |
| Vite.FindOverlayBundle | packages/react-devtools/src/vite.ts:82-89 | the file name of the first chunk keyed or named as the overlay, null exactly when there is none |
| Vite.ServerFs.constructor | packages/react-devtools/src/vite.ts:230-232 | the resolved file-system options as given |
| Vite.ServerFs.AllowOverlay | packages/react-devtools/src/vite.ts:232-238 | the overlay directory and its parent are appended after the allowed paths already there |
| Vite.Transform | packages/react-devtools/src/vite.ts:312-328 | the overlay import is prepended exactly for client modules whose file name before `?` matches `appendTo` |
| Vite.PrependsOneLine | packages/react-devtools/src/vite.ts:326 | the transformed code is the original after exactly one added line |
| Vite.QueryIgnored | packages/react-devtools/src/vite.ts:316 | a module id's query plays no part in the decision |
| Common.BeforeFirst | packages/react-devtools/src/vite.ts:316 | `split('?', 2)[0]` is the longest prefix without `?` |
| Webpack.TargetIndex | packages/react-devtools/src/integrations/webpack.ts:96-99 | the first key that is main, app or index, else the first key when it is non-empty, else none |
| Webpack.FirstMainKey | packages/react-devtools/src/integrations/webpack.ts:97 | the first position holding main, app or index |
| Webpack.WithOverlay | packages/react-devtools/src/integrations/webpack.ts:100-122 | the target becomes a descriptor importing its modules then the overlay; a descriptor with an import keeps its other fields |
| Webpack.InjectOverlay | packages/react-devtools/src/integrations/webpack.ts:70-128 | a string or array entry becomes `main` with the overlay last; an object keeps its keys; anything else passes through |
| Webpack.ObjectEntryMeaning | packages/react-devtools/src/integrations/webpack.ts:94-125 | in an object entry exactly the target key changes, its imports gaining the overlay at the end |
| Webpack.OverlayLast | packages/react-devtools/src/integrations/webpack.ts:76-123 | whenever there is a main entry, the overlay is its last import |
| Webpack.EmptyObjectUnchanged | packages/react-devtools/src/integrations/webpack.ts:97-99 | an object with no keys is returned unchanged |
| Webpack.WrapperChainsOriginal | packages/react-devtools/src/integrations/webpack.ts:25-41 | the wrapper returns the original hook's middleware list unchanged and only mounts its two routes |
| Webpack.RunHook | packages/react-devtools/src/integrations/webpack.ts:25-41 | without a hook the list passes through, a user hook gives its own list, and only the devtools wrapper mounts routes: its two routes, last, and only when the server has an app |
| Webpack.CompilerOptions.constructor | packages/react-devtools/src/integrations/webpack.ts:68 | the compiler options as given |
| Webpack.CompilerOptions.ModeAndCommand | packages/react-devtools/src/integrations/webpack.ts:48-58 | the mode, `development` when unset or empty; `serve` exactly when there is a dev-server configuration |
| Webpack.CompilerOptions.InjectOverlayToEntry | packages/react-devtools/src/integrations/webpack.ts:64-129 | the entry becomes a function whose result is the overlay rewrite of the original entry's value |
| Webpack.CompilerOptions.SetupDevServerMiddlewares | packages/react-devtools/src/integrations/webpack.ts:14-42 | the dev-server configuration exists afterwards and its hook wraps the previous one, so the command is serve |
| PluginsMiddleware.ManifestEntry | packages/react-devtools/src/middleware/plugins.ts:22-31 | a plugin with a view source and a transform gets only its source transformed; any other plugin is unchanged |
| PluginsMiddleware.Manifest | packages/react-devtools/src/middleware/plugins.ts:21-32 | one entry per configured plugin in order, none when unset |
| PluginsMiddleware.NoTransformIsIdentity | packages/react-devtools/src/middleware/plugins.ts:21-32 | without a transform the manifest is the configured list |
| PluginsMiddleware.RewriteKeepsShape | packages/react-devtools/src/middleware/plugins.ts:22-31 | the rewrite never adds or removes a view or a source |
| PluginsMiddleware.Handle | packages/react-devtools/src/middleware/plugins.ts:8-38 | the manifest is served with JSON and CORS headers exactly on its path; every other request goes to next |
| PluginFile.FirstLocal | packages/react-devtools/src/middleware/plugin-file.ts:63-65 | the local name of the first default (or namespace) specifier, none exactly when there is none |
| PluginFile.Rewrite | packages/react-devtools/src/middleware/plugin-file.ts:58-167 | the ImportDeclaration visitor keeps exactly the imports from other sources; a binding reads `window.React` for a react import from one of its default or namespace locals; a destructuring reads `window.__REACT_DEVTOOLS_API__` for an API import and lists at least one property |
| PluginFile.ReactRewrite | packages/react-devtools/src/middleware/plugin-file.ts:62-110 | a react import binds the first default, else the first namespace local to `window.React`, and is removed exactly when all specifiers are named |
| PluginFile.NamedSplits | packages/react-devtools/src/middleware/plugin-file.ts:115-131 | the named specifiers are the type-only ones plus the value ones |
| PluginFile.ApiRewrite | packages/react-devtools/src/middleware/plugin-file.ts:114-166 | an API import is removed exactly when all named specifiers are type-only; otherwise it destructures the value specifiers in order, shorthand exactly where the names agree |
| PluginFile.ValuesMeaning | packages/react-devtools/src/middleware/plugin-file.ts:129-131 | the value specifiers are exactly the named ones that are not type-only |
| PluginFile.OtherImportsKept | packages/react-devtools/src/middleware/plugin-file.ts:58-167 | imports from any other module are left alone |
| PluginFile.ServeFile | packages/react-devtools/src/middleware/plugin-file.ts:30-184 | 404 exactly when the file is missing; 200 only for an existing file that compiles, with its code (empty when none); a compile error answers 500 |
| PluginFile.Handle | packages/react-devtools/src/middleware/plugin-file.ts:5-189 | other paths go to next; a missing or empty parameter answers 400; the parameter, already URL-decoded by `searchParams.get`, is decoded a second time, and an undecodable value answers 500; otherwise a missing file answers 404, a compile error 500, and a compiled file 200 with its code (empty when none) |
| PluginFile.EncodedPathNamesFile | packages/react-devtools/src/middleware/plugin-file.ts:17-39 | a `path` parameter whose URL-decoded value is the URI-component encoding of a path names exactly that file |
| PluginFile.PercentNameRejected | packages/react-devtools/src/middleware/plugin-file.ts:17-28 | a parameter whose URL-decoded value is `100%.tsx` (a path encoded once) answers 500 whether or not the file exists, while decoding once serves that file |
| PluginFile.HandleDecodedOnce | packages/react-devtools/src/middleware/plugin-file.ts:5-189 | the handler with a single decoding: other paths go to next, and a missing or empty parameter answers 400 |
| PluginFile.DecodedOnceNamesFile | packages/react-devtools/src/middleware/plugin-file.ts:17-184 | with a single decoding, every non-empty parameter names exactly that file: 404 exactly when it is missing, otherwise the compile outcome |
| PluginFile.EncodeNonEmpty | packages/react-devtools/src/middleware/plugin-file.ts:18 | the encoding of a non-empty path is non-empty, so it passes the missing-path check |
| SourceAttributeLoader.Load | packages/react-devtools/src/utils/source-attribute-loader.ts:29-70 | files that are not .jsx/.tsx or lie under node_modules are returned as they are; a thrown or empty transform falls back to the source; otherwise the code, with the map through the callback when there is one |
| SourceAttributeLoader.OutputIsSourceOrTransformed | packages/react-devtools/src/utils/source-attribute-loader.ts:42-70 | webpack always gets the source or the transform's non-empty code, never an empty result from a non-empty source |
| SourceAttributeLoader.SkippedIgnoresTransform | packages/react-devtools/src/utils/source-attribute-loader.ts:29-38 | for skipped files the transform plays no part |

## Left out

- I/O, the DOM, timers and logging are not modelled. This covers:
  - `updateToolbarVisibility`'s style element, which is a call record `ToolbarVisible`;
  - the highlight overlay, which is the value it shows;
  - `console` output;
  - the routes page's polling interval, loading flag, collapse state and rendering;
  - the overview page's cards.
- The adapter's FPS counter, `getFPS`, `clearPerformanceData` and the inspect/focus operations (`startInspecting`, `stopInspecting`, `isInspecting`, `focusComponent`, `getFocusedComponent`, `onInspectStateChange`) are left out. They read or drive React Scan's internal signals, whose code is not part of this model. `getPerformanceData` only calls extractPerformanceData, which `ScanPerformance.ExtractPerformanceData` models.
- The adapter's "scan function missing" fallback branches (in `setOptions` and `start`) are not modelled. `scan` is a static import, so `getScan()` always returns a function and those branches never run.
- ScanAdapter.LastSent: this assumes React Scan reports the options of its last `scan` or `setOptions` call. React Scan's own code is not part of this model.
- ScanAdapter.Adapter.SetToolbar: `hideToolbar` / `showToolbar` mutate the options object in place, and `getOptions` returns that object by reference. The model has no such aliasing: the options are a map value.
- Inspector.InspectorState.HandleClick: the select and open-in-editor callbacks are taken to return normally. In the code they run one after another inside `Set.forEach`. A callback that throws would skip the rest of the callbacks and leave the inspector enabled and the highlight shown.
- ScanAdapter.ReactScan: React Scan's `scan` and `setOptions` are taken to return normally. ScanPlugin.Plugin.SetOptions therefore answers false only when there is no instance. If `scan` threw inside the adapter's setOptions, rpc.setOptions would answer false with the options already merged. `Start`'s `hasPauseSignal` stands for an `instrumentation` that carries `isPaused`. An `instrumentation` without `isPaused` would throw at that read; React Scan's types always supply it, so that case does not arise.
- OpenInEditor.OpenInEditorEffects: file names are strings of Unicode scalar values, so `encodeURIComponent` never throws here. On a name holding a lone surrogate the code would skip `fetch` and go straight to the protocol fallback in its catch block.
- Numbers are integers (counts) and reals (times). Floating-point rounding, NaN and infinities are not modelled.
- URL parsing (`new URL(req.url, ...)`, `searchParams.get`) is not modelled. The handlers take the pathname and the decoded query parameter.
- Babel, the file system, `fetch`, `localStorage` and React Scan are parameters. Their behaviour is given by the outcome they produce.
- PluginFile.Rewrite: a declaration-level `import type { ... }` is treated like any other import. Babel's TypeScript preset removes such declarations, and that preset is not part of this model.
- The rest of the Vite plugin is not modelled, because it is file-system and HTML plumbing. This covers:
  - `getClientPath`, `resolveOverlayPath` and `updateHtmlWithOverlayPath`;
  - the `config`, `resolveId`, `load`, `transformIndexHtml` and `writeBundle` hooks;
  - `serveClient`;
  - the open-in-editor server middleware.
- Vite.ManualChunks: an object-form `manualChunks` is treated as absent, as the code does (`typeof ... === 'function'`). The module-info arguments are not passed on.
- Vite.Transform: a regular expression is modelled by what its `test` answers. The `lastIndex` state of a global regex is not modelled.
- Webpack.TargetIndex: the object entry is a list in `Object.keys` order. JavaScript's ordering of integer-like keys first is not modelled.
- Webpack.CompilerOptions.SetupDevServerMiddlewares: the dev-server object is a value, so other holders of the same object do not see the new hook.
- Webpack.CompilerOptions.InjectOverlayToEntry: the entry function is synchronous here. Awaiting the promise is not modelled.
- `getWebpackContext` (`compiler.context || process.cwd()`) is not modelled, because it reads the process state.
- The plugin's `on` event handlers (`component-mounted` and the others) and the tree-changed listener are not modelled: they only log.

## Findings

| source | as written | input that shows it | evidently intended | confidence | as-written member | corrected member |
|---|---|---|---|---|---|---|
| packages/react-devtools-scan/src/plugin.ts:205-222 | rpc.start calls `getScanInstance()` without options, which throws when there is no instance, so the "auto-initialize if not started" branch is never reached and the call answers false | no adapter instance and no held instance, e.g. after teardown or with `autoStart: false` | initialise React Scan and the adapter from the configuration and answer true | not executed | ScanPlugin.StartActionAsWritten | ScanPlugin.StartActionIntended |
| packages/react-devtools/src/vite.ts:58-80 | a (truthy) string `input` is neither an array nor an object, so it falls to the index.html default and the configured entry is dropped | `build.rollupOptions.input = "src/main.ts"` with an index.html in the root | keep the configured entry beside the overlay | not executed | Vite.StringInputDropped | Vite.KeepsEveryEntry |
| packages/react-devtools/src/middleware/plugin-file.ts:17-28 | `searchParams.get` already URL-decodes the `path` parameter and the handler decodes it again with `decodeURIComponent`, so a path encoded once (as the Next.js client does with `encodeURIComponent`) is decoded twice: a name holding a stray `%` answers 500, and one holding `%41` names a different file | `/__react_devtools__/file?path=` followed by `encodeURIComponent("100%.tsx")` | decode the parameter once, so that the once-encoded path names its file | not executed | PluginFile.PercentNameRejected | PluginFile.DecodedOnceNamesFile |
