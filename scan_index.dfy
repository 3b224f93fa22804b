/** The package entry of the React Scan integration: initScan merges the caller's
    options over the defaults, starts React Scan with them and hands back the
    adapter's singleton instance; getScan looks that instance up without throwing;
    resetScan clears it. */
module ScanIndex {
  import opened Common
  import opened ScanAdapter

  const IntegrationMode := "integrationMode"
  const SyncWithDevtools := "syncWithDevtools"

  /** The default options for a NODE_ENV, with the caller's options spread over
      them. */
  function DefaultOptions(nodeEnv: string, options: Options): (o: Options)
    ensures o.Keys == options.Keys + {Enabled, ShowToolbar, IntegrationMode, SyncWithDevtools}
    ensures forall k :: k in options ==> o[k] == options[k]
    ensures Enabled !in options ==> o[Enabled] == JBool(nodeEnv == "development")
    ensures ShowToolbar !in options ==> o[ShowToolbar] == JBool(true)
    ensures IntegrationMode !in options ==> o[IntegrationMode] == JString("overlay")
    ensures SyncWithDevtools !in options ==> o[SyncWithDevtools] == JBool(true)
  {
    map[Enabled := JBool(nodeEnv == "development"), ShowToolbar := JBool(true),
        IntegrationMode := JString("overlay"), SyncWithDevtools := JBool(true)] + options
  }

  /** Without options, React Scan is enabled exactly in development, with the
      toolbar shown, in overlay mode and synchronised with the devtools. */
  lemma DefaultsWithoutOptions(nodeEnv: string)
    ensures IsActive(Plain(DefaultOptions(nodeEnv, map[]))) <==> nodeEnv == "development"
    ensures GetToolbarVisibility(Plain(DefaultOptions(nodeEnv, map[])))
  {
  }

  /** initScan: starts React Scan with the merged options and returns the
      adapter's instance, which is created from those options only when there is
      none yet (so a second call returns the first call's instance). */
  method InitScan(adapter: Adapter, nodeEnv: string, options: Options) returns (instance: InstanceId)
    requires adapter.Valid()
    modifies adapter, adapter.scanner
    ensures adapter.Valid()
    ensures adapter.scanner.received == old(adapter.scanner.received) + [Scan(DefaultOptions(nodeEnv, options))]
    ensures adapter.instance == Some(instance)
    ensures old(adapter.instance).Some? ==>
      instance == old(adapter.instance).value && adapter.currentOptions == old(adapter.currentOptions)
    ensures old(adapter.instance).None? ==> adapter.currentOptions == DefaultOptions(nodeEnv, options)
  {
    var defaults := DefaultOptions(nodeEnv, options);
    adapter.scanner.Send(Scan(defaults));
    var r := adapter.GetScanInstance(Some(defaults));
    instance := r.id;
  }

  /** getScan: the instance, or null instead of the error. */
  method GetScan(adapter: Adapter) returns (r: Option<InstanceId>)
    requires adapter.Valid()
    modifies adapter
    ensures adapter.Valid()
    ensures r == adapter.instance
    ensures adapter.instance == old(adapter.instance) && adapter.currentOptions == old(adapter.currentOptions)
      && adapter.nextInstance == old(adapter.nextInstance)
  {
    var lookup := adapter.GetScanInstance(None);
    if lookup.NotInitialized? {
      return None;
    }
    return Some(lookup.id);
  }

  /** resetScan: afterwards getScan answers null. */
  method ResetScan(adapter: Adapter)
    requires adapter.Valid()
    modifies adapter
    ensures adapter.Valid()
    ensures adapter.instance.None? && adapter.currentOptions == map[]
  {
    adapter.ResetScanInstance();
  }
}
