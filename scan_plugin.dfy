/** The React Scan devtools plugin: its configuration split, its setup and teardown
    (which set and clear the closure's held instance and context), and the RPC
    wrappers, which catch the adapter's "not initialized" error and answer false
    or null instead. */
module ScanPlugin {
  import opened Common
  import opened ScanAdapter

  const AutoStartKey := "autoStart"

  /** `autoStart = true` in the destructuring: the default applies when the key is
      missing or undefined; otherwise the value is tested for truthiness. */
  predicate AutoStart(config: Options) {
    Get(config, AutoStartKey) == JUndefined || Truthy(Get(config, AutoStartKey))
  }

  /** `...scanOptions`: the configuration without `autoStart`. */
  function ScanOptionsOf(config: Options): (o: Options)
    ensures o.Keys == config.Keys - {AutoStartKey}
    ensures forall k :: k in o ==> o[k] == config[k]
  {
    config - {AutoStartKey}
  }

  /** `{ enabled: true, showToolbar: true, ...scanOptions }` */
  function StartOptions(config: Options): (o: Options)
    ensures AutoStartKey !in o
    ensures Enabled in o && ShowToolbar in o
    ensures Enabled !in config ==> o[Enabled] == JBool(true)
    ensures ShowToolbar !in config ==> o[ShowToolbar] == JBool(true)
    ensures forall k :: k in config && k != AutoStartKey ==> k in o && o[k] == config[k]
    ensures forall k :: k in o ==> k in config || k == Enabled || k == ShowToolbar
  {
    map[Enabled := JBool(true), ShowToolbar := JBool(true)] + ScanOptionsOf(config)
  }

  /** The configuration is taken apart without loss: the start options are the
      configuration minus `autoStart`, over the two defaults. */
  lemma StartOptionsOverride(config: Options, k: string)
    requires k != AutoStartKey
    ensures k in config ==> Get(StartOptions(config), k) == config[k]
    ensures k !in config && (k == Enabled || k == ShowToolbar) ==> Get(StartOptions(config), k) == JBool(true)
    ensures k !in config && k != Enabled && k != ShowToolbar ==> Get(StartOptions(config), k) == JUndefined
  {
  }

  /** What a plugin context offers. */
  datatype Context = Context(hasOn: bool, hasRegisterRPC: bool)

  /** The RPC names setup registers, in order. */
  const RpcNames := ["getScanOptions", "setScanOptions", "startScan", "stopScan", "isScanActive"]

  /** The event setup listens for when the context can. */
  const TreeChanged := "component-tree-changed"

  /** What rpc.start does: start the existing instance, initialise one, or fail. */
  datatype StartAction = StartExisting | AutoInitialize | NoStart

  /** rpc.start as written: `getScanInstance()` without options throws when there
      is no instance, so its auto-initialisation is never reached. */
  function StartActionAsWritten(instanceExists: bool, holdsInstance: bool): (a: StartAction)
    ensures a != AutoInitialize
    ensures a == StartExisting <==> instanceExists
  {
    if instanceExists then StartExisting
    else NoStart
  }

  /** rpc.start as its comment intends: when no instance exists and the plugin
      holds none, initialise one from the configuration. */
  function StartActionIntended(instanceExists: bool, holdsInstance: bool): (a: StartAction)
    ensures a == StartExisting <==> instanceExists
    ensures a == AutoInitialize <==> !instanceExists && !holdsInstance
  {
    if instanceExists then StartExisting
    else if !holdsInstance then AutoInitialize
    else NoStart
  }

  /** A plugin that was torn down (or never auto-started) holds no instance while
      the adapter has none: there the code as written fails where the intended
      auto-initialisation would start a scan. */
  lemma AutoInitializeUnreachable()
    ensures StartActionAsWritten(false, false) == NoStart
    ensures StartActionIntended(false, false) == AutoInitialize
  {
  }

  class Plugin {
    const config: Options
    const adapter: Adapter
    /** The closure's `scanInstance`. */
    var held: Option<InstanceId>
    /** The closure's `context`. */
    var context: Option<Context>
    /** The RPC names registered with contexts so far. */
    var registered: seq<string>
    /** The events listened for so far. */
    var listening: seq<string>

    ghost predicate Valid()
      reads this, adapter
    {
      adapter.Valid()
    }

    /** createScanPlugin(config) */
    constructor (config: Options, adapter: Adapter)
      requires adapter.Valid()
      ensures Valid()
      ensures this.config == config && this.adapter == adapter
      ensures held.None? && context.None? && registered == [] && listening == []
    {
      this.config := config;
      this.adapter := adapter;
      held := None;
      context := None;
      registered := [];
      listening := [];
    }

    /** setup: keeps the context; with autoStart, starts React Scan with the start
        options and takes the adapter's instance (created now with those options
        when none existed); listens for tree changes and registers the RPC
        functions only when the context offers the means to. */
    method Setup(ctx: Context)
      requires Valid()
      modifies this, adapter, adapter.scanner
      ensures Valid()
      ensures context == Some(ctx)
      ensures registered == old(registered) + (if ctx.hasRegisterRPC then RpcNames else [])
      ensures listening == old(listening) + (if ctx.hasOn then [TreeChanged] else [])
      ensures !AutoStart(config) ==>
        held == old(held) && adapter.scanner.received == old(adapter.scanner.received)
        && adapter.instance == old(adapter.instance) && adapter.currentOptions == old(adapter.currentOptions)
      ensures AutoStart(config) ==>
        adapter.scanner.received == old(adapter.scanner.received) + [Scan(StartOptions(config))]
        && adapter.instance.Some? && held == adapter.instance
        && (old(adapter.instance).Some? ==> adapter.instance == old(adapter.instance) && adapter.currentOptions == old(adapter.currentOptions))
        && (old(adapter.instance).None? ==> adapter.currentOptions == StartOptions(config))
    {
      context := Some(ctx);
      if AutoStart(config) {
        var options := StartOptions(config);
        adapter.scanner.Send(Scan(options));
        var r := adapter.GetScanInstance(Some(options));
        held := Some(r.id);
      }
      if ctx.hasOn {
        listening := listening + [TreeChanged];
      }
      if ctx.hasRegisterRPC {
        registered := registered + RpcNames;
      }
    }

    /** teardown: stops the held instance and lets it go, resets the adapter and
        clears the context. */
    method Teardown()
      requires Valid()
      modifies this, adapter, adapter.scanner
      ensures Valid()
      ensures held.None? && context.None? && adapter.instance.None? && adapter.currentOptions == map[]
      ensures registered == old(registered) && listening == old(listening)
      ensures adapter.scanner.received == old(adapter.scanner.received)
        + (if old(held).Some? then [SetScanOptions(old(adapter.currentOptions)[Enabled := JBool(false)])] else [])
    {
      if held.Some? {
        adapter.Stop();
        held := None;
      }
      adapter.ResetScanInstance();
      context := None;
    }

    /** rpc.getOptions: the current options when an instance exists (an object is
        always truthy), otherwise null. */
    method GetOptions() returns (r: Option<Options>)
      requires Valid()
      modifies adapter
      ensures Valid()
      ensures r.Some? <==> adapter.instance.Some?
      ensures r.Some? ==> r.value == adapter.currentOptions
      ensures adapter.instance == old(adapter.instance) && adapter.currentOptions == old(adapter.currentOptions)
        && adapter.nextInstance == old(adapter.nextInstance)
    {
      var scan := adapter.GetScanInstance(None);
      if scan.NotInitialized? {
        return None;
      }
      return Some(adapter.currentOptions);
    }

    /** rpc.setOptions: true after applying the options when an instance exists,
        false otherwise with nothing changed. */
    method SetOptions(options: Options) returns (ok: bool)
      requires Valid()
      modifies adapter, adapter.scanner
      ensures Valid()
      ensures ok <==> old(adapter.instance).Some?
      ensures adapter.instance == old(adapter.instance) && adapter.nextInstance == old(adapter.nextInstance)
      ensures ok ==> adapter.currentOptions == old(adapter.currentOptions) + options
      ensures ok ==> (adapter.scanner.received == old(adapter.scanner.received) +
        (if Truthy(Get(adapter.currentOptions, Enabled))
         then [Scan(Effective(adapter.currentOptions)), ToolbarVisible(Truthy(Get(adapter.currentOptions, ShowToolbar)))]
         else [SetScanOptions(adapter.currentOptions)]))
      ensures !ok ==> (adapter.currentOptions == old(adapter.currentOptions)
        && adapter.scanner.received == old(adapter.scanner.received))
    {
      var scan := adapter.GetScanInstance(None);
      if scan.NotInitialized? {
        return false;
      }
      adapter.SetOptions(options);
      return true;
    }

    /** rpc.start as written: true exactly when an instance exists, which is
        then started. */
    method Start(hasPauseSignal: bool) returns (ok: bool)
      requires Valid()
      modifies adapter, adapter.scanner
      ensures Valid()
      ensures ok <==> StartActionAsWritten(old(adapter.instance).Some?, old(held).Some?) == StartExisting
      ensures ok <==> old(adapter.instance).Some?
      ensures adapter.instance == old(adapter.instance) && adapter.nextInstance == old(adapter.nextInstance)
      ensures ok ==> adapter.currentOptions == old(adapter.currentOptions)[Enabled := JBool(true)]
      ensures ok ==> (adapter.scanner.received == old(adapter.scanner.received)
        + (if hasPauseSignal then [Resumed] else [])
        + [Scan(adapter.currentOptions[ShowToolbar := JBool(true)]),
           ToolbarVisible(Truthy(Get(old(adapter.currentOptions), ShowToolbar)))])
      ensures !ok ==> (adapter.currentOptions == old(adapter.currentOptions)
        && adapter.scanner.received == old(adapter.scanner.received))
    {
      var scan := adapter.GetScanInstance(None);
      if scan.NotInitialized? {
        return false;
      }
      adapter.Start(hasPauseSignal);
      return true;
    }

    /** rpc.start as intended: also initialises React Scan and the adapter from the
        configuration when neither the adapter nor the plugin holds an instance. */
    method StartOrInitialize(hasPauseSignal: bool) returns (ok: bool)
      requires Valid()
      modifies this, adapter, adapter.scanner
      ensures Valid()
      ensures ok <==> StartActionIntended(old(adapter.instance).Some?, old(held).Some?) != NoStart
      ensures StartActionIntended(old(adapter.instance).Some?, old(held).Some?) == AutoInitialize ==>
        adapter.scanner.received == old(adapter.scanner.received) + [Scan(config)]
        && adapter.instance.Some? && held == adapter.instance && adapter.currentOptions == config
      ensures StartActionIntended(old(adapter.instance).Some?, old(held).Some?) == StartExisting ==>
        adapter.instance == old(adapter.instance) && held == old(held)
        && adapter.currentOptions == old(adapter.currentOptions)[Enabled := JBool(true)]
        && adapter.scanner.received == old(adapter.scanner.received)
           + (if hasPauseSignal then [Resumed] else [])
           + [Scan(adapter.currentOptions[ShowToolbar := JBool(true)]),
              ToolbarVisible(Truthy(Get(old(adapter.currentOptions), ShowToolbar)))]
      ensures StartActionIntended(old(adapter.instance).Some?, old(held).Some?) == NoStart ==>
        adapter.instance == old(adapter.instance) && held == old(held)
        && adapter.currentOptions == old(adapter.currentOptions)
        && adapter.scanner.received == old(adapter.scanner.received)
    {
      var scan := adapter.GetScanInstance(None);
      if scan.Found? {
        adapter.Start(hasPauseSignal);
        return true;
      }
      if held.None? {
        adapter.scanner.Send(Scan(config));
        var r := adapter.GetScanInstance(Some(config));
        held := Some(r.id);
        return true;
      }
      return false;
    }

    /** rpc.stop: true exactly when an instance exists, which is then stopped. */
    method Stop() returns (ok: bool)
      requires Valid()
      modifies adapter, adapter.scanner
      ensures Valid()
      ensures ok <==> old(adapter.instance).Some?
      ensures adapter.instance == old(adapter.instance) && adapter.nextInstance == old(adapter.nextInstance)
      ensures ok ==> (adapter.currentOptions == old(adapter.currentOptions)[Enabled := JBool(false)]
        && adapter.scanner.received == old(adapter.scanner.received) + [SetScanOptions(adapter.currentOptions)])
      ensures !ok ==> (adapter.currentOptions == old(adapter.currentOptions)
        && adapter.scanner.received == old(adapter.scanner.received))
    {
      var scan := adapter.GetScanInstance(None);
      if scan.NotInitialized? {
        return false;
      }
      adapter.Stop();
      return true;
    }

    /** rpc.isActive: false without an instance, otherwise what React Scan
        reports. */
    method IsActive(reported: ReportedOptions) returns (active: bool)
      requires Valid()
      modifies adapter
      ensures Valid()
      ensures active <==> adapter.instance.Some? && ScanAdapter.IsActive(reported)
      ensures adapter.instance == old(adapter.instance) && adapter.currentOptions == old(adapter.currentOptions)
        && adapter.nextInstance == old(adapter.nextInstance)
    {
      var scan := adapter.GetScanInstance(None);
      if scan.NotInitialized? {
        return false;
      }
      return ScanAdapter.IsActive(reported);
    }
  }
}
