/** The React Scan adapter's module state: the singleton scan instance and the
    current options record, changed by the instance's option controls (setOptions,
    start, stop, hideToolbar, showToolbar) and by getScanInstance /
    resetScanInstance.

    Options records are finite maps from option name to a JavaScript value; object
    spread is map union with the right operand winning. React Scan itself is a
    recorder object that logs what it is sent (scan, setOptions) and the toolbar
    visibility overrides the adapter applies. */
module ScanAdapter {
  import opened Common
  import opened ScanPerformance

  /** The JavaScript values option records hold here. */
  datatype JsValue = JUndefined | JNull | JBool(b: bool) | JNumber(n: int) | JString(s: string)

  type Options = map<string, JsValue>

  const Enabled := "enabled"
  const ShowToolbar := "showToolbar"

  /** JavaScript truthiness. */
  predicate Truthy(v: JsValue) {
    match v
    case JUndefined => false
    case JNull => false
    case JBool(b) => b
    case JNumber(n) => n != 0
    case JString(s) => s != []
  }

  /** Property read: a missing key reads as undefined. */
  function Get(o: Options, k: string): JsValue {
    if k in o then o[k] else JUndefined
  }

  /** The options actually passed to React Scan by setOptions: when `enabled` is
      truthy the toolbar is forced on (its visibility is then handled by a style
      override), and every other option is passed as it is. */
  function Effective(o: Options): (e: Options)
    ensures Truthy(Get(o, Enabled)) ==> Get(e, ShowToolbar) == JBool(true)
    ensures !Truthy(Get(o, Enabled)) ==> e == o
    ensures forall k :: k != ShowToolbar ==> Get(e, k) == Get(o, k)
    ensures e.Keys == o.Keys + (if Truthy(Get(o, Enabled)) then {ShowToolbar} else {})
  {
    if Truthy(Get(o, Enabled)) then o[ShowToolbar := JBool(true)] else o
  }

  /** What React Scan's own getOptions returns: nothing, a plain record, or a
      signal whose `value` is the record. */
  datatype ReportedOptions = NoOptions | Plain(options: Options) | Signal(value: Options)

  /** isActive: React Scan reports `enabled === true`. */
  function IsActive(reported: ReportedOptions): (active: bool)
    ensures reported.NoOptions? ==> !active
    ensures reported.Plain? ==> (active <==> Get(reported.options, Enabled) == JBool(true))
    ensures reported.Signal? ==> (active <==> Get(reported.value, Enabled) == JBool(true))
  {
    match reported
    case NoOptions => false
    case Plain(o) => Get(o, Enabled) == JBool(true)
    case Signal(o) => Get(o, Enabled) == JBool(true)
  }

  /** getToolbarVisibility: visible unless React Scan reports `showToolbar ===
      false`, so also when it reports nothing. */
  function GetToolbarVisibility(reported: ReportedOptions): (visible: bool)
    ensures reported.NoOptions? ==> visible
    ensures reported.Plain? ==> (visible <==> Get(reported.options, ShowToolbar) != JBool(false))
    ensures reported.Signal? ==> (visible <==> Get(reported.value, ShowToolbar) != JBool(false))
  {
    match reported
    case NoOptions => true
    case Plain(o) => Get(o, ShowToolbar) != JBool(false)
    case Signal(o) => Get(o, ShowToolbar) != JBool(false)
  }

  /** A call the adapter (or its callers) makes into React Scan or the page. */
  datatype ScanCall =
    | Scan(options: Options)
    | SetScanOptions(options: Options)
    /** The style override that shows or hides React Scan's toolbar. */
    | ToolbarVisible(visible: bool)
    /** `instrumentation.isPaused.value = false` */
    | Resumed

  /** React Scan, as far as the adapter drives it: the log of what it was sent. */
  class ReactScan {
    var received: seq<ScanCall>

    constructor ()
      ensures received == []
    {
      received := [];
    }

    method Send(c: ScanCall)
      modifies this
      ensures received == old(received) + [c]
    {
      received := received + [c];
    }
  }

  /** What React Scan's getOptions reports after it was sent `calls`, taking it to
      hold the options of the last scan or setOptions call (nothing before any). */
  function LastSent(calls: seq<ScanCall>): (r: ReportedOptions)
    ensures r.NoOptions? <==> forall k :: 0 <= k < |calls| ==> !(calls[k].Scan? || calls[k].SetScanOptions?)
    ensures r.Plain? ==> exists k :: 0 <= k < |calls| && (calls[k] == Scan(r.options) || calls[k] == SetScanOptions(r.options))
    ensures !r.Signal?
  {
    if calls == [] then NoOptions
    else
      var last := calls[|calls| - 1];
      if last.Scan? || last.SetScanOptions? then Plain(last.options)
      else
        var r := LastSent(calls[..|calls| - 1]);
        assert forall k :: 0 <= k < |calls| - 1 ==> calls[..|calls| - 1][k] == calls[k];
        r
  }

  /** The identity of a scan instance object. */
  type InstanceId = nat

  /** The result of getScanInstance: the instance, or the error it throws. */
  datatype Lookup = Found(id: InstanceId) | NotInitialized

  class Adapter {
    /** `scanInstance` */
    var instance: Option<InstanceId>
    /** `currentOptions` */
    var currentOptions: Options
    /** The identity the next created instance gets. */
    var nextInstance: InstanceId
    const scanner: ReactScan

    /** Every instance identity handed out so far is below nextInstance. */
    ghost predicate Valid()
      reads this
    {
      instance.Some? ==> instance.value < nextInstance
    }

    /** The module as loaded: no instance and an empty options record. */
    constructor (scanner: ReactScan)
      ensures Valid()
      ensures instance.None? && currentOptions == map[] && this.scanner == scanner
    {
      instance := None;
      currentOptions := map[];
      nextInstance := 0;
      this.scanner := scanner;
    }

    /** getScanInstance: creates an instance (taking `options` as the current
        options) only when none exists and options are given; later options are
        ignored; with neither it throws. */
    method GetScanInstance(options: Option<Options>) returns (r: Lookup)
      requires Valid()
      modifies this
      ensures Valid()
      ensures r.NotInitialized? <==> old(instance).None? && options.None?
      ensures old(instance).Some? ==>
        r == Found(old(instance).value) && instance == old(instance)
        && currentOptions == old(currentOptions) && nextInstance == old(nextInstance)
      ensures old(instance).None? && options.Some? ==>
        r == Found(old(nextInstance)) && instance == Some(old(nextInstance))
        && currentOptions == options.value && nextInstance == old(nextInstance) + 1
      ensures options.None? ==> instance == old(instance) && currentOptions == old(currentOptions) && nextInstance == old(nextInstance)
      ensures r.Found? ==> instance == Some(r.id)
    {
      if instance.None? && options.Some? {
        // createScanInstance
        currentOptions := options.value;
        instance := Some(nextInstance);
        nextInstance := nextInstance + 1;
      }
      if instance.None? {
        return NotInitialized;
      }
      return Found(instance.value);
    }

    /** resetScanInstance: back to no instance and empty options. */
    method ResetScanInstance()
      requires Valid()
      modifies this
      ensures Valid()
      ensures instance.None? && currentOptions == map[] && nextInstance == old(nextInstance)
    {
      instance := None;
      currentOptions := map[];
    }

    /** The instance's setOptions: merges the new options over the current ones;
        when `enabled` is truthy React Scan is (re)started with the effective
        options and the toolbar override follows `showToolbar`, otherwise the
        effective options are only passed to React Scan's setOptions. */
    method SetOptions(newOptions: Options)
      requires Valid()
      modifies this, scanner
      ensures Valid()
      ensures currentOptions == old(currentOptions) + newOptions
      ensures instance == old(instance) && nextInstance == old(nextInstance)
      ensures scanner.received == old(scanner.received) +
        (if Truthy(Get(currentOptions, Enabled))
         then [Scan(Effective(currentOptions)), ToolbarVisible(Truthy(Get(currentOptions, ShowToolbar)))]
         else [SetScanOptions(currentOptions)])
    {
      currentOptions := currentOptions + newOptions;
      var effectiveOptions := Effective(currentOptions);
      if Truthy(Get(currentOptions, Enabled)) {
        scanner.Send(Scan(effectiveOptions));
        scanner.Send(ToolbarVisible(Truthy(Get(currentOptions, ShowToolbar))));
      } else {
        scanner.Send(SetScanOptions(effectiveOptions));
      }
    }

    /** The instance's start: resumes a paused instrumentation, starts React Scan
        with `enabled` and `showToolbar` forced on, records `enabled: true` (and
        nothing else) in the current options, and applies the toolbar override of
        the current `showToolbar`. */
    method Start(hasPauseSignal: bool)
      requires Valid()
      modifies this, scanner
      ensures Valid()
      ensures currentOptions == old(currentOptions)[Enabled := JBool(true)]
      ensures instance == old(instance) && nextInstance == old(nextInstance)
      ensures scanner.received == old(scanner.received)
        + (if hasPauseSignal then [Resumed] else [])
        + [Scan(currentOptions[ShowToolbar := JBool(true)]),
           ToolbarVisible(Truthy(Get(old(currentOptions), ShowToolbar)))]
    {
      if hasPauseSignal {
        scanner.Send(Resumed);
      }
      var options := currentOptions[Enabled := JBool(true)];
      var effectiveOptions := options[ShowToolbar := JBool(true)];
      scanner.Send(Scan(effectiveOptions));
      currentOptions := options;
      scanner.Send(ToolbarVisible(Truthy(Get(currentOptions, ShowToolbar))));
    }

    /** The instance's stop: `enabled: false` over the current options, which are
        also passed to React Scan's setOptions. */
    method Stop()
      requires Valid()
      modifies this, scanner
      ensures Valid()
      ensures currentOptions == old(currentOptions)[Enabled := JBool(false)]
      ensures instance == old(instance) && nextInstance == old(nextInstance)
      ensures scanner.received == old(scanner.received) + [SetScanOptions(currentOptions)]
    {
      var options := currentOptions[Enabled := JBool(false)];
      currentOptions := options;
      scanner.Send(SetScanOptions(options));
    }

    /** hideToolbar / showToolbar: records the choice and applies the override. */
    method SetToolbar(visible: bool)
      requires Valid()
      modifies this, scanner
      ensures Valid()
      ensures currentOptions == old(currentOptions)[ShowToolbar := JBool(visible)]
      ensures instance == old(instance) && nextInstance == old(nextInstance)
      ensures scanner.received == old(scanner.received) + [ToolbarVisible(visible)]
    {
      currentOptions := currentOptions[ShowToolbar := JBool(visible)];
      scanner.Send(ToolbarVisible(visible));
    }

    /** getPerformanceSummary of the current report: its totals count every
        entry once, and its top list holds the (at most ten) slowest components,
        slowest first. */
    method GetPerformanceSummary(store: StoreView) returns (s: Summary)
      ensures !store.Report? ==> s == CalculatePerformanceSummary([])
      ensures store.Report? ==> s == CalculatePerformanceSummary(SortByTotalTime(Unsorted(store.entries)))
      ensures store.Report? ==>
        s.totalRenders == EntryRenders(store.entries)
        && s.unnecessaryRenders == EntryUnnecessary(store.entries)
        && s.totalComponents == |Names(store.entries)|
      ensures store.Report? ==>
        var top := s.slowestComponents;
        SortedDesc(top)
        && multiset(top) <= multiset(Unsorted(store.entries))
        && |top| == (if |Names(store.entries)| < SlowestCount then |Names(store.entries)| else SlowestCount)
        && forall r :: r in multiset(Unsorted(store.entries)) - multiset(top) ==>
             forall i :: 0 <= i < |top| ==> top[i].totalTime >= r.totalTime
    {
      var data := ExtractPerformanceData(store);
      if store.Report? {
        SummaryOfReport(store.entries);
        SlowestOfReport(store.entries);
      }
      s := CalculatePerformanceSummary(data);
    }
  }

  /** Once start has sent its calls, React Scan reports itself active and its
      toolbar visible. */
  lemma {:induction false} StartActivates(calls: seq<ScanCall>, current: Options, paused: bool, visible: bool)
    ensures var sent := calls + (if paused then [Resumed] else [])
        + [Scan(current[Enabled := JBool(true)][ShowToolbar := JBool(true)]), ToolbarVisible(visible)];
      IsActive(LastSent(sent)) && GetToolbarVisibility(LastSent(sent))
  {
    var o := current[Enabled := JBool(true)][ShowToolbar := JBool(true)];
    var sent := calls + (if paused then [Resumed] else []) + [Scan(o), ToolbarVisible(visible)];
    assert sent[..|sent| - 1][|sent| - 2] == Scan(o);
    assert LastSent(sent) == LastSent(sent[..|sent| - 1]) == Plain(o);
  }

  /** Once stop has sent its call, React Scan reports itself inactive. */
  lemma StopDeactivates(calls: seq<ScanCall>, current: Options)
    ensures !IsActive(LastSent(calls + [SetScanOptions(current[Enabled := JBool(false)])]))
  {
  }

  /** Showing or hiding the toolbar leaves what React Scan reports unchanged. */
  lemma {:induction false} ToolbarKeepsReport(calls: seq<ScanCall>, visible: bool)
    ensures LastSent(calls + [ToolbarVisible(visible)]) == LastSent(calls)
  {
    assert (calls + [ToolbarVisible(visible)])[..|calls|] == calls;
  }
}
