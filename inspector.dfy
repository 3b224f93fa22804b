/** The element inspector of the devtools kit: an on/off flag, a mode
    (select-component or open-in-editor), two sets of subscriber callbacks, and the
    pointer handlers that walk up the live fiber tree from the fiber under the
    pointer, highlight, emit to subscribers and switch themselves off.

    The fiber tree is a finite map from fiber identity to the fields read here (tag,
    `return` link, `_debugSource`). The three helpers from the fiber utilities whose
    code is not part of this model (shouldIncludeFiber(_, false), getFiberId and
    getFiberFromElement) are abstract: the first two are function-valued constants of
    the inspector, and the handlers take the fiber that getFiberFromElement found for
    the event target. The highlight overlay is modelled by the value it shows. */
module Inspector {
  import opened Common

  /** Identity of a live fiber object. */
  type FiberId = nat
  /** Identity of a subscriber callback (a JavaScript function object). */
  type CallbackId = nat

  datatype Source = Source(fileName: string, lineNumber: int, columnNumber: int)
  datatype Fiber = Fiber(tag: int, parent: Option<FiberId>, debugSource: Option<Source>)
  type FiberTree = map<FiberId, Fiber>

  datatype Mode = SelectComponent | OpenInEditor

  /** What the highlight overlay currently shows. */
  datatype Highlight = Hidden | Shown(fiber: FiberId, source: Option<Source>)

  /** One call of emitSelect / emitOpenInEditor, with the callbacks it reached. */
  datatype Emission =
    | Selected(fiberId: string, receivers: set<CallbackId>)
    | OpenedInEditor(fileName: string, lineNumber: int, columnNumber: int, receivers: set<CallbackId>)

  // ---------------------------------------------------------------- fiber chains

  /** Following `return` links from `cur` reaches null within `fuel` steps, through
      fibers that are all in the tree. */
  predicate ReachesRoot(t: FiberTree, cur: Option<FiberId>, fuel: nat)
    decreases fuel
  {
    match cur
    case None => true
    case Some(id) => id in t && fuel > 0 && ReachesRoot(t, t[id].parent, fuel - 1)
  }

  /** A fiber tree as React builds it: from every fiber the `return` chain ends at
      the root without revisiting a fiber (so within |t| steps). */
  predicate WellFormed(t: FiberTree) {
    forall id :: id in t ==> ReachesRoot(t, Some(id), |t|)
  }

  /** The parent chain starting at `cur`: `cur` itself, its parent, and so on up to
      the root. */
  function Chain(t: FiberTree, cur: Option<FiberId>, fuel: nat): (c: seq<FiberId>)
    requires ReachesRoot(t, cur, fuel)
    ensures |c| <= fuel
    ensures cur.None? <==> c == []
    ensures cur.Some? ==> c[0] == cur.value
    ensures forall k :: 0 <= k < |c| ==> c[k] in t
    ensures forall k :: 0 <= k < |c| - 1 ==> t[c[k]].parent == Some(c[k + 1])
    ensures c != [] ==> t[c[|c| - 1]].parent.None?
    decreases fuel
  {
    match cur
    case None => []
    case Some(id) => [id] + Chain(t, t[id].parent, fuel - 1)
  }

  /** The chain does not depend on how much fuel was granted. */
  lemma {:induction false} ChainFuelIndependent(t: FiberTree, cur: Option<FiberId>, f1: nat, f2: nat)
    requires ReachesRoot(t, cur, f1) && ReachesRoot(t, cur, f2)
    ensures Chain(t, cur, f1) == Chain(t, cur, f2)
    decreases f1
  {
    if cur.Some? {
      ChainFuelIndependent(t, t[cur.value].parent, f1 - 1, f2 - 1);
    }
  }

  /** Every suffix of a chain is the chain of its first fiber. */
  lemma {:induction false} ChainSuffix(t: FiberTree, cur: Option<FiberId>, fuel: nat, i: nat)
    requires ReachesRoot(t, cur, fuel)
    requires i < |Chain(t, cur, fuel)|
    ensures fuel >= i && ReachesRoot(t, Some(Chain(t, cur, fuel)[i]), fuel - i)
    ensures Chain(t, cur, fuel)[i..] == Chain(t, Some(Chain(t, cur, fuel)[i]), fuel - i)
    decreases fuel
  {
    if i > 0 {
      var c := Chain(t, cur, fuel);
      ChainSuffix(t, t[cur.value].parent, fuel - 1, i - 1);
      assert c[i..] == c[1..][i - 1..];
    }
  }

  /** In a well-formed tree a parent chain never visits a fiber twice, so the walks
      below terminate after at most |t| steps. */
  lemma ChainIsSimple(t: FiberTree, cur: Option<FiberId>, fuel: nat, i: nat, j: nat)
    requires ReachesRoot(t, cur, fuel)
    requires i < j < |Chain(t, cur, fuel)|
    ensures Chain(t, cur, fuel)[i] != Chain(t, cur, fuel)[j]
  {
    var c := Chain(t, cur, fuel);
    ChainSuffix(t, cur, fuel, i);
    ChainSuffix(t, cur, fuel, j);
    if c[i] == c[j] {
      ChainFuelIndependent(t, Some(c[i]), fuel - i, fuel - j);
      assert false;
    }
  }

  /** Index of the first element of `s` that satisfies `p`. */
  function FirstMatch(s: seq<FiberId>, p: FiberId -> bool): (r: Option<nat>)
    ensures r.Some? ==> r.value < |s| && p(s[r.value])
    ensures r.Some? ==> forall j :: 0 <= j < r.value ==> !p(s[j])
    ensures r.None? ==> forall j :: 0 <= j < |s| ==> !p(s[j])
  {
    if s == [] then None
    else if p(s[0]) then Some(0)
    else
      var r := FirstMatch(s[1..], p);
      if r.Some? then Some(r.value + 1) else None
  }

  /** The fiber at the first matching position of the chain, or null. */
  function FirstOnChain(c: seq<FiberId>, p: FiberId -> bool): Option<FiberId> {
    var i := FirstMatch(c, p);
    if i.Some? then Some(c[i.value]) else None
  }

  predicate HasSource(t: FiberTree, id: FiberId) {
    id in t && t[id].debugSource.Some?
  }

  /** `current._debugSource` as a test on fibers. */
  function CarriesSource(t: FiberTree): FiberId -> bool {
    (id: FiberId) => HasSource(t, id)
  }

  /** The walk's test reads the fiber's own `_debugSource`. */
  lemma CarriesSourceMeans(t: FiberTree, id: FiberId)
    requires id in t
    ensures CarriesSource(t)(id) <==> t[id].debugSource.Some?
  {
  }

  /** One step up the chain: a fiber followed by the chain of its parent. */
  lemma ChainStep(t: FiberTree, id: FiberId, fuel: nat)
    requires ReachesRoot(t, Some(id), fuel)
    ensures fuel > 0 && ReachesRoot(t, t[id].parent, fuel - 1)
    ensures Chain(t, Some(id), fuel) == [id] + Chain(t, t[id].parent, fuel - 1)
  {
  }

  /** The state of a walk from `start`: `current` is where it stands with `fuel`
      steps left, `skipped` the fibers passed over so far, none of which satisfied
      `p`. */
  predicate Walking(t: FiberTree, start: Option<FiberId>, skipped: seq<FiberId>, current: Option<FiberId>,
                    fuel: nat, p: FiberId -> bool)
  {
    ReachesRoot(t, start, |t|) && ReachesRoot(t, current, fuel)
    && Chain(t, start, |t|) == skipped + Chain(t, current, fuel)
    && forall j :: 0 <= j < |skipped| ==> !p(skipped[j])
  }

  /** A walk starts at its first fiber with nothing skipped. */
  lemma WalkStart(t: FiberTree, start: Option<FiberId>, p: FiberId -> bool)
    requires ReachesRoot(t, start, |t|)
    ensures Walking(t, start, [], start, |t|, p)
  {
    assert [] + Chain(t, start, |t|) == Chain(t, start, |t|);
  }

  /** The walks' loop step: passing over the current fiber moves it from the chain
      still to walk to the fibers skipped. */
  lemma WalkStep(t: FiberTree, start: Option<FiberId>, skipped: seq<FiberId>, id: FiberId, fuel: nat,
                 p: FiberId -> bool)
    requires Walking(t, start, skipped, Some(id), fuel, p)
    requires !p(id)
    ensures fuel > 0 && Walking(t, start, skipped + [id], t[id].parent, fuel - 1, p)
  {
    ChainStep(t, id, fuel);
    var rest := Chain(t, t[id].parent, fuel - 1);
    assert skipped + ([id] + rest) == (skipped + [id]) + rest;
  }

  /** The walks' exit at a qualifying fiber: it is the nearest one. */
  lemma WalkFound(t: FiberTree, start: Option<FiberId>, skipped: seq<FiberId>, id: FiberId, fuel: nat,
                  p: FiberId -> bool)
    requires Walking(t, start, skipped, Some(id), fuel, p)
    requires p(id)
    ensures FirstOnChain(Chain(t, start, |t|), p) == Some(id)
  {
    FirstMatchAfterSkipped(skipped, Chain(t, Some(id), fuel), p);
  }

  /** The walks' exit past the root: no fiber of the chain qualifies. */
  lemma WalkExhausted(t: FiberTree, start: Option<FiberId>, skipped: seq<FiberId>, fuel: nat, p: FiberId -> bool)
    requires Walking(t, start, skipped, None, fuel, p)
    ensures FirstOnChain(Chain(t, start, |t|), p) == None
  {
    FirstMatchAfterSkipped(skipped, [], p);
    assert skipped + [] == skipped;
  }

  /** findNearestComponentFiber: walks `return` links from `fiber` (itself included)
      and stops at the first fiber shouldIncludeFiber(_, false) accepts. */
  method FindNearestComponentFiber(t: FiberTree, fiber: Option<FiberId>, isComponent: FiberId -> bool)
    returns (r: Option<FiberId>)
    requires ReachesRoot(t, fiber, |t|)
    ensures r == FirstOnChain(Chain(t, fiber, |t|), isComponent)
  {
    ghost var fuel: nat := |t|;
    ghost var skipped: seq<FiberId> := [];
    WalkStart(t, fiber, isComponent);
    var current := fiber;
    while current.Some?
      invariant Walking(t, fiber, skipped, current, fuel, isComponent)
      decreases fuel
    {
      if isComponent(current.value) {
        WalkFound(t, fiber, skipped, current.value, fuel, isComponent);
        return current;
      }
      WalkStep(t, fiber, skipped, current.value, fuel, isComponent);
      skipped := skipped + [current.value];
      current := t[current.value].parent;
      fuel := fuel - 1;
    }
    WalkExhausted(t, fiber, skipped, fuel, isComponent);
    return None;
  }

  /** findSourceFiber: the nearest fiber on the chain (itself included) that carries
      `_debugSource`. */
  method FindSourceFiber(t: FiberTree, fiber: Option<FiberId>) returns (r: Option<FiberId>)
    requires ReachesRoot(t, fiber, |t|)
    ensures r == FirstOnChain(Chain(t, fiber, |t|), CarriesSource(t))
  {
    ghost var fuel: nat := |t|;
    ghost var skipped: seq<FiberId> := [];
    WalkStart(t, fiber, CarriesSource(t));
    var current := fiber;
    while current.Some?
      invariant Walking(t, fiber, skipped, current, fuel, CarriesSource(t))
      decreases fuel
    {
      CarriesSourceMeans(t, current.value);
      if t[current.value].debugSource.Some? {
        WalkFound(t, fiber, skipped, current.value, fuel, CarriesSource(t));
        return current;
      }
      WalkStep(t, fiber, skipped, current.value, fuel, CarriesSource(t));
      skipped := skipped + [current.value];
      current := t[current.value].parent;
      fuel := fuel - 1;
    }
    WalkExhausted(t, fiber, skipped, fuel, CarriesSource(t));
    return None;
  }

  /** Skipping a prefix of non-matching fibers does not change the first match. */
  lemma {:induction false} FirstMatchAfterSkipped(skipped: seq<FiberId>, rest: seq<FiberId>, p: FiberId -> bool)
    requires forall j :: 0 <= j < |skipped| ==> !p(skipped[j])
    ensures FirstOnChain(skipped + rest, p) == FirstOnChain(rest, p)
    decreases |skipped|
  {
    if skipped != [] {
      var s := skipped + rest;
      assert s[0] == skipped[0];
      assert s[1..] == skipped[1..] + rest;
      FirstMatchAfterSkipped(skipped[1..], rest, p);
      var i := FirstMatch(s[1..], p);
      if i.Some? {
        assert s[i.value + 1] == s[1..][i.value];
      }
    } else {
      assert skipped + rest == rest;
    }
  }

  /** The nearest qualifying fiber is on the parent chain, qualifies, and no fiber
      nearer to the start qualifies; null means no fiber on the chain qualifies. */
  lemma FirstOnChainMeaning(c: seq<FiberId>, p: FiberId -> bool)
    ensures FirstOnChain(c, p).Some? ==>
      exists i :: 0 <= i < |c| && c[i] == FirstOnChain(c, p).value && p(c[i])
                  && forall j :: 0 <= j < i ==> !p(c[j])
    ensures FirstOnChain(c, p).None? <==> forall j :: 0 <= j < |c| ==> !p(c[j])
  {
    var i := FirstMatch(c, p);
    if i.Some? {
      assert c[i.value] == FirstOnChain(c, p).value;
    }
  }

  /** A fiber that qualifies itself is its own nearest qualifying fiber. */
  lemma SelfFirst(t: FiberTree, id: FiberId, p: FiberId -> bool)
    requires ReachesRoot(t, Some(id), |t|) && p(id)
    ensures FirstOnChain(Chain(t, Some(id), |t|), p) == Some(id)
  {
  }

  /** Starting from null, both walks find nothing. */
  lemma NullStart(t: FiberTree, p: FiberId -> bool)
    ensures FirstOnChain(Chain(t, None, |t|), p) == None
  {
  }

  // ---------------------------------------------------------------- the inspector

  class InspectorState {
    var enabled: bool
    var mode: Mode
    var selectCallbacks: set<CallbackId>
    var openInEditorCallbacks: set<CallbackId>
    /** Whether the capture-phase mouseover and click listeners are attached. */
    var listening: bool
    var highlight: Highlight
    /** Every emission so far, oldest first. */
    var emitted: seq<Emission>
    /** shouldIncludeFiber(_, false) */
    const isComponent: FiberId -> bool
    /** getFiberId */
    const fiberIdOf: FiberId -> string

    /** The listeners are attached exactly while the inspector is on, and nothing is
        highlighted while it is off. */
    ghost predicate Valid()
      reads this
    {
      listening == enabled && (!enabled ==> highlight == Hidden)
    }

    /** The module's initial state: off, select-component mode, no subscribers. */
    constructor (isComponent: FiberId -> bool, fiberIdOf: FiberId -> string)
      ensures Valid()
      ensures !enabled && mode == SelectComponent
      ensures selectCallbacks == {} && openInEditorCallbacks == {}
      ensures highlight == Hidden && emitted == []
      ensures this.isComponent == isComponent && this.fiberIdOf == fiberIdOf
    {
      enabled := false;
      mode := SelectComponent;
      selectCallbacks := {};
      openInEditorCallbacks := {};
      listening := false;
      highlight := Hidden;
      emitted := [];
      this.isComponent := isComponent;
      this.fiberIdOf := fiberIdOf;
    }

    /** onInspectorSelect: adds the callback to the set (a second registration of
        the same callback changes nothing). */
    method OnInspectorSelect(cb: CallbackId)
      modifies this
      ensures selectCallbacks == old(selectCallbacks) + {cb}
      ensures enabled == old(enabled) && mode == old(mode) && listening == old(listening)
      ensures openInEditorCallbacks == old(openInEditorCallbacks)
      ensures highlight == old(highlight) && emitted == old(emitted)
    {
      selectCallbacks := selectCallbacks + {cb};
    }

    /** The disposer returned by onInspectorSelect: Set.delete, which reports
        whether the callback was registered. */
    method DisposeSelect(cb: CallbackId) returns (removed: bool)
      modifies this
      ensures removed == (cb in old(selectCallbacks))
      ensures selectCallbacks == old(selectCallbacks) - {cb}
      ensures enabled == old(enabled) && mode == old(mode) && listening == old(listening)
      ensures openInEditorCallbacks == old(openInEditorCallbacks)
      ensures highlight == old(highlight) && emitted == old(emitted)
    {
      removed := cb in selectCallbacks;
      selectCallbacks := selectCallbacks - {cb};
    }

    /** onOpenInEditor: adds the callback to the set. */
    method OnOpenInEditor(cb: CallbackId)
      modifies this
      ensures openInEditorCallbacks == old(openInEditorCallbacks) + {cb}
      ensures enabled == old(enabled) && mode == old(mode) && listening == old(listening)
      ensures selectCallbacks == old(selectCallbacks)
      ensures highlight == old(highlight) && emitted == old(emitted)
    {
      openInEditorCallbacks := openInEditorCallbacks + {cb};
    }

    /** The disposer returned by onOpenInEditor. */
    method DisposeOpenInEditor(cb: CallbackId) returns (removed: bool)
      modifies this
      ensures removed == (cb in old(openInEditorCallbacks))
      ensures openInEditorCallbacks == old(openInEditorCallbacks) - {cb}
      ensures enabled == old(enabled) && mode == old(mode) && listening == old(listening)
      ensures selectCallbacks == old(selectCallbacks)
      ensures highlight == old(highlight) && emitted == old(emitted)
    {
      removed := cb in openInEditorCallbacks;
      openInEditorCallbacks := openInEditorCallbacks - {cb};
    }

    /** toggleInspector(enabled, { mode }): sets the flag, changes the mode only when
        one is given, attaches or detaches the listeners and, when switching off,
        hides the highlight. */
    method ToggleInspector(on: bool, newMode: Option<Mode>)
      requires Valid()
      modifies this
      ensures Valid()
      ensures enabled == on && listening == on
      ensures mode == (if newMode.Some? then newMode.value else old(mode))
      ensures highlight == (if on then old(highlight) else Hidden)
      ensures selectCallbacks == old(selectCallbacks)
      ensures openInEditorCallbacks == old(openInEditorCallbacks)
      ensures emitted == old(emitted)
    {
      enabled := on;
      if newMode.Some? {
        mode := newMode.value;
      }
      listening := on;
      if !on {
        highlight := Hidden;
      }
    }

    /** handleMouseOver for a pointer over an element whose fiber is `fiber`. */
    method HandleMouseOver(t: FiberTree, fiber: Option<FiberId>)
      requires Valid() && WellFormed(t)
      requires fiber.Some? ==> fiber.value in t
      modifies this
      ensures Valid()
      ensures enabled == old(enabled) && mode == old(mode) && listening == old(listening)
      ensures selectCallbacks == old(selectCallbacks)
      ensures openInEditorCallbacks == old(openInEditorCallbacks)
      ensures emitted == old(emitted)
      ensures !old(enabled) ==> highlight == old(highlight)
      ensures old(enabled) && mode == SelectComponent ==>
        highlight == (var c := FirstOnChain(Chain(t, fiber, |t|), isComponent);
                      if c.Some? then Shown(c.value, None) else Hidden)
      ensures old(enabled) && mode == OpenInEditor ==>
        highlight == (var s := FirstOnChain(Chain(t, fiber, |t|), CarriesSource(t));
                      if s.Some? then Shown(fiber.value, t[s.value].debugSource) else Hidden)
    {
      if !enabled {
        return;
      }
      if mode == SelectComponent {
        var componentFiber := FindNearestComponentFiber(t, fiber, isComponent);
        if componentFiber.Some? {
          highlight := Shown(componentFiber.value, None);
        } else {
          highlight := Hidden;
        }
      } else {
        var sourceFiber := FindSourceFiber(t, fiber);
        if sourceFiber.Some? {
          SourceFiberOnChain(t, fiber);
          var source := t[sourceFiber.value].debugSource;
          if fiber.Some? {
            highlight := Shown(fiber.value, source);
          } else {
            // a walk from null finds nothing, so the source's fallback to
            // highlighting the source fiber itself cannot run
            assert false;
          }
        } else {
          highlight := Hidden;
        }
      }
    }

    /** handleClick for a click on an element whose fiber is `fiber`; returns whether
        the event's default action was prevented (and its propagation stopped). */
    method HandleClick(t: FiberTree, fiber: Option<FiberId>) returns (prevented: bool)
      requires Valid() && WellFormed(t)
      requires fiber.Some? ==> fiber.value in t
      modifies this
      ensures Valid()
      ensures prevented == old(enabled)
      ensures mode == old(mode)
      ensures selectCallbacks == old(selectCallbacks)
      ensures openInEditorCallbacks == old(openInEditorCallbacks)
      ensures !old(enabled) ==>
        enabled == old(enabled) && highlight == old(highlight) && emitted == old(emitted)
      ensures old(enabled) && mode == SelectComponent ==>
        var c := FirstOnChain(Chain(t, fiber, |t|), isComponent);
        if c.Some? then
          emitted == old(emitted) + [Selected(fiberIdOf(c.value), selectCallbacks)]
          && !enabled && !listening && highlight == Hidden
        else
          emitted == old(emitted) && enabled && highlight == old(highlight)
      ensures old(enabled) && mode == OpenInEditor ==>
        var s := FirstOnChain(Chain(t, fiber, |t|), CarriesSource(t));
        if s.Some? then
          var src := t[s.value].debugSource.value;
          emitted == old(emitted) + [OpenedInEditor(src.fileName, src.lineNumber, src.columnNumber, openInEditorCallbacks)]
          && !enabled && !listening && highlight == Hidden
        else
          emitted == old(emitted) && enabled && highlight == old(highlight)
    {
      if !enabled {
        return false;
      }
      prevented := true;
      if mode == SelectComponent {
        var componentFiber := FindNearestComponentFiber(t, fiber, isComponent);
        if componentFiber.Some? {
          var id := fiberIdOf(componentFiber.value);
          emitted := emitted + [Selected(id, selectCallbacks)];
          ToggleInspector(false, None);
          highlight := Hidden;
        }
      } else {
        var sourceFiber := FindSourceFiber(t, fiber);
        if sourceFiber.Some? && t[sourceFiber.value].debugSource.Some? {
          var src := t[sourceFiber.value].debugSource.value;
          emitted := emitted + [OpenedInEditor(src.fileName, src.lineNumber, src.columnNumber, openInEditorCallbacks)];
          ToggleInspector(false, None);
          highlight := Hidden;
        } else if sourceFiber.Some? {
          // findSourceFiber only returns fibers that carry a source
          assert false;
        }
      }
    }
  }

  /** The fiber findSourceFiber returns is in the tree and carries a source, and it
      can only be found from a non-null start. */
  lemma SourceFiberOnChain(t: FiberTree, fiber: Option<FiberId>)
    requires ReachesRoot(t, fiber, |t|)
    ensures var s := FirstOnChain(Chain(t, fiber, |t|), CarriesSource(t));
            s.Some? ==> fiber.Some? && HasSource(t, s.value)
  {
    FirstOnChainMeaning(Chain(t, fiber, |t|), CarriesSource(t));
  }
}
