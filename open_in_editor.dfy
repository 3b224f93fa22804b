/** Opening a source location in the developer's editor from the browser: first
    through the dev server's `/__open-in-editor` endpoint, and, when that fails, once
    through an editor URL protocol (`vscode://file/...`).

    The browser is abstract: what `localStorage` yields (or that reading it throws),
    whether creating and clicking the link throws, and how the endpoint request
    settles are inputs. The result of a call is the trace of its visible effects. */
module OpenInEditor {
  import opened Common
  import opened UriComponent

  /** The localStorage key holding the preferred editor. */
  const EditorKey := "react_devtools_editor"
  /** The editor used when none is stored. */
  const DefaultEditor := "vscode"
  /** The dev server route, with the start of its only query parameter. */
  const EndpointPrefix := "/__open-in-editor?file="

  /** `${fileName}:${line}:${column}` */
  function Location(fileName: string, line: int, column: int): string {
    fileName + ":" + IntToString(line) + ":" + IntToString(column)
  }

  /** The endpoint request URL: the prefix followed by the URI-component encoding of
      the location. The query value is made only of unreserved characters and
      escapes (no `&`, `#` or `=` can end it early), and decoding it gives the
      location back exactly. */
  function EndpointUrl(fileName: string, line: int, column: int): (u: string)
    ensures StartsWith(u, EndpointPrefix)
    ensures forall k :: |EndpointPrefix| <= k < |u| ==> Unreserved(u[k]) || u[k] == '%'
    ensures Decode(u[|EndpointPrefix|..]) == Some(Location(fileName, line, column))
  {
    var loc := Location(fileName, line, column);
    EncodeIsUrlSafe(loc);
    DecodeEncode(loc);
    var u := EndpointPrefix + Encode(loc);
    assert u[|EndpointPrefix|..] == Encode(loc);
    u
  }

  /** The preferred editor: `localStorage.getItem(key) || 'vscode'`. A stored value
      is used only when it is a non-empty string (the empty string is falsy). */
  function Editor(stored: Option<string>): (e: string)
    ensures e != []
    ensures stored.Some? && stored.value != [] ==> e == stored.value
    ensures stored.None? || stored.value == [] ==> e == DefaultEditor
  {
    if stored.Some? && stored.value != [] then stored.value else DefaultEditor
  }

  /** `${editor}://file/${fileName}:${line}:${column}` */
  function ProtocolUrl(editor: string, fileName: string, line: int, column: int): (u: string)
    ensures StartsWith(u, editor + "://file/")
    ensures u[|editor| + 8..] == Location(fileName, line, column)
  {
    var u := editor + "://file/" + Location(fileName, line, column);
    assert u[..|editor| + 8] == editor + "://file/";
    u
  }

  /** Reads `file:line:column` back by splitting at the last two colons (the
      numbers contain none, the file name may). */
  function SplitLocation(s: string): (r: Option<(string, int, int)>)
  {
    var c2 := LastIndexOf(s, ':');
    if c2.None? then None
    else
      var c1 := LastIndexOf(s[..c2.value], ':');
      if c1.None? then None
      else
        var line := ParseInt(s[c1.value + 1..c2.value]);
        var column := ParseInt(s[c2.value + 1..]);
        if line.Some? && column.Some? then Some((s[..c1.value], line.value, column.value))
        else None
  }

  /** The location string an editor receives names exactly the file, line and
      column it was built from, whatever colons the file name holds. */
  lemma LocationRoundTrip(fileName: string, line: int, column: int)
    ensures SplitLocation(Location(fileName, line, column)) == Some((fileName, line, column))
  {
    IntToStringRoundTrip(line);
    IntToStringRoundTrip(column);
    SplitJoined(fileName, IntToString(line), IntToString(column));
  }

  predicate NoColon(s: string) {
    forall k :: 0 <= k < |s| ==> s[k] != ':'
  }

  /** Splitting `f:l:c` at its last two colons gives back `f`, `l` and `c` when
      neither `l` nor `c` holds a colon. */
  lemma SplitJoined(f: string, l: string, c: string)
    requires NoColon(l) && NoColon(c)
    ensures var line := ParseInt(l);
      var column := ParseInt(c);
      SplitLocation(f + ":" + l + ":" + c)
        == if line.Some? && column.Some? then Some((f, line.value, column.value)) else None
  {
    var s := f + ":" + l + ":" + c;
    var c1 := |f|;
    var c2 := |f| + 1 + |l|;
    assert s[c2 + 1..] == c;
    LastColonAt(s, c2);
    var t := s[..c2];
    assert t == f + ":" + l;
    assert t[c1 + 1..] == l;
    LastColonAt(t, c1);
    assert s[..c1] == f;
    assert s[c1 + 1..c2] == l;
  }

  lemma LastColonAt(s: string, i: nat)
    requires i < |s| && s[i] == ':' && NoColon(s[i + 1..])
    ensures LastIndexOf(s, ':') == Some(i)
  {
    assert forall k :: i < k < |s| ==> s[k] == s[i + 1..][k - i - 1];
  }

  /** What reading localStorage yields: a SecurityError, or the stored value (null
      when the key is unset). */
  datatype StorageRead = Denied | Stored(value: Option<string>)

  /** The parts of the browser the fallback touches. */
  datatype Browser = Browser(storage: StorageRead, linkThrows: bool)

  /** How the endpoint request ends: a response with its `ok` flag, a rejected
      promise (network error), or an exception thrown by the `fetch` call itself. */
  datatype FetchOutcome = Responded(ok: bool) | Rejected | ThrewSynchronously

  /** A visible effect of openInEditor. */
  datatype Effect =
    | FetchCalled(url: string)
    /** The protocol link was created and clicked. */
    | Navigated(url: string)
    /** The fallback caught an exception and gave up. */
    | FallbackFailed

  /** tryOpenWithProtocol: whether it succeeded, and its effect. It never throws:
      any exception from the storage or the link is caught and reported as false. */
  function TryOpenWithProtocol(fileName: string, line: int, column: int, b: Browser): (r: (bool, Effect))
    ensures r.0 <==> b.storage.Stored? && !b.linkThrows
    ensures r.0 ==> r.1 == Navigated(ProtocolUrl(Editor(b.storage.value), fileName, line, column))
    ensures !r.0 ==> r.1 == FallbackFailed
  {
    match b.storage
    case Denied => (false, FallbackFailed)
    case Stored(v) =>
      var url := ProtocolUrl(Editor(v), fileName, line, column);
      if b.linkThrows then (false, FallbackFailed) else (true, Navigated(url))
  }

  /** openInEditor: requests the endpoint, and runs the protocol fallback from the
      `.then` branch (response not ok), the `.catch` branch (rejection) or the outer
      `catch` (synchronous throw). The callbacks of `.then` never throw, because
      tryOpenWithProtocol catches everything, so `.catch` runs only on rejection. */
  function OpenInEditorEffects(fileName: string, line: int, column: int, fetch: FetchOutcome, b: Browser): (trace: seq<Effect>)
    ensures 1 <= |trace| <= 2
    ensures trace[0] == FetchCalled(EndpointUrl(fileName, line, column))
    ensures |trace| == 2 <==> fetch != Responded(true)
    ensures |trace| == 2 ==> trace[1] == TryOpenWithProtocol(fileName, line, column, b).1
  {
    var url := EndpointUrl(fileName, line, column);
    var fallback := TryOpenWithProtocol(fileName, line, column, b).1;
    match fetch
    case Responded(ok) => if ok then [FetchCalled(url)] else [FetchCalled(url), fallback]
    case Rejected => [FetchCalled(url), fallback]
    case ThrewSynchronously => [FetchCalled(url), fallback]
  }

  /** A successful endpoint response never touches the editor protocol, and in
      every other outcome the editor is launched exactly when storage is readable
      and the link works, at the protocol URL of the stored editor. */
  lemma FallbackExactlyOnce(fileName: string, line: int, column: int, fetch: FetchOutcome, b: Browser)
    ensures var trace := OpenInEditorEffects(fileName, line, column, fetch, b);
      (fetch == Responded(true) ==> forall k :: 0 <= k < |trace| ==> !trace[k].Navigated? && !trace[k].FallbackFailed?)
      && (fetch != Responded(true) ==>
            (trace[|trace| - 1].Navigated? <==> b.storage.Stored? && !b.linkThrows))
  {
  }
}
