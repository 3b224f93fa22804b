/** The routes page of the devtools client: the route tree reported by the
    application's router is flattened into one list of rows with full paths, the row
    of the current path is marked active, and a path typed into the form is
    navigated to.

    The page state that changes in place (current path, input text, routes) is a
    class; the RPC client is abstract, each call's outcome being a parameter. */
module Routes {
  import opened Common

  datatype Route = Route(path: string, name: Option<string>, element: Option<string>, children: Children)
  /** The optional `children` array of a route. */
  datatype Children = Absent | Present(routes: seq<Route>)

  // ---------------------------------------------------------------- slashes

  /** No two adjacent slashes. */
  predicate NoDoubleSlash(s: string) {
    forall k :: 0 <= k < |s| - 1 ==> !(s[k] == '/' && s[k + 1] == '/')
  }

  /** The characters of `s` other than slashes, in order. */
  function WithoutSlashes(s: string): string {
    if s == [] then [] else (if s[0] == '/' then [] else [s[0]]) + WithoutSlashes(s[1..])
  }

  /** `s.replace(/\/+/g, '/')`: every run of slashes becomes one slash. */
  function CollapseSlashes(s: string): (r: string)
    ensures |r| <= |s|
    ensures r == [] <==> s == []
    ensures s != [] ==> r[0] == s[0]
  {
    if |s| >= 2 && s[0] == '/' && s[1] == '/' then CollapseSlashes(s[1..])
    else if s == [] then []
    else [s[0]] + CollapseSlashes(s[1..])
  }

  /** Collapsing leaves no `//`, keeps every other character in order, and changes
      nothing in a string that has no `//` (so applying it twice is applying it
      once). */
  lemma {:induction false} CollapseSlashesMeaning(s: string)
    ensures NoDoubleSlash(CollapseSlashes(s))
    ensures WithoutSlashes(CollapseSlashes(s)) == WithoutSlashes(s)
    ensures NoDoubleSlash(s) ==> CollapseSlashes(s) == s
    decreases |s|
  {
    if s != [] {
      CollapseSlashesMeaning(s[1..]);
      if |s| >= 2 && s[0] == '/' && s[1] == '/' {
        assert WithoutSlashes(s) == WithoutSlashes(s[1..]);
      } else {
        var r := [s[0]] + CollapseSlashes(s[1..]);
        assert r[1..] == CollapseSlashes(s[1..]);
        assert WithoutSlashes(r) == (if s[0] == '/' then [] else [s[0]]) + WithoutSlashes(r[1..]);
        if NoDoubleSlash(s) {
          assert NoDoubleSlash(s[1..]) by {
            forall k | 0 <= k < |s[1..]| - 1
              ensures !(s[1..][k] == '/' && s[1..][k + 1] == '/')
            {
              assert s[1..][k] == s[k + 1] && s[1..][k + 1] == s[k + 2];
            }
          }
        }
      }
    }
  }

  lemma CollapseSlashesIdempotent(s: string)
    ensures CollapseSlashes(CollapseSlashes(s)) == CollapseSlashes(s)
  {
    CollapseSlashesMeaning(s);
    CollapseSlashesMeaning(CollapseSlashes(s));
  }

  // ---------------------------------------------------------------- flattening

  /** The full path of a route under a parent: an absolute path as it is, a
      relative one joined to the parent with `/` and collapsed. */
  function FullPath(path: string, parentPath: string): (r: string)
    ensures StartsWith(path, "/") ==> r == path
    ensures !StartsWith(path, "/") ==> NoDoubleSlash(r)
    ensures !StartsWith(path, "/") ==>
      WithoutSlashes(r) == WithoutSlashes(parentPath) + WithoutSlashes(path)
    ensures r != []
    ensures (parentPath == [] || parentPath[0] == '/') ==> r[0] == '/'
  {
    if StartsWith(path, "/") then path
    else
      var joined := parentPath + "/" + path;
      CollapseSlashesMeaning(joined);
      WithoutSlashesAppend(parentPath + "/", path);
      WithoutSlashesAppend(parentPath, "/");
      assert joined[0] == (if parentPath == [] then '/' else parentPath[0]);
      CollapseSlashes(joined)
  }

  lemma {:induction false} WithoutSlashesAppend(a: string, b: string)
    ensures WithoutSlashes(a + b) == WithoutSlashes(a) + WithoutSlashes(b)
    decreases |a|
  {
    if a == [] {
      assert a + b == b;
    } else {
      assert (a + b)[1..] == a[1..] + b;
      WithoutSlashesAppend(a[1..], b);
    }
  }

  /** The row for a route: its fields with the full path (`fullPath || '/'`). */
  function Row(r: Route, fullPath: string): Route {
    r.(path := if fullPath != [] then fullPath else "/")
  }

  /** flattenRoutes as a specification: for each route in order, its rows. */
  function Flatten(routes: seq<Route>, parentPath: string): seq<Route>
    decreases routes
  {
    if routes == [] then [] else FlattenOne(routes[0], parentPath) + Flatten(routes[1..], parentPath)
  }

  /** The rows of one route: its own row, then the rows of its children under its
      full path. */
  function FlattenOne(r: Route, parentPath: string): seq<Route>
    decreases r
  {
    var full := FullPath(r.path, parentPath);
    [Row(r, full)] + (if r.children.Present? then Flatten(r.children.routes, full) else [])
  }

  /** The routes of the tree in pre-order, as given. */
  function Preorder(routes: seq<Route>): seq<Route>
    decreases routes
  {
    if routes == [] then [] else PreorderOne(routes[0]) + Preorder(routes[1..])
  }

  function PreorderOne(r: Route): seq<Route>
    decreases r
  {
    [r] + (if r.children.Present? then Preorder(r.children.routes) else [])
  }

  /** Flattening in terms of the last route of the list. */
  lemma {:induction false} FlattenSnoc(routes: seq<Route>, r: Route, parentPath: string)
    ensures Flatten(routes + [r], parentPath) == Flatten(routes, parentPath) + FlattenOne(r, parentPath)
    decreases |routes|
  {
    if routes == [] {
      assert routes + [r] == [r];
      assert Flatten([r], parentPath) == FlattenOne(r, parentPath) + Flatten([], parentPath);
    } else {
      assert (routes + [r])[1..] == routes[1..] + [r];
      FlattenSnoc(routes[1..], r, parentPath);
    }
  }

  /** flattenRoutes: the loop over the routes that pushes each row and then the
      flattened children. */
  method FlattenRoutes(routes: seq<Route>, parentPath: string) returns (result: seq<Route>)
    ensures result == Flatten(routes, parentPath)
    decreases routes
  {
    result := [];
    for i := 0 to |routes|
      invariant result == Flatten(routes[..i], parentPath)
    {
      var route := routes[i];
      var fullPath := FullPath(route.path, parentPath);
      ghost var before := result;
      result := result + [Row(route, fullPath)];
      if route.children.Present? {
        var sub := FlattenRoutes(route.children.routes, fullPath);
        result := result + sub;
      }
      assert result == before + FlattenOne(route, parentPath);
      FlattenSnoc(routes[..i], route, parentPath);
      assert routes[..i + 1] == routes[..i] + [route];
    }
    assert routes[..|routes|] == routes;
  }

  /** Each row is the route at the same position with only its path replaced. */
  predicate RowsOf(rows: seq<Route>, routes: seq<Route>) {
    |rows| == |routes| && forall k :: 0 <= k < |rows| ==> rows[k] == routes[k].(path := rows[k].path)
  }

  /** Every row's path is absolute. */
  predicate AllAbsolute(rows: seq<Route>) {
    forall k :: 0 <= k < |rows| ==> rows[k].path != [] && rows[k].path[0] == '/'
  }

  lemma RowsOfConcat(f1: seq<Route>, p1: seq<Route>, f2: seq<Route>, p2: seq<Route>)
    requires RowsOf(f1, p1) && RowsOf(f2, p2)
    ensures RowsOf(f1 + f2, p1 + p2)
  {
    forall k | 0 <= k < |f1 + f2|
      ensures (f1 + f2)[k] == (p1 + p2)[k].(path := (f1 + f2)[k].path)
    {
      if k >= |f1| {
        assert (f1 + f2)[k] == f2[k - |f1|] && (p1 + p2)[k] == p2[k - |f1|];
      }
    }
  }

  lemma AllAbsoluteConcat(f1: seq<Route>, f2: seq<Route>)
    requires AllAbsolute(f1) && AllAbsolute(f2)
    ensures AllAbsolute(f1 + f2)
  {
    forall k | 0 <= k < |f1 + f2|
      ensures (f1 + f2)[k].path != [] && (f1 + f2)[k].path[0] == '/'
    {
      if k >= |f1| {
        assert (f1 + f2)[k] == f2[k - |f1|];
      }
    }
  }

  /** The flattened list has one row per route of the tree, in pre-order (each route
      before its descendants, siblings in order), and each row is its route with
      only the path replaced; when the top-level parent path is empty or absolute,
      every row's path is absolute, so the `'/'` default is never needed. */
  lemma {:induction false} FlattenMeaning(routes: seq<Route>, parentPath: string)
    ensures RowsOf(Flatten(routes, parentPath), Preorder(routes))
    ensures (parentPath == [] || parentPath[0] == '/') ==> AllAbsolute(Flatten(routes, parentPath))
    decreases routes
  {
    if routes != [] {
      FlattenOneMeaning(routes[0], parentPath);
      FlattenMeaning(routes[1..], parentPath);
      RowsOfConcat(FlattenOne(routes[0], parentPath), PreorderOne(routes[0]),
                   Flatten(routes[1..], parentPath), Preorder(routes[1..]));
      if parentPath == [] || parentPath[0] == '/' {
        AllAbsoluteConcat(FlattenOne(routes[0], parentPath), Flatten(routes[1..], parentPath));
      }
    }
  }

  lemma {:induction false} FlattenOneMeaning(r: Route, parentPath: string)
    ensures RowsOf(FlattenOne(r, parentPath), PreorderOne(r))
    ensures (parentPath == [] || parentPath[0] == '/') ==> AllAbsolute(FlattenOne(r, parentPath))
    decreases r
  {
    var full := FullPath(r.path, parentPath);
    var head := [Row(r, full)];
    assert RowsOf(head, [r]);
    if r.children.Present? {
      FlattenMeaning(r.children.routes, full);
      RowsOfConcat(head, [r], Flatten(r.children.routes, full), Preorder(r.children.routes));
      if parentPath == [] || parentPath[0] == '/' {
        AllAbsoluteConcat(head, Flatten(r.children.routes, full));
      }
    } else {
      assert FlattenOne(r, parentPath) == head;
      assert PreorderOne(r) == [r];
    }
  }

  /** The full path is never empty, so the row of a route always carries it. */
  lemma RowKeepsFullPath(r: Route, parentPath: string)
    ensures Row(r, FullPath(r.path, parentPath)).path == FullPath(r.path, parentPath)
    ensures Row(r, FullPath(r.path, parentPath)).children == r.children
  {
  }

  // ---------------------------------------------------------------- page state

  /** The router state reported by getRouterInfo. */
  datatype RouterInfo = RouterInfo(currentPath: string, routes: seq<Route>)

  /** How an RPC call ends: no client connected, a result, or an exception. */
  datatype Call<T> = NoClient | Returned(value: T) | Threw

  class RoutesView {
    var currentPath: string
    var inputPath: string
    var routes: seq<Route>
    /** Every path passed to rpc.navigateTo, oldest first. */
    var navigateRequests: seq<string>

    constructor ()
      ensures currentPath == [] && inputPath == [] && routes == [] && navigateRequests == []
    {
      currentPath := [];
      inputPath := [];
      routes := [];
      navigateRequests := [];
    }

    /** fetchRouterInfo: a non-null report sets the current path, the input text
        and the routes; no client, null or an exception changes nothing. */
    method FetchRouterInfo(outcome: Call<Option<RouterInfo>>)
      modifies this
      ensures outcome.Returned? && outcome.value.Some? ==>
        currentPath == outcome.value.value.currentPath
        && inputPath == outcome.value.value.currentPath
        && routes == outcome.value.value.routes
      ensures !(outcome.Returned? && outcome.value.Some?) ==>
        currentPath == old(currentPath) && inputPath == old(inputPath) && routes == old(routes)
      ensures navigateRequests == old(navigateRequests)
    {
      if outcome.Returned? && outcome.value.Some? {
        var info := outcome.value.value;
        currentPath := info.currentPath;
        inputPath := info.currentPath;
        routes := info.routes;
      }
    }

    /** handleNavigate: asks the router to go to `path`; only a truthy answer moves
        the current path and the input text there. */
    method HandleNavigate(path: string, outcome: Call<bool>)
      modifies this
      ensures navigateRequests == old(navigateRequests) + (if outcome.NoClient? then [] else [path])
      ensures outcome == Returned(true) ==> currentPath == path && inputPath == path
      ensures outcome != Returned(true) ==> currentPath == old(currentPath) && inputPath == old(inputPath)
      ensures routes == old(routes)
    {
      if outcome.NoClient? {
        return;
      }
      navigateRequests := navigateRequests + [path];
      if outcome == Returned(true) {
        currentPath := path;
        inputPath := path;
      }
    }

    /** Whether the submit button is enabled (`disabled={!inputPath || inputPath ===
        currentPath}` negated). */
    predicate CanSubmit()
      reads this
    {
      inputPath != [] && inputPath != currentPath
    }

    /** handleInputSubmit: navigates to the input text exactly when it is non-empty
        and differs from the current path, the same condition that enables the
        button. */
    method HandleInputSubmit(outcome: Call<bool>) returns (navigated: bool)
      modifies this
      ensures navigated == old(CanSubmit())
      ensures navigateRequests == old(navigateRequests)
        + (if navigated && !outcome.NoClient? then [old(inputPath)] else [])
      ensures navigated && outcome == Returned(true) ==>
        currentPath == old(inputPath) && inputPath == old(inputPath)
      ensures !(navigated && outcome == Returned(true)) ==>
        currentPath == old(currentPath) && inputPath == old(inputPath)
      ensures routes == old(routes)
    {
      navigated := inputPath != [] && inputPath != currentPath;
      if navigated {
        HandleNavigate(inputPath, outcome);
      }
    }

    /** The positions of the active rows: those whose flattened path is the current
        path. Rows are absolute, so a current path that is empty or relative makes
        no row active. */
    function ActiveRows(): (rows: set<nat>)
      reads this
      ensures forall k :: k in rows ==> k < |Flatten(routes, [])|
      ensures (currentPath == [] || currentPath[0] != '/') ==> rows == {}
    {
      FlattenMeaning(routes, []);
      set k: nat | k < |Flatten(routes, [])| && Flatten(routes, [])[k].path == currentPath
    }
  }
}
