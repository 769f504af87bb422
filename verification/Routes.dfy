/** The route table: insertion, lookup, and which requests it dispatches unambiguously. */
module Routes {
  import opened Wrappers
  import opened CStrings
  import opened RequestSpec
  import opened Tables

  datatype Route = Route(path: CString, verb: Method, handler: nat)

  /** Equal, or different by one '/' at the end. */
  predicate SamePath(p: string, q: string) {
    p == q || p + "/" == q || q + "/" == p
  }

  /** The paths agree up to index `k` and differ there. */
  predicate DifferAt(p: string, q: string, k: nat) {
    k <= |p| && k <= |q| && p[..k] == q[..k] && At(p, k) != At(q, k)
  }

  /** The value of a character in an expression, where plain char is signed or not. */
  function Code(ch: char, signed: bool): int {
    if signed && ch as int >= 128 then ch as int - 256 else ch as int
  }

  /** Zero exactly for the same path; otherwise the order of the first different characters. */
  method UrlPathCmp(lhs: CString, rhs: CString, signed: bool) returns (r: int)
    ensures r == 0 <==> SamePath(lhs, rhs)
    ensures r != 0 ==>
              exists k: nat :: DifferAt(lhs, rhs, k)
                && r == if Code(At(lhs, k), signed) < Code(At(rhs, k), signed) then -1 else 1
  {
    var i := 0;
    while true
      invariant i <= |lhs| && i <= |rhs| && lhs[..i] == rhs[..i]
      decreases |lhs| - i
    {
      if At(lhs, i) != At(rhs, i) {
        assert DifferAt(lhs, rhs, i);
        if At(lhs, i) == '\0' && At(rhs, i) == '/' && At(rhs, i + 1) == '\0' {
          assert lhs + "/" == rhs;
          return 0;
        }
        if At(rhs, i) == '\0' && At(lhs, i) == '/' && At(lhs, i + 1) == '\0' {
          assert rhs + "/" == lhs;
          return 0;
        }
        NotSamePath(lhs, rhs, i);
        return if Code(At(lhs, i), signed) - Code(At(rhs, i), signed) < 0 then -1 else 1;
      } else if At(lhs, i) == '\0' {
        assert lhs == lhs[..i] && rhs == rhs[..i];
        return 0;
      }
      i := i + 1;
    }
  }

  lemma NotSamePath(p: CString, q: CString, k: nat)
    requires DifferAt(p, q, k)
    requires !(At(p, k) == '\0' && At(q, k) == '/' && At(q, k + 1) == '\0')
    requires !(At(q, k) == '\0' && At(p, k) == '/' && At(p, k + 1) == '\0')
    ensures !SamePath(p, q)
  {
    assert (p + "/")[..|p|] == p && (q + "/")[..|q|] == q;
  }

  /* ---- The table as a sequence ---- */

  predicate Matches(r: Route, path: string, verb: Method) {
    r.verb == verb && SamePath(path, r.path)
  }

  /** The first route that matches. */
  function Dispatch(rs: seq<Route>, path: string, verb: Method): (r: Option<Route>)
    ensures r.Some? ==> r.value in rs && Matches(r.value, path, verb)
    ensures r == None ==> forall x :: x in rs ==> !Matches(x, path, verb)
  {
    FirstMatch(rs, (r: Route) => Matches(r, path, verb))
  }

  predicate Acceptable(rs: seq<Route>, r: Route) {
    r.path != "" && r.path[0] == '/' && forall x :: x in rs ==> !Matches(x, r.path, r.verb)
  }

  function Insert(rs: seq<Route>, r: Route): seq<Route> {
    if Acceptable(rs, r) then rs + [r] else rs
  }

  /** The table after insertions in this order. */
  function InsertAll(rs: seq<Route>): seq<Route> {
    if rs == [] then [] else Insert(InsertAll(rs[..|rs| - 1]), rs[|rs| - 1])
  }

  /* ---- What insertion keeps ---- */

  /** Every path starts with '/', and no two routes of a method have the same path. */
  predicate Distinct(rs: seq<Route>) {
    && (forall i :: 0 <= i < |rs| ==> rs[i].path != "" && rs[i].path[0] == '/')
    && forall i, j :: 0 <= i < j < |rs| && rs[i].verb == rs[j].verb ==> !SamePath(rs[i].path, rs[j].path)
  }

  lemma {:induction false} InsertAllIsDistinct(rs: seq<Route>)
    ensures Distinct(InsertAll(rs)) && forall r :: r in InsertAll(rs) ==> r in rs
  {
    if rs != [] {
      var before := InsertAll(rs[..|rs| - 1]);
      InsertAllIsDistinct(rs[..|rs| - 1]);
      if Acceptable(before, rs[|rs| - 1]) {
        forall i | 0 <= i < |before| ensures !Matches(before[i], rs[|rs| - 1].path, rs[|rs| - 1].verb) {}
      }
    }
  }

  /** Nothing is turned away exactly when the routes are distinct, in whichever order
      they come. */
  lemma {:induction false} AllAcceptedExactlyWhen(rs: seq<Route>)
    ensures InsertAll(rs) == rs <==> Distinct(rs)
  {
    InsertAllIsDistinct(rs);
    if Distinct(rs) && rs != [] {
      var init, last := rs[..|rs| - 1], rs[|rs| - 1];
      AllAcceptedExactlyWhen(init);
      forall x | x in init ensures !Matches(x, last.path, last.verb) {
        var i :| 0 <= i < |init| && init[i] == x;
        assert rs[i] == x;
      }
      assert init + [last] == rs;
    }
  }

  /* ---- Histories ---- */

  /** Insertions only ever add behind what is there; a refused one changes nothing. */
  lemma {:induction false} TableOnlyGrows(log: seq<Route>, n: nat)
    requires n <= |log|
    ensures InsertAll(log[..n]) <= InsertAll(log)
    decreases |log|
  {
    hide Acceptable;
    if n == |log| {
      assert log[..n] == log;
    } else {
      var init := log[..|log| - 1];
      TableOnlyGrows(init, n);
      assert init[..n] == log[..n];
    }
  }

  lemma FoundIn(rs: seq<Route>, qs: seq<Route>, path: string, verb: Method)
    requires rs <= qs && Dispatch(rs, path, verb).Some?
    ensures Dispatch(qs, path, verb) == Dispatch(rs, path, verb)
  {
    hide Dispatch;
    var i := FirstAtOf(rs, path, verb);
    assert rs[i] == qs[i];
    forall k | 0 <= k < i ensures !Matches(qs[k], path, verb) { assert qs[k] == rs[k]; }
    DispatchAt(qs, i, path, verb);
    DispatchAt(rs, i, path, verb);
  }

  lemma {:induction false} FirstAtOf(rs: seq<Route>, path: string, verb: Method) returns (i: nat)
    requires Dispatch(rs, path, verb).Some?
    ensures i < |rs| && Matches(rs[i], path, verb) && forall k :: 0 <= k < i ==> !Matches(rs[k], path, verb)
  {
    i := 0;
    while i < |rs| && !Matches(rs[i], path, verb)
      invariant i <= |rs| && forall k :: 0 <= k < i ==> !Matches(rs[k], path, verb)
    {
      i := i + 1;
    }
    if i == |rs| {
      DispatchAt(rs, i, path, verb);
    }
  }

  /** The table right after the insertion of a route whose path starts with '/' has a route for it. */
  lemma InsertedIsServed(rs: seq<Route>, r: Route)
    requires r.path != "" && r.path[0] == '/'
    ensures Dispatch(Insert(rs, r), r.path, r.verb).Some?
    ensures (forall x :: x in rs ==> !Matches(x, r.path, r.verb)) ==> Dispatch(Insert(rs, r), r.path, r.verb) == Some(r)
  {
    if Acceptable(rs, r) {
      var qs := rs + [r];
      forall k | 0 <= k < |rs| ensures !Matches(qs[k], r.path, r.verb) { assert qs[k] in rs; }
      DispatchAt(qs, |rs|, r.path, r.verb);
    } else {
      var x :| x in rs && Matches(x, r.path, r.verb);
    }
  }

  /** Whatever was inserted before and after: every route with a path that starts with '/' has its
      path served from then on; and the first route given for a path keeps it. */
  lemma FirstRouteKeepsPath(log: seq<Route>, n: nat)
    requires n < |log| && log[n].path != "" && log[n].path[0] == '/'
    ensures Dispatch(InsertAll(log), log[n].path, log[n].verb).Some?
    ensures (forall k :: 0 <= k < n ==> !Matches(log[k], log[n].path, log[n].verb)) ==>
              Dispatch(InsertAll(log), log[n].path, log[n].verb) == Some(log[n])
  {
    hide Dispatch, Matches, Acceptable;
    var r, before := log[n], InsertAll(log[..n]);
    assert log[..n + 1][..n] == log[..n];
    assert InsertAll(log[..n + 1]) == Insert(before, r);
    InsertedIsServed(before, r);
    TableOnlyGrows(log, n + 1);
    FoundIn(Insert(before, r), InsertAll(log), r.path, r.verb);
    if forall k :: 0 <= k < n ==> !Matches(log[k], r.path, r.verb) {
      InsertAllIsDistinct(log[..n]);
      forall x | x in before ensures !Matches(x, r.path, r.verb) {
        assert x in log[..n];
      }
    }
  }

  /* ---- Dispatch ---- */

  /** Whatever is asked for, at most one position of the table matches. */
  ghost predicate Unambiguous(rs: seq<Route>) {
    forall path: CString, verb, i, j :: 0 <= i < j < |rs| && Matches(rs[i], path, verb) ==> !Matches(rs[j], path, verb)
  }

  /** Two routes of a method whose paths differ by two slashes at the end. */
  predicate DoubleSlash(a: Route, b: Route) {
    a.verb == b.verb && a.path + "//" == b.path
  }

  predicate NoDoubleSlash(rs: seq<Route>) {
    forall a, b :: a in rs && b in rs ==> !DoubleSlash(a, b)
  }

  lemma BothMatch(a: Route, b: Route, path: CString, verb: Method)
    requires Matches(a, path, verb) && Matches(b, path, verb) && !SamePath(a.path, b.path)
    ensures DoubleSlash(a, b) || DoubleSlash(b, a)
  {
    assert (a.path + "/")[..|a.path|] == a.path && (b.path + "/")[..|b.path|] == b.path;
    if a.path + "/" == path {
      assert path + "/" == b.path;
      assert a.path + "//" == a.path + "/" + "/";
    } else if b.path + "/" == path {
      assert path + "/" == a.path;
      assert b.path + "//" == b.path + "/" + "/";
    }
  }

  /** After any insertions, every request matches at most one stored route if and only if no
      two stored routes of a method differ by "//" at the end. */
  lemma UnambiguousExactlyWhen(rs: seq<Route>)
    ensures Unambiguous(InsertAll(rs)) <==> NoDoubleSlash(InsertAll(rs))
  {
    var table := InsertAll(rs);
    InsertAllIsDistinct(rs);
    if NoDoubleSlash(table) {
      forall path: CString, verb, i, j | 0 <= i < j < |table| && Matches(table[i], path, verb)
        ensures !Matches(table[j], path, verb)
      {
        if Matches(table[j], path, verb) { BothMatch(table[i], table[j], path, verb); }
      }
    }
    if !NoDoubleSlash(table) {
      var a, b :| a in table && b in table && DoubleSlash(a, b);
      var path: CString := a.path + "/";
      assert path + "/" == b.path;
      assert Matches(a, path, a.verb) && Matches(b, path, a.verb);
      var i :| 0 <= i < |table| && table[i] == a;
      var j :| 0 <= j < |table| && table[j] == b;
      assert i != j;
    }
  }

  predicate EndsInDoubleSlash(p: string) {
    |p| >= 2 && p[|p| - 2..] == "//"
  }

  /** Insertions of paths that do not end in "//" always leave an unambiguous table. */
  lemma NoDoubleSlashNeeded(rs: seq<Route>)
    requires forall r :: r in rs ==> !EndsInDoubleSlash(r.path)
    ensures Unambiguous(InsertAll(rs))
  {
    InsertAllIsDistinct(rs);
    forall a, b | a in InsertAll(rs) && b in InsertAll(rs) ensures !DoubleSlash(a, b) {
      assert (a.path + "//")[|a.path|..] == "//";
    }
    UnambiguousExactlyWhen(rs);
  }

  /** The same routes in another order dispatch every request to the same route, if every
      request matches at most one. */
  lemma OrderDoesNotMatter(rs: seq<Route>, qs: seq<Route>, path: CString, verb: Method)
    requires Unambiguous(rs) && multiset(rs) == multiset(qs)
    ensures Dispatch(rs, path, verb) == Dispatch(qs, path, verb)
  {
    var r, q := Dispatch(rs, path, verb), Dispatch(qs, path, verb);
    forall x: Route ensures x in rs <==> x in qs { assert x in multiset(rs) <==> x in multiset(qs); }
    if r.Some? && q.Some? {
      var i :| 0 <= i < |rs| && rs[i] == r.value;
      var j :| 0 <= j < |rs| && rs[j] == q.value;
    }
  }

  /* ---- The table as it is written ---- */

  lemma DispatchAt(rs: seq<Route>, i: nat, path: string, verb: Method)
    requires i <= |rs| && (forall k :: 0 <= k < i ==> !Matches(rs[k], path, verb))
            && (i < |rs| ==> Matches(rs[i], path, verb))
    ensures Dispatch(rs, path, verb) == if i < |rs| then Some(rs[i]) else None
  {
    FirstMatchAt(rs, i, (r: Route) => Matches(r, path, verb));
  }

  method FindRoute(routes: Table<Route>, path: CString, verb: Method) returns (r: Option<Route>)
    requires routes.Valid()
    ensures r == Dispatch(routes.Contents(), path, verb)
  {
    for i := 0 to routes.size
      invariant forall k :: 0 <= k < i ==> !Matches(routes.Contents()[k], path, verb)
    {
      var route := routes.items[i];
      if route.verb == verb {
        var order := UrlPathCmp(path, route.path, true); // only zero matters, whichever the sign
        if order == 0 {
          DispatchAt(routes.Contents(), i, path, verb);
          return Some(route);
        }
      }
    }
    DispatchAt(routes.Contents(), |routes.Contents()|, path, verb);
    r := None;
  }

  /** The empty table, with room for eight. */
  method InitRoutes() returns (routes: Table<Route>)
    ensures fresh(routes) && fresh(routes.items) && routes.Valid()
    ensures routes.Contents() == [] && routes.items.Length == 8
  {
    routes := new Table<Route>(8);
  }

  /** False where the code returns NULL. */
  method InsertRoute(routes: Table<Route>, path: CString, verb: Method, handler: nat) returns (ok: bool)
    requires routes.Valid()
    modifies routes, routes.items
    ensures routes.Valid() && (routes.items == old(routes.items) || fresh(routes.items))
    ensures ok <==> Acceptable(old(routes.Contents()), Route(path, verb, handler))
    ensures routes.Contents() == Insert(old(routes.Contents()), Route(path, verb, handler))
    ensures routes.Contents() == old(routes.Contents()) + if ok then [Route(path, verb, handler)] else []
  {
    if At(path, 0) != '/' {
      return false;
    }
    var present := FindRoute(routes, path, verb);
    if present.Some? {
      return false;
    }
    routes.Push(Route(path, verb, handler));
    ok := true;
  }

  /** A server's set-up: insertions into the initial table, one after the other. */
  method Register(log: seq<Route>) returns (routes: Table<Route>)
    ensures fresh(routes) && routes.Valid() && routes.Contents() == InsertAll(log)
  {
    routes := InitRoutes();
    for i := 0 to |log|
      invariant fresh(routes) && fresh(routes.items) && routes.Valid() && routes.Contents() == InsertAll(log[..i])
    {
      assert log[..i + 1][..i] == log[..i];
      var ok := InsertRoute(routes, log[i].path, log[i].verb, log[i].handler);
    }
    assert log[..|log|] == log;
  }
}
