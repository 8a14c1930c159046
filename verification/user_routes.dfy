/**
 * The user router, mounted at `/api/v1/user`: four registrations.
 */
module UserRoutes {
  import opened Domain
  import opened Routing

  const Table: seq<Route> := [
    Route(Post, [Lit("signup")], Open, Signup),
    Route(Post, [Lit("login")], Open, Login),
    Route(Post, [Lit("logout")], Open, Logout),
    Route(Get, [Lit("purchased")], UserGuard, Purchases)
  ]

  /**
   * signup, login and logout are unguarded POST routes; `/purchased` is the
   * only GET and the only route behind the user middleware.
   */
  lemma GuardsAndVerbs()
    ensures forall route :: route in Table ==> (route.guard == UserGuard <==> route.handler == Purchases)
    ensures forall route :: route in Table ==> (route.verb == Get <==> route.handler == Purchases)
    ensures forall route :: route in Table && route.handler != Purchases ==> route.verb == Post && route.guard == Open
  {
  }

  /** No path fits two registrations of the user router, so each path has exactly one handler. */
  lemma {:induction false} PathsDisjoint(i: nat, j: nat, path: seq<string>)
    requires i < |Table| && j < |Table|
    requires Bind(Table[i].pattern, path).Some? && Bind(Table[j].pattern, path).Some?
    ensures i == j
  {
    assert |path| == 1 && Fits(Table[i].pattern[0], path[0]) && Fits(Table[j].pattern[0], path[0]);
  }

  /** Whatever request the user router dispatches runs the user middleware exactly when it is GET /purchased. */
  lemma DispatchGuard(verb: Verb, path: seq<string>)
    requires Dispatch(Table, verb, path).Some?
    ensures var m := Dispatch(Table, verb, path).value;
      (m.route.guard == UserGuard <==> m.route.handler == Purchases) &&
      (m.route.handler == Purchases <==> verb == Get && path == ["purchased"])
  {
    var m := Dispatch(Table, verb, path).value;
    assert m.route in Table;
    if verb == Get && path == ["purchased"] {
      assert Matches(Table[3], verb, path);
    }
  }

  /** The full path `/api/v1/user/purchased` reaches the purchases controller behind the user middleware. */
  lemma MountedPurchased()
    ensures Mount(["api", "v1", "user", "purchased"]) == Some((UserRouter, ["purchased"]))
    ensures Dispatch(Table, Get, ["purchased"]) == Some(Match(Table[3], map[]))
  {
    assert Bind(Table[3].pattern, ["purchased"]) == Some(map[]);
    DispatchAt(Table, Get, ["purchased"], 3);
  }
}
