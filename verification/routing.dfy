/**
 * Express routing as the backend uses it: a router is an ordered table of
 * (verb, path pattern, guard, handler) registrations and a request goes to
 * the first registration whose verb and pattern fit it; routers are mounted
 * under `/api/v1/<name>`.  Paths are given as their `/`-separated segments.
 */
module Routing {
  import opened Domain

  datatype Verb = Get | Post | Put | Delete

  /** The middleware a route runs before its handler: none, userMiddleware or adminMiddleware. */
  datatype Guard = Open | UserGuard | AdminGuard

  /** A literal path segment, or a `:name` parameter that binds one non-empty segment. */
  datatype Segment = Lit(text: string) | Param(name: string)

  datatype Handler =
    | CreateCourse | UpdateCourse | DeleteCourse | GetCourses | CourseDetails | BuyCourses | VerifyPayment
    | Signup | Login | Logout | Purchases

  datatype Route = Route(verb: Verb, pattern: seq<Segment>, guard: Guard, handler: Handler)

  /** The chosen registration and the `req.params` it binds. */
  datatype Match = Match(route: Route, params: map<string, string>)

  predicate Fits(s: Segment, part: string)
  {
    match s
    case Lit(text) => text == part
    case Param(_) => part != ""
  }

  /**
   * Matching a pattern against a path: `req.params` when every segment fits,
   * None otherwise.  A parameter name used twice keeps its last segment, as
   * Express assigns the captures in order.
   */
  function Bind(pattern: seq<Segment>, path: seq<string>): (r: Option<map<string, string>>)
    ensures r.Some? <==> |pattern| == |path| && forall i :: 0 <= i < |path| ==> Fits(pattern[i], path[i])
    ensures r.Some? ==> forall i :: 0 <= i < |path| && pattern[i].Param? ==> pattern[i].name in r.value
    ensures r.Some? ==> forall k :: k in r.value ==> exists i :: 0 <= i < |path| && pattern[i] == Param(k)
    ensures r.Some? ==> forall i | 0 <= i < |path| && pattern[i].Param? && (forall j | i < j < |path| :: pattern[j] != pattern[i]) ::
      r.value[pattern[i].name] == path[i]
  {
    if |pattern| != |path| then None
    else if pattern == [] then Some(map[])
    else if !Fits(pattern[0], path[0]) then None
    else match Bind(pattern[1..], path[1..])
      case None => None
      case Some(m) =>
        Some(if pattern[0].Param? && pattern[0].name !in m then m[pattern[0].name := path[0]] else m)
  }

  predicate Matches(route: Route, verb: Verb, path: seq<string>)
  {
    route.verb == verb && Bind(route.pattern, path).Some?
  }

  /** The position of the first registration that fits the request. */
  function FirstMatch(table: seq<Route>, verb: Verb, path: seq<string>): (r: Option<nat>)
    ensures r.Some? ==> r.value < |table| && Matches(table[r.value], verb, path)
    ensures r.Some? ==> forall j :: 0 <= j < r.value ==> !Matches(table[j], verb, path)
    ensures r.None? <==> forall j :: 0 <= j < |table| ==> !Matches(table[j], verb, path)
  {
    if table == [] then None
    else if Matches(table[0], verb, path) then Some(0)
    else match FirstMatch(table[1..], verb, path)
      case None => None
      case Some(k) => Some(k + 1)
  }

  /** First-match dispatch: the registration a request reaches and its bound parameters. */
  function Dispatch(table: seq<Route>, verb: Verb, path: seq<string>): (r: Option<Match>)
    ensures r.Some? ==> r.value.route in table && r.value.route.verb == verb
    ensures r.Some? ==> Bind(r.value.route.pattern, path) == Some(r.value.params)
    ensures r.None? <==> forall route :: route in table ==> !Matches(route, verb, path)
  {
    match FirstMatch(table, verb, path)
    case None => None
    case Some(k) => Some(Match(table[k], Bind(table[k].pattern, path).value))
  }

  /** The first-match position is determined: a fitting registration with no fitting one before it is the one chosen. */
  lemma {:induction false} DispatchAt(table: seq<Route>, verb: Verb, path: seq<string>, k: nat)
    requires k < |table| && Matches(table[k], verb, path)
    requires forall j :: 0 <= j < k ==> !Matches(table[j], verb, path)
    ensures FirstMatch(table, verb, path) == Some(k)
    ensures Dispatch(table, verb, path) == Some(Match(table[k], Bind(table[k].pattern, path).value))
  {
    if k > 0 {
      assert table[1..][k - 1] == table[k];
      DispatchAt(table[1..], verb, path, k - 1);
    }
  }

  /** The routers mounted in the server; the admin router's table is not part of this model. */
  datatype Mounted = CourseRouter | UserRouter | AdminRouter

  /** `app.use("/api/v1/<name>", router)`: the router a full path is handed to, and the rest of the path. */
  function Mount(path: seq<string>): (r: Option<(Mounted, seq<string>)>)
    ensures r.Some? ==> |path| >= 3 && path[..2] == ["api", "v1"] && r.value.1 == path[3..]
    ensures r.Some? <==> |path| >= 3 && path[0] == "api" && path[1] == "v1" && path[2] in {"course", "user", "admin"}
    ensures r.Some? ==> r.value.0 == (if path[2] == "course" then CourseRouter else if path[2] == "user" then UserRouter else AdminRouter)
  {
    if |path| < 3 || path[0] != "api" || path[1] != "v1" then None
    else if path[2] == "course" then Some((CourseRouter, path[3..]))
    else if path[2] == "user" then Some((UserRouter, path[3..]))
    else if path[2] == "admin" then Some((AdminRouter, path[3..]))
    else None
  }
}
