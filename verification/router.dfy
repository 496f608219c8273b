/** The frontend's route table and its global navigation guard. */
module Router {
  import opened Wrappers

  /** A route record: its path, its name and whether its `meta` asks for `requiresAuth`. */
  datatype RouteRecord = RouteRecord(path: string, name: string, requiresAuth: bool)

  const Routes: seq<RouteRecord> := [
    RouteRecord("/", "Home", false),
    RouteRecord("/login", "Login", false),
    RouteRecord("/logviewer", "LogViewer", true)
  ]

  /** The target location a guard is given: the matched record's name and `meta.requiresAuth`;
      a location that matches no record has no name and an empty `meta`. */
  datatype Location = Location(name: Option<string>, requiresAuth: bool)

  function At(r: RouteRecord): Location {
    Location(Some(r.name), r.requiresAuth)
  }

  /** The record with this name, as `next({ name })` resolves it (the table's names are unique). */
  function ByName(name: string, routes: seq<RouteRecord>): (r: Option<RouteRecord>)
    ensures r.Some? ==> r.value in routes && r.value.name == name
    ensures r.None? ==> forall i :: 0 <= i < |routes| ==> routes[i].name != name
  {
    if routes == [] then None
    else if routes[0].name == name then Some(routes[0])
    else ByName(name, routes[1..])
  }

  /** The single `next(...)` call the guard makes. */
  datatype Next = Proceed | RedirectTo(name: string)

  /** `router.beforeEach`, given what `localStorage.getItem("jwtToken")` returns (a token counts
      as present when that is truthy): protected targets need a token, and a signed-in user is sent from the
      login page to the home page; every other navigation goes ahead. */
  function BeforeEach(to: Location, stored: Option<string>): (n: Next)
    ensures to.requiresAuth && !Truthy(stored) ==> n == RedirectTo("Login")
    ensures to.requiresAuth && Truthy(stored) ==> n == Proceed
    ensures !to.requiresAuth && to.name == Some("Login") && Truthy(stored) ==> n == RedirectTo("Home")
    ensures !to.requiresAuth && (to.name != Some("Login") || !Truthy(stored)) ==> n == Proceed
  {
    if to.requiresAuth then
      if !Truthy(stored) then RedirectTo("Login") else Proceed
    else
      if to.name == Some("Login") && Truthy(stored) then RedirectTo("Home") else Proceed
  }

  /** No redirect loop: whatever the guard redirects to is a route of the table, and navigating
      there with the same storage goes ahead without a further redirect. */
  lemma NoRedirectLoop(to: Location, stored: Option<string>)
    ensures BeforeEach(to, stored).RedirectTo? ==>
              var target := ByName(BeforeEach(to, stored).name, Routes);
              target.Some? && BeforeEach(At(target.value), stored) == Proceed
  {
    assert Routes[1..][1..] == [Routes[2]];
  }

  /** The only protected page of the table is the log viewer. */
  lemma ProtectedRoutes(r: RouteRecord)
    requires r in Routes
    ensures r.requiresAuth <==> r.name == "LogViewer"
  {
  }

  /** The table: three routes with distinct names and paths, of which only the log viewer is
      protected, and each name resolves to its own record. */
  lemma RouteTable()
    ensures |Routes| == 3
    ensures forall i, j :: 0 <= i < j < |Routes| ==> Routes[i].name != Routes[j].name && Routes[i].path != Routes[j].path
    ensures ByName("Home", Routes) == Some(RouteRecord("/", "Home", false))
    ensures ByName("Login", Routes) == Some(RouteRecord("/login", "Login", false))
    ensures ByName("LogViewer", Routes) == Some(RouteRecord("/logviewer", "LogViewer", true))
  {
  }
}
