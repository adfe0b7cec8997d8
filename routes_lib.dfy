/** The client's route tables and the lookup that picks a route by one of its fields. */
module RoutesLib {
  import opened Common

  /** A route entry. The page component and the menu icon are left out; `index` and
      `labelLangCode` are present only on the indoor routes, `name` only on the outdoor
      ones. */
  datatype Route = Route(
    id: string,
    path: string,
    index: Option<bool>,
    labelLangCode: Option<string>,
    name: Option<string>)

  /** The fields a caller may name. `Element` is the page component. */
  datatype Field = Id | Path | Element | Index | LabelLangCode

  /** The routes reached after signing in. */
  const RoutesIndoor: seq<Route> := [
    Route("indoor-home-page", "/", Some(true), Some("indoor_menu.home_page"), None),
    Route("indor-dashboard", "/dashboard", None, Some("indoor_menu.dashboard"), None)
  ]

  /** The routes reached before signing in. */
  const RoutesOutdoor: seq<Route> := [
    Route("outdoor-signin-page", "/signin", None, None, Some("signin")),
    Route("outdoor-signup-page", "/signup", None, None, Some("signup"))
  ]

  /** The field's value when it is a string; a component, a boolean or a missing field
      is never strictly equal to a string. */
  function FieldText(route: Route, field: Field): (r: Option<string>) {
    match field
    case Id => Some(route.id)
    case Path => Some(route.path)
    case Element => None
    case Index => None
    case LabelLangCode => route.labelLangCode
  }

  predicate FieldIs(route: Route, field: Field, value: string) {
    FieldText(route, field) == Some(value)
  }

  /** The position of the first route whose field equals `value`. */
  function FindIndex(routes: seq<Route>, field: Field, value: string): (r: Option<nat>)
    ensures r.None? ==> forall i :: 0 <= i < |routes| ==> !FieldIs(routes[i], field, value)
    ensures r.Some? ==> r.value < |routes| && FieldIs(routes[r.value], field, value)
    ensures r.Some? ==> forall j :: 0 <= j < r.value ==> !FieldIs(routes[j], field, value)
  {
    if routes == [] then None
    else if FieldIs(routes[0], field, value) then Some(0)
    else
      var r := FindIndex(routes[1..], field, value);
      if r.None? then None else Some(r.value + 1)
  }

  /** `Array.prototype.find`: the first route whose field equals `value`, if any. */
  function Find(routes: seq<Route>, field: Field, value: string): (r: Option<Route>)
    ensures r.None? <==> forall i :: 0 <= i < |routes| ==> !FieldIs(routes[i], field, value)
    ensures r.Some? ==> exists i :: 0 <= i < |routes| && routes[i] == r.value
                                 && FieldIs(routes[i], field, value)
                                 && forall j :: 0 <= j < i ==> !FieldIs(routes[j], field, value)
  {
    match FindIndex(routes, field, value)
    case None => None
    case Some(i) => Some(routes[i])
  }

  /** `getRouteByField`: search the indoor or the outdoor table, by `kind`; any other kind
      finds nothing. */
  function GetRouteByField(field: Field, value: string, kind: string): (r: Option<Route>)
    ensures r.Some? ==>
              || (kind == "indoor" && r.value in RoutesIndoor)
              || (kind == "outdoor" && r.value in RoutesOutdoor)
    ensures r.Some? ==> FieldIs(r.value, field, value)
    ensures kind != "indoor" && kind != "outdoor" ==> r.None?
    ensures kind == "indoor" && (exists i :: 0 <= i < |RoutesIndoor| && FieldIs(RoutesIndoor[i], field, value))
            ==> r.Some?
    ensures kind == "outdoor" && (exists i :: 0 <= i < |RoutesOutdoor| && FieldIs(RoutesOutdoor[i], field, value))
            ==> r.Some?
  {
    if kind == "indoor" then Find(RoutesIndoor, field, value)
    else if kind == "outdoor" then Find(RoutesOutdoor, field, value)
    else None
  }

  /** No two routes share an id, and within a table no two share a path. */
  lemma {:induction false} KeysAreDistinct()
    ensures forall i, j :: 0 <= i < j < |RoutesIndoor + RoutesOutdoor|
              ==> (RoutesIndoor + RoutesOutdoor)[i].id != (RoutesIndoor + RoutesOutdoor)[j].id
    ensures RoutesIndoor[0].path != RoutesIndoor[1].path
    ensures RoutesOutdoor[0].path != RoutesOutdoor[1].path
  {
    var all := RoutesIndoor + RoutesOutdoor;
    assert all[0].id[1] == 'n' && all[1].id[1] == 'n' && all[2].id[1] == 'u' && all[3].id[1] == 'u';
    assert all[0].id[4] == 'o' && all[1].id[4] == 'r';
    assert all[2].id[12] == 'i' && all[3].id[12] == 'u';
  }

  /** Every indoor route is found by its own path and by its own id, which is how the
      menu bar finds the current page's label. */
  lemma {:induction false} IndoorRouteByOwnKey(i: nat)
    requires i < |RoutesIndoor|
    ensures GetRouteByField(Path, RoutesIndoor[i].path, "indoor") == Some(RoutesIndoor[i])
    ensures GetRouteByField(Id, RoutesIndoor[i].id, "indoor") == Some(RoutesIndoor[i])
  {
    KeysAreDistinct();
    assert (RoutesIndoor + RoutesOutdoor)[0] == RoutesIndoor[0];
    assert (RoutesIndoor + RoutesOutdoor)[1] == RoutesIndoor[1];
  }

  /** An outdoor path is never found among the indoor routes: on the sign-in page the menu
      bar's lookup has no result. */
  lemma {:induction false} OutdoorPathNotIndoor(i: nat)
    requires i < |RoutesOutdoor|
    ensures GetRouteByField(Path, RoutesOutdoor[i].path, "indoor") == None
  {
    assert RoutesOutdoor[i].path[1] == 's';
    assert RoutesIndoor[0].path == "/";
    assert RoutesIndoor[1].path[1] == 'd';
  }
}
