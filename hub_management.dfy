/**
 * The hub management page: a hub list and a route list edited in the browser,
 * with an add form for each. Adding checks that the required form fields are
 * filled in; deleting a hub also deletes every route that starts or ends there.
 *
 * The number inputs are parsed by `parseFloat`, which is passed in as `parse`.
 */
module HubManagementPage {
  import opened Seqs
  import Text

  /** A hub row: code, display name and position. */
  datatype Hub = Hub(id: string, name: string, lat: real, lon: real)

  /** A route row; `id` is assigned by the page. */
  datatype RouteRow = RouteRow(id: int, from: string, to: string, mode: string, cost: real, time: real, co2: real)

  /** The add-hub form, every field as typed. */
  datatype HubForm = HubForm(id: string, name: string, lat: string, lon: string)

  /** The add-route form, every field as typed or selected. */
  datatype RouteForm = RouteForm(from: string, to: string, mode: string, cost: string, time: string, co2: string)

  /** The cleared add-hub form. */
  const EmptyHubForm := HubForm("", "", "", "")

  /** The cleared add-route form: nothing chosen, mode preset to truck. */
  const EmptyRouteForm := RouteForm("", "", "TRUCK", "", "", "")

  /** The hubs loaded when the page opens. */
  const SeedHubs := [
    Hub("BHO", "Bhopal", 23.25, 77.41),
    Hub("MUM", "Mumbai", 19.07, 72.87),
    Hub("DEL", "Delhi", 28.61, 77.20),
    Hub("LON", "London", 51.50, -0.12),
    Hub("HAM", "Hamburg", 53.54, 9.99)
  ]

  /** The routes loaded when the page opens. */
  const SeedRoutes := [
    RouteRow(1, "BHO", "DEL", "TRUCK", 200.0, 12.0, 80.0),
    RouteRow(2, "DEL", "MUM", "RAIL", 150.0, 18.0, 40.0),
    RouteRow(3, "MUM", "LON", "SHIP", 800.0, 20.0, 120.0)
  ]

  /** A non-empty string is truthy; the add guards test each field this way. */
  predicate Filled(s: string)
  {
    s != ""
  }

  /** The add-hub guard: code, name, latitude and longitude all given. */
  predicate HubFormComplete(f: HubForm)
  {
    Filled(f.id) && Filled(f.name) && Filled(f.lat) && Filled(f.lon)
  }

  /** The add-route guard: both ends and the three numbers given; the mode is not checked, nor that the ends differ. */
  predicate RouteFormComplete(f: RouteForm)
  {
    Filled(f.from) && Filled(f.to) && Filled(f.cost) && Filled(f.time) && Filled(f.co2)
  }

  /** The id a new route gets: one more than the current number of routes. */
  function NextRouteId(routes: seq<RouteRow>): (id: int)
    ensures id > |routes|
  {
    |routes| + 1
  }

  /** Keeps the hubs whose code is not `id`. */
  function HubOtherThan(id: string): Hub -> bool
  {
    (h: Hub) => h.id != id
  }

  /** Keeps the routes that neither start nor end at hub `id`. */
  function AvoidsHub(id: string): RouteRow -> bool
  {
    (r: RouteRow) => r.from != id && r.to != id
  }

  /** Keeps the routes whose id is not `id`. */
  function RouteOtherThan(id: int): RouteRow -> bool
  {
    (r: RouteRow) => r.id != id
  }

  /** The page state: the two lists, the two forms and whether each form is open. */
  class HubManagement {
    var hubs: seq<Hub>
    var routes: seq<RouteRow>
    var showAddHub: bool
    var showAddRoute: bool
    var newHub: HubForm
    var newRoute: RouteForm

    /** The page after its load effect: the seed lists, cleared forms, both forms closed. */
    constructor ()
      ensures hubs == SeedHubs && routes == SeedRoutes
      ensures newHub == EmptyHubForm && newRoute == EmptyRouteForm
      ensures !showAddHub && !showAddRoute
    {
      hubs := SeedHubs;
      routes := SeedRoutes;
      showAddHub := false;
      showAddRoute := false;
      newHub := EmptyHubForm;
      newRoute := EmptyRouteForm;
    }

    /**
     * `addHub`: with a complete form, appends the hub with its coordinates
     * parsed, clears the form and closes it; otherwise changes nothing.
     */
    method AddHub(parse: string -> real)
      modifies this
      ensures HubFormComplete(old(newHub)) ==>
        && hubs == old(hubs) + [Hub(old(newHub).id, old(newHub).name, parse(old(newHub).lat), parse(old(newHub).lon))]
        && newHub == EmptyHubForm && !showAddHub
      ensures !HubFormComplete(old(newHub)) ==> hubs == old(hubs) && newHub == old(newHub) && showAddHub == old(showAddHub)
      ensures routes == old(routes) && newRoute == old(newRoute) && showAddRoute == old(showAddRoute)
    {
      if Filled(newHub.id) && Filled(newHub.name) && Filled(newHub.lat) && Filled(newHub.lon) {
        hubs := hubs + [Hub(newHub.id, newHub.name, parse(newHub.lat), parse(newHub.lon))];
        newHub := EmptyHubForm;
        showAddHub := false;
      }
    }

    /**
     * `addRoute`: with a complete form, appends the route under the id
     * `routes.length + 1` with its numbers parsed, resets the form and closes
     * it; otherwise changes nothing.
     */
    method AddRoute(parse: string -> real)
      modifies this
      ensures RouteFormComplete(old(newRoute)) ==>
        var f := old(newRoute);
        && routes == old(routes) + [RouteRow(NextRouteId(old(routes)), f.from, f.to, f.mode, parse(f.cost), parse(f.time), parse(f.co2))]
        && newRoute == EmptyRouteForm && !showAddRoute
      ensures !RouteFormComplete(old(newRoute)) ==>
        routes == old(routes) && newRoute == old(newRoute) && showAddRoute == old(showAddRoute)
      ensures hubs == old(hubs) && newHub == old(newHub) && showAddHub == old(showAddHub)
    {
      if Filled(newRoute.from) && Filled(newRoute.to) && Filled(newRoute.cost) && Filled(newRoute.time) && Filled(newRoute.co2) {
        var row := RouteRow(|routes| + 1, newRoute.from, newRoute.to, newRoute.mode,
                            parse(newRoute.cost), parse(newRoute.time), parse(newRoute.co2));
        routes := routes + [row];
        newRoute := EmptyRouteForm;
        showAddRoute := false;
      }
    }

    /** `deleteHub`: drops the hubs with that code and every route touching it. */
    method DeleteHub(id: string)
      modifies this
      ensures hubs == Filter(old(hubs), HubOtherThan(id))
      ensures routes == Filter(old(routes), AvoidsHub(id))
      ensures newHub == old(newHub) && newRoute == old(newRoute)
      ensures showAddHub == old(showAddHub) && showAddRoute == old(showAddRoute)
    {
      hubs := Filter(hubs, HubOtherThan(id));
      routes := Filter(routes, AvoidsHub(id));
    }

    /** `deleteRoute`: drops the routes with that id; the hubs stay. */
    method DeleteRoute(id: int)
      modifies this
      ensures routes == Filter(old(routes), RouteOtherThan(id))
      ensures hubs == old(hubs) && newHub == old(newHub) && newRoute == old(newRoute)
      ensures showAddHub == old(showAddHub) && showAddRoute == old(showAddRoute)
    {
      routes := Filter(routes, RouteOtherThan(id));
    }

    /** Typing into the hub-code input stores the text upper-cased. */
    method EditHubId(value: string)
      modifies this
      ensures newHub == old(newHub).(id := Text.ToUpperCase(value))
      ensures hubs == old(hubs) && routes == old(routes) && newRoute == old(newRoute)
      ensures showAddHub == old(showAddHub) && showAddRoute == old(showAddRoute)
    {
      newHub := newHub.(id := Text.ToUpperCase(value));
    }

    /** The add-hub button opens the form when closed and closes it when open. */
    method ToggleAddHub()
      modifies this
      ensures showAddHub == !old(showAddHub)
      ensures hubs == old(hubs) && routes == old(routes) && newHub == old(newHub) && newRoute == old(newRoute)
      ensures showAddRoute == old(showAddRoute)
    {
      showAddHub := !showAddHub;
    }

    /** The add-route button opens the form when closed and closes it when open. */
    method ToggleAddRoute()
      modifies this
      ensures showAddRoute == !old(showAddRoute)
      ensures hubs == old(hubs) && routes == old(routes) && newHub == old(newHub) && newRoute == old(newRoute)
      ensures showAddHub == old(showAddHub)
    {
      showAddRoute := !showAddRoute;
    }
  }

  // ---------------------------------------------------------------------------
  // What the edits guarantee.
  // ---------------------------------------------------------------------------

  /**
   * Deleting a hub leaves no route that starts or ends there, keeps every other
   * route with all its copies, and keeps the survivors in their order.
   */
  lemma DeleteHubCascades(routes: seq<RouteRow>, id: string)
    ensures var rest := Filter(routes, AvoidsHub(id));
      && (forall r | r in rest :: r.from != id && r.to != id)
      && (forall r: RouteRow | r.from != id && r.to != id :: multiset(rest)[r] == multiset(routes)[r])
      && IsSubsequence(rest, routes)
  {
    var rest := Filter(routes, AvoidsHub(id));
    forall r: RouteRow | r.from != id && r.to != id ensures multiset(rest)[r] == multiset(routes)[r] {
      FilterCount(routes, AvoidsHub(id), r);
    }
    FilterSubsequence(routes, AvoidsHub(id));
  }

  /** Deleting a hub removes exactly the hubs with that code and keeps the rest in order. */
  lemma DeleteHubRemovesHub(hubs: seq<Hub>, id: string)
    ensures var rest := Filter(hubs, HubOtherThan(id));
      && (forall h :: h in rest <==> h in hubs && h.id != id)
      && (forall h: Hub | h.id != id :: multiset(rest)[h] == multiset(hubs)[h])
      && IsSubsequence(rest, hubs)
  {
    var rest := Filter(hubs, HubOtherThan(id));
    forall h: Hub | h.id != id ensures multiset(rest)[h] == multiset(hubs)[h] {
      FilterCount(hubs, HubOtherThan(id), h);
    }
    FilterSubsequence(hubs, HubOtherThan(id));
  }

  /** Deleting a route removes exactly the routes with that id and keeps the rest, in order. */
  lemma DeleteRouteRemovesOnly(routes: seq<RouteRow>, id: int)
    ensures var rest := Filter(routes, RouteOtherThan(id));
      && (forall r | r in rest :: r.id != id)
      && (forall r: RouteRow | r.id != id :: multiset(rest)[r] == multiset(routes)[r])
      && IsSubsequence(rest, routes)
  {
    var rest := Filter(routes, RouteOtherThan(id));
    forall r: RouteRow | r.id != id ensures multiset(rest)[r] == multiset(routes)[r] {
      FilterCount(routes, RouteOtherThan(id), r);
    }
    FilterSubsequence(routes, RouteOtherThan(id));
  }

  /** The routes are numbered `base`, `base + 1`, ... in list order. */
  ghost predicate NumberedFrom(routes: seq<RouteRow>, base: int)
  {
    forall i :: 0 <= i < |routes| ==> routes[i].id == base + i
  }

  /** Appending with the next id keeps a list numbered 1, 2, ... numbered. */
  lemma AddRouteKeepsNumbering(routes: seq<RouteRow>, from: string, to: string, mode: string, cost: real, time: real, co2: real)
    requires NumberedFrom(routes, 1)
    ensures NumberedFrom(routes + [RouteRow(NextRouteId(routes), from, to, mode, cost, time, co2)], 1)
  {
  }

  /**
   * Because a new id is the list length plus one, deleting any route but the
   * last from a list numbered 1..n and then adding one hands out an id that the
   * last remaining route already has.
   */
  lemma RouteIdCollidesAfterDelete(routes: seq<RouteRow>, k: int)
    requires NumberedFrom(routes, 1)
    requires 1 <= k < |routes|
    ensures var rest := Filter(routes, RouteOtherThan(k));
      rest != [] && NextRouteId(rest) == rest[|rest| - 1].id
  {
    DeleteNumbered(routes, k, 1);
  }

  /** Deleting an id other than the last from a numbered list removes one route and keeps the last. */
  lemma {:induction false} DeleteNumbered(routes: seq<RouteRow>, k: int, base: int)
    requires NumberedFrom(routes, base)
    requires base <= k < base + |routes| - 1
    ensures var rest := Filter(routes, RouteOtherThan(k));
      |rest| == |routes| - 1 && rest[|rest| - 1] == routes[|routes| - 1]
  {
    var tail := routes[1..];
    assert NumberedFrom(tail, base + 1);
    if k == base {
      FilterKeepsAll(tail, RouteOtherThan(k));
    } else {
      DeleteNumbered(tail, k, base + 1);
    }
  }

  /** The code stored by the hub-code input has no lower-case letter, and retyping it changes nothing. */
  lemma HubIdUpperCased(value: string)
    ensures forall i :: 0 <= i < |Text.ToUpperCase(value)| ==> !Text.IsLowerAscii(Text.ToUpperCase(value)[i])
    ensures Text.ToUpperCase(Text.ToUpperCase(value)) == Text.ToUpperCase(value)
  {
    Text.ToUpperCaseIdempotent(value);
  }
}
