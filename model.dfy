/** Shared value types of the logistics network: an optional value, a route leg and a hub. */
module Model {

  /** A value that may be missing (a JavaScript `undefined`/`null`, a Java `null`). */
  datatype Option<+T> = None | Some(value: T)

  /**
   * One directed leg between two hubs (the back end's `Edge` record, which the
   * front end receives unchanged as JSON). Numbers are modelled as reals.
   */
  datatype Edge = Edge(source: string, target: string, mode: string, cost: real, time: real, co2: real)

  /** A registered hub of the back-end graph (the back end's `Node` record). */
  datatype Node = Node(id: string, name: string, latitude: real, longitude: real)

  /** The result of a route search: the legs in travel order and the three totals. */
  datatype RouteResult = RouteResult(path: seq<Edge>, totalCost: real, totalTime: real, totalCo2: real)
}
