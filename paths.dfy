/**
 * Paths through an adjacency list of legs, and what a path weighs under the
 * route-search objectives (cost, time, CO2).
 */
module Paths {
  import opened Model
  import Text

  /** The quantity a route search minimises. */
  datatype Objective = Cost | Time | Co2

  /**
   * The objective named by an optimisation type, compared after upper-casing;
   * every name other than TIME and CO2 (COST included) selects cost.
   */
  function ObjectiveOf(optimizationType: string): (o: Objective)
    ensures o == Time <==> Text.ToUpperCase(optimizationType) == "TIME"
    ensures o == Co2 <==> Text.ToUpperCase(optimizationType) == "CO2"
    ensures o == Cost <==> Text.ToUpperCase(optimizationType) !in {"TIME", "CO2"}
  {
    match Text.ToUpperCase(optimizationType)
    case "COST" => Cost
    case "TIME" => Time
    case "CO2" => Co2
    case _ => Cost
  }

  /** The choice of objective ignores letter case. */
  lemma ObjectiveIgnoresCase(optimizationType: string)
    ensures ObjectiveOf(Text.ToUpperCase(optimizationType)) == ObjectiveOf(optimizationType)
  {
    Text.ToUpperCaseIdempotent(optimizationType);
  }

  /** The weight of one leg under an objective. */
  function Weight(e: Edge, o: Objective): real
  {
    match o
    case Cost => e.cost
    case Time => e.time
    case Co2 => e.co2
  }

  /** The legs leaving a hub: its list, or the empty list for an unknown hub. */
  function EdgesFrom(adj: map<string, seq<Edge>>, id: string): (r: seq<Edge>)
    ensures id !in adj ==> r == []
    ensures id in adj ==> r == adj[id]
  {
    if id in adj then adj[id] else []
  }

  /** Every leg is filed under its own source, and leads to a hub that has a list. */
  ghost predicate WellFormed(adj: map<string, seq<Edge>>)
  {
    forall s, e | s in adj && e in adj[s] :: e.source == s && e.target in adj
  }

  /** No leg weighs less than 0 under the objective `o` (the other two quantities are unconstrained). */
  ghost predicate NonNegative(adj: map<string, seq<Edge>>, o: Objective)
  {
    forall s, e | s in adj && e in adj[s] :: 0.0 <= Weight(e, o)
  }

  /** Each leg ends where the next one starts. */
  predicate Contiguous(p: seq<Edge>)
  {
    forall i :: 0 <= i < |p| - 1 ==> p[i].target == p[i + 1].source
  }

  /** `p` is a walk along listed legs from `a` to `b` (the empty walk when a == b). */
  ghost predicate IsPath(adj: map<string, seq<Edge>>, p: seq<Edge>, a: string, b: string)
  {
    && (p == [] ==> a == b)
    && (p != [] ==> p[0].source == a && p[|p| - 1].target == b)
    && Contiguous(p)
    && forall i :: 0 <= i < |p| ==> p[i] in EdgesFrom(adj, p[i].source)
  }

  ghost predicate Reachable(adj: map<string, seq<Edge>>, a: string, b: string)
  {
    exists p :: IsPath(adj, p, a, b)
  }

  /** The total of one objective over the legs of a path. */
  function PathWeight(p: seq<Edge>, o: Objective): real
  {
    if p == [] then 0.0 else Weight(p[0], o) + PathWeight(p[1..], o)
  }

  lemma {:induction false} PathWeightAppend(p: seq<Edge>, q: seq<Edge>, o: Objective)
    ensures PathWeight(p + q, o) == PathWeight(p, o) + PathWeight(q, o)
  {
    if p == [] {
      assert p + q == q;
    } else {
      assert (p + q)[1..] == p[1..] + q;
      PathWeightAppend(p[1..], q, o);
    }
  }

  /** A path made of listed legs weighs at least 0 when no leg weighs less than 0. */
  lemma {:induction false} PathWeightNonNegative(adj: map<string, seq<Edge>>, p: seq<Edge>, o: Objective)
    requires NonNegative(adj, o)
    requires forall i :: 0 <= i < |p| ==> p[i] in EdgesFrom(adj, p[i].source)
    ensures 0.0 <= PathWeight(p, o)
  {
    if p != [] {
      assert p[0] in adj[p[0].source];
      PathWeightNonNegative(adj, p[1..], o);
    }
  }
}
