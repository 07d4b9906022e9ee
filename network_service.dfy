/**
 * The back end's network-wide statistics: the hub and route counts as the
 * repositories report them, and the mean cost, time and CO2 over all routes.
 */
module NetworkService {
  import opened Model
  import opened Paths
  import opened Numeric

  /** The statistics record sent to the front end. */
  datatype NetworkStats = NetworkStats(totalHubs: nat, totalRoutes: nat, avgCost: real, avgTime: real, avgCo2: real)

  /** One quantity of every route, in list order (`mapToDouble`). */
  function Values(routes: seq<Edge>, o: Objective): (r: seq<real>)
    ensures |r| == |routes|
    ensures forall i :: 0 <= i < |routes| ==> r[i] == Weight(routes[i], o)
  {
    seq(|routes|, i requires 0 <= i < |routes| => Weight(routes[i], o))
  }

  /**
   * `getNetworkStatistics`: the counts are passed through, and each average is
   * the mean over the same route list, or 0 when there are no routes.
   */
  function GetNetworkStatistics(totalHubs: nat, totalRoutes: nat, allRoutes: seq<Edge>): (s: NetworkStats)
    ensures s.totalHubs == totalHubs && s.totalRoutes == totalRoutes
    ensures IsMean(s.avgCost, Values(allRoutes, Cost))
    ensures IsMean(s.avgTime, Values(allRoutes, Time))
    ensures IsMean(s.avgCo2, Values(allRoutes, Co2))
  {
    NetworkStats(totalHubs, totalRoutes,
                 Mean(Values(allRoutes, Cost)), Mean(Values(allRoutes, Time)), Mean(Values(allRoutes, Co2)))
  }

  /** When every route's value of a quantity lies in [lo, hi], so does that average. */
  lemma AverageBounds(totalHubs: nat, totalRoutes: nat, allRoutes: seq<Edge>, o: Objective, lo: real, hi: real)
    requires allRoutes != []
    requires forall e | e in allRoutes :: lo <= Weight(e, o) <= hi
    ensures var s := GetNetworkStatistics(totalHubs, totalRoutes, allRoutes);
      lo <= (match o case Cost => s.avgCost case Time => s.avgTime case Co2 => s.avgCo2) <= hi
  {
    var xs := Values(allRoutes, o);
    forall i | 0 <= i < |xs| ensures lo <= xs[i] <= hi {
      assert allRoutes[i] in allRoutes;
    }
    MeanBounds(xs, lo, hi);
  }

  /** Routes with no negative cost, time or CO2 give non-negative averages. */
  lemma AveragesNonNegative(totalHubs: nat, totalRoutes: nat, allRoutes: seq<Edge>)
    requires forall e | e in allRoutes :: 0.0 <= e.cost && 0.0 <= e.time && 0.0 <= e.co2
    ensures var s := GetNetworkStatistics(totalHubs, totalRoutes, allRoutes);
      0.0 <= s.avgCost && 0.0 <= s.avgTime && 0.0 <= s.avgCo2
  {
    var s := GetNetworkStatistics(totalHubs, totalRoutes, allRoutes);
    if allRoutes != [] {
      var n := |allRoutes| as real;
      forall o: Objective ensures 0.0 <= Sum(Values(allRoutes, o)) {
        var xs := Values(allRoutes, o);
        forall i | 0 <= i < |xs| ensures 0.0 <= xs[i] {
          assert allRoutes[i] in allRoutes;
        }
        SumNonNegative(xs);
      }
      assert s.avgCost * n >= 0.0 && s.avgTime * n >= 0.0 && s.avgCo2 * n >= 0.0;
    }
  }
}
