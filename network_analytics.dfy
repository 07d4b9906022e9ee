/**
 * The analytics page's per-mode aggregation of the route list: how many routes
 * use each transport mode, and the mean cost, CO2 and time per mode, each series
 * listing the modes in the order they first occur.
 *
 * A JavaScript object used as a dictionary is modelled by its keys in insertion
 * order (the order `Object.entries` reports) together with a map.
 */
module Analytics {
  import opened Model
  import opened Paths
  import opened Numeric
  import NetworkService

  /** One slice of the mode-distribution chart. */
  datatype Slice = Slice(name: string, value: nat, color: string)

  /** One bar of a per-mode chart: a mode and the mean of one quantity. */
  datatype ModeAverage = ModeAverage(mode: string, value: real)

  /** The three value lists gathered for one mode. */
  datatype ModeData = ModeData(cost: seq<real>, co2: seq<real>, time: seq<real>)

  /** Everything the page shows. */
  datatype Stats = Stats(totalHubs: nat, totalRoutes: nat, avgCost: real, avgTime: real, avgCo2: real,
                         modeDistribution: seq<Slice>, costByMode: seq<ModeAverage>,
                         co2ByMode: seq<ModeAverage>, timeByMode: seq<ModeAverage>)

  /** The two server responses, or the failure of either request. */
  datatype Response = Success(networkStats: NetworkService.NetworkStats, routes: seq<Edge>) | Failure

  /** The colours handed out to distribution slices in turn. */
  const Palette: seq<string> := ["#3b82f6", "#10b981", "#8b5cf6"]

  // ---------------------------------------------------------------------------
  // Specification of the grouping.
  // ---------------------------------------------------------------------------

  /** The distinct modes of a route list, in order of first occurrence. */
  function Modes(routes: seq<Edge>): seq<string>
  {
    if routes == [] then []
    else
      var m := Modes(routes[..|routes| - 1]);
      var mode := routes[|routes| - 1].mode;
      if mode in m then m else m + [mode]
  }

  /** How many routes use a mode. */
  function CountOf(routes: seq<Edge>, mode: string): nat
  {
    if routes == [] then 0
    else CountOf(routes[..|routes| - 1], mode) + (if routes[|routes| - 1].mode == mode then 1 else 0)
  }

  /** One quantity of the routes that use a mode, in list order. */
  function ValuesOf(routes: seq<Edge>, mode: string, o: Objective): seq<real>
  {
    if routes == [] then []
    else
      var e := routes[|routes| - 1];
      ValuesOf(routes[..|routes| - 1], mode, o) + (if e.mode == mode then [Weight(e, o)] else [])
  }

  /** The sum of the counts of a list of modes. */
  function TotalCount(routes: seq<Edge>, modes: seq<string>): nat
  {
    if modes == [] then 0 else TotalCount(routes, modes[..|modes| - 1]) + CountOf(routes, modes[|modes| - 1])
  }

  /** Index of the first route with a given mode. */
  function FirstIndex(routes: seq<Edge>, mode: string): (k: nat)
    requires mode in Modes(routes)
    ensures k < |routes| && routes[k].mode == mode
    ensures forall l :: 0 <= l < k ==> routes[l].mode != mode
  {
    var front := routes[..|routes| - 1];
    if mode in Modes(front) then
      var k := FirstIndex(front, mode);
      assert routes[k] == front[k];
      assert forall l :: 0 <= l < k ==> routes[l] == front[l];
      k
    else
      ModesCover(front);
      assert forall l :: 0 <= l < |front| ==> routes[l] == front[l] && front[l] in front;
      |routes| - 1
  }

  ghost predicate Distinct(s: seq<string>)
  {
    forall i, j :: 0 <= i < j < |s| ==> s[i] != s[j]
  }

  // ---------------------------------------------------------------------------
  // The two loops over the route list.
  // ---------------------------------------------------------------------------

  /** Builds `modeCount`: for each mode, `(modeCount[mode] || 0) + 1` per route. */
  method CountModes(routes: seq<Edge>) returns (keys: seq<string>, modeCount: map<string, nat>)
    ensures keys == Modes(routes)
    ensures forall m :: m in modeCount <==> m in keys
    ensures forall m | m in modeCount :: modeCount[m] == CountOf(routes, m)
  {
    keys, modeCount := [], map[];
    for i := 0 to |routes|
      invariant keys == Modes(routes[..i])
      invariant forall m :: m in modeCount <==> m in keys
      invariant forall m | m in modeCount :: modeCount[m] == CountOf(routes[..i], m)
    {
      var mode := routes[i].mode;
      assert routes[..i + 1][..i] == routes[..i];
      if mode !in modeCount {
        ModeAbsentCount(routes[..i], mode);
        keys := keys + [mode];
        modeCount := modeCount[mode := 0 + 1];
      } else {
        modeCount := modeCount[mode := modeCount[mode] + 1];
      }
    }
    assert routes[..|routes|] == routes;
  }

  /** Builds `modeData`: for each mode, the cost, CO2 and time of its routes. */
  method GroupByMode(routes: seq<Edge>) returns (keys: seq<string>, modeData: map<string, ModeData>)
    ensures keys == Modes(routes)
    ensures forall m :: m in modeData <==> m in keys
    ensures forall m | m in modeData ::
      modeData[m] == ModeData(ValuesOf(routes, m, Cost), ValuesOf(routes, m, Co2), ValuesOf(routes, m, Time))
  {
    keys, modeData := [], map[];
    for i := 0 to |routes|
      invariant keys == Modes(routes[..i])
      invariant forall m :: m in modeData <==> m in keys
      invariant forall m | m in modeData ::
        modeData[m] == ModeData(ValuesOf(routes[..i], m, Cost), ValuesOf(routes[..i], m, Co2), ValuesOf(routes[..i], m, Time))
    {
      var route := routes[i];
      assert routes[..i + 1][..i] == routes[..i];
      if route.mode !in modeData {
        ModeAbsentValues(routes[..i], route.mode);
        keys := keys + [route.mode];
        modeData := modeData[route.mode := ModeData([], [], [])];
      }
      GroupStep(routes, i, modeData);
      var d := modeData[route.mode];
      modeData := modeData[route.mode := ModeData(d.cost + [route.cost], d.co2 + [route.co2], d.time + [route.time])];
    }
    assert routes[..|routes|] == routes;
  }

  // ---------------------------------------------------------------------------
  // The series built from the two dictionaries.
  // ---------------------------------------------------------------------------

  /** `modeDistribution`: one slice per key, coloured from the palette in turn. */
  function ModeDistribution(keys: seq<string>, modeCount: map<string, nat>): (r: seq<Slice>)
    requires forall m | m in keys :: m in modeCount
    ensures |r| == |keys|
    ensures forall i :: 0 <= i < |keys| ==> r[i].name == keys[i] && r[i].value == modeCount[keys[i]]
    ensures forall i :: 0 <= i < |keys| ==> r[i].color == Palette[i % 3]
  {
    seq(|keys|, i requires 0 <= i < |keys| => Slice(keys[i], modeCount[keys[i]], Palette[i % 3]))
  }

  /** The value list of one quantity. */
  function Field(d: ModeData, o: Objective): seq<real>
  {
    match o
    case Cost => d.cost
    case Time => d.time
    case Co2 => d.co2
  }

  /** `costByMode`, `co2ByMode`, `timeByMode`: per key, the mean of the gathered values (0 for none). */
  function AverageByMode(keys: seq<string>, modeData: map<string, ModeData>, o: Objective): (r: seq<ModeAverage>)
    requires forall m | m in keys :: m in modeData
    ensures |r| == |keys|
    ensures forall i :: 0 <= i < |keys| ==> r[i].mode == keys[i]
    ensures forall i :: 0 <= i < |keys| ==> IsMean(r[i].value, Field(modeData[keys[i]], o))
  {
    seq(|keys|, i requires 0 <= i < |keys| => ModeAverage(keys[i], Mean(Field(modeData[keys[i]], o))))
  }

  /** The data shown when a request fails. */
  function Fallback(): Stats
  {
    Stats(5, 12, 450.0, 18.5, 125.3,
          [Slice("Truck", 5, "#3b82f6"), Slice("Rail", 4, "#10b981"), Slice("Ship", 3, "#8b5cf6")],
          [ModeAverage("Truck", 320.0), ModeAverage("Rail", 180.0), ModeAverage("Ship", 250.0)],
          [ModeAverage("Truck", 150.0), ModeAverage("Rail", 80.0), ModeAverage("Ship", 120.0)],
          [ModeAverage("Truck", 12.0), ModeAverage("Rail", 24.0), ModeAverage("Ship", 48.0)])
  }

  /**
   * `fetchStats` after the requests: the totals and overall averages are the
   * server's, the series come from the route list; a failed request gives the
   * fallback data.
   */
  method FetchStats(response: Response) returns (stats: Stats)
    ensures response.Failure? ==> stats == Fallback()
    ensures response.Success? ==>
      var s := response.networkStats;
      && stats.totalHubs == s.totalHubs && stats.totalRoutes == s.totalRoutes
      && stats.avgCost == s.avgCost && stats.avgTime == s.avgTime && stats.avgCo2 == s.avgCo2
    ensures response.Success? ==> PerModeCounts(response.routes, stats.modeDistribution)
    ensures response.Success? ==> PerModeMeans(response.routes, stats.costByMode, Cost)
    ensures response.Success? ==> PerModeMeans(response.routes, stats.co2ByMode, Co2)
    ensures response.Success? ==> PerModeMeans(response.routes, stats.timeByMode, Time)
  {
    match response {
      case Failure =>
        stats := Fallback();
      case Success(networkStats, routes) =>
        var keys, modeCount := CountModes(routes);
        var modeDistribution := ModeDistribution(keys, modeCount);
        var dataKeys, modeData := GroupByMode(routes);
        var costByMode := AverageByMode(dataKeys, modeData, Cost);
        var co2ByMode := AverageByMode(dataKeys, modeData, Co2);
        var timeByMode := AverageByMode(dataKeys, modeData, Time);
        DistributionSeries(routes, modeCount);
        AverageSeries(routes, modeData, Cost);
        AverageSeries(routes, modeData, Co2);
        AverageSeries(routes, modeData, Time);
        stats := Stats(networkStats.totalHubs, networkStats.totalRoutes,
                       networkStats.avgCost, networkStats.avgTime, networkStats.avgCo2,
                       modeDistribution, costByMode, co2ByMode, timeByMode);
    }
  }

  /** The distribution lists the modes in first-occurrence order, each with its route count and its palette colour. */
  ghost predicate PerModeCounts(routes: seq<Edge>, slices: seq<Slice>)
  {
    var modes := Modes(routes);
    && |slices| == |modes|
    && forall i :: 0 <= i < |modes| ==> slices[i] == Slice(modes[i], CountOf(routes, modes[i]), Palette[i % 3])
  }

  /** The slices built from the counting loop's dictionary carry the route counts. */
  lemma {:induction false} DistributionSeries(routes: seq<Edge>, modeCount: map<string, nat>)
    requires forall m :: m in modeCount <==> m in Modes(routes)
    requires forall m | m in modeCount :: modeCount[m] == CountOf(routes, m)
    ensures PerModeCounts(routes, ModeDistribution(Modes(routes), modeCount))
  {
  }

  /**
   * A per-mode series lists the modes in first-occurrence order, and each bar
   * times its mode's route count is the sum of that mode's values.
   */
  ghost predicate PerModeMeans(routes: seq<Edge>, series: seq<ModeAverage>, o: Objective)
  {
    var modes := Modes(routes);
    && |series| == |modes|
    && forall i :: 0 <= i < |modes| ==> IsModeMean(routes, series[i], modes[i], o)
  }

  /** A bar shows a mode, and its value times the mode's route count is the sum of the mode's values. */
  ghost predicate IsModeMean(routes: seq<Edge>, bar: ModeAverage, mode: string, o: Objective)
  {
    && bar.mode == mode
    && bar.value * (CountOf(routes, mode) as real) == Sum(ValuesOf(routes, mode, o))
  }

  /** The averages over the grouped values of every mode are that mode's means. */
  lemma {:induction false} AverageSeries(routes: seq<Edge>, modeData: map<string, ModeData>, o: Objective)
    requires forall m :: m in modeData <==> m in Modes(routes)
    requires forall m | m in modeData ::
      modeData[m] == ModeData(ValuesOf(routes, m, Cost), ValuesOf(routes, m, Co2), ValuesOf(routes, m, Time))
    ensures PerModeMeans(routes, AverageByMode(Modes(routes), modeData, o), o)
  {
    GroupedField(routes, modeData, o);
    var modes := Modes(routes);
    var r := AverageByMode(modes, modeData, o);
    forall i | 0 <= i < |modes| ensures IsModeMean(routes, r[i], modes[i], o) {
      var m := modes[i];
      assert m in modeData;
      var xs := Field(modeData[m], o);
      assert xs == ValuesOf(routes, m, o);
      assert r[i].mode == m;
      BarMean(routes, r[i], m, o, xs);
    }
  }

  /** A bar whose value is the mean of its mode's values is that mode's mean bar. */
  lemma {:induction false} BarMean(routes: seq<Edge>, bar: ModeAverage, mode: string, o: Objective, xs: seq<real>)
    requires mode in Modes(routes) && bar.mode == mode
    requires xs == ValuesOf(routes, mode, o)
    requires IsMean(bar.value, xs)
    ensures IsModeMean(routes, bar, mode, o)
  {
    CountPositive(routes, mode);
    ValuesMatchCount(routes, mode, o);
    calc {
      bar.value * (CountOf(routes, mode) as real);
      bar.value * (|xs| as real);
      Sum(xs);
    }
  }

  /** The grouped lists of one quantity are that quantity's values per mode. */
  lemma {:induction false} GroupedField(routes: seq<Edge>, modeData: map<string, ModeData>, o: Objective)
    requires forall m | m in modeData ::
      modeData[m] == ModeData(ValuesOf(routes, m, Cost), ValuesOf(routes, m, Co2), ValuesOf(routes, m, Time))
    ensures forall m | m in modeData :: Field(modeData[m], o) == ValuesOf(routes, m, o)
  {
    forall m | m in modeData ensures Field(modeData[m], o) == ValuesOf(routes, m, o) {
      match o
      case Cost =>
      case Co2 =>
      case Time =>
    }
  }

  // ---------------------------------------------------------------------------
  // What the grouping guarantees.
  // ---------------------------------------------------------------------------

  /** A mode not among the modes seen so far has no routes and no values yet. */
  lemma {:induction false} ModeAbsentCount(routes: seq<Edge>, mode: string)
    requires mode !in Modes(routes)
    ensures CountOf(routes, mode) == 0
  {
    if routes != [] {
      ModeAbsentCount(routes[..|routes| - 1], mode);
    }
  }

  /** Appending route i to its mode's three lists gives the grouping of the first i + 1 routes. */
  lemma GroupStep(routes: seq<Edge>, i: nat, modeData: map<string, ModeData>)
    requires i < |routes| && routes[i].mode in modeData
    requires forall m | m in modeData ::
      modeData[m] == ModeData(ValuesOf(routes[..i], m, Cost), ValuesOf(routes[..i], m, Co2), ValuesOf(routes[..i], m, Time))
    ensures var e := routes[i];
      var d := modeData[e.mode];
      var next := modeData[e.mode := ModeData(d.cost + [e.cost], d.co2 + [e.co2], d.time + [e.time])];
      forall m | m in next ::
        next[m] == ModeData(ValuesOf(routes[..i + 1], m, Cost), ValuesOf(routes[..i + 1], m, Co2), ValuesOf(routes[..i + 1], m, Time))
  {
    assert routes[..i + 1][..i] == routes[..i];
  }

  lemma {:induction false} ModeAbsentValues(routes: seq<Edge>, mode: string)
    requires mode !in Modes(routes)
    ensures ValuesOf(routes, mode, Cost) == [] && ValuesOf(routes, mode, Co2) == [] && ValuesOf(routes, mode, Time) == []
  {
    if routes != [] {
      ModeAbsentValues(routes[..|routes| - 1], mode);
    }
  }

  /** The modes are exactly those used by some route. */
  lemma {:induction false} ModesCover(routes: seq<Edge>)
    ensures forall m :: m in Modes(routes) <==> exists e | e in routes :: e.mode == m
  {
    if routes != [] {
      var front := routes[..|routes| - 1];
      ModesCover(front);
      assert routes == front + [routes[|routes| - 1]];
    }
  }

  /** No mode is listed twice. */
  lemma {:induction false} ModesDistinct(routes: seq<Edge>)
    ensures Distinct(Modes(routes))
  {
    if routes != [] {
      ModesDistinct(routes[..|routes| - 1]);
    }
  }

  /** Every listed mode has at least one route. */
  lemma {:induction false} CountPositive(routes: seq<Edge>, mode: string)
    requires mode in Modes(routes)
    ensures CountOf(routes, mode) >= 1
  {
    var front := routes[..|routes| - 1];
    if mode in Modes(front) {
      CountPositive(front, mode);
    }
  }

  /** The values gathered for a mode number exactly its routes. */
  lemma {:induction false} ValuesMatchCount(routes: seq<Edge>, mode: string, o: Objective)
    ensures |ValuesOf(routes, mode, o)| == CountOf(routes, mode)
  {
    if routes != [] {
      ValuesMatchCount(routes[..|routes| - 1], mode, o);
    }
  }

  /** The counts of the listed modes add up to the number of routes. */
  lemma {:induction false} CountsSumToTotal(routes: seq<Edge>)
    ensures TotalCount(routes, Modes(routes)) == |routes|
  {
    if routes != [] {
      var front := routes[..|routes| - 1];
      var e := routes[|routes| - 1];
      assert routes == front + [e];
      CountsSumToTotal(front);
      ModesDistinct(front);
      TotalCountStep(front, e, Modes(front));
      if e.mode !in Modes(front) {
        ModeAbsentCount(front, e.mode);
        var m := Modes(routes);
        assert m == Modes(front) + [e.mode];
        assert m[..|m| - 1] == Modes(front);
        assert CountOf(routes, e.mode) == 1;
        assert TotalCount(routes, m) == TotalCount(routes, Modes(front)) + 1;
      }
    }
  }

  /** Adding a route adds one to the total of a mode list that contains its mode once, and nothing otherwise. */
  lemma {:induction false} TotalCountStep(front: seq<Edge>, e: Edge, modes: seq<string>)
    requires Distinct(modes)
    ensures TotalCount(front + [e], modes) == TotalCount(front, modes) + (if e.mode in modes then 1 else 0)
  {
    var routes := front + [e];
    assert routes[..|routes| - 1] == front;
    if modes != [] {
      var init := modes[..|modes| - 1];
      assert Distinct(init);
      TotalCountStep(front, e, init);
      assert modes == init + [modes[|modes| - 1]];
    }
  }

  /** The modes are listed in order of their first occurrence in the route list. */
  lemma {:induction false} ModesInFirstOccurrenceOrder(routes: seq<Edge>)
    ensures forall i, j :: 0 <= i < j < |Modes(routes)| ==>
      FirstIndex(routes, Modes(routes)[i]) < FirstIndex(routes, Modes(routes)[j])
  {
    if routes != [] {
      var n := |routes| - 1;
      var front := routes[..n];
      var m := Modes(front);
      var all := Modes(routes);
      ModesInFirstOccurrenceOrder(front);
      forall i, j | 0 <= i < j < |all| ensures FirstIndex(routes, all[i]) < FirstIndex(routes, all[j]) {
        assert all[i] in m;
        if j < |m| {
          assert all[i] == m[i] && all[j] == m[j];
        } else {
          assert FirstIndex(routes, all[j]) == n;
          assert FirstIndex(routes, all[i]) == FirstIndex(front, all[i]);
        }
      }
    }
  }

  /** One truck and one rail record: two modes in that order, one route each, and their own values. */
  lemma TwoRecordScenario()
    ensures var routes := [Edge("BHO", "DEL", "TRUCK", 200.0, 12.0, 80.0), Edge("DEL", "MUM", "RAIL", 150.0, 18.0, 40.0)];
      && Modes(routes) == ["TRUCK", "RAIL"]
      && CountOf(routes, "TRUCK") == 1 && CountOf(routes, "RAIL") == 1
      && ValuesOf(routes, "TRUCK", Cost) == [200.0] && ValuesOf(routes, "RAIL", Cost) == [150.0]
      && NetworkService.GetNetworkStatistics(2, 2, routes).avgCost == 175.0
  {
    var routes := [Edge("BHO", "DEL", "TRUCK", 200.0, 12.0, 80.0), Edge("DEL", "MUM", "RAIL", 150.0, 18.0, 40.0)];
    var front := routes[..1];
    assert front[..0] == [];
    assert front == [routes[0]];
    assert NetworkService.Values(routes, Cost) == [200.0, 150.0];
    assert [200.0, 150.0][..1] == [200.0];
    assert Sum([200.0, 150.0]) == 350.0;
  }

  /** The fallback data follows the same shape: palette colours in turn and one mode order for every series. */
  lemma FallbackConsistent()
    ensures var f := Fallback();
      && |f.modeDistribution| == |f.costByMode| == |f.co2ByMode| == |f.timeByMode| == 3
      && forall i :: 0 <= i < 3 ==>
        && f.modeDistribution[i].color == Palette[i % 3]
        && f.costByMode[i].mode == f.co2ByMode[i].mode == f.timeByMode[i].mode == f.modeDistribution[i].name
  {
  }
}
