/**
 * The route map: a fixed table of hub positions, the polyline drawn for a route
 * and the points the view is fitted to. Hub codes missing from the table are
 * skipped.
 */
module MapView {
  import opened Model
  import opened Seqs

  /** A map position, latitude then longitude. */
  datatype Point = Point(lat: real, lon: real)

  /** The position of a hub code, from the five-entry `cityCoordinates` table. */
  function CityCoordinates(code: string): (r: Option<Point>)
    ensures r.Some? <==> code in {"BHO", "MUM", "DEL", "LON", "HAM"}
  {
    match code
    case "BHO" => Some(Point(23.25, 77.41))
    case "MUM" => Some(Point(19.07, 72.87))
    case "DEL" => Some(Point(28.61, 77.20))
    case "LON" => Some(Point(51.50, -0.12))
    case "HAM" => Some(Point(53.54, 9.99))
    case _ => None
  }

  /** The five table entries, latitude then longitude. */
  lemma CityPositions()
    ensures CityCoordinates("BHO") == Some(Point(23.25, 77.41))
    ensures CityCoordinates("MUM") == Some(Point(19.07, 72.87))
    ensures CityCoordinates("DEL") == Some(Point(28.61, 77.20))
    ensures CityCoordinates("LON") == Some(Point(51.50, -0.12))
    ensures CityCoordinates("HAM") == Some(Point(53.54, 9.99))
  {
  }

  /** The position of a code as a list of zero or one points. */
  function Resolved(code: string): (r: seq<Point>)
    ensures |r| <= 1
    ensures r == [] <==> CityCoordinates(code).None?
    ensures r != [] ==> r[0] == CityCoordinates(code).value
  {
    match CityCoordinates(code)
    case Some(p) => [p]
    case None => []
  }

  /** Both ends of a leg have a position. */
  predicate BothResolve(e: Edge)
  {
    CityCoordinates(e.source).Some? && CityCoordinates(e.target).Some?
  }

  /** The `[start, end]` pair a leg contributes to the polyline, or nothing. */
  function Segment(e: Edge): seq<Point>
  {
    if BothResolve(e) then [CityCoordinates(e.source).value, CityCoordinates(e.target).value] else []
  }

  /** The polyline of a path: the pairs of the legs whose ends both resolve, flattened. */
  function Polyline(path: seq<Edge>): seq<Point>
  {
    if path == [] then [] else Polyline(path[..|path| - 1]) + Segment(path[|path| - 1])
  }

  /**
   * `polylinePositions`: empty when there is no route data or no path, and
   * otherwise the path's polyline, two points per leg whose ends both resolve.
   */
  function PolylinePositions(routePath: Option<seq<Edge>>): (r: seq<Point>)
    ensures routePath.None? ==> r == []
    ensures routePath == Some([]) ==> r == []
    ensures routePath.Some? ==> r == Polyline(routePath.value)
    ensures routePath.Some? ==> |r| == 2 * |Filter(routePath.value, BothResolve)|
  {
    match routePath
    case Some(path) =>
      PolylineLength(path);
      Polyline(path)
    case None => []
  }

  /** The points a path adds to the bounds: each end of each leg that resolves, source first. */
  function BoundsPoints(path: seq<Edge>): seq<Point>
  {
    if path == [] then []
    else
      var e := path[|path| - 1];
      BoundsPoints(path[..|path| - 1]) + Resolved(e.source) + Resolved(e.target)
  }

  /**
   * `MapBoundsUpdater`: for a non-empty path, collects the bounds points and fits
   * the view to them when there is at least one; `fitted` holds the points the
   * view is fitted to.
   */
  method MapBoundsUpdater(routePath: Option<seq<Edge>>) returns (fitted: Option<seq<Point>>)
    ensures fitted.Some? <==> routePath.Some? && routePath.value != [] && BoundsPoints(routePath.value) != []
    ensures fitted.Some? ==> fitted.value == BoundsPoints(routePath.value)
  {
    fitted := None;
    if routePath.Some? && |routePath.value| > 0 {
      var path := routePath.value;
      var bounds: seq<Point> := [];
      for i := 0 to |path|
        invariant bounds == BoundsPoints(path[..i])
      {
        var edge := path[i];
        assert path[..i + 1][..i] == path[..i];
        var start := CityCoordinates(edge.source);
        var end := CityCoordinates(edge.target);
        if start.Some? {
          bounds := bounds + [start.value];
        }
        if end.Some? {
          bounds := bounds + [end.value];
        }
      }
      assert path[..|path|] == path;
      if |bounds| > 0 {
        fitted := Some(bounds);
      }
    }
  }

  /** When every leg resolves, the polyline holds both ends of every leg, leg by leg. */
  lemma {:induction false} PolylineAllResolve(path: seq<Edge>)
    requires forall e | e in path :: BothResolve(e)
    ensures |Polyline(path)| == 2 * |path|
    ensures forall i :: 0 <= i < |path| ==>
      && BothResolve(path[i])
      && Polyline(path)[2 * i] == CityCoordinates(path[i].source).value
      && Polyline(path)[2 * i + 1] == CityCoordinates(path[i].target).value
  {
    if path != [] {
      var n := |path| - 1;
      var prefix := path[..n];
      assert forall e | e in prefix :: e in path;
      PolylineAllResolve(prefix);
      var line := Polyline(path);
      assert path[n] in path;
      assert line == Polyline(prefix) + Segment(path[n]);
      forall i | 0 <= i < |path|
        ensures BothResolve(path[i])
        ensures line[2 * i] == CityCoordinates(path[i].source).value
        ensures line[2 * i + 1] == CityCoordinates(path[i].target).value
      {
        assert path[i] in path;
        if i < n {
          assert path[i] == prefix[i];
        }
      }
    }
  }

  /** A leg with an unresolved end contributes nothing: the polyline is that of the resolving legs. */
  lemma {:induction false} PolylineSkipsUnresolved(path: seq<Edge>)
    ensures Polyline(path) == Polyline(Filter(path, BothResolve))
  {
    if path != [] {
      var n := |path| - 1;
      var e := path[n];
      var front := path[..n];
      var kept := Filter(front, BothResolve);
      assert path == front + [e];
      PolylineSkipsUnresolved(front);
      FilterAppend(front, e, BothResolve);
      if BothResolve(e) {
        PolylineAppend(kept, e);
      } else {
        assert Filter(path, BothResolve) == kept;
        assert Segment(e) == [];
      }
    }
  }

  /** Appending a leg appends its segment. */
  lemma PolylineAppend(path: seq<Edge>, e: Edge)
    ensures Polyline(path + [e]) == Polyline(path) + Segment(e)
  {
    assert (path + [e])[..|path|] == path;
  }

  /** Filtering a list with one more element at the end. */
  lemma {:induction false} FilterAppend(s: seq<Edge>, x: Edge, keep: Edge -> bool)
    ensures Filter(s + [x], keep) == Filter(s, keep) + (if keep(x) then [x] else [])
  {
    if s == [] {
      assert s + [x] == [x];
      assert [x][1..] == [];
    } else {
      assert (s + [x])[1..] == s[1..] + [x];
      FilterAppend(s[1..], x, keep);
    }
  }

  /** The polyline has exactly two points per leg whose ends both resolve, in leg order. */
  lemma PolylineLength(path: seq<Edge>)
    ensures |Polyline(path)| == 2 * |Filter(path, BothResolve)|
    ensures IsSubsequence(Filter(path, BothResolve), path)
  {
    var kept := Filter(path, BothResolve);
    PolylineSkipsUnresolved(path);
    PolylineAllResolve(kept);
    FilterSubsequence(path, BothResolve);
  }

  /** The bounds list holds at most two points per leg, exactly two when every end resolves. */
  lemma {:induction false} BoundsLength(path: seq<Edge>)
    ensures |BoundsPoints(path)| <= 2 * |path|
    ensures (forall e | e in path :: BothResolve(e)) ==> |BoundsPoints(path)| == 2 * |path|
    ensures (forall e | e in path :: CityCoordinates(e.source).None? && CityCoordinates(e.target).None?) ==>
      BoundsPoints(path) == []
  {
    if path != [] {
      var prefix := path[..|path| - 1];
      var e := path[|path| - 1];
      assert forall x | x in prefix :: x in path;
      assert e in path;
      BoundsLength(prefix);
    }
  }

  /** The polyline points appear in the bounds list, in the same order. */
  lemma {:induction false} PolylineWithinBounds(path: seq<Edge>)
    ensures IsSubsequence(Polyline(path), BoundsPoints(path))
  {
    if path == [] {
      SubsequenceBase<Point>([]);
    } else {
      var prefix := path[..|path| - 1];
      var e := path[|path| - 1];
      PolylineWithinBounds(prefix);
      var piece := Resolved(e.source) + Resolved(e.target);
      SubsequenceBase(piece);
      if BothResolve(e) {
        assert Segment(e) == piece;
      } else {
        assert Segment(e) == [];
      }
      SubsequenceConcat(Polyline(prefix), BoundsPoints(prefix), Segment(e), piece);
      assert BoundsPoints(path) == BoundsPoints(prefix) + piece;
    }
  }

  /** Whenever a polyline is drawn, the view is fitted as well. */
  lemma DrawnImpliesFitted(routePath: Option<seq<Edge>>)
    requires PolylinePositions(routePath) != []
    ensures routePath.Some? && routePath.value != [] && BoundsPoints(routePath.value) != []
  {
    var path := routePath.value;
    PolylineWithinBounds(path);
    SubsequenceLength(Polyline(path), BoundsPoints(path));
  }

  /** Two legs Bhopal to Delhi to Mumbai: two segments, and the bounds cover all three hubs. */
  lemma TwoLegScenario()
    ensures var path := [Edge("BHO", "DEL", "TRUCK", 200.0, 12.0, 80.0), Edge("DEL", "MUM", "RAIL", 150.0, 18.0, 40.0)];
      var bho, del, mum := Point(23.25, 77.41), Point(28.61, 77.20), Point(19.07, 72.87);
      && Polyline(path) == [bho, del, del, mum]
      && BoundsPoints(path) == [bho, del, del, mum]
  {
    var path := [Edge("BHO", "DEL", "TRUCK", 200.0, 12.0, 80.0), Edge("DEL", "MUM", "RAIL", 150.0, 18.0, 40.0)];
    assert path[..1][..0] == [];
    assert path[..1] == [path[0]];
  }
}
