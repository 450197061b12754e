/**
 * `calculateBounds`: the rectangle the map is fitted to, found by a loop
 * that lowers and raises four running extremes seeded with the edges of
 * the world (90, -90, 180, -180).
 */
module Bounds {
  import opened Wrappers
  import opened Feed

  /** `[[minLat, minLon], [maxLat, maxLon]]`. */
  datatype Box = Box(minLat: real, minLon: real, maxLat: real, maxLon: real)

  /** The values the four running extremes start from. */
  const Seed := Box(90.0, 180.0, -90.0, -180.0)

  /** One iteration of the loop body. */
  function Widen(b: Box, p: Event): Box {
    Box(if p.lat < b.minLat then p.lat else b.minLat,
        if p.lon < b.minLon then p.lon else b.minLon,
        if p.lat > b.maxLat then p.lat else b.maxLat,
        if p.lon > b.maxLon then p.lon else b.maxLon)
  }

  /** The extremes after the loop has visited every point, in order. */
  function Enclose(points: seq<Event>): (b: Box)
    ensures points != [] ==> b.minLat <= b.maxLat && b.minLon <= b.maxLon
  {
    if points == [] then Seed
    else Widen(Enclose(points[..|points| - 1]), points[|points| - 1])
  }

  /** What `calculateBounds` returns: null for no points, otherwise the box. */
  function BoundsOf(points: seq<Event>): Option<Box> {
    if |points| == 0 then None else Some(Enclose(points))
  }

  method CalculateBounds(points: seq<Event>) returns (bounds: Option<Box>)
    ensures bounds == BoundsOf(points)
  {
    if |points| == 0 {
      return None;
    }
    var minLat, maxLat, minLon, maxLon := 90.0, -90.0, 180.0, -180.0;
    for i := 0 to |points|
      invariant Box(minLat, minLon, maxLat, maxLon) == Enclose(points[..i])
    {
      var p := points[i];
      if p.lat < minLat { minLat := p.lat; }
      if p.lat > maxLat { maxLat := p.lat; }
      if p.lon < minLon { minLon := p.lon; }
      if p.lon > maxLon { maxLon := p.lon; }
      assert points[..i + 1][..i] == points[..i];
    }
    assert points[..|points|] == points;
    bounds := Some(Box(minLat, minLon, maxLat, maxLon));
  }

  /** Box b holds the point on both axes. */
  ghost predicate Contains(b: Box, p: Event) {
    b.minLat <= p.lat <= b.maxLat && b.minLon <= p.lon <= b.maxLon
  }

  /** Every point lies in the box, and the box reaches at least as far as the seeds. */
  lemma {:induction false} EncloseContains(points: seq<Event>)
    ensures forall i :: 0 <= i < |points| ==> Contains(Enclose(points), points[i])
    ensures var b := Enclose(points);
      b.minLat <= 90.0 && b.maxLat >= -90.0 && b.minLon <= 180.0 && b.maxLon >= -180.0
  {
    if points != [] {
      var n := |points| - 1;
      EncloseContains(points[..n]);
      forall i | 0 <= i < n ensures Contains(Enclose(points), points[i]) {
        assert points[..n][i] == points[i];
      }
    }
  }

  /** Each edge of the box is either its seed or the coordinate of some point. */
  lemma {:induction false} EncloseAttained(points: seq<Event>)
    ensures var b := Enclose(points);
      && (b.minLat == 90.0 || exists i :: 0 <= i < |points| && points[i].lat == b.minLat)
      && (b.maxLat == -90.0 || exists i :: 0 <= i < |points| && points[i].lat == b.maxLat)
      && (b.minLon == 180.0 || exists i :: 0 <= i < |points| && points[i].lon == b.minLon)
      && (b.maxLon == -180.0 || exists i :: 0 <= i < |points| && points[i].lon == b.maxLon)
  {
    if points != [] {
      var n := |points| - 1;
      EncloseAttained(points[..n]);
      assert forall i :: 0 <= i < n ==> points[..n][i] == points[i];
    }
  }

  /** The point lies within the valid latitude and longitude ranges. */
  ghost predicate OnGlobe(p: Event) {
    -90.0 <= p.lat <= 90.0 && -180.0 <= p.lon <= 180.0
  }

  /**
   * No points give null; points on the globe give exactly the component-wise
   * minima and maxima, each attained by some point.
   */
  lemma BoundsAreExtremes(points: seq<Event>)
    ensures BoundsOf(points).None? <==> points == []
    ensures points != [] && (forall i :: 0 <= i < |points| ==> OnGlobe(points[i])) ==>
      var b := BoundsOf(points).value;
      && (forall i :: 0 <= i < |points| ==> Contains(b, points[i]))
      && (exists i :: 0 <= i < |points| && points[i].lat == b.minLat)
      && (exists i :: 0 <= i < |points| && points[i].lat == b.maxLat)
      && (exists i :: 0 <= i < |points| && points[i].lon == b.minLon)
      && (exists i :: 0 <= i < |points| && points[i].lon == b.maxLon)
  {
    EncloseContains(points);
    EncloseAttained(points);
    if points != [] && (forall i :: 0 <= i < |points| ==> OnGlobe(points[i])) {
      assert OnGlobe(points[0]) && Contains(Enclose(points), points[0]);
    }
  }

  /** A box built from more points reaches at least as far on every side. */
  lemma EncloseMonotone(a: seq<Event>, b: seq<Event>)
    requires forall p :: p in b ==> p in a
    ensures Enclose(a).minLat <= Enclose(b).minLat && Enclose(a).maxLat >= Enclose(b).maxLat
    ensures Enclose(a).minLon <= Enclose(b).minLon && Enclose(a).maxLon >= Enclose(b).maxLon
  {
    EncloseContains(a);
    EncloseAttained(b);
    var x, y := Enclose(a), Enclose(b);
    if y.minLat != 90.0 {
      var j :| 0 <= j < |b| && b[j].lat == y.minLat;
      assert b[j] in a;
      var i :| 0 <= i < |a| && a[i] == b[j];
      assert Contains(x, a[i]);
    }
    if y.maxLat != -90.0 {
      var j :| 0 <= j < |b| && b[j].lat == y.maxLat;
      assert b[j] in a;
      var i :| 0 <= i < |a| && a[i] == b[j];
      assert Contains(x, a[i]);
    }
    if y.minLon != 180.0 {
      var j :| 0 <= j < |b| && b[j].lon == y.minLon;
      assert b[j] in a;
      var i :| 0 <= i < |a| && a[i] == b[j];
      assert Contains(x, a[i]);
    }
    if y.maxLon != -180.0 {
      var j :| 0 <= j < |b| && b[j].lon == y.maxLon;
      assert b[j] in a;
      var i :| 0 <= i < |a| && a[i] == b[j];
      assert Contains(x, a[i]);
    }
  }

  /**
   * The box depends only on which points there are, not on their order or
   * repetition (with or without points off the globe).
   */
  lemma BoundsOrderIndependent(a: seq<Event>, b: seq<Event>)
    requires forall p :: p in a <==> p in b
    ensures BoundsOf(a) == BoundsOf(b)
  {
    assert |a| > 0 ==> a[0] in b;
    assert |b| > 0 ==> b[0] in a;
    if a != [] {
      EncloseMonotone(a, b);
      EncloseMonotone(b, a);
    }
  }

  /**
   * Points either side of the antimeridian give a box that runs the long
   * way round: from longitude -179 east to 179, 358 degrees wide.
   */
  lemma AntimeridianBoxGoesLongWay(p: Event, q: Event)
    requires p.lon == 179.0 && q.lon == -179.0
    ensures BoundsOf([p, q]).value.minLon == -179.0
    ensures BoundsOf([p, q]).value.maxLon == 179.0
  {
    assert [p, q][..1] == [p] && [p][..0] == [];
    assert Enclose([p]) == Widen(Seed, p);
  }

  /** A single point on the globe gives a degenerate box on that point. */
  lemma BoundsSinglePoint(p: Event)
    requires OnGlobe(p)
    ensures BoundsOf([p]) == Some(Box(p.lat, p.lon, p.lat, p.lon))
  {
    assert [p][..0] == [];
    assert Enclose([p]) == Widen(Seed, p);
  }

  /**
   * The seeds take part in the result: a single point north of the pole
   * yields a box whose southern edge is the seed 90, not the point.
   */
  lemma SeedBoundsPointOffGlobe(p: Event)
    requires p.lat > 90.0
    ensures BoundsOf([p]).value.minLat == 90.0 < p.lat
  {
    assert [p][..0] == [];
    assert Enclose([p]) == Widen(Seed, p);
  }
}
