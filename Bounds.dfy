/**
 * `calculateBounds` of main.go with its `min`/`max` helpers: the extent of
 * every vertex of every feature whose mapped level is non-zero.
 */
module Bounds {
  import opened Features
  import opened Intensities

  datatype ViewBounds = ViewBounds(minLon: real, minLat: real, maxLon: real, maxLat: real)

  /** The inverted start values: each minimum at its axis maximum and vice versa. */
  const Initial: ViewBounds := ViewBounds(180.0, 90.0, -180.0, -90.0)

  function Min(a: real, b: real): (r: real)
    ensures r <= a && r <= b
    ensures r == a || r == b
  {
    if a < b then a else b
  }

  function Max(a: real, b: real): (r: real)
    ensures r >= a && r >= b
    ensures r == a || r == b
  {
    if a > b then a else b
  }

  predicate Encloses(b: ViewBounds, p: Position)
  {
    b.minLon <= p.lon <= b.maxLon && b.minLat <= p.lat <= b.maxLat
  }

  /** `outer` extends at least as far as `inner` on every side. */
  predicate Covers(outer: ViewBounds, inner: ViewBounds)
  {
    outer.minLon <= inner.minLon && outer.minLat <= inner.minLat &&
    outer.maxLon >= inner.maxLon && outer.maxLat >= inner.maxLat
  }

  /** A feature takes part in the fit when its level is non-zero (missing ids read as 0). */
  predicate Active(f: Feature, scaleMap: map<int, int>)
  {
    ScaleOf(scaleMap, f.id) != 0
  }

  /** `p` is a vertex of an active feature of `fs`. */
  predicate IsActiveVertex(fs: seq<Feature>, scaleMap: map<int, int>, p: Position)
  {
    exists i :: 0 <= i < |fs| && Active(fs[i], scaleMap) && IsVertex(fs[i].geometry, p)
  }

  /** One step of the innermost loop: the four running extrema widened by one position. */
  function Widen(b: ViewBounds, p: Position): (r: ViewBounds)
    ensures Encloses(r, p) && Covers(r, b)
  {
    ViewBounds(Min(b.minLon, p.lon), Min(b.minLat, p.lat), Max(b.maxLon, p.lon), Max(b.maxLat, p.lat))
  }

  /** `b` widened by each of `ps` in turn. */
  function WidenAll(b: ViewBounds, ps: seq<Position>): (r: ViewBounds)
    ensures Covers(r, b)
  {
    if ps == [] then b else Widen(WidenAll(b, ps[..|ps| - 1]), ps[|ps| - 1])
  }

  /** The positions of the active features, in the order the loops visit them. */
  function ActivePositions(fs: seq<Feature>, scaleMap: map<int, int>): seq<Position>
  {
    if fs == [] then []
    else
      var last := fs[|fs| - 1];
      ActivePositions(fs[..|fs| - 1], scaleMap) + (if Active(last, scaleMap) then Positions(last.geometry) else [])
  }

  /** The bounds `calculateBounds` returns. */
  function BoundsOf(fs: seq<Feature>, scaleMap: map<int, int>): ViewBounds
  {
    WidenAll(Initial, ActivePositions(fs, scaleMap))
  }

  lemma {:induction false} WidenAllAppend(b: ViewBounds, xs: seq<Position>, ys: seq<Position>)
    ensures WidenAll(b, xs + ys) == WidenAll(WidenAll(b, xs), ys)
    decreases |ys|
  {
    if ys == [] {
      assert xs + ys == xs;
    } else {
      var ys' := ys[..|ys| - 1];
      assert (xs + ys)[..|xs + ys| - 1] == xs + ys';
      WidenAllAppend(b, xs, ys');
    }
  }

  /** The innermost loop: widen by every vertex of one ring. */
  method WidenByRing(b: ViewBounds, ring: Ring) returns (r: ViewBounds)
    ensures r == WidenAll(b, ring)
  {
    r := b;
    for k := 0 to |ring|
      invariant r == WidenAll(b, ring[..k])
    {
      assert ring[..k + 1][..k] == ring[..k];
      var p := ring[k];
      r := ViewBounds(Min(r.minLon, p.lon), Min(r.minLat, p.lat), Max(r.maxLon, p.lon), Max(r.maxLat, p.lat));
    }
    assert ring[..|ring|] == ring;
  }

  /** The loop over the rings of one polygon. */
  method WidenByRings(b: ViewBounds, rings: seq<Ring>) returns (r: ViewBounds)
    ensures r == WidenAll(b, Concat(rings))
  {
    r := b;
    for j := 0 to |rings|
      invariant r == WidenAll(b, Concat(rings[..j]))
    {
      assert rings[..j + 1][..j] == rings[..j];
      r := WidenByRing(r, rings[j]);
      WidenAllAppend(b, Concat(rings[..j]), rings[j]);
    }
    assert rings[..|rings|] == rings;
  }

  /** `calculateBounds`: skip features whose level is zero, widen by every vertex of the others. */
  method CalculateBounds(fs: seq<Feature>, scaleMap: map<int, int>)
    returns (minLon: real, minLat: real, maxLon: real, maxLat: real)
    ensures ViewBounds(minLon, minLat, maxLon, maxLat) == BoundsOf(fs, scaleMap)
  {
    var b := Initial;
    for i := 0 to |fs|
      invariant b == WidenAll(Initial, ActivePositions(fs[..i], scaleMap))
    {
      var f := fs[i];
      assert fs[..i + 1][..i] == fs[..i];
      ghost var before := b;
      if ScaleOf(scaleMap, f.id) == 0 {
        assert ActivePositions(fs[..i + 1], scaleMap) == ActivePositions(fs[..i], scaleMap) + [];
        assert ActivePositions(fs[..i], scaleMap) + [] == ActivePositions(fs[..i], scaleMap);
        continue;
      }
      match f.geometry {
        case Polygon(rings) =>
          b := WidenByRings(b, rings);
        case MultiPolygon(polygons) =>
          for j := 0 to |polygons|
            invariant b == WidenAll(before, Concat(Concat(polygons[..j])))
          {
            assert polygons[..j + 1][..j] == polygons[..j];
            ConcatAppend(Concat(polygons[..j]), polygons[j]);
            WidenAllAppend(before, Concat(Concat(polygons[..j])), Concat(polygons[j]));
            b := WidenByRings(b, polygons[j]);
          }
          assert polygons[..|polygons|] == polygons;
        case OtherGeometry(_) =>
      }
      WidenAllAppend(Initial, ActivePositions(fs[..i], scaleMap), Positions(f.geometry));
    }
    assert fs[..|fs|] == fs;
    minLon, minLat, maxLon, maxLat := b.minLon, b.minLat, b.maxLon, b.maxLat;
  }

  /** A position on the globe: the range the inverted start values assume. */
  predicate OnGlobe(p: Position)
  {
    -180.0 <= p.lon <= 180.0 && -90.0 <= p.lat <= 90.0
  }

  lemma {:induction false} WidenAllEncloses(b: ViewBounds, ps: seq<Position>, p: Position)
    requires p in ps
    ensures Encloses(WidenAll(b, ps), p)
    decreases |ps|
  {
    var init, last := ps[..|ps| - 1], ps[|ps| - 1];
    if p != last {
      assert ps == init + [last];
      WidenAllEncloses(b, init, p);
    }
  }

  /** Every side of the result is either the start value or a coordinate of one of `ps`. */
  lemma {:induction false} WidenAllAttained(b: ViewBounds, ps: seq<Position>)
    ensures var r := WidenAll(b, ps);
      && (r.minLon == b.minLon || exists p :: p in ps && p.lon == r.minLon)
      && (r.minLat == b.minLat || exists p :: p in ps && p.lat == r.minLat)
      && (r.maxLon == b.maxLon || exists p :: p in ps && p.lon == r.maxLon)
      && (r.maxLat == b.maxLat || exists p :: p in ps && p.lat == r.maxLat)
    decreases |ps|
  {
    if ps != [] {
      var init, last := ps[..|ps| - 1], ps[|ps| - 1];
      assert ps == init + [last];
      WidenAllAttained(b, init);
    }
  }

  lemma {:induction false} ActivePositionsAreActiveVertices(fs: seq<Feature>, scaleMap: map<int, int>, p: Position)
    ensures p in ActivePositions(fs, scaleMap) <==> IsActiveVertex(fs, scaleMap, p)
  {
    if fs != [] {
      var init, last := fs[..|fs| - 1], fs[|fs| - 1];
      ActivePositionsAreActiveVertices(init, scaleMap, p);
      PositionsAreVertices(last.geometry, p);
      if IsActiveVertex(fs, scaleMap, p) {
        var i :| 0 <= i < |fs| && Active(fs[i], scaleMap) && IsVertex(fs[i].geometry, p);
        if i < |init| {
          assert init[i] == fs[i];
        }
      }
      if IsActiveVertex(init, scaleMap, p) {
        var i :| 0 <= i < |init| && Active(init[i], scaleMap) && IsVertex(init[i].geometry, p);
        assert fs[i] == init[i];
      }
    }
  }

  /** Containment: every vertex of every ring of every active feature lies inside the bounds. */
  lemma BoundsEncloseActiveVertices(fs: seq<Feature>, scaleMap: map<int, int>, p: Position)
    requires IsActiveVertex(fs, scaleMap, p)
    ensures Encloses(BoundsOf(fs, scaleMap), p)
  {
    ActivePositionsAreActiveVertices(fs, scaleMap, p);
    WidenAllEncloses(Initial, ActivePositions(fs, scaleMap), p);
  }

  /**
   * Exact fit: when the active vertices lie on the globe and there is one,
   * each side of the bounds is the coordinate of some active vertex.
   */
  lemma BoundsAreTight(fs: seq<Feature>, scaleMap: map<int, int>, q: Position)
    requires forall p :: IsActiveVertex(fs, scaleMap, p) ==> OnGlobe(p)
    requires IsActiveVertex(fs, scaleMap, q)
    ensures var b := BoundsOf(fs, scaleMap);
      && (exists p :: IsActiveVertex(fs, scaleMap, p) && p.lon == b.minLon)
      && (exists p :: IsActiveVertex(fs, scaleMap, p) && p.lat == b.minLat)
      && (exists p :: IsActiveVertex(fs, scaleMap, p) && p.lon == b.maxLon)
      && (exists p :: IsActiveVertex(fs, scaleMap, p) && p.lat == b.maxLat)
  {
    var ps := ActivePositions(fs, scaleMap);
    var b := BoundsOf(fs, scaleMap);
    forall p ensures p in ps <==> IsActiveVertex(fs, scaleMap, p) {
      ActivePositionsAreActiveVertices(fs, scaleMap, p);
    }
    WidenAllAttained(Initial, ps);
    BoundsEncloseActiveVertices(fs, scaleMap, q);
    if b.minLon == Initial.minLon { assert q.lon == b.minLon; }
    if b.minLat == Initial.minLat { assert q.lat == b.minLat; }
    if b.maxLon == Initial.maxLon { assert q.lon == b.maxLon; }
    if b.maxLat == Initial.maxLat { assert q.lat == b.maxLat; }
  }

  lemma {:induction false} ActivePositionsIgnoreInactive(fs: seq<Feature>, gs: seq<Feature>, scaleMap: map<int, int>)
    requires |fs| == |gs|
    requires forall i :: 0 <= i < |fs| ==> fs[i].id == gs[i].id
    requires forall i :: 0 <= i < |fs| && Active(fs[i], scaleMap) ==> fs[i].geometry == gs[i].geometry
    ensures ActivePositions(fs, scaleMap) == ActivePositions(gs, scaleMap)
  {
    if fs != [] {
      ActivePositionsIgnoreInactive(fs[..|fs| - 1], gs[..|gs| - 1], scaleMap);
    }
  }

  /**
   * Exclusion: features that are absent from the map or mapped to 0 never
   * affect the bounds, whatever their geometry.
   */
  lemma InactiveFeaturesIgnored(fs: seq<Feature>, gs: seq<Feature>, scaleMap: map<int, int>)
    requires |fs| == |gs|
    requires forall i :: 0 <= i < |fs| ==> fs[i].id == gs[i].id
    requires forall i :: 0 <= i < |fs| && Active(fs[i], scaleMap) ==> fs[i].geometry == gs[i].geometry
    ensures BoundsOf(fs, scaleMap) == BoundsOf(gs, scaleMap)
  {
    ActivePositionsIgnoreInactive(fs, gs, scaleMap);
  }

  /**
   * The degenerate case: the bounds are inverted on either axis exactly when
   * no active vertex exists, and then they are the initial values.
   */
  lemma InvertedIffNoActiveVertex(fs: seq<Feature>, scaleMap: map<int, int>)
    ensures var b := BoundsOf(fs, scaleMap);
      && (b.minLon > b.maxLon <==> !exists p :: IsActiveVertex(fs, scaleMap, p))
      && (b.minLat > b.maxLat <==> !exists p :: IsActiveVertex(fs, scaleMap, p))
      && ((!exists p :: IsActiveVertex(fs, scaleMap, p)) ==> b == Initial)
  {
    var ps := ActivePositions(fs, scaleMap);
    if exists p :: IsActiveVertex(fs, scaleMap, p) {
      var p :| IsActiveVertex(fs, scaleMap, p);
      BoundsEncloseActiveVertices(fs, scaleMap, p);
    } else if ps != [] {
      ActivePositionsAreActiveVertices(fs, scaleMap, ps[0]);
    }
  }
}
