/**
 * The GeoJSON features the renderer reads: an integer `id` property and a
 * Polygon or MultiPolygon boundary made of rings of (longitude, latitude)
 * positions.
 */
module Features {

  /** A GeoJSON position; only its first two numbers (longitude, latitude) are read. */
  datatype Position = Position(lon: real, lat: real)

  /** A ring: an ordered sequence of positions. */
  type Ring = seq<Position>

  /** The geometry of a feature, as `feature.Geometry.Type` distinguishes it. */
  datatype Geometry =
    | Polygon(rings: seq<Ring>)
    | MultiPolygon(polygons: seq<seq<Ring>>)
    | OtherGeometry(kind: string)  // any other type: skipped by bounds and path building

  /** A feature, its `id` property already converted to an integer. */
  datatype Feature = Feature(id: int, geometry: Geometry)

  /** Concatenation of a sequence of sequences, in order. */
  function Concat<T>(ss: seq<seq<T>>): seq<T>
  {
    if ss == [] then [] else Concat(ss[..|ss| - 1]) + ss[|ss| - 1]
  }

  /** The sum of the lengths of a sequence of sequences. */
  function TotalLength<T>(ss: seq<seq<T>>): nat
  {
    if ss == [] then 0 else TotalLength(ss[..|ss| - 1]) + |ss[|ss| - 1]|
  }

  lemma {:induction false} ConcatAppend<T>(a: seq<seq<T>>, b: seq<seq<T>>)
    ensures Concat(a + b) == Concat(a) + Concat(b)
    decreases |b|
  {
    if b == [] {
      assert a + b == a;
    } else {
      var b', last := b[..|b| - 1], b[|b| - 1];
      assert (a + b)[..|a + b| - 1] == a + b';
      assert (a + b)[|a + b| - 1] == last;
      ConcatAppend(a, b');
      calc {
        Concat(a + b);
        Concat(a + b') + last;
        Concat(a) + Concat(b') + last;
        Concat(a) + Concat(b);
      }
    }
  }

  lemma {:induction false} ConcatLength<T>(ss: seq<seq<T>>)
    ensures |Concat(ss)| == TotalLength(ss)
  {
    if ss != [] {
      ConcatLength(ss[..|ss| - 1]);
    }
  }

  /** An element of the concatenation is exactly an element of one of the parts. */
  lemma {:induction false} ConcatMember<T>(ss: seq<seq<T>>, x: T)
    ensures x in Concat(ss) <==> exists s :: s in ss && x in s
  {
    if ss != [] {
      var init, last := ss[..|ss| - 1], ss[|ss| - 1];
      ConcatMember(init, x);
      assert ss == init + [last];
      if x in last {
        assert last in ss;
      } else if x in Concat(init) {
        var s :| s in init && x in s;
        assert s in ss;
      }
    }
  }

  /** The rings of a geometry, with a MultiPolygon's sub-polygons flattened in order. */
  function Rings(g: Geometry): seq<Ring>
  {
    match g
    case Polygon(rings) => rings
    case MultiPolygon(polygons) => Concat(polygons)
    case OtherGeometry(_) => []
  }

  /** Every position of every ring of a geometry, in source order. */
  function Positions(g: Geometry): seq<Position>
  {
    Concat(Rings(g))
  }

  /** `p` is a vertex of some ring of `g` (of some sub-polygon, for a MultiPolygon). */
  predicate IsVertex(g: Geometry, p: Position)
  {
    match g
    case Polygon(rings) => exists ring :: ring in rings && p in ring
    case MultiPolygon(polygons) =>
      exists polygon, ring :: polygon in polygons && ring in polygon && p in ring
    case OtherGeometry(_) => false
  }

  /** The flattened position list holds exactly the vertices of the geometry. */
  lemma PositionsAreVertices(g: Geometry, p: Position)
    ensures p in Positions(g) <==> IsVertex(g, p)
  {
    ConcatMember(Rings(g), p);
    match g
    case Polygon(rings) =>
    case MultiPolygon(polygons) =>
      forall ring | true
        ensures ring in Concat(polygons) <==> exists polygon :: polygon in polygons && ring in polygon
      {
        ConcatMember(polygons, ring);
      }
    case OtherGeometry(_) =>
  }

  /** A MultiPolygon has as many rings as its sub-polygons together. */
  lemma MultiPolygonRingCount(polygons: seq<seq<Ring>>)
    ensures |Rings(MultiPolygon(polygons))| == TotalLength(polygons)
  {
    ConcatLength(polygons);
  }
}
