/**
 * Path building inside `mapHandler` (main.go): one closed subpath per ring,
 * flattened across the sub-polygons of a MultiPolygon, then joined into the
 * feature's single path. Projected points are opaque values of type `P`;
 * paths are sequences of drawing commands rather than formatted text.
 */
module Paths {
  import opened Features

  datatype Command<P> =
    | MoveTo(at: P)
    | LineTo(to: P)
    | Close
    | BareMove  // the `M` keyword with no coordinate, as written for a ring without vertices

  /** A line-to for each position, in order. */
  function LineTos<P>(ps: seq<Position>, toScreen: Position -> P): (ls: seq<Command<P>>)
    ensures |ls| == |ps|
    ensures forall i :: 0 <= i < |ps| ==> ls[i] == LineTo(toScreen(ps[i]))
  {
    if ps == [] then [] else [LineTo(toScreen(ps[0]))] + LineTos(ps[1..], toScreen)
  }

  /**
   * The subpath of one ring: a move to the first projected vertex, a line to
   * each later one in vertex order, then a close.
   */
  function RingPath<P>(ring: Ring, toScreen: Position -> P): (path: seq<Command<P>>)
    ensures ring == [] ==> path == [BareMove, Close]
    ensures ring != [] ==> |path| == |ring| + 1 && path[0] == MoveTo(toScreen(ring[0]))
    ensures forall i :: 1 <= i < |ring| ==> path[i] == LineTo(toScreen(ring[i]))
    ensures path[|path| - 1] == Close
  {
    if ring == [] then [BareMove, Close]
    else [MoveTo(toScreen(ring[0]))] + LineTos(ring[1..], toScreen) + [Close]
  }

  /** The subpaths of a list of rings, one per ring, in order. */
  function RingPaths<P>(rings: seq<Ring>, toScreen: Position -> P): (paths: seq<seq<Command<P>>>)
    ensures |paths| == |rings|
    ensures forall k :: 0 <= k < |rings| ==> paths[k] == RingPath(rings[k], toScreen)
  {
    if rings == [] then [] else RingPaths(rings[..|rings| - 1], toScreen) + [RingPath(rings[|rings| - 1], toScreen)]
  }

  /** The path `canvas.Path` receives for a feature. */
  function FeaturePath<P>(g: Geometry, toScreen: Position -> P): seq<Command<P>>
  {
    Concat(RingPaths(Rings(g), toScreen))
  }

  /** The inner loop: build the subpath of one ring. */
  method BuildRingPath<P>(ring: Ring, toScreen: Position -> P) returns (path: seq<Command<P>>)
    ensures path == RingPath(ring, toScreen)
  {
    path := [];
    for i := 0 to |ring|
      invariant i == 0 ==> path == []
      invariant i > 0 ==> path == [MoveTo(toScreen(ring[0]))] + LineTos(ring[1..i], toScreen)
    {
      var pt := toScreen(ring[i]);
      if i == 0 {
        path := [MoveTo(pt)];
      } else {
        path := path + [LineTo(pt)];
      }
    }
    if path == [] {
      path := [BareMove];
    }
    path := path + [Close];
  }

  /** One ring loop: append the subpath of each ring to `paths`, in order. */
  method AppendRingPaths<P>(paths: seq<seq<Command<P>>>, rings: seq<Ring>, toScreen: Position -> P)
    returns (result: seq<seq<Command<P>>>)
    ensures result == paths + RingPaths(rings, toScreen)
  {
    result := paths;
    for j := 0 to |rings|
      invariant result == paths + RingPaths(rings[..j], toScreen)
    {
      assert rings[..j + 1][..j] == rings[..j];
      var pathStr := BuildRingPath(rings[j], toScreen);
      result := result + [pathStr];
    }
    assert rings[..|rings|] == rings;
  }

  /** The subpaths of two lists of rings are those of each list, in order. */
  lemma RingPathsAppend<P>(a: seq<Ring>, b: seq<Ring>, toScreen: Position -> P)
    ensures RingPaths(a + b, toScreen) == RingPaths(a, toScreen) + RingPaths(b, toScreen)
  {
  }

  /** The ring loops: one subpath per ring, across every sub-polygon of a MultiPolygon. */
  method BuildPaths<P>(g: Geometry, toScreen: Position -> P) returns (paths: seq<seq<Command<P>>>)
    ensures paths == RingPaths(Rings(g), toScreen)
  {
    paths := [];
    match g {
      case Polygon(rings) =>
        paths := AppendRingPaths(paths, rings, toScreen);
      case MultiPolygon(polygons) =>
        for i := 0 to |polygons|
          invariant paths == RingPaths(Concat(polygons[..i]), toScreen)
        {
          assert polygons[..i + 1][..i] == polygons[..i];
          RingPathsAppend(Concat(polygons[..i]), polygons[i], toScreen);
          paths := AppendRingPaths(paths, polygons[i], toScreen);
        }
        assert polygons[..|polygons|] == polygons;
      case OtherGeometry(_) =>
    }
  }

  /** The `finalPath` loop: the subpaths joined in order. */
  method JoinPaths<P>(paths: seq<seq<Command<P>>>) returns (finalPath: seq<Command<P>>)
    ensures finalPath == Concat(paths)
  {
    finalPath := [];
    for k := 0 to |paths|
      invariant finalPath == Concat(paths[..k])
    {
      assert paths[..k + 1][..k] == paths[..k];
      finalPath := finalPath + paths[k];
    }
    assert paths[..|paths|] == paths;
  }

  /** The number of close commands: the number of closed subpaths. */
  function CountCloses<P>(path: seq<Command<P>>): nat
  {
    if path == [] then 0 else CountCloses(path[..|path| - 1]) + (if path[|path| - 1].Close? then 1 else 0)
  }

  /** The number of commands that carry a projected vertex. */
  function CountVertices<P>(path: seq<Command<P>>): nat
  {
    if path == [] then 0
    else CountVertices(path[..|path| - 1]) + (if path[|path| - 1].MoveTo? || path[|path| - 1].LineTo? then 1 else 0)
  }

  lemma {:induction false} CountsAppend<P>(a: seq<Command<P>>, b: seq<Command<P>>)
    ensures CountCloses(a + b) == CountCloses(a) + CountCloses(b)
    ensures CountVertices(a + b) == CountVertices(a) + CountVertices(b)
    decreases |b|
  {
    if b == [] {
      assert a + b == a;
    } else {
      var b' := b[..|b| - 1];
      assert (a + b)[..|a + b| - 1] == a + b';
      CountsAppend(a, b');
    }
  }

  lemma {:induction false} LineTosCounts<P>(ps: seq<Position>, toScreen: Position -> P)
    ensures CountCloses(LineTos(ps, toScreen)) == 0
    ensures CountVertices(LineTos(ps, toScreen)) == |ps|
  {
    if ps != [] {
      LineTosCounts(ps[1..], toScreen);
      var first: seq<Command<P>> := [LineTo(toScreen(ps[0]))];
      CountsAppend(first, LineTos(ps[1..], toScreen));
      assert first[..0] == [];
    }
  }

  /** A ring's subpath is closed exactly once and carries one vertex per ring vertex. */
  lemma RingPathCounts<P>(ring: Ring, toScreen: Position -> P)
    ensures CountCloses(RingPath(ring, toScreen)) == 1
    ensures CountVertices(RingPath(ring, toScreen)) == |ring|
  {
    if ring == [] {
      var path: seq<Command<P>> := [BareMove, Close];
      assert path[..1] == [BareMove];
      assert path[..1][..0] == [];
    } else {
      var move: seq<Command<P>> := [MoveTo(toScreen(ring[0]))];
      var lines := LineTos(ring[1..], toScreen);
      LineTosCounts(ring[1..], toScreen);
      assert move[..0] == [];
      var close: seq<Command<P>> := [Close];
      assert close[..0] == [];
      CountsAppend(move, lines);
      CountsAppend(move + lines, close);
    }
  }

  lemma {:induction false} JoinedRingPathCounts<P>(rings: seq<Ring>, toScreen: Position -> P)
    ensures CountCloses(Concat(RingPaths(rings, toScreen))) == |rings|
    ensures CountVertices(Concat(RingPaths(rings, toScreen))) == TotalLength(rings)
  {
    if rings != [] {
      var init := rings[..|rings| - 1];
      var paths := RingPaths(rings, toScreen);
      assert paths[..|paths| - 1] == RingPaths(init, toScreen);
      JoinedRingPathCounts(init, toScreen);
      RingPathCounts(rings[|rings| - 1], toScreen);
      CountsAppend(Concat(RingPaths(init, toScreen)), RingPath(rings[|rings| - 1], toScreen));
    }
  }

  /**
   * A feature's path holds exactly one closed subpath per ring (counted over
   * every sub-polygon of a MultiPolygon) and one projected vertex per input vertex.
   */
  lemma FeaturePathCounts<P>(g: Geometry, toScreen: Position -> P)
    ensures CountCloses(FeaturePath(g, toScreen)) == |Rings(g)|
    ensures CountVertices(FeaturePath(g, toScreen)) == |Positions(g)|
  {
    JoinedRingPathCounts(Rings(g), toScreen);
    ConcatLength(Rings(g));
  }
}
