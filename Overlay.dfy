/**
 * The text drawn over the raster image by `svgToPNG` (main.go): a score
 * label for each active feature, and the footer caption.
 */
module Overlay {
  import opened Features
  import opened Intensities

  const DefaultFooter: string := "Code available under the MIT License (GitHub: evacuate)."

  /** A score label: the level of a feature, with the feature it is placed on. */
  datatype Label = Label(feature: Feature, scale: int)

  /** The caption: the caller's text, or the fixed attribution when it is empty. */
  function FooterText(footer: string): (text: string)
    ensures text != ""
    ensures footer != "" ==> text == footer
    ensures footer == "" ==> text == DefaultFooter
  {
    if footer == "" then DefaultFooter else footer
  }

  /**
   * Where the caption starts: 10 units in from the left and 14 up from the
   * bottom, per multiplier step. It is right of the left edge and above the
   * bottom edge exactly when the multiplier is positive, and below the top
   * edge exactly when the canvas is taller than the 14-unit margin.
   */
  function FooterOrigin(multiplier: nat, height: int): (origin: (int, int))
    ensures 0 < origin.0 <==> 0 < multiplier
    ensures origin.1 < height <==> 0 < multiplier
    ensures 0 < origin.1 <==> 14 * multiplier < height
  {
    (10 * multiplier, height - 14 * multiplier)
  }

  /** The labels of `fs` in order: one per feature present in the map with a non-zero level. */
  function Labelled(fs: seq<Feature>, scaleMap: map<int, int>): seq<Label>
  {
    if fs == [] then []
    else
      var last := fs[|fs| - 1];
      Labelled(fs[..|fs| - 1], scaleMap) +
        (if last.id in scaleMap && scaleMap[last.id] != 0 then [Label(last, scaleMap[last.id])] else [])
  }

  /**
   * The ring a label is placed on exists: a Polygon's first ring
   * (`Polygon[0]`) or the first ring of a MultiPolygon's first sub-polygon
   * (`MultiPolygon[0][0]`). Other geometry types index nothing.
   */
  predicate HasAnchorRing(g: Geometry)
  {
    match g
    case Polygon(rings) => |rings| > 0
    case MultiPolygon(polygons) => |polygons| > 0 && |polygons[0]| > 0
    case OtherGeometry(_) => true
  }

  /** The label loop reaches `f` with a non-zero level and has no ring to index: Go panics. */
  predicate LabelPanics(f: Feature, scaleMap: map<int, int>)
  {
    f.id in scaleMap && scaleMap[f.id] != 0 && !HasAnchorRing(f.geometry)
  }

  /** The index-out-of-range panic of the label loop, with the id of the feature that raised it. */
  datatype LabelError = IndexOutOfRange(id: int)

  /**
   * The label loop of `svgToPNG`, run only when score text was requested. It
   * fails at the first feature that would make Go panic; otherwise it gives
   * `Labelled`.
   */
  method SelectLabels(showScale: bool, fs: seq<Feature>, scaleMap: map<int, int>)
    returns (r: Result<seq<Label>, LabelError>)
    ensures r.Err? <==> showScale && exists i :: 0 <= i < |fs| && LabelPanics(fs[i], scaleMap)
    ensures r.Err? ==>
      exists i :: 0 <= i < |fs| && LabelPanics(fs[i], scaleMap) && r.error == IndexOutOfRange(fs[i].id) &&
        forall j :: 0 <= j < i ==> !LabelPanics(fs[j], scaleMap)
    ensures r.Ok? ==> r.value == if showScale then Labelled(fs, scaleMap) else []
  {
    if !showScale {
      return Ok([]);
    }
    var labels: seq<Label> := [];
    for i := 0 to |fs|
      invariant labels == Labelled(fs[..i], scaleMap)
      invariant forall j :: 0 <= j < i ==> !LabelPanics(fs[j], scaleMap)
    {
      var f := fs[i];
      assert fs[..i + 1][..i] == fs[..i];
      if f.id !in scaleMap || scaleMap[f.id] == 0 {
        assert labels + [] == labels;
        continue;
      }
      match f.geometry {
        case Polygon(rings) =>
          if |rings| == 0 {
            return Err(IndexOutOfRange(f.id));
          }
        case MultiPolygon(polygons) =>
          if |polygons| == 0 || |polygons[0]| == 0 {
            return Err(IndexOutOfRange(f.id));
          }
        case OtherGeometry(_) =>
      }
      labels := labels + [Label(f, scaleMap[f.id])];
    }
    assert fs[..|fs|] == fs;
    r := Ok(labels);
  }

  /**
   * A label is drawn for a feature exactly when its id is present with a
   * non-zero level, and it shows that level.
   */
  lemma {:induction false} LabelledIff(fs: seq<Feature>, scaleMap: map<int, int>, l: Label)
    ensures l in Labelled(fs, scaleMap) <==>
      l.feature in fs && l.feature.id in scaleMap && scaleMap[l.feature.id] != 0 && l.scale == scaleMap[l.feature.id]
  {
    if fs != [] {
      var init, last := fs[..|fs| - 1], fs[|fs| - 1];
      LabelledIff(init, scaleMap, l);
      assert fs == init + [last];
    }
  }
}
