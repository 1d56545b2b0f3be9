/**
 * The rendering steps of `mapHandler` (main.go) in order: validate the
 * intensities, pick the canvas, fit the bounds, compose the scene and choose
 * the overlay text. The projection closure is supplied by the caller as a
 * factory from the fitted bounds and the canvas.
 */
module Handler {
  import opened Features
  import opened Intensities
  import opened Palette
  import opened Canvas
  import opened Bounds
  import opened Composer
  import opened Overlay

  /** Everything handed to the rasteriser for one request. */
  datatype Frame<P> = Frame(
    canvas: CanvasSize,
    multiplier: nat,
    bounds: ViewBounds,
    scene: Scene<P>,
    labels: seq<Label>,
    footer: string,
    footerAt: (int, int))

  /** Why a request produces no image: refused by validation, or a panic in the label loop. */
  datatype RenderError =
    | Refused(reason: ScaleError)
    | Panicked(fault: LabelError)

  /**
   * One request: refused with the first invalid entry before any drawing;
   * otherwise the frame built from the validated scale map, unless the label
   * loop meets an active feature with no ring to place its label on.
   */
  method Render<P>(
    intensities: seq<IntensityQuery>,
    size: string,
    fs: seq<Feature>,
    footer: string,
    scaleText: string,
    projector: (ViewBounds, CanvasSize) -> (Position -> P))
    returns (r: Result<Frame<P>, RenderError>)
    ensures r.Err? && r.error.Refused? <==> exists i :: 0 <= i < |intensities| && !ValidScale(intensities[i].scale)
    ensures r.Err? && r.error.Refused? ==> ScaleMapOf(intensities) == Err(r.error.reason)
    ensures r.Err? && r.error.Panicked? <==>
      ScaleMapOf(intensities).Ok? && scaleText == "true" &&
      exists i :: 0 <= i < |fs| && LabelPanics(fs[i], ScaleMapOf(intensities).value)
    ensures r.Err? && r.error.Panicked? ==>
      exists i :: 0 <= i < |fs| &&
        LabelPanics(fs[i], ScaleMapOf(intensities).value) && r.error.fault == IndexOutOfRange(fs[i].id) &&
        forall j :: 0 <= j < i ==> !LabelPanics(fs[j], ScaleMapOf(intensities).value)
    ensures r.Ok? ==> ScaleMapOf(intensities).Ok?
    ensures r.Ok? ==> r.value.multiplier == SizeMultiplier(size) && r.value.canvas == CanvasFor(r.value.multiplier)
    ensures r.Ok? ==> r.value.bounds == BoundsOf(fs, ScaleMapOf(intensities).value)
    ensures r.Ok? ==> r.value.scene.width == r.value.canvas.width && r.value.scene.height == r.value.canvas.height
    ensures r.Ok? ==> r.value.scene.background == BackgroundFill
    ensures r.Ok? ==> |r.value.scene.paths| == |fs|
    ensures r.Ok? ==> forall i :: 0 <= i < |fs| ==>
      r.value.scene.paths[i] ==
        FeatureEntry(fs[i], ScaleMapOf(intensities).value, r.value.multiplier, projector(r.value.bounds, r.value.canvas))
    ensures r.Ok? ==> forall i :: 0 <= i < |fs| ==> r.value.scene.paths[i].style.fill in Levels
    ensures r.Ok? ==> r.value.labels == if scaleText == "true" then Labelled(fs, ScaleMapOf(intensities).value) else []
    ensures r.Ok? ==> r.value.footer == FooterText(footer)
    ensures r.Ok? ==> r.value.footerAt == FooterOrigin(r.value.multiplier, r.value.canvas.height)
  {
    var built := BuildScaleMap(intensities);
    ScaleMapFailsIff(intensities);
    if built.Err? {
      return Err(Refused(built.error));
    }
    var scaleMap := built.value;
    ScaleMapValuesValid(intensities);

    var multiplier := SizeMultiplier(size);
    var canvas := CanvasFor(multiplier);

    var minLon, minLat, maxLon, maxLat := CalculateBounds(fs, scaleMap);
    var bounds := ViewBounds(minLon, minLat, maxLon, maxLat);
    var toScreen := projector(bounds, canvas);

    var scene := ComposeScene(canvas, fs, scaleMap, multiplier, toScreen);
    forall i | 0 <= i < |fs|
      ensures scene.paths[i].style.fill in Levels
    {
      EntryColours(fs[i], scaleMap, multiplier, toScreen);
    }

    var showScale := scaleText == "true";
    var labels := SelectLabels(showScale, fs, scaleMap);
    if labels.Err? {
      return Err(Panicked(labels.error));
    }
    r := Ok(Frame(canvas, multiplier, bounds, scene, labels.value, FooterText(footer),
      FooterOrigin(multiplier, canvas.height as int)));
  }

  /**
   * An empty intensity list is accepted, activates nothing and leaves the
   * bounds at their inverted initial values.
   */
  lemma EmptyRequestKeepsInitialBounds(fs: seq<Feature>)
    ensures ScaleMapOf([]) == Ok(map[])
    ensures BoundsOf(fs, map[]) == Initial
  {
    InvertedIffNoActiveVertex(fs, map[]);
  }

  /** The caption drawn on any canvas of a size class starts inside that canvas. */
  lemma FooterInsideCanvas(size: string)
    ensures var m := SizeMultiplier(size);
      var c := CanvasFor(m);
      var origin := FooterOrigin(m, c.height);
      0 < origin.0 < c.width && 0 < origin.1 < c.height
  {
  }
}
