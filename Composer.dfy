/**
 * The vector scene `mapHandler` writes (main.go): a full-canvas background,
 * then one styled path per feature in dataset order, inactive ones included.
 */
module Composer {
  import opened Features
  import opened Intensities
  import opened Palette
  import opened Canvas
  import opened Paths

  const BackgroundFill: string := "#18181b"
  const StrokeColor: string := "#a1a1aa"
  const FillOpacity: real := 0.8

  datatype Style = Style(fill: string, stroke: string, strokeWidth: real, fillOpacity: real)

  datatype StyledPath<P> = StyledPath(commands: seq<Command<P>>, style: Style)

  datatype Scene<P> = Scene(width: nat, height: nat, background: string, paths: seq<StyledPath<P>>)

  /** The style string of a feature at `scale`: its palette colour, a fixed stroke, width 0.4 per multiplier step. */
  function FeatureStyle(scale: int, multiplier: nat): (s: Style)
    ensures 0 <= scale <= MaxScale ==> s.fill == Levels[scale]
    ensures s.stroke == StrokeColor && s.fillOpacity == FillOpacity
    ensures s.strokeWidth == 0.4 * multiplier as real
  {
    Style(IntensityToColor(scale), StrokeColor, 0.4 * multiplier as real, FillOpacity)
  }

  /** The styled path of one feature: its joined subpaths, coloured by its level (0 when absent). */
  function FeatureEntry<P>(f: Feature, scaleMap: map<int, int>, multiplier: nat, toScreen: Position -> P): StyledPath<P>
  {
    StyledPath(FeaturePath(f.geometry, toScreen), FeatureStyle(ScaleOf(scaleMap, f.id), multiplier))
  }

  /** The feature loop of `mapHandler` after the background rectangle. */
  method ComposeScene<P>(canvas: CanvasSize, fs: seq<Feature>, scaleMap: map<int, int>, multiplier: nat, toScreen: Position -> P)
    returns (scene: Scene<P>)
    ensures scene.width == canvas.width && scene.height == canvas.height
    ensures scene.background == BackgroundFill
    ensures |scene.paths| == |fs|
    ensures forall i :: 0 <= i < |fs| ==> scene.paths[i] == FeatureEntry(fs[i], scaleMap, multiplier, toScreen)
  {
    var entries: seq<StyledPath<P>> := [];
    for i := 0 to |fs|
      invariant |entries| == i
      invariant forall k :: 0 <= k < i ==> entries[k] == FeatureEntry(fs[k], scaleMap, multiplier, toScreen)
    {
      var f := fs[i];
      var scaleValue := 0;
      if f.id in scaleMap {
        scaleValue := scaleMap[f.id];
      }
      var fillColor := IntensityToColor(scaleValue);
      var paths := BuildPaths(f.geometry, toScreen);
      var finalPath := JoinPaths(paths);
      var style := Style(fillColor, StrokeColor, 0.4 * multiplier as real, FillOpacity);
      entries := entries + [StyledPath(finalPath, style)];
    }
    scene := Scene(canvas.width, canvas.height, BackgroundFill, entries);
  }

  /**
   * With a validated scale map every feature is filled with a genuine palette
   * entry, and a feature absent from the map or mapped to 0 with the inactive colour.
   */
  lemma EntryColours<P>(f: Feature, scaleMap: map<int, int>, multiplier: nat, toScreen: Position -> P)
    requires forall id :: id in scaleMap ==> ValidScale(scaleMap[id])
    ensures FeatureEntry(f, scaleMap, multiplier, toScreen).style.fill in Levels
    ensures 0 <= ScaleOf(scaleMap, f.id) < |Levels|
    ensures FeatureEntry(f, scaleMap, multiplier, toScreen).style.fill == Levels[ScaleOf(scaleMap, f.id)]
  {
  }
}
