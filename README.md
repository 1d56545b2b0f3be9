# Prefecture intensity map: a Dafny model of its discrete core

The Go service behind this model answers `/map` with a PNG map of Japan's
prefectures. A request lists `(id, scale)` pairs. A prefecture with a
non-zero level is *active*. The zoom fits the active prefectures only. Every
prefecture is drawn in its level's colour, and score labels and a caption are
written on top.

This project models the parts of `main.go` that are discrete logic:

- the colour ramp `intensityToColor` (module `Palette`);
- the validation loop that folds the request into the scale map (`Intensities`);
- the size-class switch and the canvas it gives (`Canvas`);
- `calculateBounds` with its `min`/`max` helpers (`Bounds`);
- path building: one closed subpath per ring, joined per feature (`Paths`);
- the per-feature fill and style of the vector scene (`Composer`);
- the label filter and the footer default of `svgToPNG` (`Overlay`);
- the order of these steps in `mapHandler` (`Handler`).

`Features` holds the GeoJSON data model: positions, rings, Polygon and
MultiPolygon geometries, and features with an integer id.

Modelling choices:

- Coordinates are `real`. The bounds code only compares them.
- A projected point is an opaque value of a type parameter `P`.
- The projection closure is a function parameter. `Handler.Render` takes it
  as a factory from the fitted bounds and the canvas, because the Go closure
  captures both.
- A path is a sequence of commands (`MoveTo`, `LineTo`, `Close`), not text.
  A ring without vertices makes the Go code write `M Z`. The model writes
  that as `[BareMove, Close]`.
- A Go map read of a missing id gives 0. `Intensities.ScaleOf` does the same.
- Loops in the source are methods with loops here. Each is proved equal to a
  specification function (`ScaleMapOf`, `BoundsOf`, `RingPath`, `Concat`,
  `Labelled`). The properties are lemmas about those functions.

Facts about the code that the model makes explicit:

- The `> 5` tier of `intensityToColor` is dead code: a level that reaches the
  default branch and is above 5 is also above 6
  (`Palette.SecondDarkestUnreachable`).
- Validation is the handler's first step, and it refuses the whole request.
- A label is drawn when the id is present with a non-zero level. With a
  validated map that means a level of 1..7.
- To place a label, the label loop indexes the first ring of a Polygon and
  the first ring of a MultiPolygon's first sub-polygon. An active feature
  without that ring makes Go panic with an index out of range.
  `Overlay.SelectLabels` and `Handler.Render` return that as an error.

## Model

| member | source | states |
|---|---|---|
| `Palette.IntensityToColor` | main.go:29-56 | levels 0..7 give exactly their palette entry; any level of 8 or more gives `#4a044e`; any negative level gives the inactive `#27272a` |
| `Palette.SecondDarkestUnreachable` | main.go:47-55 | no level at all is given the `#b91c1c` colour of the `scale > 5` tier: that branch is unreachable |
| `Palette.ValidLevelHasPaletteEntry` | main.go:30-46 | a validated level 0..7 always gets one of the eight palette entries and never the overflow colour |
| `Intensities.BuildScaleMap` | main.go:227-236 | the loop with its early return computes `ScaleMapOf`: stop at the first scale outside 0..7, otherwise store each scale under its id |
| `Intensities.ScaleMapFailsIff` | main.go:228-234 | the request is refused if and only if some entry has a scale below 0 or above 7 |
| `Intensities.ScaleMapNamesFirstInvalid` | main.go:230-233 | the refusal reports the id and scale of the first offending entry, and no map is produced |
| `Intensities.ScaleMapValuesValid` | main.go:228-236 | on success every stored level lies in 0..7 |
| `Intensities.ScaleMapKeys` | main.go:235 | on success the map's keys are exactly the ids of the request |
| `Intensities.ScaleMapLastWins` | main.go:235 | on success an id maps to the scale of its last entry: a later entry overwrites an earlier one |
| `Canvas.SizeMultiplier` | main.go:241-250 | size `"2"` gives 2 and only it does; `"3"` gives 4 and only it does; every other size (including `"1"`) gives 1 |
| `Canvas.CanvasFor` | main.go:252-258 | the canvas keeps the 1280:720 aspect ratio and is at least the base size for any multiplier of at least 1 |
| `Canvas.SizeClasses` | main.go:241-258 | the size classes give 1280×720, 2560×1440 and 5120×2880; anything other than `"2"` or `"3"` gives 1280×720 |
| `Bounds.Min` | main.go:380-385 | the result is one of the two arguments and no greater than either |
| `Bounds.Max` | main.go:387-392 | the result is one of the two arguments and no less than either |
| `Bounds.Widen` | main.go:99-103 | one step of the innermost loop encloses the position and covers the previous bounds |
| `Bounds.WidenAll` | main.go:98-104 | widening by a list of positions only ever grows the bounds |
| `Bounds.WidenByRing` | main.go:98-104 | the loop over a ring's positions widens by each of them in order |
| `Bounds.WidenByRings` | main.go:97-105 | the loop over a polygon's rings widens by all their positions in order |
| `Bounds.CalculateBounds` | main.go:81-121 | the nested loops return `BoundsOf`: the inverted start values widened by every vertex of every ring of every active feature, Polygon and MultiPolygon alike |
| `Bounds.BoundsEncloseActiveVertices` | main.go:87-118 | containment: every vertex of every active feature satisfies minLon ≤ lon ≤ maxLon and minLat ≤ lat ≤ maxLat |
| `Bounds.BoundsAreTight` | main.go:82-118 | when some active vertex exists and all lie within ±180/±90, each of the four sides is the coordinate of an active vertex |
| `Bounds.InactiveFeaturesIgnored` | main.go:88-92 | features absent from the map or mapped to 0 never affect the result: replacing their geometry leaves the bounds unchanged |
| `Bounds.InvertedIffNoActiveVertex` | main.go:81-121 | the bounds are inverted on either axis exactly when no active vertex exists, and then they are the initial (180, 90, −180, −90) |
| `Features.PositionsAreVertices` | main.go:95-118 | the flattened position list holds exactly the vertices of the rings of a Polygon or of every sub-polygon of a MultiPolygon |
| `Features.MultiPolygonRingCount` | main.go:336-337 | a MultiPolygon has as many rings as its sub-polygons together |
| `Paths.LineTos` | main.go:324-330 | one line-to per later vertex, in vertex order |
| `Paths.RingPath` | main.go:322-333 | a ring's subpath is a move-to the first projected vertex, then len(ring)−1 line-tos in vertex order, then a close |
| `Paths.RingPaths` | main.go:321-350 | one subpath per ring, in ring order |
| `Paths.BuildRingPath` | main.go:323-333 | the per-ring loop builds exactly `RingPath` |
| `Paths.AppendRingPaths` | main.go:322-334 | a ring loop appends the subpath of each ring to the slice, in ring order, keeping what was there |
| `Paths.RingPathsAppend` | main.go:336-350 | the subpaths of consecutive ring lists are those of each list, in order |
| `Paths.BuildPaths` | main.go:320-351 | the slice is `RingPaths` of the flattened rings: one subpath per ring, counted across every polygon of a MultiPolygon, in source order; none for other geometry types |
| `Paths.JoinPaths` | main.go:353-356 | the final path is the subpaths concatenated in order |
| `Paths.RingPathCounts` | main.go:323-333 | a ring's subpath is closed exactly once and carries one projected vertex per ring vertex |
| `Paths.FeaturePathCounts` | main.go:320-356 | a feature's path holds one closed subpath per ring and one projected vertex per input vertex |
| `Composer.FeatureStyle` | main.go:358-360 | a validated level is filled with its palette entry, with the fixed stroke colour, opacity 0.8 and a stroke width of 0.4 per multiplier step |
| `Composer.ComposeScene` | main.go:302-362 | the scene has the canvas size and the `#18181b` background, and one styled path per feature in dataset order, inactive features included |
| `Composer.EntryColours` | main.go:314-318 | with a validated map every feature's fill is a palette entry; a feature absent from the map or mapped to 0 gets the level-0 colour |
| `Overlay.FooterText` | main.go:154-156 | an empty footer is replaced by the fixed MIT attribution; a non-empty footer is used unchanged; the caption is never empty |
| `Overlay.FooterOrigin` | main.go:201 | the caption starts right of the left edge and above the bottom edge exactly when the multiplier is positive, and below the top edge exactly when the canvas is taller than 14 units per multiplier step |
| `Overlay.SelectLabels` | main.go:173-190 | no labels without score text; otherwise it fails exactly when some feature with a non-zero level lacks the first ring its label is placed on, naming the first such feature, and else gives exactly `Labelled`, the features present in the map with a non-zero level, in order |
| `Overlay.LabelledIff` | main.go:175-180 | a label is drawn for a feature if and only if its id is present with a non-zero level, and the label shows that level |
| `Handler.Render` | main.go:214-378 | a request is refused, with the first invalid entry, exactly when some scale lies outside 0..7, before any drawing; a valid request with score text panics exactly when an active feature lacks the ring its label is placed on, naming the first such feature; otherwise the frame has the chosen canvas, the fitted bounds, the `#18181b` background, one styled path per feature filled from the palette only, the requested labels, the caption and its starting point |
| `Handler.EmptyRequestKeepsInitialBounds` | main.go:227-236 | an empty intensity list is accepted and leaves the bounds at the inverted initial values |
| `Handler.FooterInsideCanvas` | main.go:201 | on every size class the caption's starting point lies inside the canvas |

## Left out

- HTTP handling (`main`, the missing `scale` parameter, query parsing, status codes, response writing): I/O.
- JSON decoding of the `scale` parameter and of `japan.geojson`, reading that file, and `loadFont`: file I/O and foreign libraries. The model starts from decoded entries and features.
- The projection closure `funcToScreen` and `calculateCenter`: they use floating-point `cos`, division and averaging, and divide by zero on degenerate spans. Projected points are opaque, so the label anchor is not modelled: the centre of the first ring, shifted by −5/+5 pixels, or the projection of (0, 0) for a geometry of any other type, whose centre variables keep their zero values (main.go:182-189). A `Label` keeps its feature instead.
- `%.1f` number formatting: path and style strings are modelled as commands and a `Style` record. The space `mapHandler` writes after each subpath is part of the text and does not appear in the command sequence.
- SVG generation, rasterisation, text drawing (font size 14 per multiplier step) and PNG encoding: thin wrappers over libraries. Their errors are left out with them.
- The `id` property's type assertion: `calculateBounds` runs first and asserts the id of every feature before the level-0 skip (main.go:89, called at main.go:273), so a non-numeric id always panics there; the later checks at main.go:176 and main.go:308-311 are never reached with one. The model's features carry integer ids. A GeoJSON position with fewer than two numbers, which panics in Go, is not representable either, nor is a feature whose geometry the decoder leaves nil, which panics where main.go:95 and main.go:321 read its type.
- Float64 coordinates: the model uses exact reals, with no NaN or infinities.
- `Handler.Render`: states the frame given to the rasteriser, not the image bytes.
