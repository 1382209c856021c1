# irish-map renderer, modelled in Dafny

The program draws a road shapefile and a location history onto one PNG, in
two passes over the road file. The first pass (`calculateShapefileExtrema`)
projects every road coordinate with the Mercator projection and folds the
results into running `min`/`max` extrema, which start at +Infinity and
-Infinity. `draw.canvas` then sizes a canvas 4000 pixels wide, with a height
that keeps the aspect ratio of the extrema, and paints the background. The
second pass draws one 10 by 10 marker per location (`draw.locationData`) and
then re-reads the road file, stroking consecutive points of each geometry
(`draw.roads`). Only after that is the image saved. `main` fixes this order.

The model is six modules:

- `Geo` (geo.dfy): coordinates, geometries, E7 locations, and the extended reals `NegInf | Fin(r) | PosInf`. The projection is a parameter of type `LatLng -> Point`.
- `ShapeStream` (shape_stream.dfy): a `Source` class with a read cursor. `ReadShapeFile` is the read loop, and it returns the values handed to the callback.
- `Extrema` (extrema.dfy): the extrema fold exactly as written, with its `else if`. Beside it is a corrected fold with independent updates, and lemmas about both.
- `Canvas` (canvas.dfy): a `Context` class whose drawing calls append to a command log. `Stroke(from, to, colour, alpha)` and `FillRect(x, y, w, h, colour, alpha)` record what would be painted.
- `Draw` (draw.dfy): `transform`, canvas sizing, `draw.roads` and `draw.locationData` as methods on the context, and the functions that specify them.
- `Render` (render.dfy): the pipeline of `main`, and the lemmas about the saved picture.

Three behaviours of the code to note:

- The code updates `min` only in the `else` branch of the `max` test. It does not update both bounds independently. See Findings.
- The code has no check for a zero extent, so no error is modelled. The drawing members require non-degenerate extrema instead.
- Markers are anchored at their top-left corner (`fillRect(x, y, 10, 10)`, src/index.js:144).

## Model

| member | source | states |
|---|---|---|
| ShapeStream.Source.Open | src/index.js:33 | `shapefile.open` gives a source positioned at the first record of the file |
| ShapeStream.Source.Read | src/index.js:38 | `read()` yields the records in file order with `done` false, then `done` with no value, and stays done |
| ShapeStream.ReadShapeFile | src/index.js:32-41 | the callback gets each record once, in file order, and then the undefined value of the final `done` result |
| Geo.LatLngOfE7 | src/index.js:129-130 | the degrees times 10^7 give back the E7 integers on both axes |
| Extrema.Step | src/index.js:177-187 | on each axis on its own: afterwards the value is not above `max`; a value above `max` becomes the new `max` and leaves `min` alone; otherwise `max` stays, the value is not below `min`, and `min` moves only to the value, only when the value was below it |
| Extrema.AxisStep | src/index.js:177-187 | one update moves at most one bound; a value that raises `max` leaves `min` unchanged; any other value keeps `max`, and `min` becomes the value exactly when the value was below it; afterwards the value is not above `max` |
| Extrema.FoldAxes | src/index.js:174-188 | the per-coordinate fold is two independent folds, one over x values and one over y values |
| Extrema.FoldAppend | src/index.js:169-189 | folding datum after datum equals folding all their coordinates in one go |
| Extrema.AsWrittenMax | src/index.js:160-188 | with no coordinates the extrema stay at ±Infinity; otherwise `max` is finite, no value exceeds it, and it equals one of the values |
| Extrema.ExceedsIffNewRecord | src/index.js:177-181 | a value takes the `max` branch exactly when it is above every earlier value |
| Extrema.AsWrittenMin | src/index.js:177-187 | `min` is at or below every value that did not raise `max` at its turn, it equals one such value, and it is never above `max`; it gives no bound for values that raised `max` |
| Extrema.AsWrittenMinUnset | src/index.js:177-187 | `min` stays at +Infinity exactly when the values strictly increase |
| Extrema.CorrectedAxisStep | src/index.js:177-187 | corrected variant: the value lies inside the updated bounds; each bound either stays or becomes the value, and `min` moves only for a value below it and `max` only for a value above it, so the bounds only widen |
| Extrema.CorrectedAxisBounds | src/index.js:177-187 | corrected variant: both bounds are values of the sequence, and every value lies between them |
| Extrema.CorrectedBoxContainsAll | src/index.js:159-192 | corrected variant: every projected coordinate lies inside the box on both axes |
| Extrema.AsWrittenAgainstCorrected | src/index.js:177-187 | as written, `max` is the true maximum, and `min`, when set, is never below the true minimum |
| Extrema.AccumulateDatum | src/index.js:169-188 | the callback skips an undefined datum and otherwise applies the as-written update to each projected coordinate in order |
| Extrema.CalculateShapefileExtrema | src/index.js:159-192 | one full traversal gives the fold of all projected coordinates; `max` is sound on both axes and reached by some coordinate; `min` is finite and at or below every value that did not raise `max` at its turn |
| Canvas.Polyline | src/index.js:104-114 | a subpath of n points gives n − 1 segments, none for an empty one |
| Canvas.PolylineShape | src/index.js:106-114 | a polyline of n points is max(n − 1, 0) strokes, stroke i joining point i to point i + 1 |
| Canvas.Context.constructor | src/index.js:58-59 | a new context has an empty log and path, the default styles and opacity 1 |
| Canvas.Context.FillRect | src/index.js:144 | appends one rectangle in the current fill style and opacity |
| Canvas.Context.BeginPath | src/index.js:108 | empties the path |
| Canvas.Context.MoveTo | src/index.js:109 | starts a subpath |
| Canvas.Context.LineTo | src/index.js:110 | extends the last subpath |
| Canvas.Context.Stroke | src/index.js:111 | appends the segments of the current path in the current stroke style and opacity |
| Draw.Transform | src/index.js:79-81 | the relative position is 0 at `min` and 1 at `max` |
| Draw.TransformUnit | src/index.js:79-81 | multiplying by the extent inverts it (`r * (max - min) == num - min`), and a value inside an ordered interval maps into [0, 1] |
| Draw.TransformAffine | src/index.js:79-81 | maps a weighted mean of two values to the same weighted mean of their images |
| Draw.TransformIncreasing | src/index.js:79-81 | strictly increasing when `max > min` |
| Draw.CanvasResolution | src/index.js:51-56 | width is 4000 and height/width equals the y-extent over the x-extent; the height is positive for ordered extrema |
| Draw.DrawCanvas | src/index.js:50-72 | a fresh canvas with that aspect ratio, painted with one background rectangle covering it at opacity 1 |
| Draw.ScalePoint | src/index.js:95-102 | the corners of the extrema map to the corners of the canvas: `min` to 0 and `max` to the resolution, on each axis |
| Draw.ScalePointOnCanvas | src/index.js:95-102 | a point inside the extrema lands inside the canvas |
| Draw.Marker | src/index.js:126-144 | a location's marker is a 10×10 rectangle in the location colour at opacity 0.4 |
| Draw.MarkerOnCanvas | src/index.js:129-144 | a location whose projection lies inside the extrema gets a marker whose top-left corner is on the canvas |
| Draw.StrokeSegment | src/index.js:107-111 | appends exactly one stroke from the previous point to the current one, in the road colour |
| Draw.DrawRoads | src/index.js:86-116 | the log grows by the polyline through the datum's scaled points, at opacity 0.8 in the given colour; an undefined datum adds nothing; the fill style is kept; the opacity is 0.8 once a point is seen, the stroke style is the road colour once a segment is drawn, and the path is the last segment |
| Draw.DrawRoadPoint | src/index.js:104-114 | one loop step: opacity 0.8, and a stroke from the previous point exactly when there is one |
| Draw.DatumPath | src/index.js:106-114 | the path left behind by one datum is its last two scaled points, or the old path when it has fewer than two |
| Draw.RoadsLogStrokesOnly | src/index.js:104-111 | the road pass paints strokes only, in the road colour at opacity 0.8 |
| Draw.RoadsLogCount | src/index.js:90-115 | strokes = points − geometries that have points, because `previous` is reset per datum |
| Draw.RoadStrokesStayWithinGeometry | src/index.js:90-115 | each stroke joins consecutive points of a single geometry; none joins one geometry to the next |
| Draw.DrawLocationData | src/index.js:125-148 | one 10×10 top-left-anchored marker per location in input order, at opacity 0.4 in the location colour, then the path is re-stroked |
| Render.RoadPass | src/index.js:226-234 | the second traversal appends the strokes of every datum of the file in order, keeps the fill style, and leaves the opacity, stroke style and path of the last datum that set them |
| Render.StrokeEach | src/index.js:37-40 | applying the `draw.roads` callback to each delivered value appends their strokes in delivery order, with the same frame as RoadPass |
| Render.RenderMap | src/index.js:194-239 | the canvas is sized from the completed extrema; the saved image is the background, then every marker, then every road stroke; no marker follows a stroke |
| Render.DrawMap | src/index.js:210-238 | with the extrema fixed, the canvas has their aspect ratio and the saved image is background, markers, then road strokes |
| Render.PictureLayering | src/index.js:208-238 | the picture starts with the background; no marker comes after a stroke; its length is 1 + locations + points − started geometries |
| Render.TwoRoadScenario | src/index.js:177-187 | for roads (0,0)-(10,10) and (10,10)-(20,0), as written the box is lon [10, 20] and the point (0,0) is drawn at x = −4000, whereas the corrected box is lon [0, 20] |
| Render.CorrectedRoadsOnCanvas | src/index.js:159-192 | with the corrected extrema, every road stroke starts and ends on the canvas |
| Render.CorrectedCanvas | src/index.js:51-56 | the canvas sized from the corrected extrema has non-negative width and height |

## Left out

- Decoding the shapefile and the asynchronous `shapefile.open`/`read` I/O are not modelled. A source is opened on the sequence of geometries the file holds, and decoding errors are not represented.
- The callback runs interleaved with the reads in the source. The model collects the callback arguments first and then applies the callback to each in order. The callbacks never touch the source, so the arguments and their effects are the same.
- Loading the location history from JSON is not modelled. The locations are an input sequence of E7 integer pairs.
- The Mercator projection (`mercator-projection`) is a foreign library built on transcendental functions. It is a parameter, and nothing is assumed about it.
- Pixel rasterisation, alpha blending and the canvas object itself are left out. Drawing calls append to a command log, and the canvas and its 2D context are one object.
- `saveGraph` (PNG encoding, file streams, the completion log) and every `signale` call are I/O. The saved image is the command log at the moment of saving.
- `distance` is unused, and it relies on floating-point `Math.sqrt`/`Math.pow`.
- IEEE-754 rounding is not modelled. Coordinates and the E7 division are exact reals, and arithmetic on Infinity and NaN is not modelled.
- Every record is taken to be a single-part polyline with a geometry. A null-shape record has `geometry: null`, and the source throws at src/index.js:92 and src/index.js:174. A multi-part record is a MultiLineString whose elements are parts, so `lon`/`lat` bind to arrays and the projection receives NaN. `Geometry(coordinates: seq<Position>)` can express neither case.
- Transform: requires `max != min`. The source divides without a guard, and JavaScript would return Infinity or NaN.
- CanvasResolution: requires finite extrema with a non-zero x-extent, the divisor of the height. A zero y-extent is allowed and gives height 0, as in the source.
- DrawCanvas: requires a non-zero x-extent, the divisor of the height; the source would produce an Infinity or NaN height.
- ScalePoint: requires finite extrema with non-zero extent on both axes, because it divides by both extents.
- Marker: requires finite extrema with non-zero extent on both axes, because it scales through ScalePoint.
- DrawRoads: requires finite extrema with non-zero extent on both axes, because it scales through ScalePoint.
- DrawLocationData: requires finite extrema with non-zero extent on both axes, because it scales through ScalePoint.
- RoadPass: requires finite extrema with non-zero extent on both axes, because it calls DrawRoads.
- DrawMap: requires finite extrema with non-zero extent on both axes, because it runs both drawing passes.
- RenderMap: models only runs whose as-written extrema are finite and have non-zero extent on both axes. Other runs give NaN or Infinity pixel coordinates in the source; they include every file whose projected x or y values strictly increase.
- The `state` object of `main` starts at ±Infinity and is overwritten before any use, so the model binds the extrema directly. The `min`/`max` objects are values, so aliasing between them and `state` is not modelled.

## Findings

| source | as written | input that shows it | evidently intended | confidence | as-written member | corrected member |
|---|---|---|---|---|---|---|
| src/index.js:177-187 | `if (x > max) … else if (x < min) …`: a coordinate that raises `max` is never compared with `min`, so the first coordinate never sets `min`, and a true minimum that arrived as a new maximum is lost | roads (0,0)-(10,10) and (10,10)-(20,0) with an identity projection: `min.lon` ends at 10, and (0,0) is drawn at x = −4000, off the canvas; strictly increasing x values leave `min.lon` at +Infinity | both bounds compared independently for every coordinate, so the box contains every projected coordinate and every road lands on the canvas | high, not executed | Render.TwoRoadScenario | Render.CorrectedRoadsOnCanvas |
