/** The second pass: normalising projected points against the extrema,
    sizing the canvas, and drawing the location markers and the roads. */
module Draw {
  import opened Geo
  import opened Extrema
  import opened Canvas

  /** The fixed canvas width, `constants.resolution.x`. */
  const ResolutionX: real := 4000.0

  const BackgroundColour: Colour := "#141518"
  const RoadColour: Colour := "#D3D3D3"
  const LocationColour: Colour := "#ce8c16"

  const RoadAlpha: real := 0.8
  const LocationAlpha: real := 0.4
  /** Side of a location marker, in pixels. */
  const MarkerSize: real := 10.0

  datatype Resolution = Resolution(x: real, y: real)

  /** `transform(num, {min, max})`: the position of `num` relative to the
      interval, 0 at `min` and 1 at `max`. The source has no guard against
      `max == min`, hence the precondition. */
  function Transform(num: real, min: real, max: real): (r: real)
    requires min != max
    ensures num == min ==> r == 0.0
    ensures num == max ==> r == 1.0
  {
    SelfQuotient(max - min);
    (num - min) / (max - min)
  }

  lemma SelfQuotient(d: real)
    requires d != 0.0
    ensures d / d == 1.0
  {
    assert (d / d) * d == d;
  }

  /** Scaling by the extent undoes Transform, and a value inside the
      interval lands in [0, 1]. */
  lemma TransformUnit(num: real, min: real, max: real)
    requires min != max
    ensures Transform(num, min, max) * (max - min) == num - min
    ensures min < max && min <= num <= max ==> 0.0 <= Transform(num, min, max) <= 1.0
  {
    QuotientInUnit(num - min, max - min);
  }

  lemma QuotientInUnit(a: real, d: real)
    requires d != 0.0
    ensures (a / d) * d == a
    ensures 0.0 <= a <= d && 0.0 < d ==> 0.0 <= a / d <= 1.0
  {
    var q := a / d;
    assert q * d == a;
    assert (1.0 - q) * d == d - a;
  }

  /** Transform is affine: it maps a weighted mean of two values to the
      same weighted mean of their images. */
  lemma TransformAffine(u: real, v: real, t: real, min: real, max: real)
    requires min != max
    ensures Transform(t * u + (1.0 - t) * v, min, max) == t * Transform(u, min, max) + (1.0 - t) * Transform(v, min, max)
  {
    var d := max - min;
    var tu, tv := Transform(u, min, max), Transform(v, min, max);
    calc {
      (t * tu + (1.0 - t) * tv) * d;
      t * (tu * d) + (1.0 - t) * (tv * d);
      t * (u - min) + (1.0 - t) * (v - min);
      (t * u + (1.0 - t) * v) - min;
    }
    var w := t * u + (1.0 - t) * v;
    assert Transform(w, min, max) * d == w - min;
    UniqueQuotient(Transform(w, min, max), t * tu + (1.0 - t) * tv, d);
  }

  /** Transform is strictly increasing when `max > min`. */
  lemma TransformIncreasing(u: real, v: real, min: real, max: real)
    requires min < max && u < v
    ensures Transform(u, min, max) < Transform(v, min, max)
  {
    var d := max - min;
    var tu, tv := Transform(u, min, max), Transform(v, min, max);
    assert (tv - tu) * d == v - u;
    NonPositiveProduct(tv - tu, d);
  }

  lemma NonPositiveProduct(a: real, d: real)
    requires d > 0.0
    ensures a <= 0.0 ==> a * d <= 0.0
  {
  }

  lemma UniqueQuotient(a: real, b: real, d: real)
    requires d != 0.0 && a * d == b * d
    ensures a == b
  {
    assert (a - b) * d == 0.0;
  }

  /** Extrema the drawing passes can normalise against: finite, with a
      non-zero extent on both axes. */
  predicate Drawable(b: Bounds)
  {
    Sizable(b) && b.lat.min.r != b.lat.max.r
  }

  /** Extrema `draw.canvas` can size a canvas from: finite, with a non-zero
      x-extent, the divisor of the height. */
  predicate Sizable(b: Bounds)
  {
    b.lon.min.Fin? && b.lon.max.Fin? && b.lat.min.Fin? && b.lat.max.Fin? &&
    b.lon.min.r != b.lon.max.r
  }

  /** The resolution `draw.canvas` derives: the fixed width, and the height
      that keeps the aspect ratio of the extrema. */
  function CanvasResolution(b: Bounds): (res: Resolution)
    requires Sizable(b)
    ensures res.x == ResolutionX
    ensures res.y * (b.lon.max.r - b.lon.min.r) == res.x * (b.lat.max.r - b.lat.min.r)
    ensures b.lon.min.r < b.lon.max.r && b.lat.min.r < b.lat.max.r ==> res.y > 0.0
    ensures b.lat.min.r == b.lat.max.r ==> res.y == 0.0
  {
    var diff := Point(b.lon.max.r - b.lon.min.r, b.lat.max.r - b.lat.min.r);
    Resolution(ResolutionX, ResolutionX * (diff.y / diff.x))
  }

  /** A projected point in canvas pixels: each axis normalised against the
      extrema and scaled by the resolution. The corners of the extrema map
      to the corners of the canvas. */
  function ScalePoint(p: Point, b: Bounds, res: Resolution): (q: Point)
    requires Drawable(b)
    ensures p.x == b.lon.min.r ==> q.x == 0.0
    ensures p.x == b.lon.max.r ==> q.x == res.x
    ensures p.y == b.lat.min.r ==> q.y == 0.0
    ensures p.y == b.lat.max.r ==> q.y == res.y
  {
    Point(Transform(p.x, b.lon.min.r, b.lon.max.r) * res.x, Transform(p.y, b.lat.min.r, b.lat.max.r) * res.y)
  }

  /** A point inside the extrema lands on the canvas. */
  lemma ScalePointOnCanvas(p: Point, b: Bounds, res: Resolution)
    requires Drawable(b)
    requires b.lon.min.r <= p.x <= b.lon.max.r && b.lat.min.r <= p.y <= b.lat.max.r
    requires 0.0 <= res.x && 0.0 <= res.y
    ensures 0.0 <= ScalePoint(p, b, res).x <= res.x
    ensures 0.0 <= ScalePoint(p, b, res).y <= res.y
  {
    TransformUnit(p.x, b.lon.min.r, b.lon.max.r);
    TransformUnit(p.y, b.lat.min.r, b.lat.max.r);
    UnitTimes(Transform(p.x, b.lon.min.r, b.lon.max.r), res.x);
    UnitTimes(Transform(p.y, b.lat.min.r, b.lat.max.r), res.y);
  }

  lemma UnitTimes(t: real, w: real)
    requires 0.0 <= t <= 1.0 && 0.0 <= w
    ensures 0.0 <= t * w <= w
  {
    assert (1.0 - t) * w >= 0.0;
  }

  function ScaleAll(ps: seq<Point>, b: Bounds, res: Resolution): seq<Point>
    requires Drawable(b)
  {
    seq(|ps|, i requires 0 <= i < |ps| => ScalePoint(ps[i], b, res))
  }

  /** The strokes `draw.roads` paints for one callback argument. */
  function DatumStrokes(d: Option<Geometry>, b: Bounds, res: Resolution, colour: Colour, proj: Projection): seq<Command>
    requires Drawable(b)
  {
    Polyline(Scaled(d, b, res, proj), colour, RoadAlpha)
  }

  /** The strokes the road pass paints for a sequence of callback arguments. */
  function RoadsLog(ds: seq<Option<Geometry>>, b: Bounds, res: Resolution, colour: Colour, proj: Projection): seq<Command>
    requires Drawable(b)
    decreases |ds|
  {
    if ds == [] then []
    else RoadsLog(ds[..|ds| - 1], b, res, colour, proj) + DatumStrokes(ds[|ds| - 1], b, res, colour, proj)
  }

  lemma RoadsLogSnoc(ds: seq<Option<Geometry>>, d: Option<Geometry>, b: Bounds, res: Resolution, colour: Colour, proj: Projection)
    requires Drawable(b)
    ensures RoadsLog(ds + [d], b, res, colour, proj) == RoadsLog(ds, b, res, colour, proj) + DatumStrokes(d, b, res, colour, proj)
  {
    assert (ds + [d])[..|ds|] == ds;
  }

  /** The marker `draw.locationData` paints for one location: a 10 by 10
      square whose top-left corner is the scaled projection of the location. */
  function Marker(l: Location, b: Bounds, res: Resolution, proj: Projection): (m: Command)
    requires Drawable(b)
    ensures m.FillRect? && m.w == MarkerSize && m.h == MarkerSize
    ensures m.colour == LocationColour && m.alpha == LocationAlpha
  {
    var q := ScalePoint(proj(LatLngOfE7(l)), b, res);
    FillRect(q.x, q.y, MarkerSize, MarkerSize, LocationColour, LocationAlpha)
  }

  /** A location whose projection lies inside the extrema gets a marker whose
      top-left corner is on the canvas. */
  lemma MarkerOnCanvas(l: Location, b: Bounds, res: Resolution, proj: Projection)
    requires Drawable(b)
    requires var p := proj(LatLngOfE7(l));
      b.lon.min.r <= p.x <= b.lon.max.r && b.lat.min.r <= p.y <= b.lat.max.r
    requires 0.0 <= res.x && 0.0 <= res.y
    ensures 0.0 <= Marker(l, b, res, proj).x <= res.x && 0.0 <= Marker(l, b, res, proj).y <= res.y
  {
    ScalePointOnCanvas(proj(LatLngOfE7(l)), b, res);
  }

  /** The markers of the location pass, one per location in input order. */
  function LocationMarks(ls: seq<Location>, b: Bounds, res: Resolution, proj: Projection): seq<Command>
    requires Drawable(b)
  {
    seq(|ls|, i requires 0 <= i < |ls| => Marker(ls[i], b, res, proj))
  }

  /** How many callback arguments carry at least one coordinate. */
  function Started(ds: seq<Option<Geometry>>, proj: Projection): nat
    decreases |ds|
  {
    if ds == [] then 0
    else Started(ds[..|ds| - 1], proj) + (if DatumPoints(ds[|ds| - 1], proj) == [] then 0 else 1)
  }

  /** Every command is a stroke in the given colour at the road opacity. */
  predicate RoadStrokesOnly(cmds: seq<Command>, colour: Colour)
  {
    forall k :: 0 <= k < |cmds| ==> cmds[k].Stroke? && cmds[k].colour == colour && cmds[k].alpha == RoadAlpha
  }

  lemma StrokesOnlyAppend(xs: seq<Command>, ys: seq<Command>, colour: Colour)
    requires RoadStrokesOnly(xs, colour) && RoadStrokesOnly(ys, colour)
    ensures RoadStrokesOnly(xs + ys, colour)
  {
    forall k | 0 <= k < |xs + ys|
      ensures (xs + ys)[k].Stroke? && (xs + ys)[k].colour == colour && (xs + ys)[k].alpha == RoadAlpha
    {
      if k < |xs| {
        assert (xs + ys)[k] == xs[k];
      } else {
        assert (xs + ys)[k] == ys[k - |xs|];
      }
    }
  }

  /** The road pass paints strokes only, all in the road colour at 0.8. */
  lemma {:induction false} RoadsLogStrokesOnly(ds: seq<Option<Geometry>>, b: Bounds, res: Resolution, colour: Colour, proj: Projection)
    requires Drawable(b)
    ensures RoadStrokesOnly(RoadsLog(ds, b, res, colour, proj), colour)
    decreases |ds|
  {
    if ds != [] {
      var init := ds[..|ds| - 1];
      RoadsLogStrokesOnly(init, b, res, colour, proj);
      var pts := Scaled(ds[|ds| - 1], b, res, proj);
      PolylineShape(pts, colour, RoadAlpha);
      var last := Polyline(pts, colour, RoadAlpha);
      assert RoadStrokesOnly(last, colour) by {
        forall k | 0 <= k < |last|
          ensures last[k].Stroke? && last[k].colour == colour && last[k].alpha == RoadAlpha
        {
          assert last[k] == Stroke(pts[k], pts[k + 1], colour, RoadAlpha);
        }
      }
      StrokesOnlyAppend(RoadsLog(init, b, res, colour, proj), last, colour);
    }
  }

  /** Because `previous` is reset for every datum, each geometry of n > 0
      points gives n - 1 strokes: the strokes number the points minus the
      geometries that have any. */
  lemma {:induction false} RoadsLogCount(ds: seq<Option<Geometry>>, b: Bounds, res: Resolution, colour: Colour, proj: Projection)
    requires Drawable(b)
    ensures |RoadsLog(ds, b, res, colour, proj)| + Started(ds, proj) == |AllPoints(ds, proj)|
    decreases |ds|
  {
    if ds != [] {
      var init, d := ds[..|ds| - 1], ds[|ds| - 1];
      RoadsLogCount(init, b, res, colour, proj);
      var pts := Scaled(d, b, res, proj);
      assert |pts| == |DatumPoints(d, proj)|;
      assert RoadsLog(ds, b, res, colour, proj) == RoadsLog(init, b, res, colour, proj) + Polyline(pts, colour, RoadAlpha);
      assert AllPoints(ds, proj) == AllPoints(init, proj) + DatumPoints(d, proj);
      assert Started(ds, proj) == Started(init, proj) + (if DatumPoints(d, proj) == [] then 0 else 1);
    }
  }

  /** The points of one callback argument, in canvas pixels. */
  function Scaled(d: Option<Geometry>, b: Bounds, res: Resolution, proj: Projection): seq<Point>
    requires Drawable(b)
  {
    ScaleAll(DatumPoints(d, proj), b, res)
  }

  /** `c` is the stroke from some point of `pts` to the next one. */
  predicate JoinsNeighboursOf(c: Command, pts: seq<Point>, colour: Colour)
  {
    exists i :: 0 <= i && i + 1 < |pts| && c == Stroke(pts[i], pts[i + 1], colour, RoadAlpha)
  }

  /** `c` is the stroke from some point to the next point of one geometry of `ds`. */
  predicate JoinsNeighbours(c: Command, ds: seq<Option<Geometry>>, b: Bounds, res: Resolution, colour: Colour, proj: Projection)
    requires Drawable(b)
  {
    exists d :: 0 <= d < |ds| && JoinsNeighboursOf(c, Scaled(ds[d], b, res, proj), colour)
  }

  /** A stroke that joins neighbours in a prefix of `ds` joins neighbours in `ds`. */
  lemma JoinsNeighboursPrefix(c: Command, ds: seq<Option<Geometry>>, n: nat, b: Bounds, res: Resolution, colour: Colour, proj: Projection)
    requires Drawable(b)
    requires n <= |ds|
    requires JoinsNeighbours(c, ds[..n], b, res, colour, proj)
    ensures JoinsNeighbours(c, ds, b, res, colour, proj)
  {
    var d :| 0 <= d < n && JoinsNeighboursOf(c, Scaled(ds[..n][d], b, res, proj), colour);
    assert ds[..n][d] == ds[d];
  }

  /** Each stroke of one datum's polyline joins neighbours of that datum. */
  lemma PolylineJoinsNeighbours(ds: seq<Option<Geometry>>, n: nat, i: nat, b: Bounds, res: Resolution, colour: Colour, proj: Projection)
    requires Drawable(b)
    requires n < |ds|
    requires i < |Polyline(Scaled(ds[n], b, res, proj), colour, RoadAlpha)|
    ensures JoinsNeighbours(Polyline(Scaled(ds[n], b, res, proj), colour, RoadAlpha)[i], ds, b, res, colour, proj)
  {
    var pts := Scaled(ds[n], b, res, proj);
    PolylineShape(pts, colour, RoadAlpha);
    var c := Polyline(pts, colour, RoadAlpha)[i];
    assert c == Stroke(pts[i], pts[i + 1], colour, RoadAlpha);
    assert JoinsNeighboursOf(c, pts, colour);
  }

  /** Every road stroke joins two consecutive points of one and the same
      geometry: no stroke runs from one geometry to the next. */
  lemma {:induction false} RoadStrokesStayWithinGeometry(ds: seq<Option<Geometry>>, b: Bounds, res: Resolution, colour: Colour, proj: Projection)
    requires Drawable(b)
    ensures forall k :: 0 <= k < |RoadsLog(ds, b, res, colour, proj)| ==>
      JoinsNeighbours(RoadsLog(ds, b, res, colour, proj)[k], ds, b, res, colour, proj)
    decreases |ds|
  {
    if ds != [] {
      var n := |ds| - 1;
      RoadStrokesStayWithinGeometry(ds[..n], b, res, colour, proj);
      var before := RoadsLog(ds[..n], b, res, colour, proj);
      var last := Polyline(Scaled(ds[n], b, res, proj), colour, RoadAlpha);
      var log := RoadsLog(ds, b, res, colour, proj);
      assert log == before + last;
      forall k | 0 <= k < |before|
        ensures JoinsNeighbours(log[k], ds, b, res, colour, proj)
      {
        assert log[k] == before[k];
        JoinsNeighboursPrefix(before[k], ds, n, b, res, colour, proj);
      }
      forall k | |before| <= k < |log|
        ensures JoinsNeighbours(log[k], ds, b, res, colour, proj)
      {
        assert log[k] == last[k - |before|];
        PolylineJoinsNeighbours(ds, n, k - |before|, b, res, colour, proj);
      }
    }
  }

  /** `draw.canvas`: sizes the canvas from the extrema and paints the
      background over all of it at full opacity. */
  method DrawCanvas(min: Point, max: Point) returns (ctx: Context, res: Resolution)
    requires max.x != min.x
    ensures fresh(ctx)
    ensures res.x == ResolutionX && res.y * (max.x - min.x) == res.x * (max.y - min.y)
    ensures ctx.width == res.x && ctx.height == res.y
    ensures ctx.log == [FillRect(0.0, 0.0, res.x, res.y, BackgroundColour, 1.0)]
    ensures ctx.fillStyle == BackgroundColour && ctx.strokeStyle == DefaultStyle && ctx.globalAlpha == 1.0
    ensures ctx.path == []
  {
    var diff := Point(max.x - min.x, max.y - min.y);
    var yResolution := ResolutionX * (diff.y / diff.x);
    ctx := new Context(ResolutionX, yResolution);
    ctx.fillStyle := BackgroundColour;
    ctx.FillRect(0.0, 0.0, ResolutionX, yResolution);
    res := Resolution(ResolutionX, yResolution);
  }

  /** One segment of `draw.roads`: sets the stroke style, then
      `beginPath(); moveTo(from); lineTo(to); stroke()`. */
  method StrokeSegment(ctx: Context, from: Point, to: Point, colour: Colour)
    modifies ctx
    ensures ctx.log == old(ctx.log) + [Stroke(from, to, colour, ctx.globalAlpha)]
    ensures ctx.strokeStyle == colour && ctx.path == [[from, to]]
    ensures ctx.fillStyle == old(ctx.fillStyle) && ctx.globalAlpha == old(ctx.globalAlpha)
  {
    ctx.strokeStyle := colour;
    ctx.BeginPath();
    ctx.MoveTo(from);
    assert ctx.path == [[from]];
    ctx.LineTo(to);
    assert ctx.path == [[from] + [to]] && [from] + [to] == [from, to];
    SingleSegment(from, to, colour, ctx.globalAlpha);
    ctx.Stroke();
  }

  /** The `draw.roads` callback for one datum: skips an absent datum, else
      scales each coordinate and strokes from the previous point of the same
      datum to it. */
  method DrawRoads(ctx: Context, b: Bounds, res: Resolution, colour: Colour, proj: Projection, datum: Option<Geometry>)
    requires Drawable(b)
    modifies ctx
    ensures ctx.log == old(ctx.log) + DatumStrokes(datum, b, res, colour, proj)
    ensures ctx.fillStyle == old(ctx.fillStyle)
    ensures ctx.globalAlpha == if DatumPoints(datum, proj) == [] then old(ctx.globalAlpha) else RoadAlpha
    ensures ctx.strokeStyle == if |DatumPoints(datum, proj)| < 2 then old(ctx.strokeStyle) else colour
    ensures |DatumPoints(datum, proj)| < 2 ==> ctx.path == old(ctx.path)
    ensures var pts := Scaled(datum, b, res, proj);
      |pts| >= 2 ==> ctx.path == [[pts[|pts| - 2], pts[|pts| - 1]]]
    ensures ctx.path == StrokedPath(DatumStrokes(datum, b, res, colour, proj), old(ctx.path))
  {
    DatumPath(datum, b, res, colour, proj, ctx.path);
    if datum.None? {
      return;
    }
    var coords := datum.value.coordinates;
    ghost var pts := Scaled(datum, b, res, proj);
    ghost var log0, fill0, alpha0, stroke0, path0 := ctx.log, ctx.fillStyle, ctx.globalAlpha, ctx.strokeStyle, ctx.path;
    var previous: Option<Point> := None;
    for i := 0 to |coords|
      invariant ctx.log == log0 + Polyline(pts[..i], colour, RoadAlpha)
      invariant previous == if i == 0 then None else Some(pts[i - 1])
      invariant ctx.fillStyle == fill0
      invariant ctx.globalAlpha == if i == 0 then alpha0 else RoadAlpha
      invariant ctx.strokeStyle == if i < 2 then stroke0 else colour
      invariant ctx.path == if i < 2 then path0 else [[pts[i - 2], pts[i - 1]]]
    {
      var point := Project(proj, coords[i]);
      var q := ScalePoint(point, b, res);
      assert q == pts[i];
      PolylineStep(log0, pts, i, colour);
      DrawRoadPoint(ctx, previous, q, colour);
      previous := Some(q);
    }
    assert pts[..|coords|] == pts;
  }

  /** One more point extends the polyline drawn so far by the stroke from the
      previous point to it, or by nothing for the first point. */
  lemma PolylineStep(log: seq<Command>, pts: seq<Point>, i: nat, colour: Colour)
    requires i < |pts|
    ensures i == 0 ==> log + Polyline(pts[..i + 1], colour, RoadAlpha) == log + Polyline(pts[..i], colour, RoadAlpha)
    ensures 0 < i ==>
      log + Polyline(pts[..i + 1], colour, RoadAlpha) ==
      (log + Polyline(pts[..i], colour, RoadAlpha)) + [Stroke(pts[i - 1], pts[i], colour, RoadAlpha)]
  {
    if i == 0 {
      assert pts[..1] == [pts[0]];
    } else {
      assert pts[..i + 1] == pts[..i] + [pts[i]];
      PolylineSnoc(pts[..i], pts[i], colour, RoadAlpha);
      AppendAssoc(log, Polyline(pts[..i], colour, RoadAlpha), [Stroke(pts[i - 1], pts[i], colour, RoadAlpha)]);
    }
  }

  /** The body of the `draw.roads` loop for one scaled point: sets the road
      opacity, and strokes from the previous point when there is one. */
  method DrawRoadPoint(ctx: Context, previous: Option<Point>, q: Point, colour: Colour)
    modifies ctx
    ensures ctx.log == old(ctx.log) + if previous.Some? then [Stroke(previous.value, q, colour, RoadAlpha)] else []
    ensures ctx.fillStyle == old(ctx.fillStyle) && ctx.globalAlpha == RoadAlpha
    ensures ctx.strokeStyle == if previous.Some? then colour else old(ctx.strokeStyle)
    ensures ctx.path == if previous.Some? then [[previous.value, q]] else old(ctx.path)
  {
    ctx.globalAlpha := RoadAlpha;
    if previous.Some? {
      StrokeSegment(ctx, previous.value, q, colour);
    }
  }

  /** The path `draw.roads` leaves behind for one datum: its last two scaled
      points when it has two or more, else the path it found. */
  lemma DatumPath(d: Option<Geometry>, b: Bounds, res: Resolution, colour: Colour, proj: Projection, path: seq<seq<Point>>)
    requires Drawable(b)
    ensures var pts := Scaled(d, b, res, proj);
      StrokedPath(DatumStrokes(d, b, res, colour, proj), path) ==
        if |pts| < 2 then path else [[pts[|pts| - 2], pts[|pts| - 1]]]
  {
    var pts := Scaled(d, b, res, proj);
    PolylineShape(pts, colour, RoadAlpha);
    if |pts| >= 2 {
      var strokes := Polyline(pts, colour, RoadAlpha);
      assert strokes[|strokes| - 1] == Stroke(pts[|pts| - 2], pts[|pts| - 1], colour, RoadAlpha);
    }
  }

  /** `draw.locationData`: sets the fill style once, paints one marker per
      location at opacity 0.4, then calls `stroke()`, which repaints
      whatever path is current. */
  method DrawLocationData(ctx: Context, locations: seq<Location>, b: Bounds, res: Resolution, proj: Projection)
    requires Drawable(b)
    modifies ctx
    ensures ctx.log == old(ctx.log) + LocationMarks(locations, b, res, proj) + PathStrokes(old(ctx.path), old(ctx.strokeStyle), ctx.globalAlpha)
    ensures ctx.fillStyle == LocationColour
    ensures ctx.globalAlpha == if locations == [] then old(ctx.globalAlpha) else LocationAlpha
    ensures ctx.strokeStyle == old(ctx.strokeStyle) && ctx.path == old(ctx.path)
  {
    ctx.fillStyle := LocationColour;
    for i := 0 to |locations|
      invariant ctx.log == old(ctx.log) + LocationMarks(locations[..i], b, res, proj)
      invariant ctx.fillStyle == LocationColour
      invariant ctx.globalAlpha == if i == 0 then old(ctx.globalAlpha) else LocationAlpha
      invariant ctx.strokeStyle == old(ctx.strokeStyle) && ctx.path == old(ctx.path)
    {
      var lat := locations[i].latitudeE7 as real / E7;
      var lon := locations[i].longitudeE7 as real / E7;
      var point := proj(LatLng(lat, lon));
      var x := Transform(point.x, b.lon.min.r, b.lon.max.r) * res.x;
      var y := Transform(point.y, b.lat.min.r, b.lat.max.r) * res.y;
      assert point == proj(LatLngOfE7(locations[i]));
      assert Point(x, y) == ScalePoint(point, b, res);
      ctx.globalAlpha := LocationAlpha;
      ctx.FillRect(x, y, MarkerSize, MarkerSize);
      assert LocationMarks(locations[..i + 1], b, res, proj) ==
        LocationMarks(locations[..i], b, res, proj) + [Marker(locations[i], b, res, proj)];
    }
    assert locations[..|locations|] == locations;
    ctx.Stroke();
  }
}
