/** `main`: the extrema pass, then the canvas, then the location markers,
    then the road pass, then the save. */
module Render {
  import opened Geo
  import opened ShapeStream
  import opened Extrema
  import opened Canvas
  import opened Draw

  /** The image the pipeline saves for a road file and a location history
      when the drawing passes normalise against the extrema `b`: the
      background, then one marker per location, then the road strokes. */
  function Picture(records: seq<Geometry>, locations: seq<Location>, b: Bounds, proj: Projection): seq<Command>
    requires Drawable(b)
  {
    var res := CanvasResolution(b);
    [FillRect(0.0, 0.0, res.x, res.y, BackgroundColour, 1.0)] +
    LocationMarks(locations, b, res, proj) +
    RoadsLog(Delivered(records), b, res, RoadColour, proj)
  }

  /** The background comes first, no marker is painted after a road stroke,
      and the roads add one stroke per point of the file less one per
      geometry that has points. */
  lemma PictureLayering(records: seq<Geometry>, locations: seq<Location>, b: Bounds, proj: Projection)
    requires Drawable(b)
    ensures var pic := Picture(records, locations, b, proj);
      var res := CanvasResolution(b);
      |pic| == 1 + |locations| + |RoadPoints(records, proj)| - Started(Delivered(records), proj) &&
      pic[0] == FillRect(0.0, 0.0, res.x, res.y, BackgroundColour, 1.0) &&
      forall i, j :: 0 <= i < j < |pic| && pic[i].Stroke? ==> pic[j].Stroke?
  {
    var res := CanvasResolution(b);
    var pic := Picture(records, locations, b, proj);
    var marks := LocationMarks(locations, b, res, proj);
    var roads := RoadsLog(Delivered(records), b, res, RoadColour, proj);
    var front := [FillRect(0.0, 0.0, res.x, res.y, BackgroundColour, 1.0)] + marks;
    assert pic == front + roads;
    RoadsLogCount(Delivered(records), b, res, RoadColour, proj);
    RoadsLogStrokesOnly(Delivered(records), b, res, RoadColour, proj);
    forall k | 0 <= k < |front|
      ensures front[k].FillRect?
    {
      if k > 0 {
        assert front[k] == marks[k - 1];
      }
    }
    StrokesLast(front, roads);
  }

  /** Rectangles followed by road strokes: nothing after a stroke is a rectangle. */
  lemma StrokesLast(front: seq<Command>, roads: seq<Command>)
    requires forall k :: 0 <= k < |front| ==> front[k].FillRect?
    requires RoadStrokesOnly(roads, RoadColour)
    ensures forall i, j :: 0 <= i < j < |front + roads| && (front + roads)[i].Stroke? ==> (front + roads)[j].Stroke?
  {
    forall i, j | 0 <= i < j < |front + roads| && (front + roads)[i].Stroke?
      ensures (front + roads)[j].Stroke?
    {
      assert i >= |front|;
      assert (front + roads)[j] == roads[j - |front|];
    }
  }

  /** `readShapeFile(roads, draw.roads(...))`: the second traversal of the
      file, stroking every datum in turn. The fill style is untouched; the
      opacity, stroke style and path are those the last datum to set them
      left behind. */
  method RoadPass(ctx: Context, records: seq<Geometry>, b: Bounds, res: Resolution, proj: Projection)
    requires Drawable(b)
    modifies ctx
    ensures ctx.log == old(ctx.log) + RoadsLog(Delivered(records), b, res, RoadColour, proj)
    ensures ctx.fillStyle == old(ctx.fillStyle)
    ensures ctx.globalAlpha == if RoadPoints(records, proj) == [] then old(ctx.globalAlpha) else RoadAlpha
    ensures ctx.strokeStyle ==
      if RoadsLog(Delivered(records), b, res, RoadColour, proj) == [] then old(ctx.strokeStyle) else RoadColour
    ensures ctx.path == StrokedPath(RoadsLog(Delivered(records), b, res, RoadColour, proj), old(ctx.path))
  {
    var values := ReadShapeFile(records);
    StrokeEach(ctx, values, b, res, proj);
  }

  /** The `draw.roads` callback applied to each value the reader delivers,
      in delivery order. */
  method StrokeEach(ctx: Context, values: seq<Option<Geometry>>, b: Bounds, res: Resolution, proj: Projection)
    requires Drawable(b)
    modifies ctx
    ensures ctx.log == old(ctx.log) + RoadsLog(values, b, res, RoadColour, proj)
    ensures ctx.fillStyle == old(ctx.fillStyle)
    ensures ctx.globalAlpha == if AllPoints(values, proj) == [] then old(ctx.globalAlpha) else RoadAlpha
    ensures ctx.strokeStyle == if RoadsLog(values, b, res, RoadColour, proj) == [] then old(ctx.strokeStyle) else RoadColour
    ensures ctx.path == StrokedPath(RoadsLog(values, b, res, RoadColour, proj), old(ctx.path))
  {
    ghost var start := ctx.log;
    for k := 0 to |values|
      invariant ctx.log == start + RoadsLog(values[..k], b, res, RoadColour, proj)
      invariant ctx.fillStyle == old(ctx.fillStyle)
      invariant ctx.globalAlpha == if AllPoints(values[..k], proj) == [] then old(ctx.globalAlpha) else RoadAlpha
      invariant ctx.strokeStyle ==
        if RoadsLog(values[..k], b, res, RoadColour, proj) == [] then old(ctx.strokeStyle) else RoadColour
      invariant ctx.path == StrokedPath(RoadsLog(values[..k], b, res, RoadColour, proj), old(ctx.path))
    {
      ghost var done := RoadsLog(values[..k], b, res, RoadColour, proj);
      ghost var next := DatumStrokes(values[k], b, res, RoadColour, proj);
      PrefixStep(values, k, b, res, RoadColour, proj);
      DatumStrokesAreStrokes(values[k], b, res, RoadColour, proj);
      StrokedPathAppend(done, next, old(ctx.path));
      DrawRoads(ctx, b, res, RoadColour, proj, values[k]);
      AppendAssoc(start, done, next);
    }
    assert values[..|values|] == values;
  }

  /** Extending the delivered prefix by one value extends the strokes and the
      points by that value's. */
  lemma PrefixStep(ds: seq<Option<Geometry>>, k: nat, b: Bounds, res: Resolution, colour: Colour, proj: Projection)
    requires Drawable(b)
    requires k < |ds|
    ensures RoadsLog(ds[..k + 1], b, res, colour, proj) == RoadsLog(ds[..k], b, res, colour, proj) + DatumStrokes(ds[k], b, res, colour, proj)
    ensures AllPoints(ds[..k + 1], proj) == AllPoints(ds[..k], proj) + DatumPoints(ds[k], proj)
    ensures DatumStrokes(ds[k], b, res, colour, proj) == [] <==> |DatumPoints(ds[k], proj)| < 2
  {
    assert ds[..k + 1] == ds[..k] + [ds[k]];
    assert ds[..k + 1][..k] == ds[..k];
    RoadsLogSnoc(ds[..k], ds[k], b, res, colour, proj);
  }

  lemma DatumStrokesAreStrokes(d: Option<Geometry>, b: Bounds, res: Resolution, colour: Colour, proj: Projection)
    requires Drawable(b)
    ensures forall k :: 0 <= k < |DatumStrokes(d, b, res, colour, proj)| ==> DatumStrokes(d, b, res, colour, proj)[k].Stroke?
  {
    var pts := Scaled(d, b, res, proj);
    var strokes := Polyline(pts, colour, RoadAlpha);
    PolylineShape(pts, colour, RoadAlpha);
    assert DatumStrokes(d, b, res, colour, proj) == strokes;
    forall k | 0 <= k < |strokes|
      ensures strokes[k].Stroke?
    {
      assert strokes[k] == Stroke(pts[k], pts[k + 1], colour, RoadAlpha);
    }
  }

  /** `main`. The canvas is sized from the extrema of the whole file, and
      the saved image is taken only once the road pass has drawn every
      stroke. The source does not check the extrema; the requirement that
      they be finite and of non-zero extent keeps its arithmetic within the
      reals. */
  method RenderMap(records: seq<Geometry>, locations: seq<Location>, proj: Projection) returns (saved: seq<Command>, res: Resolution)
    requires Drawable(ExtremaOf(records, proj))
    ensures res == CanvasResolution(ExtremaOf(records, proj))
    ensures saved == Picture(records, locations, ExtremaOf(records, proj), proj)
    ensures forall i, j :: 0 <= i < j < |saved| && saved[i].Stroke? ==> saved[j].Stroke?
  {
    var b := CalculateShapefileExtrema(records, proj);
    saved, res := DrawMap(records, locations, b, proj);
  }

  /** The part of `main` after the extrema pass: `draw.canvas`, then
      `draw.locationData`, then the road pass, then the save. */
  method DrawMap(records: seq<Geometry>, locations: seq<Location>, b: Bounds, proj: Projection) returns (saved: seq<Command>, res: Resolution)
    requires Drawable(b)
    ensures res == CanvasResolution(b)
    ensures saved == Picture(records, locations, b, proj)
    ensures forall i, j :: 0 <= i < j < |saved| && saved[i].Stroke? ==> saved[j].Stroke?
  {
    var state := b;
    var min := Point(b.lon.min.r, b.lat.min.r);
    var max := Point(b.lon.max.r, b.lat.max.r);
    var ctx;
    ctx, res := DrawCanvas(min, max);
    assert CanvasResolution(b).y * (max.x - min.x) == ResolutionX * (max.y - min.y);
    UniqueQuotient(res.y, CanvasResolution(b).y, max.x - min.x);
    DrawLocationData(ctx, locations, state, res, proj);
    RoadPass(ctx, records, state, res, proj);
    saved := ctx.log;
    PictureLayering(records, locations, b, proj);
  }

  /** The two roads (0,0)-(10,10) and (10,10)-(20,0). */
  function TwoRoads(): seq<Geometry>
  {
    [Geometry([Position(0.0, 0.0), Position(10.0, 10.0)]), Geometry([Position(10.0, 10.0), Position(20.0, 0.0)])]
  }

  /** A projection that is the identity on (longitude, latitude). */
  function Flat(): Projection
  {
    (ll: LatLng) => Point(ll.lng, ll.lat)
  }

  lemma TwoRoadPoints()
    ensures RoadPoints(TwoRoads(), Flat()) ==
      [Point(0.0, 0.0), Point(10.0, 10.0), Point(10.0, 10.0), Point(20.0, 0.0)]
  {
    var records, proj := TwoRoads(), Flat();
    var g1, g2 := records[0], records[1];
    assert Records(records) == [Some(g1), Some(g2)];
    var ds := Delivered(records);
    assert ds == [Some(g1), Some(g2), None];
    assert GeometryPoints(g1, proj) == [Point(0.0, 0.0), Point(10.0, 10.0)];
    assert GeometryPoints(g2, proj) == [Point(10.0, 10.0), Point(20.0, 0.0)];
    assert ds[..2] == [Some(g1), Some(g2)] && ds[..2][..1] == [Some(g1)] && [Some(g1)][..0] == [];
    assert AllPoints(ds[..2][..1], proj) == [Point(0.0, 0.0), Point(10.0, 10.0)];
    assert AllPoints(ds[..2], proj) == AllPoints(ds, proj);
  }

  /** The projected x values 0, 10, 10, 20 as written and corrected. */
  lemma TwoRoadLongitudes()
    ensures AxisFold(Unset, [0.0, 10.0, 10.0, 20.0]) == Axis(Fin(10.0), Fin(20.0))
    ensures CorrectedAxisFold(Unset, [0.0, 10.0, 10.0, 20.0]) == Axis(Fin(0.0), Fin(20.0))
  {
    var xs := [0.0, 10.0, 10.0, 20.0];
    assert xs[..3] == [0.0, 10.0, 10.0] && xs[..3][..2] == [0.0, 10.0] && xs[..3][..2][..1] == [0.0] && [0.0][..0] == [];
    assert AxisFold(Unset, [0.0]) == Axis(PosInf, Fin(0.0));
    assert AxisFold(Unset, [0.0, 10.0]) == Axis(PosInf, Fin(10.0));
    assert AxisFold(Unset, [0.0, 10.0, 10.0]) == Axis(Fin(10.0), Fin(10.0));
    assert CorrectedAxisFold(Unset, [0.0]) == Axis(Fin(0.0), Fin(0.0));
    assert CorrectedAxisFold(Unset, [0.0, 10.0]) == Axis(Fin(0.0), Fin(10.0));
    assert CorrectedAxisFold(Unset, [0.0, 10.0, 10.0]) == Axis(Fin(0.0), Fin(10.0));
  }

  /** The projected y values 0, 10, 10, 0: both folds agree. */
  lemma TwoRoadLatitudes()
    ensures AxisFold(Unset, [0.0, 10.0, 10.0, 0.0]) == Axis(Fin(0.0), Fin(10.0))
    ensures CorrectedAxisFold(Unset, [0.0, 10.0, 10.0, 0.0]) == Axis(Fin(0.0), Fin(10.0))
  {
    var ys := [0.0, 10.0, 10.0, 0.0];
    assert ys[..3] == [0.0, 10.0, 10.0] && ys[..3][..2] == [0.0, 10.0] && ys[..3][..2][..1] == [0.0] && [0.0][..0] == [];
    assert AxisFold(Unset, [0.0, 10.0, 10.0]) == Axis(Fin(10.0), Fin(10.0));
    assert CorrectedAxisFold(Unset, [0.0, 10.0, 10.0]) == Axis(Fin(0.0), Fin(10.0));
  }

  /** For the two roads under the flat projection, the extrema pass as
      written ends with `min.lon` at 10, though the first coordinate has
      x = 0: that coordinate raised `max.lon` and was never compared with
      `min.lon`. The corrected fold gives the true box, and as written the
      first point of the first road lands a whole canvas width to the left of
      the canvas. */
  lemma TwoRoadScenario()
    ensures ExtremaOf(TwoRoads(), Flat()) == Bounds(Axis(Fin(10.0), Fin(20.0)), Axis(Fin(0.0), Fin(10.0)))
    ensures CorrectedExtrema(RoadPoints(TwoRoads(), Flat())) == Bounds(Axis(Fin(0.0), Fin(20.0)), Axis(Fin(0.0), Fin(10.0)))
    ensures ScalePoint(Point(0.0, 0.0), ExtremaOf(TwoRoads(), Flat()), CanvasResolution(ExtremaOf(TwoRoads(), Flat()))).x == -ResolutionX
  {
    var ps := RoadPoints(TwoRoads(), Flat());
    TwoRoadPoints();
    FoldAxes(Initial, ps);
    assert Xs(ps) == [0.0, 10.0, 10.0, 20.0] && Ys(ps) == [0.0, 10.0, 10.0, 0.0];
    TwoRoadLongitudes();
    TwoRoadLatitudes();
  }

  /** `p` lies on a canvas of the given resolution. */
  predicate OnCanvas(p: Point, res: Resolution)
  {
    0.0 <= p.x <= res.x && 0.0 <= p.y <= res.y
  }

  /** The intended behaviour: normalised against the corrected extrema, every
      road stroke starts and ends on the canvas. */
  lemma CorrectedRoadsOnCanvas(records: seq<Geometry>, proj: Projection)
    requires Drawable(CorrectedExtrema(RoadPoints(records, proj)))
    ensures var b := CorrectedExtrema(RoadPoints(records, proj));
      var res := CanvasResolution(b);
      var log := RoadsLog(Delivered(records), b, res, RoadColour, proj);
      forall k :: 0 <= k < |log| ==> log[k].Stroke? && OnCanvas(log[k].from, res) && OnCanvas(log[k].to, res)
  {
    var ps := RoadPoints(records, proj);
    var b := CorrectedExtrema(ps);
    var res := CanvasResolution(b);
    var ds := Delivered(records);
    var log := RoadsLog(ds, b, res, RoadColour, proj);
    RoadStrokesStayWithinGeometry(ds, b, res, RoadColour, proj);
    CorrectedCanvas(ps);
    forall k | 0 <= k < |log|
      ensures log[k].Stroke? && OnCanvas(log[k].from, res) && OnCanvas(log[k].to, res)
    {
      var d :| 0 <= d < |ds| && JoinsNeighboursOf(log[k], Scaled(ds[d], b, res, proj), RoadColour);
      ScaledOnCanvas(ds, d, b, res, proj);
      JoinedPointsOnCanvas(log[k], Scaled(ds[d], b, res, proj), res);
    }
  }

  /** Every scaled point of one callback argument lies on the canvas sized
      from the corrected extrema of all of them. */
  lemma ScaledOnCanvas(ds: seq<Option<Geometry>>, d: int, b: Bounds, res: Resolution, proj: Projection)
    requires 0 <= d < |ds|
    requires b == CorrectedExtrema(AllPoints(ds, proj)) && Drawable(b)
    requires res.x >= 0.0 && res.y >= 0.0
    ensures forall k :: 0 <= k < |Scaled(ds[d], b, res, proj)| ==> OnCanvas(Scaled(ds[d], b, res, proj)[k], res)
  {
    var qs := DatumPoints(ds[d], proj);
    DatumPointsInAll(ds, d, proj);
    forall k | 0 <= k < |qs|
      ensures OnCanvas(ScalePoint(qs[k], b, res), res)
    {
      PointOnCanvas(AllPoints(ds, proj), qs[k], b, res);
    }
  }

  /** A stroke between neighbours of points that all lie on the canvas lies on the canvas. */
  lemma JoinedPointsOnCanvas(c: Command, pts: seq<Point>, res: Resolution)
    requires JoinsNeighboursOf(c, pts, RoadColour)
    requires forall k :: 0 <= k < |pts| ==> OnCanvas(pts[k], res)
    ensures c.Stroke? && OnCanvas(c.from, res) && OnCanvas(c.to, res)
  {
    var i :| 0 <= i && i + 1 < |pts| && c == Stroke(pts[i], pts[i + 1], RoadColour, RoadAlpha);
  }

  /** The canvas sized from corrected extrema has non-negative size. */
  lemma CorrectedCanvas(ps: seq<Point>)
    requires Drawable(CorrectedExtrema(ps))
    ensures CanvasResolution(CorrectedExtrema(ps)).x >= 0.0 && CanvasResolution(CorrectedExtrema(ps)).y >= 0.0
  {
    var b := CorrectedExtrema(ps);
    CorrectedAxisBounds(Xs(ps));
    CorrectedAxisBounds(Ys(ps));
    var i :| 0 <= i < |Xs(ps)| && b.lon.min == Fin(Xs(ps)[i]);
    var j :| 0 <= j < |Ys(ps)| && b.lat.min == Fin(Ys(ps)[j]);
    assert b.lon.min.r < b.lon.max.r && b.lat.min.r < b.lat.max.r;
  }

  lemma PointOnCanvas(ps: seq<Point>, p: Point, b: Bounds, res: Resolution)
    requires p in ps && b == CorrectedExtrema(ps) && Drawable(b)
    requires res.x >= 0.0 && res.y >= 0.0
    ensures OnCanvas(ScalePoint(p, b, res), res)
  {
    CorrectedBoxContainsAll(ps);
    var i :| 0 <= i < |ps| && ps[i] == p;
    ScalePointOnCanvas(p, b, res);
  }

  /** The points of each callback argument are among the points of all of them. */
  lemma {:induction false} DatumPointsInAll(ds: seq<Option<Geometry>>, d: int, proj: Projection)
    requires 0 <= d < |ds|
    ensures forall p :: p in DatumPoints(ds[d], proj) ==> p in AllPoints(ds, proj)
    decreases |ds|
  {
    var n := |ds| - 1;
    if d < n {
      DatumPointsInAll(ds[..n], d, proj);
      assert ds[..n][d] == ds[d];
    }
  }
}
