/** The first pass: the running extrema of every projected road coordinate.
    The fold is modelled as written, where a coordinate that raises `max` on an
    axis is never compared with `min` on that axis. A corrected fold with
    independent updates is given beside it, with the bounding-box invariant
    proved of it. */
module Extrema {
  import opened Geo
  import opened ShapeStream

  /** The running bounds of one axis. */
  datatype Axis = Axis(min: Ext, max: Ext)

  /** `min` at +Infinity and `max` at -Infinity. */
  const Unset: Axis := Axis(PosInf, NegInf)

  /** The running extrema: `lon` holds `min.lon`/`max.lon` (projected x),
      `lat` holds `min.lat`/`max.lat` (projected y). */
  datatype Bounds = Bounds(lon: Axis, lat: Axis)

  const Initial: Bounds := Bounds(Unset, Unset)

  // ---------------------------------------------------------------------
  // The fold as written

  /** One axis update: `if (v > max) max = v else if (v < min) min = v`.
      At most one bound moves, and a value that raises `max` leaves `min`;
      any other value keeps `max` and lowers `min` to itself exactly when it
      lies below `min`. */
  function AxisStep(a: Axis, v: real): (r: Axis)
    ensures r.min == a.min || r.max == a.max
    ensures Exceeds(v, a.max) ==> r.min == a.min && r.max == Fin(v)
    ensures !Exceeds(v, a.max) ==>
      r.max == a.max && !Undercuts(v, r.min) && (r.min == a.min || (Undercuts(v, a.min) && r.min == Fin(v)))
    ensures !Exceeds(v, r.max)
  {
    if Exceeds(v, a.max) then a.(max := Fin(v))
    else if Undercuts(v, a.min) then a.(min := Fin(v))
    else a
  }

  /** The axis updates for a sequence of values, first to last. */
  function AxisFold(a: Axis, vs: seq<real>): Axis
    decreases |vs|
  {
    if vs == [] then a else AxisStep(AxisFold(a, vs[..|vs| - 1]), vs[|vs| - 1])
  }

  /** The update for one projected coordinate, both axes, each on its own:
      afterwards the coordinate is not above `max` on either axis, and an
      axis whose `max` it raised keeps its `min`; on an axis whose `max` it
      did not raise, `max` stays and `min` drops to the value exactly when the
      value lies below it. */
  function Step(b: Bounds, p: Point): (r: Bounds)
    ensures !Exceeds(p.x, r.lon.max) && !Exceeds(p.y, r.lat.max)
    ensures Exceeds(p.x, b.lon.max) ==> r.lon == Axis(b.lon.min, Fin(p.x))
    ensures Exceeds(p.y, b.lat.max) ==> r.lat == Axis(b.lat.min, Fin(p.y))
    ensures !Exceeds(p.x, b.lon.max) ==>
      r.lon.max == b.lon.max && !Undercuts(p.x, r.lon.min) &&
      (r.lon.min == b.lon.min || (Undercuts(p.x, b.lon.min) && r.lon.min == Fin(p.x)))
    ensures !Exceeds(p.y, b.lat.max) ==>
      r.lat.max == b.lat.max && !Undercuts(p.y, r.lat.min) &&
      (r.lat.min == b.lat.min || (Undercuts(p.y, b.lat.min) && r.lat.min == Fin(p.y)))
  {
    Bounds(AxisStep(b.lon, p.x), AxisStep(b.lat, p.y))
  }

  /** The updates for a sequence of projected coordinates, first to last. */
  function Fold(b: Bounds, ps: seq<Point>): Bounds
    decreases |ps|
  {
    if ps == [] then b else Step(Fold(b, ps[..|ps| - 1]), ps[|ps| - 1])
  }

  function Xs(ps: seq<Point>): seq<real>
  {
    seq(|ps|, i requires 0 <= i < |ps| => ps[i].x)
  }

  function Ys(ps: seq<Point>): seq<real>
  {
    seq(|ps|, i requires 0 <= i < |ps| => ps[i].y)
  }

  /** The projected road coordinates of a file, in traversal order. */
  function RoadPoints(records: seq<Geometry>, proj: Projection): seq<Point>
  {
    AllPoints(Delivered(records), proj)
  }

  /** What `calculateShapefileExtrema` returns for a file. */
  function ExtremaOf(records: seq<Geometry>, proj: Projection): Bounds
  {
    Fold(Initial, RoadPoints(records, proj))
  }

  /** Folding a concatenation is folding its parts in turn. */
  lemma {:induction false} FoldAppend(b: Bounds, ps: seq<Point>, qs: seq<Point>)
    ensures Fold(b, ps + qs) == Fold(Fold(b, ps), qs)
    decreases |qs|
  {
    if qs != [] {
      assert (ps + qs)[..|ps + qs| - 1] == ps + qs[..|qs| - 1];
      FoldAppend(b, ps, qs[..|qs| - 1]);
    } else {
      assert ps + qs == ps;
    }
  }

  /** The two axes are folded independently of each other. */
  lemma {:induction false} FoldAxes(b: Bounds, ps: seq<Point>)
    ensures Fold(b, ps) == Bounds(AxisFold(b.lon, Xs(ps)), AxisFold(b.lat, Ys(ps)))
    decreases |ps|
  {
    if ps != [] {
      var init := ps[..|ps| - 1];
      FoldAxes(b, init);
      assert Xs(ps)[..|ps| - 1] == Xs(init);
      assert Ys(ps)[..|ps| - 1] == Ys(init);
    }
  }

  /** `vs[i]` is strictly above every earlier value: it raises `max`. */
  predicate NewRecord(vs: seq<real>, i: int)
    requires 0 <= i < |vs|
  {
    forall j :: 0 <= j < i ==> vs[j] < vs[i]
  }

  predicate StrictlyIncreasing(vs: seq<real>)
  {
    forall i, j :: 0 <= i < j < |vs| ==> vs[i] < vs[j]
  }

  /** `max` is sound: no value exceeds it, and it is one of the values. */
  lemma {:induction false} AsWrittenMax(vs: seq<real>)
    ensures vs == [] ==> AxisFold(Unset, vs) == Unset
    ensures AxisFold(Unset, vs).max != PosInf
    ensures vs != [] ==> AxisFold(Unset, vs).max.Fin?
    ensures forall i :: 0 <= i < |vs| ==> !Exceeds(vs[i], AxisFold(Unset, vs).max)
    ensures vs != [] ==> exists i :: 0 <= i < |vs| && AxisFold(Unset, vs).max == Fin(vs[i])
    decreases |vs|
  {
    if vs != [] {
      var init := vs[..|vs| - 1];
      AsWrittenMax(init);
      var a := AxisFold(Unset, init);
      var r := AxisFold(Unset, vs);
      assert r == AxisStep(a, vs[|vs| - 1]);
      forall i | 0 <= i < |vs|
        ensures !Exceeds(vs[i], r.max)
      {
        if i < |vs| - 1 {
          assert vs[i] == init[i];
        }
      }
      if r.max == a.max {
        var k :| 0 <= k < |init| && a.max == Fin(init[k]);
        assert vs[k] == init[k];
      }
    }
  }

  /** The last value is compared with `min` exactly when it is not a new record. */
  lemma ExceedsIffNewRecord(vs: seq<real>)
    requires vs != []
    ensures Exceeds(vs[|vs| - 1], AxisFold(Unset, vs[..|vs| - 1]).max) <==> NewRecord(vs, |vs| - 1)
  {
    var init := vs[..|vs| - 1];
    var v := vs[|vs| - 1];
    AsWrittenMax(init);
    var m := AxisFold(Unset, init).max;
    if Exceeds(v, m) {
      forall j | 0 <= j < |vs| - 1
        ensures vs[j] < v
      {
        assert vs[j] == init[j];
        assert !Exceeds(init[j], m);
      }
    } else if init != [] {
      var k :| 0 <= k < |init| && m == Fin(init[k]);
      assert vs[k] == init[k];
    }
  }

  /** `min` is bounded only over the values that did not raise `max` at their
      turn: it lies at or below each of them, it is one of them, and it is
      never above `max`. */
  lemma {:induction false} AsWrittenMin(vs: seq<real>)
    ensures AxisFold(Unset, vs).min != NegInf
    ensures forall i :: 0 <= i < |vs| && !NewRecord(vs, i) ==>
      AxisFold(Unset, vs).min.Fin? && !Undercuts(vs[i], AxisFold(Unset, vs).min)
    ensures AxisFold(Unset, vs).min.Fin? ==>
      exists i :: 0 <= i < |vs| && !NewRecord(vs, i) && AxisFold(Unset, vs).min == Fin(vs[i])
    ensures AxisFold(Unset, vs).min.Fin? ==>
      AxisFold(Unset, vs).max.Fin? && AxisFold(Unset, vs).min.r <= AxisFold(Unset, vs).max.r
    decreases |vs|
  {
    if vs != [] {
      var n := |vs| - 1;
      var init := vs[..n];
      AsWrittenMin(init);
      AsWrittenMax(init);
      ExceedsIffNewRecord(vs);
      var a := AxisFold(Unset, init);
      var r := AxisFold(Unset, vs);
      assert r == AxisStep(a, vs[n]);
      forall i | 0 <= i < n
        ensures NewRecord(vs, i) == NewRecord(init, i) && vs[i] == init[i]
      {
        assert forall j :: 0 <= j < i ==> vs[j] == init[j];
      }
      if r.min.Fin? && r.min == a.min {
        var k :| 0 <= k < |init| && !NewRecord(init, k) && a.min == Fin(init[k]);
        assert !NewRecord(vs, k) && r.min == Fin(vs[k]);
      }
    }
  }

  /** `min` is left at +Infinity exactly when the values strictly increase,
      every one of them having raised `max`. */
  lemma {:induction false} AsWrittenMinUnset(vs: seq<real>)
    ensures AxisFold(Unset, vs).min == PosInf <==> StrictlyIncreasing(vs)
  {
    AsWrittenMin(vs);
    var m := AxisFold(Unset, vs).min;
    if m == PosInf {
      forall i, j | 0 <= i < j < |vs|
        ensures vs[i] < vs[j]
      {
        assert NewRecord(vs, j);
      }
    } else {
      var k :| 0 <= k < |vs| && !NewRecord(vs, k) && m == Fin(vs[k]);
      var j :| 0 <= j < k && !(vs[j] < vs[k]);
      assert !StrictlyIncreasing(vs);
    }
  }

  // ---------------------------------------------------------------------
  // The corrected fold: independent updates of both bounds

  /** One axis update with both bounds compared: the value lies within the
      result, and the result only ever widens. */
  function CorrectedAxisStep(a: Axis, v: real): (r: Axis)
    ensures !Undercuts(v, r.min) && !Exceeds(v, r.max)
    ensures r.min == a.min || r.min == Fin(v)
    ensures r.max == a.max || r.max == Fin(v)
    ensures r.min != a.min ==> Undercuts(v, a.min)
    ensures r.max != a.max ==> Exceeds(v, a.max)
  {
    Axis(if Undercuts(v, a.min) then Fin(v) else a.min,
         if Exceeds(v, a.max) then Fin(v) else a.max)
  }

  function CorrectedAxisFold(a: Axis, vs: seq<real>): Axis
    decreases |vs|
  {
    if vs == [] then a else CorrectedAxisStep(CorrectedAxisFold(a, vs[..|vs| - 1]), vs[|vs| - 1])
  }

  /** The corrected extrema of a sequence of projected coordinates. */
  function CorrectedExtrema(ps: seq<Point>): Bounds
  {
    Bounds(CorrectedAxisFold(Unset, Xs(ps)), CorrectedAxisFold(Unset, Ys(ps)))
  }

  /** The corrected fold gives the tight bounds: both are values of the
      sequence and every value lies between them. */
  lemma {:induction false} CorrectedAxisBounds(vs: seq<real>)
    ensures vs == [] ==> CorrectedAxisFold(Unset, vs) == Unset
    ensures vs != [] ==> CorrectedAxisFold(Unset, vs).min.Fin? && CorrectedAxisFold(Unset, vs).max.Fin?
    ensures forall i :: 0 <= i < |vs| ==>
      !Undercuts(vs[i], CorrectedAxisFold(Unset, vs).min) && !Exceeds(vs[i], CorrectedAxisFold(Unset, vs).max)
    ensures vs != [] ==> exists i :: 0 <= i < |vs| && CorrectedAxisFold(Unset, vs).min == Fin(vs[i])
    ensures vs != [] ==> exists i :: 0 <= i < |vs| && CorrectedAxisFold(Unset, vs).max == Fin(vs[i])
    decreases |vs|
  {
    if vs != [] {
      var n := |vs| - 1;
      var init := vs[..n];
      CorrectedAxisBounds(init);
      var a := CorrectedAxisFold(Unset, init);
      var r := CorrectedAxisFold(Unset, vs);
      assert r == CorrectedAxisStep(a, vs[n]);
      forall i | 0 <= i < n
        ensures !Undercuts(vs[i], r.min) && !Exceeds(vs[i], r.max)
      {
        assert vs[i] == init[i];
      }
      if r.min == a.min && init != [] {
        var k :| 0 <= k < |init| && a.min == Fin(init[k]);
        assert vs[k] == init[k];
      }
      if r.max == a.max && init != [] {
        var k :| 0 <= k < |init| && a.max == Fin(init[k]);
        assert vs[k] == init[k];
      }
    }
  }

  /** The bounding-box invariant of the corrected fold: every projected
      coordinate lies inside the box on both axes. */
  lemma CorrectedBoxContainsAll(ps: seq<Point>)
    ensures ps != [] ==>
      CorrectedExtrema(ps).lon.min.Fin? && CorrectedExtrema(ps).lon.max.Fin? &&
      CorrectedExtrema(ps).lat.min.Fin? && CorrectedExtrema(ps).lat.max.Fin?
    ensures forall i :: 0 <= i < |ps| ==>
      CorrectedExtrema(ps).lon.min.r <= ps[i].x <= CorrectedExtrema(ps).lon.max.r &&
      CorrectedExtrema(ps).lat.min.r <= ps[i].y <= CorrectedExtrema(ps).lat.max.r
  {
    CorrectedAxisBounds(Xs(ps));
    CorrectedAxisBounds(Ys(ps));
    forall i | 0 <= i < |ps|
      ensures CorrectedExtrema(ps).lon.min.r <= ps[i].x <= CorrectedExtrema(ps).lon.max.r
      ensures CorrectedExtrema(ps).lat.min.r <= ps[i].y <= CorrectedExtrema(ps).lat.max.r
    {
      assert Xs(ps)[i] == ps[i].x && Ys(ps)[i] == ps[i].y;
    }
  }

  /** The as-written fold agrees with the corrected one on `max`, and its
      `min`, when set, is never below the true minimum. */
  lemma AsWrittenAgainstCorrected(vs: seq<real>)
    ensures AxisFold(Unset, vs).max == CorrectedAxisFold(Unset, vs).max
    ensures AxisFold(Unset, vs).min.Fin? ==>
      CorrectedAxisFold(Unset, vs).min.Fin? && CorrectedAxisFold(Unset, vs).min.r <= AxisFold(Unset, vs).min.r
  {
    AsWrittenMax(vs);
    AsWrittenMin(vs);
    CorrectedAxisBounds(vs);
    if vs != [] {
      var i :| 0 <= i < |vs| && AxisFold(Unset, vs).max == Fin(vs[i]);
      var j :| 0 <= j < |vs| && CorrectedAxisFold(Unset, vs).max == Fin(vs[j]);
      assert !Exceeds(vs[i], CorrectedAxisFold(Unset, vs).max);
      assert !Exceeds(vs[j], AxisFold(Unset, vs).max);
      if AxisFold(Unset, vs).min.Fin? {
        var k :| 0 <= k < |vs| && !NewRecord(vs, k) && AxisFold(Unset, vs).min == Fin(vs[k]);
        assert !Undercuts(vs[k], CorrectedAxisFold(Unset, vs).min);
      }
    }
  }

  // ---------------------------------------------------------------------
  // The pass

  /** The callback of `calculateShapefileExtrema`: skips an absent datum,
      else updates the running extrema with each projected coordinate. */
  method AccumulateDatum(b: Bounds, datum: Option<Geometry>, proj: Projection) returns (r: Bounds)
    ensures r == Fold(b, DatumPoints(datum, proj))
    ensures datum.None? ==> r == b
  {
    if datum.None? {
      return b;
    }
    r := b;
    var coords := datum.value.coordinates;
    ghost var ps := GeometryPoints(datum.value, proj);
    for i := 0 to |coords|
      invariant r == Fold(b, ps[..i])
    {
      var point := Project(proj, coords[i]);
      if Exceeds(point.x, r.lon.max) {
        r := r.(lon := r.lon.(max := Fin(point.x)));
      } else if Undercuts(point.x, r.lon.min) {
        r := r.(lon := r.lon.(min := Fin(point.x)));
      }
      if Exceeds(point.y, r.lat.max) {
        r := r.(lat := r.lat.(max := Fin(point.y)));
      } else if Undercuts(point.y, r.lat.min) {
        r := r.(lat := r.lat.(min := Fin(point.y)));
      }
      assert ps[..i + 1][..i] == ps[..i];
    }
    assert ps[..|coords|] == ps;
  }

  /** `calculateShapefileExtrema`: one full traversal of the file, returning
      extrema whose `max` is sound on both axes and attained by a coordinate,
      and whose `min` bounds every coordinate that did not raise `max` on that
      axis at its turn. */
  method CalculateShapefileExtrema(records: seq<Geometry>, proj: Projection) returns (b: Bounds)
    ensures b == ExtremaOf(records, proj)
    ensures forall p :: p in RoadPoints(records, proj) ==> !Exceeds(p.x, b.lon.max) && !Exceeds(p.y, b.lat.max)
    ensures RoadPoints(records, proj) != [] ==>
      (exists p :: p in RoadPoints(records, proj) && b.lon.max == Fin(p.x)) &&
      (exists p :: p in RoadPoints(records, proj) && b.lat.max == Fin(p.y))
    ensures forall i :: 0 <= i < |Xs(RoadPoints(records, proj))| && !NewRecord(Xs(RoadPoints(records, proj)), i) ==>
      b.lon.min.Fin? && !Undercuts(Xs(RoadPoints(records, proj))[i], b.lon.min)
    ensures forall i :: 0 <= i < |Ys(RoadPoints(records, proj))| && !NewRecord(Ys(RoadPoints(records, proj)), i) ==>
      b.lat.min.Fin? && !Undercuts(Ys(RoadPoints(records, proj))[i], b.lat.min)
  {
    var values := ReadShapeFile(records);
    b := Initial;
    for k := 0 to |values|
      invariant b == Fold(Initial, AllPoints(values[..k], proj))
    {
      b := AccumulateDatum(b, values[k], proj);
      assert values[..k + 1][..k] == values[..k];
      FoldAppend(Initial, AllPoints(values[..k], proj), DatumPoints(values[k], proj));
    }
    assert values[..|values|] == values;
    ghost var ps := RoadPoints(records, proj);
    FoldAxes(Initial, ps);
    AsWrittenMax(Xs(ps));
    AsWrittenMax(Ys(ps));
    AsWrittenMin(Xs(ps));
    AsWrittenMin(Ys(ps));
    forall p | p in ps
      ensures !Exceeds(p.x, b.lon.max) && !Exceeds(p.y, b.lat.max)
    {
      var i :| 0 <= i < |ps| && ps[i] == p;
      assert Xs(ps)[i] == p.x && Ys(ps)[i] == p.y;
    }
    if ps != [] {
      var i :| 0 <= i < |Xs(ps)| && b.lon.max == Fin(Xs(ps)[i]);
      var j :| 0 <= j < |Ys(ps)| && b.lat.max == Fin(Ys(ps)[j]);
      assert ps[i] in ps && ps[j] in ps;
    }
  }
}
