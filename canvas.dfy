/** The 2D drawing context of the canvas, as an append-only log of drawing
    commands. Rasterisation and alpha blending are not modelled: a command
    records the geometry, colour and opacity it would be painted with. */
module Canvas {
  import opened Geo

  /** A CSS colour string such as "#D3D3D3". */
  type Colour = string

  /** The initial `fillStyle` and `strokeStyle` of a 2D context. */
  const DefaultStyle: Colour := "#000000"

  datatype Command =
    | Stroke(from: Point, to: Point, colour: Colour, alpha: real)
    | FillRect(x: real, y: real, w: real, h: real, colour: Colour, alpha: real)

  /** The segments `stroke()` paints for one subpath: one from each point to
      the next. */
  function Polyline(ps: seq<Point>, colour: Colour, alpha: real): (r: seq<Command>)
    ensures |r| == if ps == [] then 0 else |ps| - 1
    decreases |ps|
  {
    if |ps| < 2 then []
    else Polyline(ps[..|ps| - 1], colour, alpha) + [Stroke(ps[|ps| - 2], ps[|ps| - 1], colour, alpha)]
  }

  /** The i-th stroke of a polyline joins point i to point i + 1. */
  lemma {:induction false} PolylineShape(ps: seq<Point>, colour: Colour, alpha: real)
    ensures forall i :: 0 <= i < |Polyline(ps, colour, alpha)| ==>
      Polyline(ps, colour, alpha)[i] == Stroke(ps[i], ps[i + 1], colour, alpha)
    decreases |ps|
  {
    if |ps| >= 2 {
      var init := ps[..|ps| - 1];
      PolylineShape(init, colour, alpha);
      forall i | 0 <= i < |Polyline(ps, colour, alpha)|
        ensures Polyline(ps, colour, alpha)[i] == Stroke(ps[i], ps[i + 1], colour, alpha)
      {
        if i < |ps| - 2 {
          assert init[i] == ps[i] && init[i + 1] == ps[i + 1];
        }
      }
    }
  }

  /** Extending a polyline by one point adds exactly the stroke to it. */
  lemma PolylineSnoc(ps: seq<Point>, p: Point, colour: Colour, alpha: real)
    requires ps != []
    ensures Polyline(ps + [p], colour, alpha) == Polyline(ps, colour, alpha) + [Stroke(ps[|ps| - 1], p, colour, alpha)]
  {
    assert (ps + [p])[..|ps|] == ps;
  }

  /** Appending to the log in two steps appends the two parts in order. */
  lemma AppendAssoc<T>(a: seq<T>, b: seq<T>, c: seq<T>)
    ensures (a + b) + c == a + (b + c)
  {
  }

  /** The segments `stroke()` paints for a whole path, subpath by subpath. */
  function PathStrokes(path: seq<seq<Point>>, colour: Colour, alpha: real): seq<Command>
    decreases |path|
  {
    if path == [] then []
    else PathStrokes(path[..|path| - 1], colour, alpha) + Polyline(path[|path| - 1], colour, alpha)
  }

  /** The path left current after painting `cmds` one segment at a time,
      each with `beginPath(); moveTo(from); lineTo(to); stroke()`: the last
      segment, or `path` when nothing was painted. */
  function StrokedPath(cmds: seq<Command>, path: seq<seq<Point>>): seq<seq<Point>>
  {
    if cmds != [] && cmds[|cmds| - 1].Stroke? then [[cmds[|cmds| - 1].from, cmds[|cmds| - 1].to]] else path
  }

  /** Painting two runs of segments leaves the path the second run leaves. */
  lemma StrokedPathAppend(xs: seq<Command>, ys: seq<Command>, path: seq<seq<Point>>)
    requires forall k :: 0 <= k < |ys| ==> ys[k].Stroke?
    ensures StrokedPath(xs + ys, path) == StrokedPath(ys, StrokedPath(xs, path))
  {
    if ys != [] {
      assert (xs + ys)[|xs + ys| - 1] == ys[|ys| - 1];
    } else {
      assert xs + ys == xs;
    }
  }

  /** Stroking a path of one two-point subpath paints one segment. */
  lemma SingleSegment(p: Point, q: Point, colour: Colour, alpha: real)
    ensures PathStrokes([[p, q]], colour, alpha) == [Stroke(p, q, colour, alpha)]
  {
    assert [[p, q]][..0] == [];
    assert [p, q][..1] == [p];
    assert Polyline([p], colour, alpha) == [];
    assert Polyline([p, q], colour, alpha) == [Stroke(p, q, colour, alpha)];
  }

  /** A canvas of the given size with its 2D context. */
  class Context {
    const width: real
    const height: real
    var fillStyle: Colour
    var strokeStyle: Colour
    var globalAlpha: real
    /** The current path, as its subpaths. */
    var path: seq<seq<Point>>
    /** Everything painted so far, oldest first. */
    var log: seq<Command>

    /** `createCanvas(width, height).getContext('2d')`. */
    constructor (width: real, height: real)
      ensures this.width == width && this.height == height
      ensures fillStyle == DefaultStyle && strokeStyle == DefaultStyle && globalAlpha == 1.0
      ensures path == [] && log == []
    {
      this.width := width;
      this.height := height;
      fillStyle := DefaultStyle;
      strokeStyle := DefaultStyle;
      globalAlpha := 1.0;
      path := [];
      log := [];
    }

    /** `fillRect(x, y, w, h)`: paints with the current fill style and opacity. */
    method FillRect(x: real, y: real, w: real, h: real)
      modifies this`log
      ensures log == old(log) + [Command.FillRect(x, y, w, h, fillStyle, globalAlpha)]
    {
      log := log + [Command.FillRect(x, y, w, h, fillStyle, globalAlpha)];
    }

    /** `beginPath()`: empties the current path. */
    method BeginPath()
      modifies this`path
      ensures path == []
    {
      path := [];
    }

    /** `moveTo(p)`: starts a new subpath at `p`. */
    method MoveTo(p: Point)
      modifies this`path
      ensures path == old(path) + [[p]]
    {
      path := path + [[p]];
    }

    /** `lineTo(p)`: extends the last subpath to `p`; with no subpath it
        starts one at `p`, as `moveTo` would. */
    method LineTo(p: Point)
      modifies this`path
      ensures old(path) == [] ==> path == [[p]]
      ensures old(path) != [] ==>
        path == old(path)[..|old(path)| - 1] + [old(path)[|old(path)| - 1] + [p]]
    {
      if path == [] {
        path := [[p]];
      } else {
        path := path[..|path| - 1] + [path[|path| - 1] + [p]];
      }
    }

    /** `stroke()`: paints every segment of the current path with the
        current stroke style and opacity; the path is kept. */
    method Stroke()
      modifies this`log
      ensures log == old(log) + PathStrokes(path, strokeStyle, globalAlpha)
    {
      log := log + PathStrokes(path, strokeStyle, globalAlpha);
    }
  }
}
