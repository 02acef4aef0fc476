/** Plane geometry of the sketch: 2D vectors, the cover-fit of the 640x480
    video on the canvas, the mirrored map from normalised face landmarks to
    canvas pixels, and the map from canvas pixels to the 320x240 motion grid. */
module Geometry {

  datatype Option<T> = None | Some(value: T)

  /** A p5.Vector restricted to its x and y components, with exact reals. */
  datatype Vec = Vec(x: real, y: real) {
    function Add(o: Vec): Vec { Vec(x + o.x, y + o.y) }
    function Sub(o: Vec): Vec { Vec(x - o.x, y - o.y) }
    function Scale(k: real): Vec { Vec(x * k, y * k) }

    /** Squared magnitude; `mag()` is its square root. */
    function MagSq(): (m: real)
      ensures m >= 0.0
    {
      SquarePositive(x);
      SquarePositive(y);
      Sq(x) + Sq(y)
    }
  }

  const Zero: Vec := Vec(0.0, 0.0)

  function Sq(a: real): real { a * a }

  /** A product kept behind a function symbol, so that bounds on it are
      argued about the product as a whole. */
  function Mul(a: real, b: real): real { a * b }

  lemma SquarePositive(a: real)
    ensures Sq(a) >= 0.0
  {
    if a > 0.0 { PositiveProduct(a, a); }
    else if a < 0.0 { PositiveProduct(-a, -a); }
  }

  lemma PositiveProduct(a: real, b: real)
    requires a > 0.0 && b > 0.0
    ensures a * b > 0.0
  {
  }

  function Abs(r: real): (a: real)
    ensures a >= 0.0 && (a == r || a == -r)
  {
    if r < 0.0 then -r else r
  }

  function Max(a: int, b: int): int { if a < b then b else a }
  function Min(a: int, b: int): int { if a < b then a else b }

  /** Squared Euclidean distance; p5's `dist(a, b)` is its square root. */
  function DistSq(a: Vec, b: Vec): real { a.Sub(b).MagSq() }

  /** The video is VIDEO_W x VIDEO_H = 640 x 480 pixels; the arithmetic
      below writes these values with their names in comments beside them.
      The motion canvas is half as wide and half as high, stored row by row. */
  const GRID_W: int := 320
  const GRID_H: int := 240
  const GRID_LEN: int := 320 * 240

  /** The size at which the video is drawn (displayW, displayH). */
  datatype Display = Display(w: real, h: real)

  /** The cover-fit of `draw`: the video keeps its 4:3 aspect ratio, covers
      the whole canvas, and touches it on at least one pair of edges. */
  function CoverFit(width: real, height: real): (d: Display)
    ensures d.w >= width && d.h >= height
    ensures d.w == width || d.h == height
    ensures d.w * 480.0 /* VIDEO_H */ == d.h * 640.0 /* VIDEO_W */
  {
    var h := (480.0 / 640.0) /* VIDEO_H / VIDEO_W */ * width;
    if h < height then Display((640.0 / 480.0) /* VIDEO_W / VIDEO_H */ * height, height)
    else Display(width, h)
  }

  /** No smaller 4:3 display covers the canvas: CoverFit is the least cover. */
  lemma CoverFitIsLeast(width: real, height: real, e: Display)
    requires e.w * 480.0 /* VIDEO_H */ == e.h * 640.0 /* VIDEO_W */
    requires e.w >= width && e.h >= height
    ensures CoverFit(width, height).w <= e.w && CoverFit(width, height).h <= e.h
  {
  }

  /** `getCanvasPos`: a landmark in normalised video coordinates (0..1) to
      canvas pixels, mirrored horizontally and centred on the canvas. */
  function CanvasPos(pt: Vec, width: real, height: real, d: Display): (c: Vec)
    ensures pt.x == 0.0 ==> c.x == (width + d.w) / 2.0
    ensures pt.x == 1.0 ==> c.x == (width - d.w) / 2.0
    ensures pt.y == 0.0 ==> c.y == (height - d.h) / 2.0
    ensures pt.y == 1.0 ==> c.y == (height + d.h) / 2.0
  {
    Vec((1.0 - pt.x) * d.w + (width - d.w) / 2.0, pt.y * d.h + (height - d.h) / 2.0)
  }

  /** Horizontal canvas distances are mirrored normalised distances scaled by the display width. */
  lemma CanvasGapX(p: Vec, q: Vec, width: real, height: real, d: Display)
    ensures CanvasPos(p, width, height, d).x - CanvasPos(q, width, height, d).x == Mul(q.x - p.x, d.w)
  {
    assert (1.0 - p.x) * d.w - (1.0 - q.x) * d.w == (q.x - p.x) * d.w;
  }

  /** Vertical canvas distances are normalised distances scaled by the display height. */
  lemma CanvasGapY(p: Vec, q: Vec, width: real, height: real, d: Display)
    ensures CanvasPos(p, width, height, d).y - CanvasPos(q, width, height, d).y == Mul(p.y - q.y, d.h)
  {
    assert p.y * d.h - q.y * d.h == (p.y - q.y) * d.h;
  }

  /** p5's `map(n, start1, stop1, start2, stop2)`: the affine map sending
      start1 to start2 and stop1 to stop2. */
  function MapRange(n: real, start1: real, stop1: real, start2: real, stop2: real): (r: real)
    requires start1 != stop1
    ensures n == start1 ==> r == start2
    ensures n == stop1 ==> r == stop2
  {
    var q := (n - start1) / (stop1 - start1);
    assert n == start1 ==> q == 0.0;
    assert n == stop1 ==> q == 1.0 by {
      if n == stop1 { DivSelf(stop1 - start1); }
    }
    q * (stop2 - start2) + start2
  }

  lemma DivSelf(a: real)
    requires a != 0.0
    ensures a / a == 1.0
  {
    var q := a / a;
    assert q * a == a;
    assert (q - 1.0) * a == 0.0;
  }

  /** The motion-grid point (mx, my) of a canvas point, as `applyMotion`
      computes it: mirrored in x, so the left display edge goes to GRID_W. */
  function GridPoint(p: Vec, width: real, height: real, d: Display): (g: Vec)
    requires d.w != 0.0 && d.h != 0.0
    ensures p.x == (width - d.w) / 2.0 ==> g.x == GRID_W as real
    ensures p.x == (width + d.w) / 2.0 ==> g.x == 0.0
    ensures p.y == (height - d.h) / 2.0 ==> g.y == 0.0
    ensures p.y == (height + d.h) / 2.0 ==> g.y == GRID_H as real
  {
    Vec(MapRange(p.x, (width - d.w) / 2.0, (width + d.w) / 2.0, GRID_W as real, 0.0),
        MapRange(p.y, (height - d.h) / 2.0, (height + d.h) / 2.0, 0.0, GRID_H as real))
  }

  /** The motion-grid cell `mCanvas.get(mx, my)` reads, or None when the
      point is outside the open box 0 < mx < GRID_W, 0 < my < GRID_H (or the
      display is degenerate, where the source's arithmetic yields no number).
      Fails closed: every cell it returns is a valid index. */
  function GridCell(p: Vec, width: real, height: real, d: Display): (c: Option<int>)
    ensures c.Some? ==> 0 <= c.value < GRID_LEN
  {
    if d.w == 0.0 || d.h == 0.0 then None
    else
      var g := GridPoint(p, width, height, d);
      if InOpenGrid(g) then Some(g.x.Floor + 320 * g.y.Floor) else None
  }

  /** A cell is looked up exactly for points strictly inside the box, and it
      is the cell of the point's integer part. */
  lemma GridCellSome(p: Vec, width: real, height: real, d: Display)
    ensures GridCell(p, width, height, d).Some?
            <==> d.w != 0.0 && d.h != 0.0 && InOpenGrid(GridPoint(p, width, height, d))
    ensures GridCell(p, width, height, d).Some? ==>
              var g := GridPoint(p, width, height, d);
              GridCell(p, width, height, d).value % GRID_W == g.x.Floor
              && GridCell(p, width, height, d).value / GRID_W == g.y.Floor
  {
  }

  predicate InOpenGrid(g: Vec) {
    0.0 < g.x < GRID_W as real && 0.0 < g.y < GRID_H as real
  }

  /** The display edges themselves map onto the border of the box and are
      therefore never looked up. */
  lemma DisplayEdgesFailClosed(p: Vec, width: real, height: real, d: Display)
    requires d.w != 0.0 && d.h != 0.0
    requires p.x == (width - d.w) / 2.0 || p.x == (width + d.w) / 2.0
             || p.y == (height - d.h) / 2.0 || p.y == (height + d.h) / 2.0
    ensures GridCell(p, width, height, d) == None
  {
  }

  /** The x map is mirrored: moving right on the canvas moves left on the grid. */
  lemma {:induction false} GridPointMirrored(p: Vec, q: Vec, width: real, height: real, d: Display)
    requires d.w > 0.0 && d.h != 0.0
    requires p.x < q.x
    ensures GridPoint(p, width, height, d).x > GridPoint(q, width, height, d).x
  {
    var a := (width - d.w) / 2.0;
    var b := (width + d.w) / 2.0;
    assert b - a == d.w;
    assert (p.x - a) / d.w < (q.x - a) / d.w by {
      DivMonotone(p.x - a, q.x - a, d.w);
    }
  }

  lemma DivMonotone(u: real, v: real, k: real)
    requires k > 0.0 && u < v
    ensures u / k < v / k
  {
    assert v / k - u / k == (v - u) / k;
  }

  /** A landmark drawn on the canvas and mapped back to the motion grid lands
      at the landmark's own position in the half-resolution video: the two
      maps of the sketch agree, both mirroring included. */
  lemma {:induction false} GridOfCanvasPos(pt: Vec, width: real, height: real, d: Display)
    requires d.w != 0.0 && d.h != 0.0
    ensures GridPoint(CanvasPos(pt, width, height, d), width, height, d)
            == Vec(GRID_W as real * pt.x, GRID_H as real * pt.y)
  {
    var c := CanvasPos(pt, width, height, d);
    var a := (width - d.w) / 2.0;
    var top := (height - d.h) / 2.0;
    assert c.x - a == (1.0 - pt.x) * d.w;
    assert c.y - top == pt.y * d.h;
    assert (width + d.w) / 2.0 - a == d.w;
    assert (height + d.h) / 2.0 - top == d.h;
    MulDivCancel(1.0 - pt.x, d.w);
    MulDivCancel(pt.y, d.h);
  }

  lemma MulDivCancel(a: real, k: real)
    requires k != 0.0
    ensures (a * k) / k == a
  {
    var q := (a * k) / k;
    assert q * k == a * k;
    assert (q - a) * k == 0.0;
  }
}
