/** The hand-wave detector `calculateMotion`: it samples the red channel of
    the current and the previous 640x480 RGBA video frame every 20 pixels in
    each direction and marks a disc of diameter 40 on a cleared 320x240
    motion grid around every sample whose change exceeds the threshold; then
    the current frame becomes the previous one. */
module Motion {
  import opened Geometry

  const FRAME_W: int := 640
  const FRAME_H: int := 480
  /** RGBA bytes of one frame. */
  const FRAME_LEN: int := 640 * 480 * 4
  const STRIDE: int := 20
  /** Samples per row and rows of samples: x in {0, 20, .., 620}, y in {0, 20, .., 460}. */
  const COLS: int := 32
  const ROWS: int := 24
  const SAMPLES: int := 32 * 24
  const MOTION_THRESHOLD: int := 70
  /** Diameter of the disc `motionCanvas.ellipse` draws. */
  const DISC_DIAMETER: int := 40

  function IAbs(n: int): (a: int)
    ensures a >= 0 && (a == n || a == -n)
  {
    if n < 0 then -n else n
  }

  /** Samples are numbered in the loops' order: row by row, left to right. */
  function SampleX(t: int): (x: int)
    requires 0 <= t < SAMPLES
    ensures 0 <= x < FRAME_W && x % STRIDE == 0
  {
    STRIDE * (t % COLS)
  }

  function SampleY(t: int): (y: int)
    requires 0 <= t < SAMPLES
    ensures 0 <= y < FRAME_H && y % STRIDE == 0
  {
    STRIDE * (t / COLS)
  }

  /** `(x + y * VIDEO_W) * 4`: the red byte of a sampled pixel. Every sampled
      pixel lies wholly inside the frame. */
  function SampleIndex(t: int): (i: int)
    requires 0 <= t < SAMPLES
    ensures 0 <= i && i + 3 < FRAME_LEN
    ensures i % 4 == 0
  {
    (SampleX(t) + SampleY(t) * FRAME_W) * 4
  }

  /** Sample t shows motion: its red channel changed by more than the threshold. */
  predicate Hit(cur: seq<int>, prev: seq<int>, t: int)
    requires |cur| == FRAME_LEN && |prev| == FRAME_LEN
    requires 0 <= t < SAMPLES
  {
    IAbs(cur[SampleIndex(t)] - prev[SampleIndex(t)]) > MOTION_THRESHOLD
  }

  /** Grid cell c (column c % GRID_W, row c / GRID_W) is covered by the disc
      of diameter DISC_DIAMETER centred at (cx, cy): its pixel centre lies in
      the disc. Coordinates are doubled to stay in integers. */
  predicate InDisc(c: int, cx: int, cy: int) {
    var dx := 2 * (c % GRID_W) + 1 - 2 * cx;
    var dy := 2 * (c / GRID_W) + 1 - 2 * cy;
    dx * dx + dy * dy <= DISC_DIAMETER * DISC_DIAMETER
  }

  /** Cell c is marked once the first s samples have been drawn. */
  predicate MarkedBy(cur: seq<int>, prev: seq<int>, c: int, s: int)
    requires |cur| == FRAME_LEN && |prev| == FRAME_LEN
    requires 0 <= s <= SAMPLES
  {
    s > 0 && (MarkedBy(cur, prev, c, s - 1)
              || (Hit(cur, prev, s - 1) && InDisc(c, SampleX(s - 1) / 2, SampleY(s - 1) / 2)))
  }

  /** Drawing sample t adds its disc to the cells marked so far when it shows motion. */
  lemma MarkedNext(cur: seq<int>, prev: seq<int>, t: int)
    requires |cur| == FRAME_LEN && |prev| == FRAME_LEN
    requires 0 <= t < SAMPLES
    ensures forall c :: MarkedBy(cur, prev, c, t + 1)
              == (MarkedBy(cur, prev, c, t) || (Hit(cur, prev, t) && InDisc(c, SampleX(t) / 2, SampleY(t) / 2)))
  {
  }

  /** Sample COLS * row + col sits at x = STRIDE * col, y = STRIDE * row, so
      every pixel whose coordinates are multiples of STRIDE is sampled. */
  lemma SampleAt(row: int, col: int)
    requires 0 <= row < ROWS && 0 <= col < COLS
    ensures SampleX(COLS * row + col) == STRIDE * col && SampleY(COLS * row + col) == STRIDE * row
  {
  }

  /** The motion canvas `calculateMotion` leaves behind for the current frame
      `cur` and the previous frame `prev`; a frame without pixels marks nothing. */
  function MotionGrid(cur: seq<int>, prev: seq<int>): (g: seq<bool>)
    ensures |g| == GRID_LEN
    ensures |cur| != FRAME_LEN ==> forall c :: 0 <= c < GRID_LEN ==> !g[c]
  {
    seq(GRID_LEN, c => |cur| == FRAME_LEN && |prev| == FRAME_LEN && MarkedBy(cur, prev, c, SAMPLES))
  }

  /** A cell is marked exactly when some sample among the first s shows
      motion and its disc covers the cell. */
  lemma {:induction false} MarkedByIff(cur: seq<int>, prev: seq<int>, c: int, s: int)
    requires |cur| == FRAME_LEN && |prev| == FRAME_LEN
    requires 0 <= s <= SAMPLES
    ensures MarkedBy(cur, prev, c, s)
            <==> exists t :: 0 <= t < s && Hit(cur, prev, t) && InDisc(c, SampleX(t) / 2, SampleY(t) / 2)
  {
    if s > 0 {
      MarkedByIff(cur, prev, c, s - 1);
      if Hit(cur, prev, s - 1) && InDisc(c, SampleX(s - 1) / 2, SampleY(s - 1) / 2) {
        assert 0 <= s - 1 < s;
      }
    }
  }

  /** Two identical frames mark no cell. */
  lemma {:induction false} StillFrameMarksNothing(f: seq<int>, c: int, s: int)
    requires |f| == FRAME_LEN
    requires 0 <= s <= SAMPLES
    ensures !MarkedBy(f, f, c, s)
  {
    if s > 0 {
      StillFrameMarksNothing(f, c, s - 1);
    }
  }

  /** Identical frames leave the whole motion canvas blank. */
  lemma StillFrameBlank(f: seq<int>)
    requires |f| == FRAME_LEN
    ensures forall c :: 0 <= c < GRID_LEN ==> !MotionGrid(f, f)[c]
  {
    forall c | 0 <= c < GRID_LEN ensures !MotionGrid(f, f)[c] {
      StillFrameMarksNothing(f, c, SAMPLES);
    }
  }

  /** The cell at (x / 2, y / 2) of a sample that shows motion is marked. */
  lemma {:induction false} HitMarksCentre(cur: seq<int>, prev: seq<int>, t: int, s: int)
    requires |cur| == FRAME_LEN && |prev| == FRAME_LEN
    requires 0 <= t < s <= SAMPLES
    requires Hit(cur, prev, t)
    ensures MarkedBy(cur, prev, SampleX(t) / 2 + GRID_W * (SampleY(t) / 2), s)
  {
    DiscHoldsCentre(SampleX(t) / 2, SampleY(t) / 2);
    if t < s - 1 {
      HitMarksCentre(cur, prev, t, s - 1);
    }
  }

  /** Cell a + GRID_W * b is column a of row b. */
  lemma CellOf(a: int, b: int)
    requires 0 <= a < GRID_W && 0 <= b
    ensures (a + GRID_W * b) % GRID_W == a && (a + GRID_W * b) / GRID_W == b
  {
  }

  /** A disc covers the cell at its own centre. */
  lemma DiscHoldsCentre(a: int, b: int)
    requires 0 <= a < GRID_W && 0 <= b
    ensures InDisc(a + GRID_W * b, a, b)
  {
    CellOf(a, b);
  }

  /** The motion canvas (`motionCanvas`, one flag per pixel, set where it is
      white) and the previous-frame buffer (`prevFrame`, RGBA bytes). */
  class MotionDetector {
    const grid: array<bool>
    const prevFrame: array<int>

    predicate Valid() {
      grid.Length == GRID_LEN && prevFrame.Length == FRAME_LEN
    }

    /** `setup`: a blank motion canvas and a blank previous frame. */
    constructor ()
      ensures Valid() && fresh(grid) && fresh(prevFrame)
      ensures forall c :: 0 <= c < GRID_LEN ==> !grid[c]
      ensures forall i :: 0 <= i < FRAME_LEN ==> prevFrame[i] == 0
    {
      grid := new bool[GRID_LEN](_ => false);
      prevFrame := new int[FRAME_LEN](_ => 0);
    }

    /** `calculateMotion`. An empty `video` stands for a camera that has no
        pixels yet: the grid is still cleared and `prevFrame` is kept. */
    method CalculateMotion(video: seq<int>)
      requires Valid()
      requires |video| == 0 || |video| == FRAME_LEN
      modifies grid, prevFrame
      ensures grid[..] == MotionGrid(video, old(prevFrame[..]))
      ensures prevFrame[..] == if |video| == FRAME_LEN then video else old(prevFrame[..])
    {
      forall c | 0 <= c < grid.Length {
        grid[c] := false;
      }
      if |video| > 0 {
        ghost var prev := prevFrame[..];
        var y := 0;
        ghost var row := 0;
        while y < FRAME_H
          modifies grid
          invariant 0 <= row <= ROWS && y == STRIDE * row
          invariant forall c :: 0 <= c < GRID_LEN ==> grid[c] == MarkedBy(video, prev, c, COLS * row)
        {
          MarkRow(video, y, row, prev);
          y := y + STRIDE;
          row := row + 1;
        }
        assert COLS * row == SAMPLES;
        assert prev == old(prevFrame[..]);
        assert grid[..] == MotionGrid(video, prev);
        forall i | 0 <= i < prevFrame.Length {
          prevFrame[i] := video[i];
        }
      }
    }

    /** One pass of the inner loop of `calculateMotion`: the samples of row
        `row` (at height y) are compared and their discs drawn. */
    method MarkRow(video: seq<int>, y: int, ghost row: int, ghost prev: seq<int>)
      requires Valid() && |video| == FRAME_LEN && prev == prevFrame[..]
      requires 0 <= row < ROWS && y == STRIDE * row
      requires forall c :: 0 <= c < GRID_LEN ==> grid[c] == MarkedBy(video, prev, c, COLS * row)
      modifies grid
      ensures forall c :: 0 <= c < GRID_LEN ==> grid[c] == MarkedBy(video, prev, c, COLS * (row + 1))
    {
      var x := 0;
      ghost var col := 0;
      while x < FRAME_W
        invariant 0 <= col <= COLS && x == STRIDE * col
        invariant forall c :: 0 <= c < GRID_LEN ==> grid[c] == MarkedBy(video, prev, c, COLS * row + col)
      {
        ghost var t := COLS * row + col;
        SampleAt(row, col);
        MarkedNext(video, prev, t);
        var index := (x + y * FRAME_W) * 4;
        assert index == SampleIndex(t);
        if IAbs(video[index] - prevFrame[index]) > MOTION_THRESHOLD {
          forall c | 0 <= c < grid.Length && InDisc(c, x / 2, y / 2) {
            grid[c] := true;
          }
        }
        x := x + STRIDE;
        col := col + 1;
      }
    }
  }
}
