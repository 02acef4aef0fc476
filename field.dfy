/** The particle field step of `draw`: with a face in view it spawns new
    particles around the forehead, then walks the particle array from back
    to front applying the blink, the hand-wave check and the update, and
    removes every particle whose opacity reached 0; without a face every
    particle is updated with no face, which makes it fade. */
module Field {
  import opened Geometry
  import opened Motion
  import opened Particles

  const MAX_PARTICLES: int := 700
  const SPAWN_RATE: int := 15

  /** The six face-mesh landmarks the sketch reads, in normalised video
      coordinates: 10 (forehead), 159 and 145 (upper and lower lid of the
      left eye), 386 (upper lid of the right eye), 234 and 454 (the two
      sides of the face). */
  datatype Landmarks = Landmarks(
    forehead: Vec, leftUpperLid: Vec, leftLowerLid: Vec, rightUpperLid: Vec,
    side234: Vec, side454: Vec)

  /** What `draw` derives from the landmarks, in canvas pixels. The eyes
      count as closed when the lid gap is below 0.045 of the face width. */
  datatype Face = Face(center: Vec, leftEye: Vec, rightEye: Vec, width: real, blinking: bool)

  function FaceOf(lm: Landmarks, width: real, height: real, d: Display): (f: Face)
    ensures f.width >= 0.0
    ensures f.center == CanvasPos(lm.forehead, width, height, d)
    ensures f.leftEye == CanvasPos(lm.leftUpperLid, width, height, d)
    ensures f.rightEye == CanvasPos(lm.rightUpperLid, width, height, d)
  {
    var faceWidth := Abs(CanvasPos(lm.side454, width, height, d).x - CanvasPos(lm.side234, width, height, d).x);
    var eyeDist := Abs(CanvasPos(lm.leftLowerLid, width, height, d).y - CanvasPos(lm.leftUpperLid, width, height, d).y);
    Face(CanvasPos(lm.forehead, width, height, d),
         CanvasPos(lm.leftUpperLid, width, height, d),
         CanvasPos(lm.rightUpperLid, width, height, d),
         faceWidth, eyeDist < faceWidth * 0.045)
  }

  /** The face width and the lid gap are the landmarks' own distances in
      normalised coordinates, scaled by the display size. */
  lemma {:induction false} FaceMeasures(lm: Landmarks, width: real, height: real, d: Display)
    requires d.w >= 0.0 && d.h >= 0.0
    ensures FaceOf(lm, width, height, d).width == Mul(d.w, Abs(lm.side454.x - lm.side234.x))
    ensures FaceOf(lm, width, height, d).blinking
            <==> Mul(d.h, Abs(lm.leftLowerLid.y - lm.leftUpperLid.y))
                 < Mul(d.w, Abs(lm.side454.x - lm.side234.x)) * 0.045
  {
    CanvasGapX(lm.side454, lm.side234, width, height, d);
    AbsOfScaled(lm.side234.x - lm.side454.x, d.w);
    CanvasGapY(lm.leftLowerLid, lm.leftUpperLid, width, height, d);
    AbsOfScaled(lm.leftLowerLid.y - lm.leftUpperLid.y, d.h);
  }

  lemma AbsOfScaled(a: real, k: real)
    requires k >= 0.0
    ensures Abs(Mul(a, k)) == Mul(k, Abs(a))
  {
    if a < 0.0 {
      assert Mul(a, k) == -Mul(-a, k);
    }
    if a < 0.0 && k > 0.0 { NegativeTimesPositive(a, k); }
  }

  lemma NegativeTimesPositive(a: real, k: real)
    requires a < 0.0 && k > 0.0
    ensures Mul(a, k) < 0.0
  {
    PositiveProduct(-a, k);
    assert Mul(a, k) == -((-a) * k);
  }

  /** On a cover-fitted canvas the blink test does not depend on the window
      size: it compares the landmarks' lid gap with 4/3 of 0.045 times their
      face width, the 4:3 ratio of the video. */
  lemma {:induction false} BlinkTestScaleFree(lm: Landmarks, width: real, height: real)
    requires width > 0.0 && height > 0.0
    ensures FaceOf(lm, width, height, CoverFit(width, height)).blinking
            <==> 3.0 * Abs(lm.leftLowerLid.y - lm.leftUpperLid.y)
                 < 4.0 * 0.045 * Abs(lm.side454.x - lm.side234.x)
  {
    var d := CoverFit(width, height);
    var g := Abs(lm.leftLowerLid.y - lm.leftUpperLid.y);
    var w := Abs(lm.side454.x - lm.side234.x);
    FaceMeasures(lm, width, height, d);
    assert d.h == 0.75 * d.w;
    MulConstLeft(0.75, d.w, g);
    MulConstRight(d.w, 3.0, g);
    MulConstRight(d.w, 4.0 * 0.045, w);
    CompareScaled(d.w, 3.0 * g, 4.0 * 0.045 * w);
  }

  lemma MulConstLeft(c: real, a: real, b: real)
    ensures Mul(c * a, b) == c * Mul(a, b)
  {
  }

  lemma MulConstRight(k: real, c: real, a: real)
    ensures Mul(k, c * a) == c * Mul(k, a)
  {
  }

  lemma CompareScaled(k: real, a: real, b: real)
    requires k > 0.0
    ensures Mul(k, a) < Mul(k, b) <==> a < b
  {
    assert Mul(k, b) - Mul(k, a) == Mul(k, b - a);
    if a < b { PositiveProduct(k, b - a); }
    if b <= a { assert Mul(k, a - b) >= 0.0 by { if b < a { PositiveProduct(k, a - b); } } }
  }

  /** The blink trigger fires on the frame the eye closes, not while it stays closed. */
  function BlinkEdge(isBlinking: bool, wasBlinking: bool): bool {
    isBlinking && !wasBlinking
  }

  /** How many particles the spawn loop has added after i of its SPAWN_RATE
      rounds, starting from n particles. */
  function SpawnedAfter(n: int, i: int): (k: int)
    requires 0 <= n && 0 <= i
    ensures 0 <= k <= i
    ensures n < MAX_PARTICLES ==> k == Min(i, MAX_PARTICLES - n)
    ensures n >= MAX_PARTICLES ==> k == 0
  {
    if i == 0 then 0
    else
      var k := SpawnedAfter(n, i - 1);
      if n + k < MAX_PARTICLES then k + 1 else k
  }

  /** The spawn loop adds at most SPAWN_RATE particles, none once there are
      MAX_PARTICLES, and never pushes the count past MAX_PARTICLES. */
  function SpawnCount(n: int): (k: int)
    requires 0 <= n
    ensures 0 <= k <= SPAWN_RATE
    ensures n >= MAX_PARTICLES <==> k == 0
    ensures n + k <= Max(n, MAX_PARTICLES)
    ensures k < SPAWN_RATE ==> n + k == Max(n, MAX_PARTICLES)
  {
    SpawnedAfter(n, SPAWN_RATE)
  }

  /** The particles spawned this frame, in push order. */
  predicate DrawsOk(draws: seq<SpawnDraw>) {
    |draws| == SPAWN_RATE && forall j :: 0 <= j < |draws| ==> ValidDraw(draws[j])
  }

  function Spawns(center: Vec, fWidth: real, draws: seq<SpawnDraw>, n: int): (s: seq<PView>)
    requires DrawsOk(draws) && 0 <= n
    ensures |s| == SpawnCount(n)
    ensures forall j :: 0 <= j < |s| ==> s[j] == Spawned(center, fWidth, draws[j])
  {
    seq(SpawnCount(n), j requires 0 <= j < SpawnCount(n) => Spawned(center, fWidth, draws[j]))
  }

  /** The particles that survive the pass: those with positive opacity, in
      their original order. */
  function Survivors(vs: seq<PView>): (r: seq<PView>)
    ensures |r| <= |vs|
    ensures forall v :: v in r <==> v in vs && v.alpha > 0.0
  {
    if vs == [] then []
    else (if vs[0].alpha > 0.0 then [vs[0]] else []) + Survivors(vs[1..])
  }

  /** Removal keeps the survivors' relative order: surviving is decided
      particle by particle. */
  lemma {:induction false} SurvivorsAppend(a: seq<PView>, b: seq<PView>)
    ensures Survivors(a + b) == Survivors(a) + Survivors(b)
    decreases |a|
  {
    if a == [] {
      assert a + b == b;
    } else {
      assert (a + b)[1..] == a[1..] + b;
      SurvivorsAppend(a[1..], b);
    }
  }

  /** A pass where no opacity reaches 0 removes nothing. */
  lemma {:induction false} SurvivorsAllAlive(vs: seq<PView>)
    requires forall k :: 0 <= k < |vs| ==> vs[k].alpha > 0.0
    ensures Survivors(vs) == vs
    decreases |vs|
  {
    if vs != [] {
      SurvivorsAllAlive(vs[1..]);
    }
  }

  /** What one pass needs to know besides the particle: the face (None when
      none is seen), whether the blink fired, the motion canvas, the canvas
      and display size, and the draws of `noise`, `random2D` (one per array
      position) and the vector length. */
  datatype Pass = Pass(
    face: Option<Face>, blink: bool, grid: seq<bool>,
    width: real, height: real, display: Display,
    noise: real -> real, random2D: int -> Vec, mag: Vec -> real)

  /** One particle's turn in the pass, at array position k. */
  function StepAt(v: PView, k: int, ps: Pass): PView
    requires |ps.grid| == GRID_LEN
  {
    match ps.face
    case None => Updated(v, None, ps.noise, ps.mag)
    case Some(f) =>
      var reach := f.width * 0.4;
      var b1 := if ps.blink then Blinked(v, f.leftEye, reach, ps.mag(v.pos.Sub(f.leftEye))) else v;
      var b2 := if ps.blink then Blinked(b1, f.rightEye, reach, ps.mag(b1.pos.Sub(f.rightEye))) else b1;
      var m := AfterMotion(b2, ps.grid, ps.width, ps.height, ps.display, ps.random2D(k));
      Updated(m, Some(f.center), ps.noise, ps.mag)
  }

  /** A turn keeps the particle's constants. A fading particle keeps fading
      and loses FADE_OUT_SPEED of opacity. Without a face every particle
      fades; with one, a particle the fired blink reaches at its first eye
      fades. */
  lemma StepAtFacts(v: PView, k: int, ps: Pass)
    requires |ps.grid| == GRID_LEN
    ensures var r := StepAt(v, k, ps);
            && r.glyph == v.glyph && r.targetOffset == v.targetOffset && r.maxAlpha == v.maxAlpha
            && (v.fading ==> r.fading && r.alpha == v.alpha - FADE_OUT_SPEED)
            && (ps.face.None? ==> r.fading)
            && (ps.face.Some? && ps.blink
                && ps.mag(v.pos.Sub(ps.face.value.leftEye)) < ps.face.value.width * 0.4
                ==> r.fading)
  {
    match ps.face
    case None => UpdatedFacts(v, None, ps.noise, ps.mag);
    case Some(f) =>
      var reach := f.width * 0.4;
      var b1 := if ps.blink then Blinked(v, f.leftEye, reach, ps.mag(v.pos.Sub(f.leftEye))) else v;
      var b2 := if ps.blink then Blinked(b1, f.rightEye, reach, ps.mag(b1.pos.Sub(f.rightEye))) else b1;
      var m := AfterMotion(b2, ps.grid, ps.width, ps.height, ps.display, ps.random2D(k));
      BlinkedFacts(v, f.leftEye, reach, ps.mag(v.pos.Sub(f.leftEye)));
      BlinkedFacts(b1, f.rightEye, reach, ps.mag(b1.pos.Sub(f.rightEye)));
      AfterMotionFacts(b2, ps.grid, ps.width, ps.height, ps.display, ps.random2D(k));
      UpdatedFacts(m, Some(f.center), ps.noise, ps.mag);
  }

  /** Every particle takes its turn, each at its own array position. */
  function StepAll(vs: seq<PView>, ps: Pass): (r: seq<PView>)
    requires |ps.grid| == GRID_LEN
    ensures |r| == |vs|
    ensures forall k :: 0 <= k < |vs| ==> r[k] == StepAt(vs[k], k, ps)
  {
    seq(|vs|, k requires 0 <= k < |vs| => StepAt(vs[k], k, ps))
  }

  /** Each turn keeps the particle invariant. */
  lemma StepKeepsInv(v: PView, k: int, ps: Pass)
    requires |ps.grid| == GRID_LEN && Inv(v)
    ensures Inv(StepAt(v, k, ps))
  {
    match ps.face
    case None => UpdatedKeepsInv(v, None, ps.noise, ps.mag);
    case Some(f) =>
      var reach := f.width * 0.4;
      var b1 := if ps.blink then Blinked(v, f.leftEye, reach, ps.mag(v.pos.Sub(f.leftEye))) else v;
      var b2 := if ps.blink then Blinked(b1, f.rightEye, reach, ps.mag(b1.pos.Sub(f.rightEye))) else b1;
      var m := AfterMotion(b2, ps.grid, ps.width, ps.height, ps.display, ps.random2D(k));
      BlinkedFacts(v, f.leftEye, reach, ps.mag(v.pos.Sub(f.leftEye)));
      BlinkedFacts(b1, f.rightEye, reach, ps.mag(b1.pos.Sub(f.rightEye)));
      AfterMotionFacts(b2, ps.grid, ps.width, ps.height, ps.display, ps.random2D(k));
      assert Inv(m);
      UpdatedKeepsInv(m, Some(f.center), ps.noise, ps.mag);
  }

  /** The passes are well formed: each has a motion canvas of the right size. */
  predicate PassesOk(pss: seq<Pass>) {
    forall i :: 0 <= i < |pss| ==> |pss[i].grid| == GRID_LEN
  }

  /** One particle's consecutive turns: the i-th at array position ks[i]
      in the pass pss[i], where the particle has survived every earlier one. */
  function TurnsOf(v: PView, ks: seq<int>, pss: seq<Pass>): PView
    requires |ks| == |pss| && PassesOk(pss)
    decreases |ks|
  {
    if ks == [] then v else TurnsOf(StepAt(v, ks[0], pss[0]), ks[1..], pss[1..])
  }

  /** Through any turns, a fading particle keeps fading and loses exactly
      FADE_OUT_SPEED of opacity per turn, whatever the face, blink and hand
      waves of each pass. */
  lemma {:induction false} FadingTurns(v: PView, ks: seq<int>, pss: seq<Pass>)
    requires |ks| == |pss| && PassesOk(pss) && v.fading
    ensures TurnsOf(v, ks, pss).fading
    ensures TurnsOf(v, ks, pss).alpha == v.alpha - FADE_OUT_SPEED * |ks| as real
    decreases |ks|
  {
    if ks != [] {
      StepAtFacts(v, ks[0], pss[0]);
      FadingTurns(StepAt(v, ks[0], pss[0]), ks[1..], pss[1..]);
    }
  }

  /** A fading particle whose opacity is at most MAX_ALPHA_HI ends its 20th
      turn at opacity <= 0, so the pass of that turn splices it out. */
  lemma FadedWithinTwentyTurns(v: PView, ks: seq<int>, pss: seq<Pass>)
    requires |ks| == |pss| == 20 && PassesOk(pss)
    requires v.fading && v.alpha <= MAX_ALPHA_HI
    ensures TurnsOf(v, ks, pss).alpha <= 0.0
    ensures Survivors([TurnsOf(v, ks, pss)]) == []
  {
    FadingTurns(v, ks, pss);
    var r := TurnsOf(v, ks, pss);
    assert [r][1..] == [];
  }

  /** The per-frame input: the landmarks of the first detected face, if any,
      and the outputs of p5's random sources for this frame. */
  datatype Inputs = Inputs(
    landmarks: Option<Landmarks>, draws: seq<SpawnDraw>,
    noise: real -> real, random2D: int -> Vec, mag: Vec -> real)

  datatype FieldState = FieldState(views: seq<PView>, wasBlinking: bool)

  /** The blink trigger of a frame's pass: it fires only when a face is
      seen, on the frame its eyes close. */
  function FrameBlink(st: FieldState, input: Inputs, width: real, height: real): bool {
    match input.landmarks
    case None => false
    case Some(lm) => BlinkEdge(FaceOf(lm, width, height, CoverFit(width, height)).blinking, st.wasBlinking)
  }

  /** The particle part of one `draw` call on a width x height canvas with
      motion canvas `grid`. */
  function Frame(st: FieldState, input: Inputs, grid: seq<bool>, width: real, height: real): (r: FieldState)
    requires |grid| == GRID_LEN && DrawsOk(input.draws)
    ensures input.landmarks.None? ==> r.wasBlinking == st.wasBlinking
    ensures input.landmarks.Some? ==>
              r.wasBlinking == FaceOf(input.landmarks.value, width, height, CoverFit(width, height)).blinking
  {
    var d := CoverFit(width, height);
    match input.landmarks
    case None =>
      var ps := Pass(None, false, grid, width, height, d, input.noise, input.random2D, input.mag);
      FieldState(Survivors(StepAll(st.views, ps)), st.wasBlinking)
    case Some(lm) =>
      FaceFrame(st, FaceOf(lm, width, height, d), FrameBlink(st, input, width, height), input, grid, width, height, d)
  }

  /** A frame in which `face` is seen on display d: the particles spawned at
      the forehead join the array, the pass runs with the blink trigger
      `blink`, and the blink state is remembered. */
  function FaceFrame(st: FieldState, f: Face, blink: bool, input: Inputs, grid: seq<bool>, width: real, height: real, d: Display): FieldState
    requires |grid| == GRID_LEN && DrawsOk(input.draws)
  {
    var spawned := st.views + Spawns(f.center, f.width, input.draws, |st.views|);
    var ps := Pass(Some(f), blink, grid, width, height, d, input.noise, input.random2D, input.mag);
    FieldState(Survivors(StepAll(spawned, ps)), f.blinking)
  }

  /** A run of frames can be replayed: every input has its spawn draws and
      a motion canvas of the right size. */
  predicate FramesOk(inputs: seq<Inputs>, grids: seq<seq<bool>>) {
    && |inputs| == |grids|
    && forall j :: 0 <= j < |inputs| ==> |grids[j]| == GRID_LEN && DrawsOk(inputs[j].draws)
  }

  /** The state after the frames `inputs`, with motion canvases `grids`, one after the other. */
  function Frames(st: FieldState, inputs: seq<Inputs>, grids: seq<seq<bool>>, width: real, height: real): FieldState
    requires FramesOk(inputs, grids)
    decreases |inputs|
  {
    if inputs == [] then st
    else
      var n := |inputs| - 1;
      Frame(Frames(st, inputs[..n], grids[..n], width, height), inputs[n], grids[n], width, height)
  }

  /** The eyes are closed in frame `input`. */
  predicate ClosedIn(input: Inputs, width: real, height: real) {
    input.landmarks.Some? && FaceOf(input.landmarks.value, width, height, CoverFit(width, height)).blinking
  }

  /** Frame j is the last of `inputs` with a face. */
  predicate LastFace(inputs: seq<Inputs>, j: int) {
    0 <= j < |inputs| && inputs[j].landmarks.Some?
    && forall k :: j < k < |inputs| ==> inputs[k].landmarks.None?
  }

  /** The last frame of a run remembers its own blink state when it shows
      a face and keeps the one before it otherwise. */
  lemma FramesLast(st: FieldState, inputs: seq<Inputs>, grids: seq<seq<bool>>, width: real, height: real)
    requires FramesOk(inputs, grids) && inputs != []
    ensures var n := |inputs| - 1;
            Frames(st, inputs, grids, width, height).wasBlinking
            == if inputs[n].landmarks.Some? then ClosedIn(inputs[n], width, height)
               else Frames(st, inputs[..n], grids[..n], width, height).wasBlinking
  {
  }

  /** The remembered blink state is that of the last frame with a face, or
      the initial one when no frame showed a face. */
  lemma {:induction false} FramesLatch(st: FieldState, inputs: seq<Inputs>, grids: seq<seq<bool>>, width: real, height: real)
    requires FramesOk(inputs, grids)
    ensures (forall j :: 0 <= j < |inputs| ==> inputs[j].landmarks.None?) ==>
              Frames(st, inputs, grids, width, height).wasBlinking == st.wasBlinking
    ensures forall j :: LastFace(inputs, j) ==>
              Frames(st, inputs, grids, width, height).wasBlinking == ClosedIn(inputs[j], width, height)
    decreases |inputs|
  {
    if inputs != [] {
      var n := |inputs| - 1;
      var pre := inputs[..n];
      FramesLatch(st, pre, grids[..n], width, height);
      FramesLast(st, inputs, grids, width, height);
      forall j | LastFace(inputs, j)
        ensures Frames(st, inputs, grids, width, height).wasBlinking == ClosedIn(inputs[j], width, height)
      {
        if j < n {
          assert inputs[n].landmarks.None?;
          assert pre[j] == inputs[j];
          assert LastFace(pre, j);
        } else {
          assert j == n;
        }
      }
      if forall j :: 0 <= j < |inputs| ==> inputs[j].landmarks.None? {
        assert inputs[n].landmarks.None?;
        assert forall j :: 0 <= j < |pre| ==> pre[j].landmarks.None?;
      }
    }
  }

  /** After a run of frames, the next frame fires the blink exactly when its
      eyes are closed and they were open in the last frame with a face (or,
      with no face seen yet, when the initial state was open). */
  lemma BlinkFiresIffWasOpen(st: FieldState, inputs: seq<Inputs>, grids: seq<seq<bool>>, next: Inputs, width: real, height: real)
    requires FramesOk(inputs, grids)
    ensures (forall j :: 0 <= j < |inputs| ==> inputs[j].landmarks.None?) ==>
              (FrameBlink(Frames(st, inputs, grids, width, height), next, width, height)
               <==> ClosedIn(next, width, height) && !st.wasBlinking)
    ensures forall j :: LastFace(inputs, j) ==>
              (FrameBlink(Frames(st, inputs, grids, width, height), next, width, height)
               <==> ClosedIn(next, width, height) && !ClosedIn(inputs[j], width, height))
  {
    FramesLatch(st, inputs, grids, width, height);
  }

  /** While the eyes stay closed from one frame to the next, the second
      frame's pass does not fire the blink. */
  lemma BlinkFiresOnce(st: FieldState, first: Inputs, second: Inputs, grid1: seq<bool>, width: real, height: real)
    requires |grid1| == GRID_LEN && DrawsOk(first.draws)
    requires ClosedIn(first, width, height) && ClosedIn(second, width, height)
    ensures !FrameBlink(Frame(st, first, grid1, width, height), second, width, height)
  {
  }

  /** When the eyes were open in one frame and are closed in the next, the
      second frame's pass fires the blink. */
  lemma BlinkFiresOnClosing(st: FieldState, first: Inputs, second: Inputs, grid1: seq<bool>, width: real, height: real)
    requires |grid1| == GRID_LEN && DrawsOk(first.draws)
    requires first.landmarks.Some? && !ClosedIn(first, width, height) && ClosedIn(second, width, height)
    ensures FrameBlink(Frame(st, first, grid1, width, height), second, width, height)
  {
  }

  /** What holds between frames: at most MAX_PARTICLES particles, each
      keeping its invariant and still visible. */
  predicate StateOk(st: FieldState) {
    && |st.views| <= MAX_PARTICLES
    && forall k :: 0 <= k < |st.views| ==> Inv(st.views[k]) && st.views[k].alpha > 0.0
  }

  /** A pass over at most MAX_PARTICLES particles that keep their invariant
      leaves a state that is OK again. */
  lemma {:induction false} PassKeepsStateOk(vs: seq<PView>, ps: Pass, wasBlinking: bool)
    requires |ps.grid| == GRID_LEN && |vs| <= MAX_PARTICLES
    requires forall k :: 0 <= k < |vs| ==> Inv(vs[k])
    ensures StateOk(FieldState(Survivors(StepAll(vs, ps)), wasBlinking))
  {
    var r := StepAll(vs, ps);
    forall k | 0 <= k < |vs| ensures Inv(r[k]) {
      StepKeepsInv(vs[k], k, ps);
    }
    var s := Survivors(r);
    forall k | 0 <= k < |s| ensures Inv(s[k]) && s[k].alpha > 0.0 {
      assert s[k] in r;
    }
  }

  /** A frame keeps the population bound and every particle's invariant and
      leaves only visible particles. */
  lemma {:induction false} FrameKeepsStateOk(st: FieldState, input: Inputs, grid: seq<bool>, width: real, height: real)
    requires |grid| == GRID_LEN && DrawsOk(input.draws)
    requires StateOk(st)
    ensures StateOk(Frame(st, input, grid, width, height))
  {
    var d := CoverFit(width, height);
    match input.landmarks
    case None =>
      var ps := Pass(None, false, grid, width, height, d, input.noise, input.random2D, input.mag);
      PassKeepsStateOk(st.views, ps, st.wasBlinking);
    case Some(lm) =>
      var f := FaceOf(lm, width, height, d);
      var sp := Spawns(f.center, f.width, input.draws, |st.views|);
      var spawned := st.views + sp;
      var ps := Pass(Some(f), FrameBlink(st, input, width, height), grid, width, height, d,
                     input.noise, input.random2D, input.mag);
      forall k | 0 <= k < |spawned| ensures Inv(spawned[k]) {
        if k >= |st.views| { assert spawned[k] == sp[k - |st.views|]; }
      }
      PassKeepsStateOk(spawned, ps, f.blinking);
  }

  /** A frame without a face spawns nothing, and every particle left is a
      particle of the previous frame updated without a face: fading. */
  lemma {:induction false} LostFaceFadesAll(st: FieldState, input: Inputs, grid: seq<bool>, width: real, height: real)
    requires |grid| == GRID_LEN && DrawsOk(input.draws)
    requires input.landmarks.None?
    ensures |Frame(st, input, grid, width, height).views| <= |st.views|
    ensures forall v :: v in Frame(st, input, grid, width, height).views ==>
              v.fading && exists u :: u in st.views && v == Updated(u, None, input.noise, input.mag)
  {
    var d := CoverFit(width, height);
    var ps := Pass(None, false, grid, width, height, d, input.noise, input.random2D, input.mag);
    var r := StepAll(st.views, ps);
    forall v | v in Survivors(r)
      ensures v.fading && exists u :: u in st.views && v == Updated(u, None, input.noise, input.mag)
    {
      var k :| 0 <= k < |r| && r[k] == v;
      StepAtFacts(st.views[k], k, ps);
      assert st.views[k] in st.views;
    }
  }

  /** One particle's turn in the loops of `draw`: with a face, both blinks
      when the trigger fired, then the hand-wave check, then the update;
      without a face only `update(null)`. */
  method Visit(p: Particle, k: int, ps: Pass)
    requires |ps.grid| == GRID_LEN
    modifies p
    ensures p.View() == StepAt(old(p.View()), k, ps)
  {
    match ps.face
    case None =>
      p.Update(None, ps.noise, ps.mag);
    case Some(f) =>
      if ps.blink {
        p.BlinkExplode(f.leftEye, f.width * 0.4, ps.mag);
        p.BlinkExplode(f.rightEye, f.width * 0.4, ps.mag);
      }
      p.ApplyMotion(ps.grid, ps.width, ps.height, ps.display, ps.random2D(k));
      p.Update(Some(f.center), ps.noise, ps.mag);
  }

  /** The particles of ps whose view in vs has positive opacity, in order. */
  ghost function Kept(ps: seq<Particle>, vs: seq<PView>): (r: seq<Particle>)
    requires |ps| == |vs|
    decreases |ps|
  {
    if ps == [] then []
    else (if vs[0].alpha > 0.0 then [ps[0]] else []) + Kept(ps[1..], vs[1..])
  }

  /** Keeping the particles whose views survive yields the survivors' views. */
  lemma {:induction false} ViewsOfKept(ps: seq<Particle>, vs: seq<PView>)
    requires |ps| == |vs| && forall k :: 0 <= k < |ps| ==> ps[k].View() == vs[k]
    ensures Views(Kept(ps, vs)) == Survivors(vs)
    decreases |ps|
  {
    if ps != [] {
      var tail := Kept(ps[1..], vs[1..]);
      ViewsOfKept(ps[1..], vs[1..]);
      if vs[0].alpha > 0.0 {
        assert Kept(ps, vs) == [ps[0]] + tail;
        assert Views([ps[0]] + tail) == [vs[0]] + Views(tail);
      } else {
        assert Kept(ps, vs) == tail;
      }
    }
  }

  /** Keeping some particles of a duplicate-free sequence keeps it free of
      duplicates and adds no particle. */
  lemma {:induction false} KeptDistinct(ps: seq<Particle>, vs: seq<PView>)
    requires |ps| == |vs| && Distinct(ps)
    ensures Distinct(Kept(ps, vs))
    ensures forall p :: p in Kept(ps, vs) ==> p in ps
    decreases |ps|
  {
    if ps != [] {
      KeptDistinct(ps[1..], vs[1..]);
      assert ps[0] !in ps[1..];
    }
  }

  /** When every particle of orig shows its view after the turn, the
      particles kept are distinct, come from orig, and show the survivors'
      views; and a particle that was fading before its turn still is. */
  lemma PassOutcome(orig: seq<Particle>, before: seq<PView>, ps: Pass)
    requires |ps.grid| == GRID_LEN && |orig| == |before| && Distinct(orig)
    requires Views(orig) == StepAll(before, ps)
    ensures Views(Kept(orig, StepAll(before, ps))) == Survivors(StepAll(before, ps))
    ensures Distinct(Kept(orig, StepAll(before, ps)))
    ensures forall p :: p in Kept(orig, StepAll(before, ps)) ==> p in orig
    ensures forall j :: 0 <= j < |orig| && before[j].fading ==> orig[j].isFadingOut
  {
    var after := StepAll(before, ps);
    ViewsOfKept(orig, after);
    KeptDistinct(orig, after);
    forall j | 0 <= j < |orig| && before[j].fading ensures orig[j].isFadingOut {
      StepAtFacts(before[j], j, ps);
    }
  }

  /** Turn i of the back-to-front walk replaces the view at i by its new view. */
  lemma TurnDone(before: seq<PView>, after: seq<PView>, i: int)
    requires 0 <= i < |before| == |after|
    ensures (before[..i + 1] + after[i + 1..])[i := after[i]] == before[..i] + after[i..]
  {
  }

  /** The views of a sequence whose front shows vs and whose back shows sp. */
  lemma ViewsSplit(ps: seq<Particle>, vs: seq<PView>, sp: seq<PView>)
    requires |ps| == |vs| + |sp|
    requires forall k :: 0 <= k < |vs| ==> ps[k].View() == vs[k]
    requires forall k :: |vs| <= k < |ps| ==> ps[k].View() == sp[k - |vs|]
    ensures Views(ps) == vs + sp
  {
  }

  lemma DistinctPush(ps: seq<Particle>, p: Particle)
    requires Distinct(ps) && p !in ps
    ensures Distinct(ps + [p])
  {
  }

  /** The p5 sketch: its particle array, the blink state of the last frame
      with a face, and the motion detector's buffers. */
  class Sketch {
    const detector: MotionDetector
    var particles: seq<Particle>
    var wasBlinking: bool

    function State(): FieldState
      reads this, particles
    {
      FieldState(Views(particles), wasBlinking)
    }

    ghost predicate Valid()
      reads this, detector, particles
    {
      detector.Valid() && Distinct(particles) && StateOk(State())
    }

    /** `setup`: no particles, no blink seen, blank buffers. */
    constructor ()
      ensures Valid() && fresh(detector) && fresh(detector.grid) && fresh(detector.prevFrame)
      ensures State() == FieldState([], false)
    {
      detector := new MotionDetector();
      particles := [];
      wasBlinking := false;
    }

    /** The spawn loop of `draw`: SPAWN_RATE rounds, each pushing a new
        particle while there are fewer than MAX_PARTICLES. */
    method SpawnAll(center: Vec, fWidth: real, draws: seq<SpawnDraw>)
      requires DrawsOk(draws)
      modifies this
      ensures wasBlinking == old(wasBlinking)
      ensures |particles| == |old(particles)| + SpawnCount(|old(particles)|)
      ensures particles[..|old(particles)|] == old(particles)
      ensures forall j :: |old(particles)| <= j < |particles| ==> fresh(particles[j])
      ensures Views(particles) == old(Views(particles)) + Spawns(center, fWidth, draws, |old(particles)|)
      ensures Distinct(old(particles)) ==> Distinct(particles)
    {
      ghost var n := |particles|;
      for i := 0 to SPAWN_RATE
        invariant |particles| == n + SpawnedAfter(n, i)
        invariant particles[..n] == old(particles)
        invariant forall j :: 0 <= j < n ==> particles[j].View() == old(particles[j].View())
        invariant forall j :: n <= j < |particles| ==>
                    fresh(particles[j]) && particles[j].View() == Spawned(center, fWidth, draws[j - n])
        invariant wasBlinking == old(wasBlinking)
        invariant Distinct(old(particles)) ==> Distinct(particles)
      {
        if |particles| < MAX_PARTICLES {
          assert |particles| - n == i;
          var p := new Particle(center, fWidth, draws[i]);
          if Distinct(old(particles)) { DistinctPush(particles, p); }
          particles := particles + [p];
        }
      }
      ViewsSplit(particles, old(Views(particles)), Spawns(center, fWidth, draws, n));
    }

    /** Halfway through the back-to-front walk, at position i: the particles
        from i on have taken their turn and shown the views in after, the
        ones before i still show their views in before, and the array holds
        the particles before i followed by those kept from i on. */
    ghost predicate Walked(i: int, orig: seq<Particle>, before: seq<PView>, after: seq<PView>)
      reads this, orig
    {
      && 0 <= i <= |orig| == |before| == |after|
      && particles == orig[..i] + Kept(orig[i..], after[i..])
      && Views(orig) == before[..i] + after[i..]
    }

    /** One round of the back-to-front loops of `draw`: particle i takes its
        turn and is spliced out when its opacity is <= 0. */
    method Turn(i: int, ps: Pass, ghost orig: seq<Particle>, ghost before: seq<PView>, ghost after: seq<PView>)
      requires |ps.grid| == GRID_LEN
      requires 0 <= i && Distinct(orig) && after == StepAll(before, ps)
      requires Walked(i + 1, orig, before, after)
      modifies this, orig[i]
      ensures wasBlinking == old(wasBlinking)
      ensures Walked(i, orig, before, after)
    {
      var p := particles[i];
      assert p == orig[i];
      ghost var rest := Kept(orig[i + 1..], after[i + 1..]);
      ghost var front := orig[..i];
      assert particles == front + ([p] + rest);
      assert p.View() == before[i];
      Visit(p, i, ps);
      assert orig[i..][1..] == orig[i + 1..] && after[i..][1..] == after[i + 1..];
      if p.alpha <= 0.0 {
        assert particles[..i] == front;
        assert particles[i + 1..] == rest;
        particles := particles[..i] + particles[i + 1..];
      }
      TurnDone(before, after, i);
    }

    /** The walk starts at the end of the array with nothing done yet. */
    lemma WalkStart(after: seq<PView>)
      requires |after| == |particles|
      ensures Walked(|particles|, particles, Views(particles), after)
    {
      assert particles[|particles|..] == [] && after[|particles|..] == [];
    }

    /** Once the walk reaches the front, the array holds the original
        particles whose new views survive, in their original order, showing
        the survivors of the walk's views; and a particle
        that was fading before its turn still is. */
    lemma WalkEnd(ps: Pass, orig: seq<Particle>, before: seq<PView>)
      requires |ps.grid| == GRID_LEN && Distinct(orig)
      requires Walked(0, orig, before, StepAll(before, ps))
      ensures particles == Kept(orig, StepAll(before, ps))
      ensures Views(particles) == Survivors(StepAll(before, ps))
      ensures Distinct(particles)
      ensures forall p :: p in particles ==> p in orig
      ensures forall j :: 0 <= j < |orig| && before[j].fading ==> orig[j].isFadingOut
    {
      var after := StepAll(before, ps);
      assert orig[0..] == orig && after[0..] == after;
      PassOutcome(orig, before, ps);
    }

    /** The back-to-front loops of `draw`: every particle takes its turn at
        its own position and is spliced out when its opacity is <= 0. */
    method RunPass(ps: Pass)
      requires |ps.grid| == GRID_LEN
      requires Distinct(particles)
      modifies this, particles
      ensures wasBlinking == old(wasBlinking)
      ensures particles == Kept(old(particles), StepAll(old(Views(particles)), ps))
      ensures Views(particles) == Survivors(StepAll(old(Views(particles)), ps))
      ensures Distinct(particles)
      ensures forall p :: p in particles ==> p in old(particles)
      ensures forall j :: 0 <= j < |old(particles)| && old(particles[j].isFadingOut) ==> old(particles)[j].isFadingOut
    {
      ghost var orig := particles;
      ghost var before := Views(particles);
      ghost var after := StepAll(before, ps);
      WalkStart(after);
      var i := |particles|;
      while i > 0
        modifies this, orig
        invariant wasBlinking == old(wasBlinking)
        invariant Walked(i, orig, before, after)
      {
        i := i - 1;
        Turn(i, ps, orig, before, after);
      }
      WalkEnd(ps, orig, before);
      assert orig == old(particles) && before == old(Views(particles));
    }

    /** The face branch of `draw`: spawning at the forehead, then the pass
        with blinks, hand waves and `update(faceData)`; the blink state of
        this frame is remembered. */
    method FaceStep(face: Face, input: Inputs, grid: seq<bool>, width: real, height: real, d: Display)
      requires Distinct(particles) && |grid| == GRID_LEN && DrawsOk(input.draws)
      modifies this, particles
      ensures Distinct(particles)
      ensures forall p :: p in particles ==> fresh(p) || p in old(particles)
      ensures forall j :: 0 <= j < |old(particles)| && old(particles[j].isFadingOut) ==> old(particles)[j].isFadingOut
      ensures State() == FaceFrame(old(State()), face, BlinkEdge(face.blinking, old(wasBlinking)), input, grid, width, height, d)
    {
      var blink := BlinkEdge(face.blinking, wasBlinking);
      SpawnAll(face.center, face.width, input.draws);
      RunPass(Pass(Some(face), blink, grid, width, height, d, input.noise, input.random2D, input.mag));
      wasBlinking := face.blinking;
    }

    /** The face-less branch of `draw`: the pass with `update(null)` only. */
    method FacelessStep(input: Inputs, grid: seq<bool>, width: real, height: real)
      requires input.landmarks.None?
      requires Distinct(particles) && |grid| == GRID_LEN && DrawsOk(input.draws)
      modifies this, particles
      ensures Distinct(particles)
      ensures forall p :: p in particles ==> p in old(particles)
      ensures forall j :: 0 <= j < |old(particles)| && old(particles[j].isFadingOut) ==> old(particles)[j].isFadingOut
      ensures State() == Frame(old(State()), input, grid, width, height)
    {
      RunPass(Pass(None, false, grid, width, height, CoverFit(width, height), input.noise, input.random2D, input.mag));
    }

    /** The body of `draw` after `calculateMotion`, for the motion canvas
        `grid` of this frame. */
    method Step(input: Inputs, grid: seq<bool>, width: real, height: real)
      requires Valid() && |grid| == GRID_LEN && DrawsOk(input.draws)
      modifies this, particles
      ensures Valid()
      ensures forall p :: p in particles ==> fresh(p) || p in old(particles)
      ensures forall j :: 0 <= j < |old(particles)| && old(particles[j].isFadingOut) ==> old(particles)[j].isFadingOut
      ensures State() == Frame(old(State()), input, grid, width, height)
    {
      match input.landmarks {
        case Some(lm) =>
          var d := CoverFit(width, height);
          FaceStep(FaceOf(lm, width, height, d), input, grid, width, height, d);
        case None => FacelessStep(input, grid, width, height);
      }
      FrameKeepsStateOk(old(State()), input, grid, width, height);
    }

    /** `draw`: the motion canvas is recomputed from the video frame (empty
        when the camera has no pixels yet), then the particles take their step. */
    method Draw(video: seq<int>, input: Inputs, width: real, height: real)
      requires Valid() && (|video| == 0 || |video| == FRAME_LEN)
      requires DrawsOk(input.draws)
      modifies this, detector.grid, detector.prevFrame, particles
      ensures Valid()
      ensures State() == Frame(old(State()), input, MotionGrid(video, old(detector.prevFrame[..])), width, height)
      ensures detector.prevFrame[..] == if |video| == FRAME_LEN then video else old(detector.prevFrame[..])
      ensures forall p :: p in particles ==> fresh(p) || p in old(particles)
      ensures forall j :: 0 <= j < |old(particles)| && old(particles[j].isFadingOut) ==> old(particles)[j].isFadingOut
    {
      detector.CalculateMotion(video);
      Step(input, detector.grid[..], width, height);
    }
  }
}
