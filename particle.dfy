/** One glyph particle (`class Particle`): it is spawned around the forehead
    outside a small central void, follows the face on a weak spring, sways on
    two noise phases, and is thrown off by a blink or a hand wave or by
    straying too far. Once it starts fading out it never fades back in.

    Where a tuning constant multiplies a variable, the body writes the
    constant's value with its name in a comment beside it, so that the
    product stays linear. */
module Particles {
  import opened Geometry

  const RANGE_X: real := 1.8
  const RANGE_Y_TOP: real := -0.4
  const RANGE_Y_BOTTOM: real := 0.6
  const CENTER_VOID: real := 15.0
  const LEAVE_DISTANCE: real := 230.0
  const FOLLOW_STRENGTH: real := 0.001
  const VISCOSITY: real := 0.92
  const SWAY_FORCE: real := 0.8
  const SWAY_SPEED: real := 0.01
  const FADE_IN_SPEED: real := 0.04
  const FADE_OUT_SPEED: real := 10.0
  const FLEE_SPEED: real := 7.0
  const BLINK_FLEE_FORCE: real := 10.0
  /** `maxAlpha` is drawn from [MAX_ALPHA_LO, MAX_ALPHA_HI). */
  const MAX_ALPHA_LO: real := 120.0
  const MAX_ALPHA_HI: real := 200.0
  const NOISE_SEED_RANGE: real := 10000.0
  /** The two glyphs, U+7720 and U+6C17. */
  const GLYPHS: seq<char> := ['眠', '気']

  /** p5's `lerp(start, stop, amt)`. */
  function Lerp(start: real, stop: real, amt: real): real {
    amt * (stop - start) + start
  }

  /** One fade-in step: `lerp(alpha, maxAlpha, FADE_IN_SPEED)`. */
  function EaseStep(alpha: real, maxAlpha: real): real {
    Lerp(alpha, maxAlpha, 0.04 /* FADE_IN_SPEED */)
  }

  /** p5's `random(lo, hi)` for the uniform draw u behind it: the bounds are
      swapped when lo > hi, and the result lies in the half-open interval. */
  function RandomBetween(u: real, lo: real, hi: real): (r: real)
    requires 0.0 <= u < 1.0
    ensures lo <= hi ==> lo <= r <= hi && (lo < hi ==> r < hi)
    ensures hi < lo ==> hi <= r < lo
  {
    if lo > hi then
      ScaleBelow(u, lo - hi);
      Mul(u, lo - hi) + hi
    else
      ScaleBelow(u, hi - lo);
      Mul(u, hi - lo) + lo
  }

  /** A draw in [0, 1) scales k >= 0 into [0, k], and into [0, k) when k > 0. */
  lemma ScaleBelow(u: real, k: real)
    requires 0.0 <= u < 1.0 && k >= 0.0
    ensures 0.0 <= Mul(u, k) <= k
    ensures k > 0.0 ==> Mul(u, k) < k
  {
    if k > 0.0 {
      assert k - u * k == (1.0 - u) * k;
    }
  }

  /** The centre-void rule of the constructor: an offset inside the square
      |rx| < CENTER_VOID, |ry| < CENTER_VOID is pushed sideways by
      CENTER_VOID, away from the centre (rx = 0 goes left). */
  function VoidOffset(rx: real, ry: real): (o: Vec)
    ensures o.y == ry
    ensures !(Abs(o.x) < CENTER_VOID && Abs(o.y) < CENTER_VOID)
    ensures !(Abs(rx) < CENTER_VOID && Abs(ry) < CENTER_VOID) ==> o.x == rx
    ensures (o.x > 0.0) == (rx > 0.0)
    ensures rx == 0.0 && Abs(ry) < CENTER_VOID ==> o.x == -CENTER_VOID
  {
    if Abs(rx) < CENTER_VOID && Abs(ry) < CENTER_VOID then
      Vec(rx + (if rx > 0.0 then CENTER_VOID else -CENTER_VOID), ry)
    else Vec(rx, ry)
  }

  /** The six uniform draws in [0, 1) the constructor consumes. */
  datatype SpawnDraw = SpawnDraw(glyph: real, rx: real, ry: real, maxAlpha: real, noiseX: real, noiseY: real)

  predicate ValidDraw(d: SpawnDraw) {
    && 0.0 <= d.glyph < 1.0 && 0.0 <= d.rx < 1.0 && 0.0 <= d.ry < 1.0
    && 0.0 <= d.maxAlpha < 1.0 && 0.0 <= d.noiseX < 1.0 && 0.0 <= d.noiseY < 1.0
  }

  /** A snapshot of every field of a particle. */
  datatype PView = PView(
    glyph: char, targetOffset: Vec, maxAlpha: real,
    pos: Vec, vel: Vec, acc: Vec, alpha: real,
    noiseX: real, noiseY: real, fading: bool)

  /** What keeps holding of every particle: its ceiling is in
      [MAX_ALPHA_LO, MAX_ALPHA_HI), its opacity never exceeds the ceiling,
      and, while it has not started fading, its opacity is not negative. */
  predicate Inv(v: PView) {
    && MAX_ALPHA_LO <= v.maxAlpha < MAX_ALPHA_HI
    && v.alpha <= v.maxAlpha
    && (!v.fading ==> 0.0 <= v.alpha)
  }

  /** `random(["眠", "気"])`: the glyph at index floor(2u). */
  function GlyphOf(u: real): (c: char)
    requires 0.0 <= u < 1.0
    ensures c in GLYPHS
  {
    GLYPHS[(u * 2.0).Floor]
  }

  /** The constructor `new Particle(spawnCenter, fWidth)`. */
  function Spawned(center: Vec, fWidth: real, d: SpawnDraw): PView
    requires ValidDraw(d)
  {
    var rx := RandomBetween(d.rx, fWidth * -1.8 /* -RANGE_X */, fWidth * 1.8 /* RANGE_X */);
    var ry := RandomBetween(d.ry, fWidth * -0.4 /* RANGE_Y_TOP */, fWidth * 0.6 /* RANGE_Y_BOTTOM */);
    var offset := VoidOffset(rx, ry);
    PView(GlyphOf(d.glyph), offset, RandomBetween(d.maxAlpha, MAX_ALPHA_LO, MAX_ALPHA_HI),
          center.Add(offset), Zero, Zero, 0.0,
          d.noiseX * 10000.0 /* NOISE_SEED_RANGE */, d.noiseY * 10000.0 /* NOISE_SEED_RANGE */, false)
  }

  /** A new particle shows one of the two glyphs and sits at the spawn
      centre plus its offset. The offset lies outside the void square and,
      for a face of non-negative width, within the vertical band of the
      offset ranges; horizontally it stays within RANGE_X face widths of
      the centre unless it was pushed out of the void. The particle is at rest, transparent and not fading,
      has noise phases in [0, NOISE_SEED_RANGE), and satisfies the invariant. */
  lemma SpawnedFacts(center: Vec, fWidth: real, d: SpawnDraw)
    requires ValidDraw(d)
    ensures var v := Spawned(center, fWidth, d);
            && v.glyph in GLYPHS
            && v.pos == center.Add(v.targetOffset)
            && !(Abs(v.targetOffset.x) < CENTER_VOID && Abs(v.targetOffset.y) < CENTER_VOID)
            && (fWidth >= 0.0 ==> fWidth * RANGE_Y_TOP <= v.targetOffset.y <= fWidth * RANGE_Y_BOTTOM)
            && (fWidth >= 0.0 ==> Abs(v.targetOffset.x) <= fWidth * RANGE_X || Abs(v.targetOffset.x) < 2.0 * CENTER_VOID)
            && v.vel == Zero && v.acc == Zero && v.alpha == 0.0 && !v.fading
            && 0.0 <= v.noiseX < NOISE_SEED_RANGE && 0.0 <= v.noiseY < NOISE_SEED_RANGE
            && Inv(v)
  {
    ScaleBelow(d.noiseX, 10000.0);
    ScaleBelow(d.noiseY, 10000.0);
  }

  /** `mag` stands for p5's vector length, which `mag()`, `normalize()` and
      `dist()` compute: the non-negative square root of the squared length. */
  ghost predicate IsMag(mag: Vec -> real) {
    forall u: Vec :: 0.0 <= mag(u) && mag(u) * mag(u) == u.MagSq()
  }

  /** `blinkExplode(origin, limitDist)`, where `mag` is |pos - origin|. A
      particle closer than limitDist to the eye is pushed straight away from
      it with speed BLINK_FLEE_FORCE (a particle exactly on the eye gets no
      push, as p5 normalises the zero vector to itself) and starts fading. */
  function Blinked(v: PView, origin: Vec, limitDist: real, mag: real): PView {
    if mag < limitDist then
      var dir := v.pos.Sub(origin);
      var push := (if mag != 0.0 then dir.Scale(1.0 / mag) else dir).Scale(10.0 /* BLINK_FLEE_FORCE */);
      v.(vel := v.vel.Add(push), fading := true)
    else v
  }

  /** A blink changes only the velocity and the fading flag, sets the flag
      exactly when the particle is within reach, and leaves a particle out
      of reach alone. */
  lemma BlinkedFacts(v: PView, origin: Vec, limitDist: real, mag: real)
    ensures Blinked(v, origin, limitDist, mag).fading == (v.fading || mag < limitDist)
    ensures Blinked(v, origin, limitDist, mag)
            == v.(vel := Blinked(v, origin, limitDist, mag).vel, fading := Blinked(v, origin, limitDist, mag).fading)
    ensures !(mag < limitDist) ==> Blinked(v, origin, limitDist, mag) == v
  {
  }

  /** With the true distance to the eye, the blink push points away from the
      eye and has length BLINK_FLEE_FORCE. */
  lemma {:induction false} BlinkPushAwayFromEye(v: PView, origin: Vec, limitDist: real, mag: real)
    requires mag * mag == DistSq(v.pos, origin) && 0.0 < mag < limitDist
    ensures Blinked(v, origin, limitDist, mag).vel.Sub(v.vel)
            == v.pos.Sub(origin).Scale(BLINK_FLEE_FORCE / mag)
    ensures Blinked(v, origin, limitDist, mag).vel.Sub(v.vel).MagSq()
            == BLINK_FLEE_FORCE * BLINK_FLEE_FORCE
  {
    var dir := v.pos.Sub(origin);
    var k := BLINK_FLEE_FORCE / mag;
    var push := dir.Scale(1.0 / mag).Scale(10.0);
    assert push == dir.Scale(k) by {
      assert dir.x * (1.0 / mag) * 10.0 == dir.x * k;
      assert dir.y * (1.0 / mag) * 10.0 == dir.y * k;
    }
    var r := Blinked(v, origin, limitDist, mag);
    assert r.vel.Sub(v.vel) == push;
    calc {
      push.MagSq();
      (dir.x * k) * (dir.x * k) + (dir.y * k) * (dir.y * k);
      (dir.x * dir.x + dir.y * dir.y) * (k * k);
      (mag * mag) * (k * k);
      (mag * k) * (mag * k);
      { assert mag * k == BLINK_FLEE_FORCE; }
      BLINK_FLEE_FORCE * BLINK_FLEE_FORCE;
    }
  }

  /** A particle standing exactly on the eye is not pushed: p5 normalises
      the zero vector to itself. */
  lemma BlinkOnEyeNoPush(v: PView, origin: Vec, limitDist: real)
    requires v.pos == origin && 0.0 < limitDist
    ensures DistSq(v.pos, origin) == 0.0
    ensures Blinked(v, origin, limitDist, 0.0) == v.(fading := true)
  {
    var dir := v.pos.Sub(origin);
    assert dir == Zero;
    assert dir.Scale(10.0) == Zero;
    assert v.vel.Add(Zero) == v.vel;
  }

  /** `applyMotion(mCanvas, dW, dH)` with `dir` the draw of `random2D()`: a
      particle whose grid cell is marked gets a push of FLEE_SPEED along dir
      and starts fading; outside the open box nothing changes. */
  function AfterMotion(v: PView, grid: seq<bool>, width: real, height: real, d: Display, dir: Vec): PView
    requires |grid| == GRID_LEN
  {
    match GridCell(v.pos, width, height, d)
    case None => v
    case Some(c) => if grid[c] then v.(vel := v.vel.Add(dir.Scale(7.0 /* FLEE_SPEED */)), fading := true) else v
  }

  /** The hand-wave check changes only the velocity and the fading flag. It
      fails closed: a particle outside the open grid box is left alone. It
      sets the flag exactly when the particle's cell is marked. */
  lemma AfterMotionFacts(v: PView, grid: seq<bool>, width: real, height: real, d: Display, dir: Vec)
    requires |grid| == GRID_LEN
    ensures AfterMotion(v, grid, width, height, d, dir)
            == v.(vel := AfterMotion(v, grid, width, height, d, dir).vel,
                  fading := AfterMotion(v, grid, width, height, d, dir).fading)
    ensures !(d.w != 0.0 && d.h != 0.0 && InOpenGrid(GridPoint(v.pos, width, height, d)))
            ==> AfterMotion(v, grid, width, height, d, dir) == v
    ensures AfterMotion(v, grid, width, height, d, dir).fading
            == (v.fading || (GridCell(v.pos, width, height, d).Some?
                             && grid[GridCell(v.pos, width, height, d).value]))
  {
    GridCellSome(v.pos, width, height, d);
  }

  /** A particle on a marked cell of the motion canvas is pushed by exactly FLEE_SPEED. */
  lemma MotionPushLength(v: PView, grid: seq<bool>, width: real, height: real, d: Display, dir: Vec)
    requires |grid| == GRID_LEN && dir.MagSq() == 1.0
    requires GridCell(v.pos, width, height, d).Some? && grid[GridCell(v.pos, width, height, d).value]
    ensures AfterMotion(v, grid, width, height, d, dir).vel.Sub(v.vel).MagSq() == FLEE_SPEED * FLEE_SPEED
  {
    var push := dir.Scale(7.0);
    assert push.MagSq() == (dir.x * dir.x + dir.y * dir.y) * (FLEE_SPEED * FLEE_SPEED);
  }

  /** The sway force of `update`: two Perlin-noise phases, centred on 0. */
  function SwayForce(v: PView, noise: real -> real): Vec {
    Vec((noise(v.noiseX) - 0.5) * 0.8 /* SWAY_FORCE */, (noise(v.noiseY) - 0.5) * 0.8 /* SWAY_FORCE */)
  }

  /** Each component of the sway force lies within SWAY_FORCE / 2 of 0,
      as Perlin noise lies in [0, 1]. */
  lemma SwayBounded(v: PView, noise: real -> real)
    requires 0.0 <= noise(v.noiseX) <= 1.0 && 0.0 <= noise(v.noiseY) <= 1.0
    ensures Abs(SwayForce(v, noise).x) <= SWAY_FORCE / 2.0
    ensures Abs(SwayForce(v, noise).y) <= SWAY_FORCE / 2.0
  {
  }

  /** The weak spring towards the particle's place on the face; only a
      particle that is not fading follows a seen face. */
  function FollowForce(v: PView, center: Option<Vec>): Vec {
    if center.Some? && !v.fading then center.value.Add(v.targetOffset).Sub(v.pos).Scale(0.001 /* FOLLOW_STRENGTH */)
    else Zero
  }

  /** The spring of a following particle is FOLLOW_STRENGTH times its
      distance to its place on the face, and it vanishes exactly there; a
      fading particle or one that sees no face feels no spring. */
  lemma FollowForceLength(v: PView, center: Option<Vec>)
    ensures center.Some? && !v.fading ==>
              FollowForce(v, center).MagSq()
              == FOLLOW_STRENGTH * FOLLOW_STRENGTH * DistSq(center.value.Add(v.targetOffset), v.pos)
    ensures !(center.Some? && !v.fading) ==> FollowForce(v, center) == Zero
  {
    if center.Some? && !v.fading {
      var g := center.value.Add(v.targetOffset).Sub(v.pos);
      assert FollowForce(v, center) == g.Scale(0.001);
      assert g.Scale(0.001).MagSq() == (g.x * g.x + g.y * g.y) * (0.001 * 0.001);
    }
  }

  /** A following particle further than LEAVE_DISTANCE from the face centre
      has been shaken off; `mag` is the length behind `dist`. */
  predicate Strayed(v: PView, center: Option<Vec>, mag: Vec -> real) {
    center.Some? && !v.fading && mag(v.pos.Sub(center.value)) > LEAVE_DISTANCE
  }

  /** With the true length, straying means the squared distance exceeds
      LEAVE_DISTANCE squared. */
  lemma StrayedFar(v: PView, center: Option<Vec>, mag: Vec -> real)
    requires IsMag(mag)
    ensures Strayed(v, center, mag)
            <==> center.Some? && !v.fading && DistSq(v.pos, center.value) > LEAVE_DISTANCE * LEAVE_DISTANCE
  {
    if center.Some? {
      var m := mag(v.pos.Sub(center.value));
      assert 0.0 <= m && m * m == DistSq(v.pos, center.value);
      SquareMonotone(m, LEAVE_DISTANCE);
    }
  }

  /** For non-negative reals, comparing squares compares the reals. */
  lemma SquareMonotone(m: real, l: real)
    requires 0.0 <= m && 0.0 < l
    ensures m > l <==> m * m > l * l
  {
    if m > l {
      assert m * m - l * l == (m - l) * (m + l);
      PositiveProduct(m - l, m + l);
    } else {
      assert l * l - m * m == (l - m) * (l + m);
      if m < l { PositiveProduct(l - m, l + m); }
    }
  }

  /** The first half of `update(faceData)`: the sway force and, for a
      particle that follows a seen face, the spring force are added to the
      acceleration, the noise phases advance, and a following particle that
      has strayed starts fading. */
  function Steered(v: PView, center: Option<Vec>, noise: real -> real, mag: Vec -> real): PView {
    v.(acc := v.acc.Add(SwayForce(v, noise)).Add(FollowForce(v, center)),
       noiseX := v.noiseX + SWAY_SPEED, noiseY := v.noiseY + SWAY_SPEED,
       fading := v.fading || Strayed(v, center, mag))
  }

  /** The second half of `update(faceData)`: the particle moves by its
      velocity plus its acceleration, the velocity is damped by VISCOSITY and
      the acceleration cleared; a particle that has lost the face starts
      fading; then opacity fades out or eases in. */
  function Moved(v: PView, center: Option<Vec>): PView {
    var vel := v.vel.Add(v.acc);
    var fading := v.fading || center.None?;
    v.(pos := v.pos.Add(vel), vel := vel.Scale(0.92 /* VISCOSITY */), acc := v.acc.Scale(0.0),
       alpha := if fading then v.alpha - FADE_OUT_SPEED else EaseStep(v.alpha, v.maxAlpha),
       fading := fading)
  }

  /** `update(faceData)` with `center` the forehead (None when no face is
      seen), `noise` Perlin noise and `mag` the length behind `dist`. */
  function Updated(v: PView, center: Option<Vec>, noise: real -> real, mag: Vec -> real): PView {
    Moved(Steered(v, center, noise, mag), center)
  }

  /** An update keeps the particle's constants, clears the acceleration and
      advances both noise phases. It latches fading once the particle was
      fading, has lost the face or has strayed. Then it either lowers the
      opacity by FADE_OUT_SPEED or eases it towards the ceiling. */
  lemma UpdatedFacts(v: PView, center: Option<Vec>, noise: real -> real, mag: Vec -> real)
    ensures var r := Updated(v, center, noise, mag);
            && r.glyph == v.glyph && r.targetOffset == v.targetOffset && r.maxAlpha == v.maxAlpha
            && r.acc == Zero
            && r.noiseX == v.noiseX + SWAY_SPEED && r.noiseY == v.noiseY + SWAY_SPEED
            && (r.fading <==> v.fading || center.None? || Strayed(v, center, mag))
            && (r.fading ==> r.alpha == v.alpha - FADE_OUT_SPEED)
            && (!r.fading ==> r.alpha == EaseStep(v.alpha, v.maxAlpha))
  {
  }

  /** Integration: the new position moves by the old velocity plus the
      accumulated forces, and the new velocity is that sum damped by
      VISCOSITY. */
  lemma UpdatedMoves(v: PView, center: Option<Vec>, noise: real -> real, mag: Vec -> real)
    ensures var a := v.acc.Add(SwayForce(v, noise)).Add(FollowForce(v, center));
            && Updated(v, center, noise, mag).pos == v.pos.Add(v.vel).Add(a)
            && Updated(v, center, noise, mag).vel == v.vel.Add(a).Scale(VISCOSITY)
  {
  }

  /** Easing in never overshoots: from [0, maxAlpha] opacity moves up
      towards maxAlpha and stays below it. */
  lemma EaseInBounded(a: real, m: real)
    requires 0.0 <= a <= m
    ensures a <= EaseStep(a, m) <= m
  {
  }

  /** Easing in is geometric: each step closes FADE_IN_SPEED of the gap
      between the opacity and its ceiling. */
  lemma EaseClosesGap(a: real, m: real)
    ensures m - EaseStep(a, m) == (1.0 - FADE_IN_SPEED) * (m - a)
  {
  }

  /** Every update keeps the particle invariant, and a particle that does
      not fade never loses opacity. */
  lemma UpdatedKeepsInv(v: PView, center: Option<Vec>, noise: real -> real, mag: Vec -> real)
    requires Inv(v)
    ensures Inv(Updated(v, center, noise, mag))
    ensures !Updated(v, center, noise, mag).fading ==> v.alpha <= Updated(v, center, noise, mag).alpha
  {
    if !Updated(v, center, noise, mag).fading { EaseInBounded(v.alpha, v.maxAlpha); }
  }

  /** Consecutive updates, the i-th seeing face `centers[i]`. */
  function UpdatedAll(v: PView, centers: seq<Option<Vec>>, noise: real -> real, mag: Vec -> real): PView
    decreases |centers|
  {
    if centers == [] then v else UpdatedAll(Updated(v, centers[0], noise, mag), centers[1..], noise, mag)
  }

  /** Fading is irreversible, and each update of a fading particle lowers
      its opacity by exactly FADE_OUT_SPEED, whether a face is seen or not. */
  lemma {:induction false} FadingLowersAlpha(v: PView, centers: seq<Option<Vec>>, noise: real -> real, mag: Vec -> real)
    requires v.fading
    ensures UpdatedAll(v, centers, noise, mag).fading
    ensures UpdatedAll(v, centers, noise, mag).alpha == v.alpha - FADE_OUT_SPEED * |centers| as real
    decreases |centers|
  {
    if centers != [] {
      FadingLowersAlpha(Updated(v, centers[0], noise, mag), centers[1..], noise, mag);
    }
  }

  /** A fading particle whose opacity is at most MAX_ALPHA_HI has opacity
      <= 0, and so is removed, after at most 20 updates. */
  lemma FadedWithinTwenty(v: PView, centers: seq<Option<Vec>>, noise: real -> real, mag: Vec -> real)
    requires v.fading && v.alpha <= MAX_ALPHA_HI && |centers| == 20
    ensures UpdatedAll(v, centers, noise, mag).alpha <= 0.0
  {
    FadingLowersAlpha(v, centers, noise, mag);
  }

  /** `n` fade-in steps of opacity towards the ceiling m. */
  function EaseIn(a: real, m: real, n: nat): real
    decreases n
  {
    if n == 0 then a else EaseIn(EaseStep(a, m), m, n - 1)
  }

  /** From [0, m] easing in is monotone and bounded by the ceiling. */
  lemma {:induction false} EaseInMonotone(a: real, m: real, n: nat)
    requires 0.0 <= a <= m
    ensures a <= EaseIn(a, m, n) <= m
    ensures n > 0 ==> EaseIn(a, m, n - 1) <= EaseIn(a, m, n)
    decreases n
  {
    if n > 0 {
      EaseInBounded(a, m);
      EaseInMonotone(EaseStep(a, m), m, n - 1);
    }
  }

  /** A particle that has not faded after a run of updates was not fading
      before it. */
  lemma NotFadedBefore(v: PView, centers: seq<Option<Vec>>, noise: real -> real, mag: Vec -> real)
    requires !UpdatedAll(v, centers, noise, mag).fading
    ensures !v.fading
  {
    if v.fading { FadingLowersAlpha(v, centers, noise, mag); }
  }

  /** A particle that has not faded after a run of updates has eased its
      opacity in on every one of them. */
  lemma {:induction false} NotFadedMeansEasedIn(v: PView, centers: seq<Option<Vec>>, noise: real -> real, mag: Vec -> real)
    requires !UpdatedAll(v, centers, noise, mag).fading
    ensures UpdatedAll(v, centers, noise, mag).alpha == EaseIn(v.alpha, v.maxAlpha, |centers|)
    decreases |centers|
  {
    if centers != [] {
      var w := Updated(v, centers[0], noise, mag);
      NotFadedMeansEasedIn(w, centers[1..], noise, mag);
      NotFadedBefore(w, centers[1..], noise, mag);
    }
  }

  /** A freshly spawned particle that keeps following has an opacity in
      [0, maxAlpha] through every run of updates, and each further update
      does not lower it. */
  lemma FollowingAlphaInRange(v: PView, centers: seq<Option<Vec>>, noise: real -> real, mag: Vec -> real)
    requires v.alpha == 0.0 && Inv(v)
    requires !UpdatedAll(v, centers, noise, mag).fading
    ensures 0.0 <= UpdatedAll(v, centers, noise, mag).alpha <= v.maxAlpha
    ensures centers != [] ==> EaseIn(v.alpha, v.maxAlpha, |centers| - 1) <= UpdatedAll(v, centers, noise, mag).alpha
  {
    NotFadedBefore(v, centers, noise, mag);
    NotFadedMeansEasedIn(v, centers, noise, mag);
    EaseInMonotone(v.alpha, v.maxAlpha, |centers|);
  }

  class Particle {
    const glyph: char
    const targetOffset: Vec
    const maxAlpha: real
    var pos: Vec
    var vel: Vec
    var acc: Vec
    var alpha: real
    var noiseX: real
    var noiseY: real
    var isFadingOut: bool

    function View(): PView reads this {
      PView(glyph, targetOffset, maxAlpha, pos, vel, acc, alpha, noiseX, noiseY, isFadingOut)
    }

    constructor (spawnCenter: Vec, fWidth: real, d: SpawnDraw)
      requires ValidDraw(d)
      ensures View() == Spawned(spawnCenter, fWidth, d)
    {
      glyph := GlyphOf(d.glyph);
      var rx := RandomBetween(d.rx, fWidth * -1.8 /* -RANGE_X */, fWidth * 1.8 /* RANGE_X */);
      var ry := RandomBetween(d.ry, fWidth * -0.4 /* RANGE_Y_TOP */, fWidth * 0.6 /* RANGE_Y_BOTTOM */);
      if Abs(rx) < CENTER_VOID && Abs(ry) < CENTER_VOID {
        rx := rx + (if rx > 0.0 then CENTER_VOID else -CENTER_VOID);
      }
      targetOffset := Vec(rx, ry);
      pos := spawnCenter.Add(Vec(rx, ry));
      vel := Zero;
      acc := Zero;
      alpha := 0.0;
      maxAlpha := RandomBetween(d.maxAlpha, MAX_ALPHA_LO, MAX_ALPHA_HI);
      noiseX := d.noiseX * 10000.0 /* NOISE_SEED_RANGE */;
      noiseY := d.noiseY * 10000.0 /* NOISE_SEED_RANGE */;
      isFadingOut := false;
    }

    /** `blinkExplode(origin, limitDist)`; `mag` is the length behind
        `dist()` and `normalize()`. */
    method BlinkExplode(origin: Vec, limitDist: real, mag: Vec -> real)
      modifies this
      ensures View() == Blinked(old(View()), origin, limitDist, mag(old(pos).Sub(origin)))
    {
      var dir := pos.Sub(origin);
      var len := mag(dir);
      if len < limitDist {
        var unit := if len != 0.0 then dir.Scale(1.0 / len) else dir;
        vel := vel.Add(unit.Scale(10.0 /* BLINK_FLEE_FORCE */));
        isFadingOut := true;
      }
    }

    /** `applyMotion(mCanvas, dW, dH)`; `dir` is the draw of
        `p5.Vector.random2D()` and `grid` the motion canvas. */
    method ApplyMotion(grid: seq<bool>, width: real, height: real, d: Display, dir: Vec)
      requires |grid| == GRID_LEN
      modifies this
      ensures View() == AfterMotion(old(View()), grid, width, height, d, dir)
    {
      if d.w != 0.0 && d.h != 0.0 {
        var mx := MapRange(pos.x, (width - d.w) / 2.0, (width + d.w) / 2.0, 320.0 /* VIDEO_W / 2 */, 0.0);
        var my := MapRange(pos.y, (height - d.h) / 2.0, (height + d.h) / 2.0, 0.0, 240.0 /* VIDEO_H / 2 */);
        if mx > 0.0 && mx < 320.0 && my > 0.0 && my < 240.0 {
          if grid[mx.Floor + 320 * my.Floor] {
            vel := vel.Add(dir.Scale(7.0 /* FLEE_SPEED */));
            isFadingOut := true;
          }
        }
      }
    }

    method ApplyForce(force: Vec)
      modifies this
      ensures View() == old(View()).(acc := old(acc).Add(force))
    {
      acc := acc.Add(force);
    }

    /** `update(faceData)`. */
    method Update(center: Option<Vec>, noise: real -> real, mag: Vec -> real)
      modifies this
      ensures View() == Updated(old(View()), center, noise, mag)
    {
      Steer(center, noise, mag);
      Move(center);
    }

    /** `update`, up to the leave check. */
    method Steer(center: Option<Vec>, noise: real -> real, mag: Vec -> real)
      modifies this
      ensures View() == Steered(old(View()), center, noise, mag)
    {
      var nx := (noise(noiseX) - 0.5) * 0.8 /* SWAY_FORCE */;
      var ny := (noise(noiseY) - 0.5) * 0.8 /* SWAY_FORCE */;
      ApplyForce(Vec(nx, ny));
      noiseX := noiseX + SWAY_SPEED;
      noiseY := noiseY + SWAY_SPEED;

      if center.Some? && !isFadingOut {
        var targetPos := center.value.Add(targetOffset);
        var desired := targetPos.Sub(pos);
        ApplyForce(desired.Scale(0.001 /* FOLLOW_STRENGTH */));
        if mag(pos.Sub(center.value)) > LEAVE_DISTANCE {
          isFadingOut := true;
        }
      }
    }

    /** `update`, from the integration on. */
    method Move(center: Option<Vec>)
      modifies this
      ensures View() == Moved(old(View()), center)
    {
      vel := vel.Add(acc);
      pos := pos.Add(vel);
      vel := vel.Scale(0.92 /* VISCOSITY */);
      acc := acc.Scale(0.0);

      if center.None? { isFadingOut := true; }

      if !isFadingOut {
        alpha := EaseStep(alpha, maxAlpha);
      } else {
        alpha := alpha - FADE_OUT_SPEED;
      }
    }
  }

  /** The snapshots of a sequence of particles. */
  function Views(ps: seq<Particle>): (vs: seq<PView>)
    reads ps
    ensures |vs| == |ps| && forall k :: 0 <= k < |ps| ==> vs[k] == ps[k].View()
  {
    seq(|ps|, k reads ps requires 0 <= k < |ps| => ps[k].View())
  }

  /** No particle appears twice. */
  predicate Distinct(ps: seq<Particle>) {
    forall a, b :: 0 <= a < b < |ps| ==> ps[a] != ps[b]
  }
}
