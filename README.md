# sekinin_oharai particle field, modelled in Dafny

`sketch.js` is a p5.js sketch. It covers the viewer's forehead with drifting
glyph particles (眠 and 気), which blinks, hand waves and head movement shake
off. This project models the sketch's simulation core and proves properties of
it:

- the particle lifecycle (`class Particle`);
- the particle step in `draw`:
  - spawn up to 15 particles per frame while there are fewer than 700;
  - walk the array back to front: blink, hand-wave check, update;
  - splice out every particle whose opacity reached 0;
  - without a face, every particle is updated with no face;
- the hand-wave detector `calculateMotion`;
- the coordinate maps: the cover-fit display size, the mirrored landmark-to-canvas map, and the canvas-to-motion-grid map with its open-box check.

## Files

- `geometry.dfy`, module `Geometry`:
  - exact 2D vectors;
  - the cover-fit `CoverFit`;
  - `getCanvasPos` (`CanvasPos`);
  - p5's `map` (`MapRange`);
  - the motion-grid lookup of `applyMotion` (`GridPoint`, `GridCell`).
- `motion.dfy`, module `Motion`:
  - what the motion canvas should be (`MotionGrid`, built from `Hit`, `InDisc` and `MarkedBy`);
  - class `MotionDetector`, which holds the motion canvas as a `bool` array and `prevFrame` as an `int` array. `CalculateMotion` runs the two stride-20 loops over them.
- `particle.dfy`, module `Particles`:
  - `PView`, a value snapshot of a particle;
  - one specification function per operation: `Spawned`, `Blinked`, `AfterMotion`, `Steered`, `Moved` and `Updated`;
  - class `Particle`, whose methods update its fields in place and are proved against those functions;
  - lemmas on the lifecycle: the fading latch, the fade-out and fade-in laws, the invariant.
- `field.dfy`, module `Field`:
  - the face derived from the landmarks (`FaceOf`);
  - the spawn count and the survivors of a pass;
  - one frame as a function on states (`Frame`), its blink trigger (`FrameBlink`), and a run of frames (`Frames`);
  - class `Sketch`, with the mutable particle sequence and `wasBlinking`. Its `SpawnAll`, `RunPass`, `Step` and `Draw` methods are proved against `Frame`.

Modelling choices:

- **Randomness and noise are inputs.** p5's `random`, `noise` and `p5.Vector.random2D` are not implemented. Each frame receives:
  - 15 `SpawnDraw`s of uniform numbers in [0, 1). `random(lo, hi)` is `RandomBetween`: p5 swaps the bounds when lo > hi.
  - A noise function.
  - One `random2D` direction per array position.
  - The landmarks of the first detected face, if there is one.
- **Vector length is an input.** `mag()`, `dist()` and `normalize()` need a square root. They go through `mag`, a function the caller supplies. `IsMag` says what `mag` must be, and the lemmas that need the true length require it.
- **Zero vectors.** `normalize()` of the zero vector stays zero, as in p5.
- **Reals, not floats.** Quantities are exact `real`s. Where a tuning constant multiplies a variable, the body writes the constant's literal value with the constant's name in a comment, so that the product stays linear for the verifier.
- **The video frame.** It is a sequence of RGBA byte values. An empty sequence stands for a camera that has no pixels yet.
- **The motion canvas.** It is one flag per pixel. `ellipse(x/2, y/2, 40, 40)` marks the cells whose pixel centre lies in the disc of diameter 40. `mCanvas.get(mx, my)[0] > 200` reads the flag of cell (floor mx, floor my).
- **Degenerate display.** If `dW` or `dH` is 0, JavaScript's `map` yields Infinity or NaN, the box test is false, and nothing is read. `GridCell` returns `None` in that case.

## Model

| member | source | states |
|---|---|---|
| Geometry.CoverFit | sketch.js:80-85 | the display keeps the video's 4:3 ratio, covers the canvas in both directions and matches it in at least one |
| Geometry.CoverFitIsLeast | sketch.js:80-85 | no smaller 4:3 display covers the canvas |
| Geometry.CanvasPos | sketch.js:97-102 | landmark x = 0 maps to the right display edge and x = 1 to the left one (mirrored); y = 0 and y = 1 map to the top and bottom edges |
| Geometry.CanvasGapX | sketch.js:97-102 | horizontal canvas distances are mirrored landmark distances times the display width |
| Geometry.CanvasGapY | sketch.js:97-102 | vertical canvas distances are landmark distances times the display height |
| Geometry.MapRange | sketch.js:206-207 | p5's `map` sends start1 to start2 and stop1 to stop2 |
| Geometry.GridPoint | sketch.js:206-207 | the left display edge maps to grid x = 320 and the right edge to 0 (the x map is mirrored); the top and bottom edges map to grid y = 0 and 240 |
| Geometry.GridPointMirrored | sketch.js:206 | moving right on the canvas strictly decreases the grid x |
| Geometry.GridOfCanvasPos | sketch.js:206-207 | a landmark drawn with `getCanvasPos` and mapped back lands at its own position in the 320x240 grid, so the two maps agree |
| Geometry.GridCell | sketch.js:206-209 | every cell looked up is a valid index of the 320x240 grid |
| Geometry.GridCellSome | sketch.js:206-209 | a cell is looked up exactly when the mapped point is strictly inside 0 < mx < 320, 0 < my < 240, and it is the cell (floor mx, floor my) |
| Geometry.DisplayEdgesFailClosed | sketch.js:206-208 | points on the display edges map onto the border of the box and are never looked up |
| Motion.SampleX | sketch.js:158 | sampled x coordinates are multiples of 20 in [0, 640) |
| Motion.SampleY | sketch.js:157 | sampled y coordinates are multiples of 20 in [0, 480) |
| Motion.SampleAt | sketch.js:157-158 | the sample numbered 32 * row + col is at (20 col, 20 row), so every stride-20 pixel is sampled |
| Motion.SampleIndex | sketch.js:159 | every index `(x + y * 640) * 4` is the start of an RGBA pixel inside the frame |
| Motion.MotionGrid | sketch.js:151-155 | the motion canvas has 320 * 240 cells, and a frame without pixels marks none |
| Motion.MarkedByIff | sketch.js:157-166 | a cell is marked exactly when some sample shows a change above MOTION_THRESHOLD and its disc covers the cell |
| Motion.StillFrameMarksNothing | sketch.js:160 | two identical frames mark no cell after any number of samples |
| Motion.StillFrameBlank | sketch.js:151-166 | comparing a frame with itself leaves the whole motion canvas blank |
| Motion.HitMarksCentre | sketch.js:160-163 | a sample with motion marks the cell at (x / 2, y / 2) |
| Motion.DiscHoldsCentre | sketch.js:163 | a disc covers the cell at its own centre |
| Motion.MotionDetector.constructor | sketch.js:51-52 | the buffers have the frame and grid sizes and start blank |
| Motion.MotionDetector.CalculateMotion | sketch.js:150-169 | the grid is cleared and then equals MotionGrid of the frame and the old `prevFrame`; afterwards `prevFrame` holds the frame, or is kept when the camera has no pixels yet |
| Motion.MotionDetector.MarkRow | sketch.js:158-165 | one pass of the inner loop marks exactly the discs of the samples in its row |
| Particles.RandomBetween | sketch.js:176-177 | `random(lo, hi)` lies in the half-open interval between the bounds, whichever comes first |
| Particles.ScaleBelow | sketch.js:190-193 | a uniform draw scales k into [0, k), so `random(10000)` lies in [0, 10000) |
| Particles.VoidOffset | sketch.js:180-182 | an offset inside the centre square is pushed out of it sideways, away from the centre (rx = 0 goes to -15), and y is unchanged; an offset outside the square is kept |
| Particles.GlyphOf | sketch.js:173 | the glyph is one of 眠 and 気 |
| Particles.SpawnedFacts | sketch.js:172-195 | a new particle shows a glyph, sits at centre plus offset outside the void, within the vertical band and within RANGE_X face widths horizontally unless pushed out of the void, is at rest, transparent and not fading, and has noise phases in [0, 10000) and a ceiling in [120, 200) |
| Particles.Particle.constructor | sketch.js:172-195 | the constructed fields are those of `Spawned` |
| Particles.BlinkedFacts | sketch.js:197-203 | a blink changes only velocity and the fading flag, sets the flag exactly for a particle closer than limitDist, and leaves others untouched |
| Particles.BlinkPushAwayFromEye | sketch.js:198-200 | the blink push points straight away from the eye and has length BLINK_FLEE_FORCE |
| Particles.BlinkOnEyeNoPush | sketch.js:198-200 | a particle exactly on the eye only starts fading, since p5 normalises the zero vector to itself |
| Particles.Particle.BlinkExplode | sketch.js:197-203 | the particle's new fields are those of `Blinked` for its distance to the eye |
| Particles.AfterMotionFacts | sketch.js:205-214 | the hand-wave check changes only velocity and the fading flag; outside the open box nothing changes (fails closed); the flag is set exactly when the particle's cell is marked |
| Particles.MotionPushLength | sketch.js:206-211 | a particle whose grid cell is marked, pushed along a unit `random2D` direction, gains velocity of length exactly FLEE_SPEED |
| Particles.Particle.ApplyMotion | sketch.js:205-214 | the particle's new fields are those of `AfterMotion` |
| Particles.Particle.ApplyForce | sketch.js:216 | only the acceleration changes, by the force |
| Particles.SwayBounded | sketch.js:220-222 | with noise in [0, 1], each component of the sway force lies within SWAY_FORCE / 2 of 0 |
| Particles.FollowForceLength | sketch.js:226-231 | the spring of a following particle has length FOLLOW_STRENGTH times its distance to its place on the face; a fading particle or one without a face feels none |
| Particles.StrayedFar | sketch.js:234 | with the true length, a following particle strays exactly when its squared distance to the face centre exceeds 230 squared |
| Particles.UpdatedFacts | sketch.js:218-251 | an update keeps the constant fields, clears acceleration, advances both noise phases by SWAY_SPEED, and latches fading when the particle was fading, lost the face or strayed; then opacity drops by FADE_OUT_SPEED or eases in with `lerp(alpha, maxAlpha, 0.04)` |
| Particles.UpdatedMoves | sketch.js:239-242 | the position moves by the old velocity plus the forces, and the new velocity is that sum damped by VISCOSITY |
| Particles.EaseInBounded | sketch.js:246-247 | one fade-in step from [0, maxAlpha] never lowers opacity and never overshoots maxAlpha |
| Particles.EaseClosesGap | sketch.js:247 | each fade-in step closes the fraction FADE_IN_SPEED of the gap between opacity and its ceiling |
| Particles.UpdatedKeepsInv | sketch.js:218-251 | every update keeps the ceiling in [120, 200), keeps opacity at most the ceiling and, while not fading, non-negative, and never lowers a non-fading particle's opacity |
| Particles.FadingLowersAlpha | sketch.js:244-250 | once fading, a particle stays fading through any run of updates, and each update lowers its opacity by exactly 10 |
| Particles.FadedWithinTwenty | sketch.js:248-250 | a fading particle with opacity at most 200 reaches opacity <= 0, the splice condition, within 20 updates |
| Particles.EaseInMonotone | sketch.js:247 | repeated fade-in steps from [0, maxAlpha] never decrease and stay within [0, maxAlpha] |
| Particles.NotFadedBefore | sketch.js:235-244 | a particle that is not fading after a run of updates was not fading before it |
| Particles.NotFadedMeansEasedIn | sketch.js:246-247 | a particle that never faded has eased its opacity in on every update |
| Particles.FollowingAlphaInRange | sketch.js:189-190 | a new particle that keeps following has an opacity in [0, maxAlpha] forever, and no update lowers it |
| Particles.Particle.Steer | sketch.js:218-237 | the particle's new fields are those of `Steered`: sway and spring forces, advanced noise phases, and the leave check |
| Particles.Particle.Move | sketch.js:239-250 | the particle's new fields are those of `Moved`: integration, the face-loss latch and the opacity step |
| Particles.Particle.Update | sketch.js:218-251 | the particle's new fields are those of `Updated` |
| Field.FaceOf | sketch.js:104-111 | the face centre and eye positions are the canvas positions of landmarks 10, 159 and 386, and the face width is not negative |
| Field.FaceMeasures | sketch.js:107-111 | the face width is the display width times the landmarks' horizontal distance; blinking means the lid gap times the display height is below 0.045 of that width |
| Field.BlinkTestScaleFree | sketch.js:80-111 | on a cover-fit display, the blink test does not depend on the canvas size: it compares the landmarks' own lid gap and face width at the ratio 3 : 4 * 0.045 |
| Field.FramesLatch | sketch.js:95-146 | after any run of frames, `wasBlinking` is the blink state of the last frame that showed a face, or the initial state when none did |
| Field.BlinkFiresIffWasOpen | sketch.js:111-139 | after any run of frames, the next frame's pass fires the blink exactly when that frame's eyes are closed and they were open in the last frame with a face (or in the initial state when no face was seen) |
| Field.BlinkFiresOnce | sketch.js:125-139 | when the eyes are closed in two consecutive frames, the second frame's pass does not fire the blink |
| Field.BlinkFiresOnClosing | sketch.js:125-139 | when the eyes are open in one frame with a face and closed in the next, the second frame's pass fires the blink |
| Field.SpawnedAfter | sketch.js:114-118 | after i rounds the spawn loop has added min(i, 700 - n) particles, none once there are 700 |
| Field.SpawnCount | sketch.js:114-118 | a frame spawns at most SPAWN_RATE particles, none once there are MAX_PARTICLES, and the count ends at most max(old count, MAX_PARTICLES); it spawns fewer than SPAWN_RATE only by reaching that bound |
| Field.Spawns | sketch.js:114-118 | the spawned particles, in push order, are the constructor's results for successive draws |
| Field.Survivors | sketch.js:135-137 | exactly the particles with positive opacity survive |
| Field.SurvivorsAppend | sketch.js:121-138 | removal is decided particle by particle, so survivors keep their relative order |
| Field.SurvivorsAllAlive | sketch.js:135-137 | a pass in which no opacity reaches 0 removes nothing |
| Field.StepAtFacts | sketch.js:121-146 | a turn keeps the constant fields; a fading particle keeps fading and loses 10 opacity; without a face every particle fades; a fired blink that reaches the particle from the left eye makes it fade |
| Field.FadingTurns | sketch.js:121-146 | through any number of turns, in any passes, a fading particle keeps fading and loses exactly 10 opacity per turn |
| Field.FadedWithinTwentyTurns | sketch.js:121-146 | a fading particle with opacity at most 200 ends its 20th turn at opacity <= 0 and so is spliced out in that pass |
| Field.StepKeepsInv | sketch.js:121-146 | each turn keeps the particle invariant |
| Field.StepAll | sketch.js:121-146 | each particle takes its own turn, at its own array position |
| Field.Frame | sketch.js:95-146 | a frame with a face remembers its blink state; a frame without one keeps the previous blink state |
| Field.PassKeepsStateOk | sketch.js:121-146 | after a pass every particle left keeps its invariant and is still visible, and there are at most 700 |
| Field.FrameKeepsStateOk | sketch.js:95-146 | every frame keeps the between-frames invariant: at most MAX_PARTICLES particles, each satisfying the particle invariant with positive opacity |
| Field.LostFaceFadesAll | sketch.js:139-146 | a face-less frame spawns nothing, and every particle left is fading and is a previous particle updated with no face |
| Field.Visit | sketch.js:122-133 | one particle's turn does both blinks if the trigger fired, then the hand-wave check, then the update, or only `update(null)` without a face |
| Field.ViewsOfKept | sketch.js:135-137 | splicing out the particles with opacity <= 0 leaves exactly the survivors' fields |
| Field.KeptDistinct | sketch.js:135-137 | splicing keeps the array free of duplicates and adds no particle |
| Field.PassOutcome | sketch.js:121-138 | after the walk the array shows the survivors, has no duplicates, holds only original particles, and every particle fading before its turn still is |
| Field.Sketch.constructor | sketch.js:37-40 | the sketch starts with no particles and no blink seen |
| Field.Sketch.SpawnAll | sketch.js:114-118 | exactly SpawnCount new particles are appended, fresh and equal to the constructor's results, and the old particles and their fields are untouched |
| Field.Sketch.Turn | sketch.js:121-138 | one round of the back-to-front loop moves the walk one position forward: particle i takes its turn and is spliced out when its opacity is <= 0 |
| Field.Sketch.WalkStart | sketch.js:121 | the walk starts at the end of the array |
| Field.Sketch.WalkEnd | sketch.js:121-138 | a finished walk leaves exactly the original particles whose new opacity is positive, in their original order, showing the survivors' fields, without duplicates, and fading particles still fading |
| Field.Sketch.RunPass | sketch.js:121-146 | the back-to-front walk gives each particle exactly one turn and leaves the original particle objects whose new opacity is positive, in their original order (`Kept`), showing exactly the survivors' fields; no particle is added and none stops fading |
| Field.Sketch.FaceStep | sketch.js:95-139 | with a face, spawning and the pass with the trigger `isBlinking && !wasBlinking` give the face branch of `Frame`, and the blink state is remembered |
| Field.Sketch.FacelessStep | sketch.js:138-146 | without a face, the pass with `update(null)` gives the state `Frame` prescribes |
| Field.Sketch.Step | sketch.js:95-146 | the particle array and blink state become `Frame` of the old ones; the between-frames invariant is kept; every particle is new or old; no particle stops fading |
| Field.Sketch.Draw | sketch.js:77-147 | `calculateMotion` then the particle step: the state becomes `Frame` for this frame's motion canvas, and `prevFrame` holds the frame |

## Left out

- Rendering is not modelled: `background`, `image`, `push`/`translate`/`scale`, `fill` and `text`, and the whole of `display` (lines 78-91, 253-263).
- Webcam capture, MediaPipe `FaceMesh`, `Camera` and the asynchronous `onResults` callback (lines 44-75) are I/O. The landmarks of the first face, or none, come in as per-frame `Inputs`.
- `windowResized`, the font and the text settings are interface glue.
- The implementations of `random`, `noise` and `p5.Vector.random2D` are not modelled. Their outputs are parameters.
- The spawn draws are taken in push order: the i-th particle pushed this frame uses the i-th of 15 draws.
- Each particle's `random2D` direction is indexed by its array position at the start of the pass. This stands for "a fresh draw per call".
- The square root behind `mag()`, `dist()` and `normalize()` is a parameter, `mag`. Only the lemmas that require `IsMag` use its exact value.
- Floating-point rounding is not modelled; arithmetic is on exact reals.
- Pixel-exact rasterisation of `motionCanvas.ellipse` and of `mCanvas.get` is replaced by the disc-membership predicate `InDisc` on pixel centres. A cell is white or clear, and `get(mx, my)[0] > 200` reads the flag.
- Pixel values are unbounded integers; their 0..255 range is not used.
- Particles.Particle.Update: `update` is modelled as a call to `Steer` (lines 218-237) followed by `Move` (lines 239-250). Field updates and order are unchanged.
- Field.Sketch.Step: `draw`'s two branches are split into `FaceStep` and `FacelessStep`.
- Motion.MotionDetector.CalculateMotion: its inner loop is the method `MarkRow`.
- Particles.FadedWithinTwenty bounds removal by 20 updates, and Field.FadedWithinTwentyTurns by 20 turns of the pass. That is stronger than 21: 200 - 20 * 10 = 0, and the splice test is `alpha <= 0`.
- Field.Frames replays frames on one canvas size; a resize between frames is not modelled.
