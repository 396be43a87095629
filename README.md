# Radar sweep: a Dafny model of the frame step

The JavaScript radar toy draws, on every animation frame, a rotating beam,
range rings, twelve labelled bearing spokes, a trail of the last beam
positions, and, while the pointer is over a second "entry" canvas, a dot at
the pointer's position that turns bright when the beam is within ten
degrees of it. This project models the state that frame step keeps and
changes, and proves what the step does to it:

- `Trail` is the trail buffer `tracePositions` as a pure specification: one
  frame's push-then-trim (`Step`), the trail after k frames (`TraceAfter`),
  and the proof that it is always the window of the last min(k, 50) beam
  endpoints, oldest first.
- `Sweep` is the rotation angle: k frames from the start give k steps of
  0.01 radian.
- `Bearings` is the label loop: the twelve values 0, 30, ..., 330.
- `Pointer` is the mousemove / mouseout handlers as a function over events,
  with the proof that the last handler decides the flag and the last
  mousemove decides the stored position.
- `Detection` is the ten-degree "bright" test, with the defect described
  under Findings and its corrected form.
- `Radar.RadarDisplay` is the script's module-level state as a class
  (`steps`, `trace`, `pointerActive`, `entryX`, `entryY`, `dotBright`) with
  `DrawFrame` for `drawRadar`, `DrawEntryDot` for `drawEntryDotOnRadar`, and
  one method per event handler. Its invariant `Valid()` says that π is known
  to five decimals, that the bearing lies in [-π, π], and that the trail is
  exactly `TraceAfter(beamEnd, steps)`, so after any number of frames the
  `Trail` lemmas describe the trail's length and contents.

Geometry the script computes with `Math.cos`, `Math.sin` and `Math.atan2`
is given to the class as parameters: `beamEnd(k)` is the beam endpoint at
step k, `bearing(dx, dy)` is the four-quadrant arctangent, and `pi` is π.

Three details of the code that the model keeps as written:

- The beam endpoint is pushed at the angle the beam was drawn at, before the
  trail is drawn. The oldest point is shifted off after the trail is drawn,
  so the draw loop visits 51 points in every frame from the 51st on. The
  angle is advanced next. The entry dot is drawn last, so its test uses the
  angle already advanced by one step.
- `isDotBright` is a module-level variable. It is written only when the dot
  is drawn and keeps its old value while the pointer is out.
- The angle is never reduced modulo 2π, and the brightness test compares it
  raw with an arctangent in [-π, π]. The dot therefore stops lighting up
  after the first half turn (see Findings). `Radar.RadarDisplay` runs this
  test as written (`Detection.BrightAsWritten`), and its frame contract
  states that from frame 331 on (frames counted from 0) a drawn dot is never
  bright. The corrected
  test, `Detection.Bright`, is defined and proved about beside it.

## Model

| member | source | states |
|---|---|---|
| `Trail.Step` | radar/script.js:74-88 | one frame removes at most one point, and only the oldest; the retained points keep their order; the newest point is the one just pushed; a trail of at most 50 stays at most 50 |
| `Trail.TraceAfter` | radar/script.js:74-88 | after k frames from an empty trail, the trail holds min(k, 50) points |
| `Trail.TraceIsLatestWindow` | radar/script.js:74-88 | after k frames the trail is the last min(k, 50) entries of the history of beam endpoints |
| `Trail.TraceHoldsLatestFrames` | radar/script.js:74-88 | after k frames the i-th point of the trail, oldest first, is the beam endpoint of frame k - min(k, 50) + i |
| `Trail.SixtyFramesKeepTheLastFifty` | radar/script.js:74-88 | after 60 frames the trail holds 50 points, those of frames 10 to 59, in insertion order |
| `Sweep.Angle` | radar/script.js:91 | the angle starts at 0, is never negative, and each frame adds exactly one step of 0.01 |
| `Sweep.AngleIncreases` | radar/script.js:91 | the angle strictly increases with the number of frames and never wraps |
| `Bearings.LabelValue` | radar/script.js:70 | label i is i twelfths of 360 degrees; each of the twelve spokes' labels lies in [0, 360) |
| `Bearings.DirectionLabels` | radar/script.js:55-70 | the label loop yields twelve labels, from 0 to 330, strictly increasing, all in [0, 360); label i is `360 / 12 * i` |
| `Bearings.LabelMatchesDirection` | radar/script.js:56-70 | spoke i's label, read as degrees, is spoke i's direction angle |
| `Pointer.Handle` | radar/script.js:143-153 | a mousemove sets the flag and stores the canvas-local position; a mouseout clears the flag and keeps the position |
| `Pointer.HandleAll` | radar/script.js:143-153 | events are handled in delivery order: the last event acts on the sample the earlier ones left |
| `Pointer.LastHandlerDecides` | radar/script.js:143-153 | after any non-empty run of events the flag is set if and only if the last event was a mousemove |
| `Pointer.MouseOutsKeepPosition` | radar/script.js:151-153 | mouseouts never change the stored position |
| `Pointer.LastMoveDecidesPosition` | radar/script.js:143-148 | the stored position is that of the last mousemove; earlier moves are coalesced away |
| `Detection.Threshold` | radar/script.js:121 | ten degrees in radians is positive, and between 0.1745 and 0.1746 for π to five decimals |
| `Detection.BrightAsWritten` | radar/script.js:117-121 | the test as written: bright exactly when the bearing lies in the open window of ten degrees on either side of the raw, unwrapped rotation angle |
| `Detection.NeverBrightAfterFirstTurn` | radar/script.js:117-121 | the test as written is false for every bearing in [-π, π] once the angle has reached step 332 |
| `Detection.BrightDuringFirstHalfTurn` | radar/script.js:91-121 | during the first half turn the test as written works: every bearing in [0, π] is lit at some step from 1 to 315, the steps the detection reads |
| `Detection.BrightIsPeriodic` | radar/script.js:117-121 | the corrected test gives the same answer after a whole extra turn of the beam |
| `Detection.BrightAtEveryStep` | radar/script.js:117-121 | with the corrected test, at every step some bearing in [-π, π] is bright: the one along the beam |
| `Detection.BrightEveryTurn` | radar/script.js:117-121 | with the corrected test, a pointer at any fixed bearing is lit at least once in every 629 consecutive steps, a little more than one turn |
| `Detection.BrightExtendsAsWritten` | radar/script.js:117-121 | every pointer the test as written lights is lit by the corrected test too |
| `Radar.RadarDisplay.MouseAngle` | radar/script.js:117 | the pointer's bearing from the radar centre lies in [-π, π] |
| `Radar.RadarDisplay.constructor` | radar/script.js:7-20 | initial state: centre at half the canvas size, angle 0, empty trail, pointer out at (0, 0), dot not bright |
| `Radar.RadarDisplay.DrawFrame` | radar/script.js:22-98 | the beam is drawn at the current step; the trace loop visits the old trail plus the new point, min(k + 1, 51) points in frame k; afterwards the trail is `Step` of the old one, at most 50 long, ending with the new point, and remains the window of the last frames; the step count grows by one; the pointer fields are untouched; the dot is drawn if and only if the pointer flag is set, and then its brightness is the raw test at the advanced step k + 1, which is false from frame 331 on (frames counted from 0); otherwise the old brightness stays |
| `Radar.RadarDisplay.UpdateTrace` | radar/script.js:74-88 | the trace loop visits every point of the pushed trail, the new one included, and the trim that follows leaves `Step` of the old trail |
| `Radar.RadarDisplay.AdvanceAndDetect` | radar/script.js:91-97 | the step count grows by one before the dot is considered; the dot is drawn if and only if the pointer flag is set, its brightness then the raw test at the advanced angle, always false from step 332 on; otherwise the old brightness stays |
| `Radar.RadarDisplay.DrawEntryDot` | radar/script.js:100-121 | the brightness is the raw ten-degree test between the pointer's bearing from the centre and the current, unwrapped rotation angle, false from step 332 on, and it is stored |
| `Radar.RadarDisplay.OnMouseMove` | radar/script.js:143-148 | the flag is set and the position becomes the client coordinates minus the canvas's offset: the state is `Pointer.Handle` of the old one |
| `Radar.RadarDisplay.OnMouseOut` | radar/script.js:151-153 | the flag is cleared and the position kept: the state is `Pointer.Handle` of the old one |

## Left out

- Canvas drawing (background, disc, beam stroke, rings, spokes, trail segments, dot, connecting line, colours, line widths, fonts) at radar/script.js:24-70, 77-83 and 112-139: rendering only. A frame returns the beam endpoint, the labels, the trail points visited and whether the dot was drawn instead.
- The five range rings at radar/script.js:44-51: their radii feed only drawing calls.
- Floating point: the angle is the exact real k × 0.01, while the script accumulates `+= 0.01` in IEEE doubles, which drifts by rounding.
- Trigonometry and square roots: the beam endpoint, the pointer's bearing and π are parameters (`beamEnd`, `bearing`, `pi`), not computed.
- Radar.RadarDisplay.DrawEntryDot: does not compute the projected dot position at radar/script.js:105-114, which needs `sqrt`, `atan2`, `cos` and `sin`; only the brightness decision is modelled.
- Clearing the entry canvas at radar/script.js:102: drawing only.
- DOM lookup, `getContext`, `getBoundingClientRect` and listener registration at radar/script.js:1-5 and 143-153: the canvas size and the rectangle offsets are method parameters.
- `requestAnimationFrame` at radar/script.js:92: one call of `DrawFrame` is one frame; scheduling is the caller's.
- The mis-encoded degree sign in the label text at radar/script.js:70: only the numeric label values are modelled.

## Findings

| source | as written | input that shows it | evidently intended | confidence | as-written member | corrected member |
|---|---|---|---|---|---|---|
| radar/script.js:118-121 | the dot is bright when the raw difference between the pointer's bearing (in [-π, π]) and the accumulated rotation angle is below ten degrees; the angle is never reduced modulo 2π | any pointer position at step 332 or later: the angle is 3.32, above π plus ten degrees (about 3.3161), so no bearing comes within ten degrees and the dot never lights again after about the first half turn | compare the shortest angle between the beam and the pointer's bearing, so a pointer that stays put lights up once in every turn | not executed; high | `Detection.NeverBrightAfterFirstTurn` | `Detection.BrightEveryTurn` |
