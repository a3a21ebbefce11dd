# HoldFast game logic in Dafny

HoldFast is a browser 3D toy built with React and three.js. The scene
(src/components/Scene.jsx:41-48) mounts three independent translucent cubes
in a mirrored room, all turning at the same `rotationSpeed` of 0.01. Each
cube has its own key and pointer listeners and its own key loop, and a yellow
"fuse" point runs along a red line drawn over it. The player can stop a
cube's fuse by clicking its small red cube. The model's `Cube` is one of the
three instances. The repository also has a play/pause component,
`GameControls`, with an `mm:ss` timer. The app never mounts it
(src/App.jsx:26-47 renders only the mirrored room and the scene), and even
when mounted its interval never runs (see "## Left out"). This project
models the game logic inside the rendering code and proves what it does:

- `MovingPoint` (with `Geometry` and `WrappingLine`) is the fuse point of
  `src/components/MovingPoint.jsx`. A progress value `t` moves on by 0.005 per
  active frame, wrapping at 1. The point is placed on one of the three
  segments of a fixed four-corner polyline, lerped within that segment. The
  frame callback is the `Frame` method of class `FusePoint`. The segment
  choice and the lerp are pure functions.
- `GameControls` is `src/components/GameControls.jsx`, which nothing in the
  app imports: the play/pause toggle, the `mm:ss` formatter, and the interval
  rule that ends the game once the time reaches 30 seconds.
- `CubeControls` is the input state machine of `src/components/Cube.jsx`,
  held in class `Cube`. It covers the set of held keys and the rotation they
  ask for, the `spinToggle` flag that only ever goes from true to false, and
  pointer dragging. It also covers the `fuseActive` flag, which the small
  cube's click handler (`src/components/SmallCube.jsx`) clears.
- `SpinScene` is the early `src/Cube.jsx`. There the `r` key flips
  `spinToggle`, and while it is set each interval run adds 0.05 to two
  angles.
- `JsRuntime` holds the JavaScript built-ins the components call:
  `Math.floor` (Dafny's `.Floor`), `Math.min`, the `%` operator on numbers,
  `toLowerCase`, `toString` of integers and `padStart`. The `%` operator
  keeps the sign of the dividend, because it rounds the quotient toward
  zero; `Trunc` is that rounding. `Wrappers` holds `Option`.

Numbers are mathematical reals and integers. Interval, animation-frame and
event callbacks are methods, one call per run of the callback. A method for a
timer tick does nothing when the interval would not exist: the game timer
only runs while the game is active, and either spin interval only runs while
spinning. What a callback reads from the outside world is a parameter:
whether a ref is mounted, whether a listener or the orbit controls exist, the
time read from the line, and the pointer coordinates. The callback's effects
on the outside are results or fields: the values passed to
`onGameStateChange`, whether `preventDefault` was called, the `enabled` flag
of the orbit controls, and the log of rotations applied to the cube.

The code has no random or seeded path generation, no randomised fuse
duration, no gravity or bounce, no shrinking and no win/lose tally. The fuse
path is a constant polyline and the fuse loops forever. The only time limit
is the 30-second rule of `GameControls`.

## Model

| member | source | states |
|---|---|---|
| `MovingPoint.Advance` | src/components/MovingPoint.jsx:20 | `(t + 0.005) % 1` keeps `t` in [0, 1): it is `t + 0.005` below 1 and wraps to `t + 0.005 - 1` otherwise |
| `MovingPoint.SegmentIndex` | src/components/MovingPoint.jsx:21-22 | for `t` in [0, 1), `Math.floor(t * 3)` is a segment index in 0..2, so `points[segmentIndex]` and `points[segmentIndex + 1]` are in bounds |
| `MovingPoint.SegmentT` | src/components/MovingPoint.jsx:23 | `(t * 3) % 1` lies in [0, 1) and is `3t` minus the segment index |
| `MovingPoint.Position` | src/components/MovingPoint.jsx:25-29 | the drawn position lies coordinate-wise between the two ends of its segment, and so inside the cube [-1.25, 1.25]³ |
| `MovingPoint.PositionOnSegment` | src/components/MovingPoint.jsx:26-29 | the clamp `Math.min(segmentIndex + 1, 3)` never changes the index; the position is the lerp from corner `k` to corner `k + 1` by `3t - k` |
| `MovingPoint.PositionAtStart` | src/components/MovingPoint.jsx:7 | at the initial progress 0 the point is on the first corner |
| `MovingPoint.PositionAtCorner` | src/components/MovingPoint.jsx:21-29 | at progress `k/3`, for k in 0..2, the point is exactly on corner `k` |
| `MovingPoint.SegmentsJoin` | src/components/MovingPoint.jsx:25-29 | the end of each segment's lerp is the start of the next segment, so the path is continuous |
| `MovingPoint.PositionNeverAtLastCorner` | src/components/MovingPoint.jsx:10-29 | no progress in [0, 1) puts the point on the last corner (0, 0, -1.25), where the small cube sits |
| `MovingPoint.AdvanceFromStart` | src/components/MovingPoint.jsx:20 | starting from 0, after `n < 200` frames the progress is `n * 0.005` |
| `MovingPoint.FullLap` | src/components/MovingPoint.jsx:20 | after exactly 200 frames the progress is back at 0, and never before |
| `MovingPoint.PathIsRedLine` | src/components/MovingPoint.jsx:10-15 | the traversal polyline is the same four points that src/components/WrappingLine.jsx:9-14 draws as the red line |
| `MovingPoint.FusePoint.constructor` | src/components/MovingPoint.jsx:6-7 | progress starts at 0 |
| `MovingPoint.FusePoint.Frame` | src/components/MovingPoint.jsx:17-33 | with the mesh mounted and the fuse active, the point moves to `Position` of the progress before the frame and the progress advances; otherwise neither changes |
| `Geometry.Lerp` | src/components/MovingPoint.jsx:27-29 | `copy(start).lerp(end, s)` starts on `start` at fraction 0 and reaches `end` at fraction 1 |
| `Geometry.LerpCoord` | src/components/MovingPoint.jsx:27-29 | one coordinate of `lerp`: `a` at fraction 0, `b` at fraction 1 |
| `Geometry.LerpCoordWithin` | src/components/MovingPoint.jsx:27-29 | one coordinate lerped by a fraction in [0, 1] stays between its two ends |
| `Geometry.LerpBetween` | src/components/MovingPoint.jsx:27-29 | `lerp` by a fraction in [0, 1] stays between its ends and returns its ends at 0 and 1 |
| `JsRuntime.Rem` | src/components/MovingPoint.jsx:20 | JavaScript `%` with a positive divisor: the remainder has the dividend's sign, is below the divisor in size, and equals the Euclidean remainder for a non-negative dividend |
| `JsRuntime.Min` | src/components/MovingPoint.jsx:26 | `Math.min` is one of its arguments and no larger than either |
| `JsRuntime.Trunc` | src/components/GameControls.jsx:24 | rounding toward zero, as the remainder of `%` needs |
| `JsRuntime.LowerCase` | src/components/Cube.jsx:24 | `toLowerCase` maps every ASCII capital to its small letter and keeps the length |
| `JsRuntime.LowerCaseIdempotent` | src/components/Cube.jsx:24-33 | lower-cased keys contain no capitals, and lower-casing them again (as keyup does) changes nothing |
| `JsRuntime.NatToString` | src/components/GameControls.jsx:23-24 | `toString` of a non-negative integer is a non-empty string of digits |
| `JsRuntime.NatToStringNoLeadingZero` | src/components/GameControls.jsx:23-24 | `toString` writes no leading zero |
| `JsRuntime.DigitsValueOfNatToString` | src/components/GameControls.jsx:23-24 | reading back the digits `toString` wrote gives the number |
| `JsRuntime.NatToStringLength` | src/components/GameControls.jsx:23-24 | one digit below 10, two below 100, three or more from 100 |
| `JsRuntime.IntToString` | src/components/GameControls.jsx:23-24 | `toString` of an integer is non-empty and starts with `-` exactly when the integer is negative |
| `JsRuntime.IntToStringDigits` | src/components/GameControls.jsx:23-24 | the digits `toString` writes, after the sign of a negative integer, read back as the integer's magnitude |
| `JsRuntime.PadStart` | src/components/GameControls.jsx:23-24 | `padStart` fills on the left up to the length, keeps the string as the suffix and never shortens it |
| `GameControls.Minutes` | src/components/GameControls.jsx:23 | `Math.floor(currentTime / 60)` is the number of whole minutes: `60m <= time < 60m + 60` |
| `GameControls.Seconds` | src/components/GameControls.jsx:24 | `Math.floor(currentTime % 60)` is in 0..59 for a non-negative time and in -60..0 for a negative one |
| `GameControls.MinutesField` | src/components/GameControls.jsx:23 | the padded minutes are never shorter than two characters; their digits are read back by `FieldsInRange` and `MinutesNotTruncated` |
| `GameControls.SecondsField` | src/components/GameControls.jsx:24 | the padded seconds are never shorter than two characters; their digits are read back by `SecondsFieldRange` |
| `GameControls.FormatTime` | src/components/GameControls.jsx:23-25 | the display is at least five characters |
| `GameControls.MinutesSecondsSplit` | src/components/GameControls.jsx:23-24 | for time ≥ 0 the seconds are in 0..59 and `60 * minutes + seconds == floor(time)` |
| `GameControls.TwoDigitField` | src/components/GameControls.jsx:23-24 | a field for a number in 0..99 is exactly its two digits |
| `GameControls.FieldsInRange` | src/components/GameControls.jsx:23-24 | below 6000 s both fields are two digits reading the minutes and the seconds |
| `GameControls.FormatShape` | src/components/GameControls.jsx:23-25 | for 0 ≤ time < 6000 the display has 5 characters, digits at 0, 1, 3, 4 and `:` at 2 |
| `GameControls.SecondsFieldRange` | src/components/GameControls.jsx:24 | for time ≥ 0 the seconds field is two digits reading 00..59 |
| `GameControls.FormatRoundTrip` | src/components/GameControls.jsx:23-25 | for 0 ≤ time < 6000, `60 * int(mm) + int(ss) == floor(time)` |
| `GameControls.MinutesNotTruncated` | src/components/GameControls.jsx:23 | from 100 minutes on `padStart` keeps every digit: the field is three or more characters, reading the minutes |
| `GameControls.InitialDisplayIsTimeZero` | src/components/GameControls.jsx:6 | the initial text `"00:00"` is what the formatter shows for time 0 |
| `GameControls.ButtonLabel` | src/components/GameControls.jsx:47 | the label is `PAUSE` exactly when the game is active, `PLAY` exactly when not |
| `GameControls.Controls.constructor` | src/components/GameControls.jsx:5-6 | the game starts inactive, showing `"00:00"` and the `PLAY` label |
| `GameControls.Controls.ToggleGame` | src/components/GameControls.jsx:9-16 | flips `isGameActive` and passes the new value to the listener once when one is given, nothing otherwise |
| `GameControls.Controls.TimerTick` | src/components/GameControls.jsx:21-35 | while active, shows the formatted time; at time ≥ 30 the game goes inactive and `false` is reported; below 30 it stays active and nothing is reported; while inactive nothing happens |
| `GameControls.ShownReading` | src/components/GameControls.jsx:21-35 | the display after a run is the latest reading while the game runs, and otherwise the first reading that reached 30 |
| `GameControls.Controls.RunTimer` | src/components/GameControls.jsx:21-37 | over any run of readings the game ends exactly when a reading reached 30, and the listener hears about it at most once. An empty run leaves the display alone. While the game runs the display shows the latest reading; once it has ended, it stays on the first reading that reached 30 |
| `CubeControls.UpHeld` | src/components/Cube.jsx:37 | `w` or `arrowup` is held (no contract: the body is the test) |
| `CubeControls.DownHeld` | src/components/Cube.jsx:38 | `s` or `arrowdown` is held (no contract: the body is the test) |
| `CubeControls.LeftHeld` | src/components/Cube.jsx:39 | `a` or `arrowleft` is held (no contract: the body is the test) |
| `CubeControls.RightHeld` | src/components/Cube.jsx:40 | `d` or `arrowright` is held (no contract: the body is the test) |
| `CubeControls.KeyDeltas` | src/components/Cube.jsx:36-40 | each delta is in {-2, 0, 2}; deltaX is 0 exactly when up (w/arrowup) and down (s/arrowdown) are both or neither held, and negative exactly when only up is; the same for deltaY with left (a/arrowleft) and right (d/arrowright) |
| `CubeControls.KeyDeltasIgnoreOtherKeys` | src/components/Cube.jsx:36-40 | only the eight movement keys affect the deltas |
| `CubeControls.ShiftedLettersAreMovementKeys` | src/components/Cube.jsx:24 | `W`, `A`, `S`, `D` lower-case to the movement keys |
| `CubeControls.ArrowKeyNames` | src/components/Cube.jsx:24-25 | the browser's `ArrowUp`… names lower-case to the entries of the key lists |
| `CubeControls.CubeColor` | src/components/Cube.jsx:133 | the cube is `hotpink` exactly while auto-spin is on, `blue` otherwise |
| `CubeControls.Cube.constructor` | src/components/Cube.jsx:10-56 | starts not dragged, no last position, `spinToggle` and `fuseActive` true, no keys held, the first key-loop frame requested |
| `CubeControls.Cube.KeyDown` | src/components/Cube.jsx:23-32 | holds the lower-cased key; prevents the default exactly for arrows and i/j/k/l; switches auto-spin off exactly for w/a/s/d/arrows; nothing else changes |
| `CubeControls.Cube.KeyUp` | src/components/Cube.jsx:33 | releases the lower-cased key, so a held key is always released by its own name, and leaves the rest of the held set and all other state unchanged |
| `CubeControls.Cube.KeyLoopFrame` | src/components/Cube.jsx:34-53 | while the loop runs, applies a key rotation by the held keys' deltas exactly when the cube is mounted and a delta is not zero; a frame that finds the cube unmounted ends the loop for good |
| `CubeControls.Cube.SpinIntervalTick` | src/components/Cube.jsx:63-73 | adds `rotationSpeed` to both angles only while `spinToggle && !isDragged` |
| `CubeControls.Cube.PointerDown` | src/components/Cube.jsx:75-83 | starts a drag at the pointer, disables the orbit controls, switches auto-spin off |
| `CubeControls.Cube.PointerMove` | src/components/Cube.jsx:85-105 | ignored unless dragged with a recorded last position (the listener exists only during a drag, lines 114-121); then applies a drag rotation (when mounted) and records the new position |
| `CubeControls.Cube.PointerUp` | src/components/Cube.jsx:107-121 | during a drag, ends it and re-enables the orbit controls; outside a drag no listener runs and nothing changes |
| `CubeControls.Cube.SmallCubeClick` | src/components/SmallCube.jsx:8-12 | `fuseActive` becomes false, idempotently; nothing else changes |
| `CubeControls.Cube.Dispatch` | src/components/Cube.jsx:21-126 | any single callback keeps the invariant, never turns `spinToggle`, `fuseActive` or the key loop back on, and only appends rotations |
| `CubeControls.Cube.Run` | src/components/Cube.jsx:12-56 | over any run of callbacks `spinToggle`, `fuseActive` and the key loop only go from on to off; once auto-spin is off no auto-spin rotation is applied, and once the key loop has ended no key rotation is |
| `SpinScene.IsToggleKey` | src/Cube.jsx:53 | the test `event.key.toLowerCase() === 'r'` (its meaning is `ToggleKeyIsR`) |
| `SpinScene.ToggleKeyIsR` | src/Cube.jsx:53 | the key flips the spin exactly when it is `r` or `R` |
| `SpinScene.Toggled` | src/Cube.jsx:53-54 | a key-down changes `spinToggle` exactly when it is the toggle key |
| `SpinScene.PressTwice` | src/Cube.jsx:54 | pressing a key twice restores `spinToggle` |
| `SpinScene.ToggleCount` | src/Cube.jsx:53 | the number of toggle keys in a run is at most its length, zero exactly when no key is `r`/`R`, and the whole length exactly when every key is |
| `SpinScene.AfterKeysParity` | src/Cube.jsx:51-59 | after any run of key-downs the spin is flipped exactly when an odd number of them were `r`/`R` |
| `SpinScene.CubeColor` | src/Cube.jsx:25 | `hotpink` exactly while spinning, `green` otherwise |
| `SpinScene.Scene.constructor` | src/Cube.jsx:49 | `spinToggle` starts false |
| `SpinScene.Scene.KeyDown` | src/Cube.jsx:52-56 | flips `spinToggle` on `r`/`R`, leaves it on any other key, never touches the angles |
| `SpinScene.Scene.KeyDowns` | src/Cube.jsx:51-59 | a run of key-downs leaves `spinToggle` as `AfterKeys` of the run |
| `SpinScene.Scene.SpinTick` | src/Cube.jsx:8-18 | while spinning (and mounted) both angles grow by 0.05; otherwise they are untouched |
| `SpinScene.Scene.SpinTicks` | src/Cube.jsx:8-18 | `n` interval runs while spinning turn each angle by `n * 0.05` |

## Left out

- Rendering, materials, geometry and the mirrored room are left out. So are
  the particle effect, the page layout (src/App.jsx, src/components/Scene.jsx)
  and the constant edge geometry of src/components/CubeLines.jsx. None of them
  holds game logic.
- The quaternion and Euler composition in `updateRotation` and
  `handlePointerMove`, `degToRad`, and the drag deltas scaled by the window
  size are left out. They are three.js calls and floating-point
  trigonometry. The model records each applied rotation as a `Turn` in the
  order applied, with the degrees chosen by the keys or the raw pointer
  movement.
- Scheduling itself is left out: `requestAnimationFrame`, `setInterval`,
  `clearInterval` and React effect cleanup. Each run of a callback is one
  method call. The key loop is never cancelled, but the first frame that
  finds the group unmounted returns without requesting another, so the loop
  ends; `keyLoopScheduled` records this.
- `CubeControls.Cube.Run`: unmounting is not modelled for the keyboard and
  pointer listeners, which the effect cleanups remove. The model of
  callbacks therefore allows more event sequences than the component can
  produce. One example is key presses after unmount. `Run`'s properties hold
  over all of them, so they hold over the real ones too.
- In the code, `GameControls` never attaches its `lineRef` to an element. So
  the 100 ms interval never starts, and `getCurrentTime` is never read.
  `TimerTick` models the interval's body as written, with the time as a
  parameter. It does not model that the interval never actually runs.
- `CubeControls.Cube.SmallCubeClick`: does not model the call to
  `onSmallCubeClick` at src/components/SmallCube.jsx:11. Cube does not pass
  that prop, so the call throws after `fuseActive` has already been set
  false. Only the flag change is modelled.
- Floating point is left out. `t`, positions and angles are reals, so the
  rounding in accumulating 0.005 and in JavaScript's `%` on floats is not
  modelled. `FullLap`'s exact 200-frame period holds for the reals only.
  `NaN` and infinities are not modelled.
- `MovingPoint.FusePoint.Frame`: the position uses the progress as the
  component last rendered it. This assumes React re-renders between frames;
  the model does not capture frames that see a stale `t`. The unused
  `clock.getElapsedTime()` reading and the unused `trail` ref are left out.
- `JsRuntime.LowerCase`: only ASCII letters are lower-cased. Every key the
  handlers test is ASCII, but a non-ASCII key whose lower case is one of them
  is not modelled. One such key is U+212A KELVIN SIGN, which `toLowerCase`
  maps to `k` (src/components/Cube.jsx:25).
- `JsRuntime.NatToString`: integral values only, because the formatter
  passes `Math.floor` results. The exponent notation JavaScript uses from
  10^21 on is left out.
- Stale closures are left out. A pointer-move handler registered while
  dragging could see an older `lastMousePos`. The model reads the current
  state.
