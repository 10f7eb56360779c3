# interactive-map camera control, in Dafny

A model of the two pieces of logic in the interactive map viewer:

- **The camera controller** of `MapModel` (module `CameraControl`, file
  `camera.dfy`). The mouse wheel moves the camera's z by `deltaY · 0.002`,
  clamped to [7, 15]. The arrow keys pan in steps of 0.2. The horizontal limits
  are ±3 when the zoom read at key-down is below 10.5 and ±0.5 otherwise; up and
  down pan only when zoomed in, within ±1. A non-repeat key-down takes one step
  at once and arms a repeating timer that keeps stepping with the key and zoom
  it captured. The timer stops when the step's guard fails, on key-up and on a
  repeat key-down. Reset puts the camera back at (0, 0, 15). `handleClick(key)`
  acts as a non-repeat key-down with that key; the page never calls it with a
  key name, only with a mouse event, so a click cancels any running pan and
  moves nothing.
- **The arrow-key indicator** of `Movement` (module `ArrowIndicator`, file
  `indicator.dfy`). A map from the four arrow key names to "held", switched by
  pure updaters on key-down and key-up, and a help flag the help button negates.

Module `Keys` (file `keys.dfy`) holds the four key names both use.

The controller's handlers are pure transition functions over a `Controller`
value (`AfterZoom`, `AfterKeyDown`, `AfterTick`, …). Class `CameraControl.Camera`
keeps the same state in mutable fields: position `x`, `y`, `z`, the live-timer
flag, `singleKeyPressMovement`, and the captured key and zoom. Each method is
proved to perform exactly the matching transition. The lemmas then state what
sequences of events do. The timer is the explicit method `Camera.Tick`, which
moves only while the timer is live and `singleKeyPressMovement` is set.

Three consequences of the code worth knowing:

- The pan is guarded, not clamped. A step is taken when the camera is still
  inside the bound, so the camera can end up to (but less than) one step past
  it. `PanOvershootBelowOneStep` states the real guarantee.
- x is not kept inside the bounds of the current zoom. Zooming out after
  panning leaves x where it was, outside the narrower ±0.5 limits.
- A key-down whose first step is blocked still arms the timer. The
  `clearInterval` in that first step runs before `setInterval` and has nothing
  to clear. The first tick then fails the same guard and stops the timer.

## Model

| member | source | states |
|---|---|---|
| `CameraControl.Clamp` | src/components/MapModel.js:116 | the result lies in [lo, hi] when lo ≤ hi, equals v inside the range, and is lo below it and hi above it |
| `CameraControl.ZoomTarget` | src/components/MapModel.js:15-17 | the new z is always in [MinZoom, MaxZoom]; it is z − deltaY·ZoomSpeed when that lies in range, else the nearer limit |
| `CameraControl.AfterZoom` | src/components/MapModel.js:108-119 | wheel zoom leaves z in [7, 15] whatever it was, sets it to the clamped target, and leaves x, y, the timer and the flags unchanged |
| `CameraControl.PanBounds` | src/components/MapModel.js:127-141 | the horizontal limits are symmetric: 3 when the zoom is below 10.5, 0.5 otherwise |
| `CameraControl.Step` | src/components/MapModel.js:152-177 | a step happens exactly when the key's headroom to its bound is positive; it changes exactly one of x, y by exactly 0.2, never z, reduces the headroom by one step, moves left only for ArrowLeft, right only for ArrowRight, vertically only for ArrowUp/ArrowDown while zoomed in, lands less than one step past the bound, and never moves for a non-arrow key |
| `CameraControl.AfterMove` | src/components/MapModel.js:152-179 | one moveCamera call either moves by Step's step for the captured key and zoom (timer unchanged) or leaves the position as it is and clears the timer, the latter exactly when the guard fails |
| `CameraControl.AfterTick` | src/components/MapModel.js:183-187 | a tick with no live timer or with the flag cleared changes nothing, and otherwise is exactly one moveCamera call; ticks keep "live timer implies flag set" and never touch z or the captured key and zoom |
| `CameraControl.AfterKeyDown` | src/components/MapModel.js:126-188 | a repeat key-down moves nothing and leaves no timer and the flag cleared; a non-repeat one captures the key and the current z, moves by Step's step for that key and zoom exactly when the guard holds, and leaves the timer live and the flag set |
| `CameraControl.AfterKeyUp` | src/components/MapModel.js:190-193 | key-up stops the timer and clears the flag, with the position unchanged |
| `CameraControl.AfterReset` | src/components/MapModel.js:44-50 | reset puts the camera at exactly (0, 0, 15), whose z is MaxZoom and so inside the zoom range, from any state |
| `CameraControl.ResetIdempotent` | src/components/MapModel.js:44-48 | resetting twice is the same as resetting once |
| `CameraControl.IdleTicksChangeNothing` | src/components/MapModel.js:183-187 | with no live timer any number of ticks leave the whole state unchanged |
| `CameraControl.KeyUpStopsMovement` | src/components/MapModel.js:190-193 | after key-up no number of ticks moves the camera |
| `CameraControl.RepeatStopsMovement` | src/components/MapModel.js:143-148 | after a repeat key-down no number of ticks moves the camera |
| `CameraControl.TicksStayWithinReach` | src/components/MapModel.js:153-174 | ticks never take a camera that is less than one step outside the captured bounds any further out, and never change z or the captured zoom |
| `CameraControl.PanOvershootBelowOneStep` | src/components/MapModel.js:126-187 | from inside the pan region, a key-down and any number of ticks leave the camera less than one 0.2 step outside it |
| `CameraControl.PanProgress` | src/components/MapModel.js:152-187 | while the guard keeps holding, each of n ticks moves one step: the timer is still live and the headroom has dropped by exactly n steps |
| `CameraControl.PanStops` | src/components/MapModel.js:175-177 | a pan that starts at most n steps from its bound has stopped its timer after n + 1 ticks |
| `CameraControl.KeyDownWithoutArrowStopsAtFirstTick` | src/components/MapModel.js:175-187 | a non-repeat key-down with a key that is no arrow name moves nothing, leaves a live timer, and that timer's first tick stops it without moving |
| `CameraControl.ZoomDoesNotAffectTick` | src/components/MapModel.js:163-172 | zooming and ticking commute: ticks pan with the zoom captured at key-down and never re-read z |
| `CameraControl.Camera.constructor` | src/components/MapModel.js:40-41 | the camera starts at (0, 0, 15) with no timer and the flag cleared |
| `CameraControl.Camera.ResetCamera` | src/components/MapModel.js:44-50 | the fields change as AfterReset says |
| `CameraControl.Camera.HandleZoom` | src/components/MapModel.js:108-119 | the fields change as AfterZoom says |
| `CameraControl.Camera.MoveCamera` | src/components/MapModel.js:152-179 | the fields change as AfterMove says |
| `CameraControl.Camera.HandleKeyDown` | src/components/MapModel.js:126-188 | the fields change as AfterKeyDown says, and "live timer implies flag set" is kept |
| `CameraControl.Camera.Tick` | src/components/MapModel.js:183-187 | the fields change as AfterTick says |
| `CameraControl.Camera.HandleKeyUp` | src/components/MapModel.js:190-193 | the fields change as AfterKeyUp says |
| `CameraControl.Camera.HandleClick` | src/components/MapModel.js:196-198 | `handleClick(key)` has exactly the effect of a non-repeat key-down with that key |
| `ArrowIndicator.Initial` | src/components/Movement.js:7-12 | the initial map has exactly the four arrow keys, all false |
| `ArrowIndicator.Pressed` | src/components/Movement.js:14-21 | key-down of an arrow key sets it to true; every other key keeps its value and no key is added or dropped; a non-arrow key leaves the map unchanged |
| `ArrowIndicator.Released` | src/components/Movement.js:23-30 | key-up of an arrow key sets it to false; every other key keeps its value and no key is added or dropped; a non-arrow key leaves the map unchanged |
| `ArrowIndicator.ReplayShowsLastEvent` | src/components/Movement.js:14-29 | after any sequence of events the map still has exactly the four keys, and each arrow key is shown held exactly when its last event was a key-down |
| `ArrowIndicator.PressedIdempotent` | src/components/Movement.js:16-19 | key-down twice is the same as once |
| `ArrowIndicator.PressThenRelease` | src/components/Movement.js:14-29 | key-down then key-up of an arrow key leaves it false and every other key as it was |
| `ArrowIndicator.ToggleHelp` | src/components/Movement.js:156 | the help toggle negates the flag |
| `ArrowIndicator.ToggleHelpTwice` | src/components/Movement.js:156 | toggling help twice restores it |

## Left out

- The three.js scene, renderer, geometry, material, lights and every `render` call: calls into a library with no behaviour to state here.
- Loading the glTF model and framing the camera on its bounding sphere: asynchronous I/O and library geometry. No invariant assumes z starts in [7, 15]; the zoom clamp handles any start.
- The `!cameraRef.current` guards: the camera reference is set before any handler can run, so the model always has a camera.
- DOM listener registration and removal. The model takes one handler call per event, but the page dispatches some events twice:
  - Every wheel event runs `handleZoom` twice: once from the container's native listener (src/components/MapModel.js:206) and once from its `onWheel` prop (src/components/MapModel.js:224). One wheel event therefore applies `AfterZoom` twice; for example, z = 10 with deltaY = 100 ends at 9.6, not 9.8.
  - A key press that reaches the container's `onKeyDown` (src/components/MapModel.js:225) runs `handleKeyDown` a second time after the document listener. The second `keydown` registration after the model loads (src/components/MapModel.js:88) adds the same function again, which the DOM ignores.
- The document-level click listener hands a mouse event, not a key name, to `handleClick`. No on-screen arrow is wired to it. `Camera.HandleClick` takes a key name as the handler's signature says; a click as the page delivers it behaves as a key-down with a non-arrow key (`KeyDownWithoutArrowStopsAtFirstTick`).
- Wall-clock timing of the 16 ms interval: the timer is the explicit `Camera.Tick`.
- IEEE-754 rounding of the repeated 0.2 and 0.002 steps: the model uses exact reals.
- The `console.log` of the current zoom.
- Camera orientation: `resetCamera` also points the camera at the origin (src/components/MapModel.js:48), and the load callback points it at the model's centre (src/components/MapModel.js:85). The model keeps only the position.
- The JavaScript `in` operator also finds inherited object properties; the indicator treats a key as an arrow key exactly when it is one of the four names.
- JSX, styles, tooltips, colours, `App.js` and `theme.js`: presentation only.
