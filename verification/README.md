# Portfolio interaction core, modelled in Dafny

The portfolio site has three small pieces of logic under its decoration:

- **The light-pull theme switch** (`LightPullSwitch`). The user grabs a rope, drags it down and lets go. The component keeps `{isDragging, pullY}`. Pointer-down starts a drag. Pointer-move adds `movementY` to the pull and clamps the result to `[0, maxPull = 150]`. Pointer-up or pointer-cancel flips the theme and asks for a haptic pulse when the pull is strictly beyond `triggerThreshold = 80`, then resets.
- **The mascot's pose planner** (`RobotParts`). Each frame it picks target values from the current section index and the viewport width. The targets are the figure's position and the rotations of its head, right arm, left arm and body. Section 5 overrides the right arm with a wave, and the head adds a mouse-parallax offset.
- **The scene's input conversions** (`ThreeDRobot`). A scroll offset becomes a section index `Math.round(scrollY / (0.8 * innerHeight))`. A pointer position becomes a sample in `[-1, 1]²` with the y axis pointing up.

Each event handler is one atomic transition on an immutable record. All numbers are exact `real`s. JavaScript's `Math.round` is `(x + 0.5).Floor`, which matches it on every finite input, negative ones included. The wave phase `sin(t * 4)` is a parameter `w`. The theme store is an abstract `Light | Dark` value that `Toggle` flips. A haptic request is an output flag, counted as `pulses` over a session.

Files: `light_pull_switch.dfy` (module `LightPullSwitch`), `robot_parts.dfy` (module `RobotParts`) and `three_d_robot.dfy` (module `ThreeDRobot`, which imports `RobotParts` as the source component does).

Two details of the code matter for the model:

- Pointer-down only sets `isDragging` (src/components/LightPullSwitch.jsx:21-24). It leaves the pull as it is. The invariant `Valid` (no drag in progress implies a pull of 0) means the pull is already 0 at every pointer-down that starts a drag, i.e. arrives while no drag is in progress. A pointer-down during a drag keeps the current pull, so `[Down, Move(100), Down, Up]` still flips the theme.
- For section values outside 0..5, the pose table keeps the separate default targets (src/components/RobotParts.jsx:84-88, 122). These are not section 0's pose: the two differ in the head and body targets.

Functions that model the code without a contract of their own:

- `LightPullSwitch.Step` dispatches one pointer event to its handler, with pointer-cancel wired to the pointer-up handler (src/components/LightPullSwitch.jsx:101-104). `LightPullSwitch.Run` applies a sequence of events in order. `LightPullSwitch.Starts` counts the pointer-downs that arrive while no drag is in progress.
- `RobotParts.IsMobile` is the `viewport.width < 5` test (src/components/RobotParts.jsx:25).
- `RobotParts.DefaultPose` holds the default targets every frame starts from (src/components/RobotParts.jsx:84-88).
- `RobotParts.TablePose` is the section `switch` (src/components/RobotParts.jsx:90-123).
- `ThreeDRobot.Replay` applies a sequence of window events to the scene, starting from `Mounted` or any other state.

## Model

| member | source | states |
|---|---|---|
| LightPullSwitch.Toggle | src/components/LightPullSwitch.jsx:64 | The theme store's toggle always changes the theme. |
| LightPullSwitch.Clamp | src/components/LightPullSwitch.jsx:41-45 | `max(0, min(v, 150))` lies in [0, 150] and leaves in-range values alone. It saturates at 150 above the range and at 0 below it. It is the point of [0, 150] nearest to `v`. |
| LightPullSwitch.PointerDown | src/components/LightPullSwitch.jsx:21-24 | Pointer-down starts a drag without touching the pull, and keeps the switch invariant. |
| LightPullSwitch.PointerMove | src/components/LightPullSwitch.jsx:27-46 | A move while not dragging changes nothing. While dragging, the new pull is the clamp of old pull plus `movementY`. It equals that sum when the sum is in [0, 150], and it is 150 when the sum is at or above 150 and 0 when the sum is at or below 0. The invariant is kept. |
| LightPullSwitch.PointerUp | src/components/LightPullSwitch.jsx:56-75 | A release while not dragging is a no-op. A release while dragging always returns the switch to rest, and flips the theme if and only if the pull is strictly above 80. A haptic pulse is requested exactly when the theme flips. |
| LightPullSwitch.CancelIsRelease | src/components/LightPullSwitch.jsx:101-104 | Pointer-cancel is the same transition as pointer-up, so a cancelled drag past 80 also flips the theme. |
| LightPullSwitch.StepPreservesValid | src/components/LightPullSwitch.jsx:21-73 | Every single event keeps `0 <= pullY <= 150` and keeps `pullY = 0` whenever no drag is in progress. |
| LightPullSwitch.RunPreservesValid | src/components/LightPullSwitch.jsx:9-75 | After any sequence of events with any movement deltas, the pull lies in [0, 150] and is 0 whenever no drag is in progress. |
| LightPullSwitch.ThemeFollowsPulses | src/components/LightPullSwitch.jsx:62-70 | Over any run, the theme is the starting theme flipped once per haptic pulse requested. The theme never changes silently. |
| LightPullSwitch.AtMostOneFlipPerGesture | src/components/LightPullSwitch.jsx:56-70 | Flips never outnumber the pointer-downs that start a drag (those arriving while no drag is in progress), counting a drag already in progress. So the theme flips at most once per gesture. |
| LightPullSwitch.RepeatedDownStartsOneGesture | src/components/LightPullSwitch.jsx:21-70 | A second pointer-down during a drag does not start another gesture. Down, down, a 100-pixel move and a release count as one start and give exactly one flip and one pulse. A pointer-down after a 100-pixel pull keeps the pull at 100, and releasing then still flips the theme. |
| LightPullSwitch.ReleaseResets | src/components/LightPullSwitch.jsx:56-75 | From a valid state, any gesture ending in pointer-up or pointer-cancel leaves the switch exactly at rest, whether or not it flipped the theme. |
| LightPullSwitch.SameGestureSameOutcome | src/components/LightPullSwitch.jsx:56-75 | Two sessions whose switch states agree react to the same events identically: the same switch state, the same number of pulses and the same theme change. No state leaks from earlier gestures. |
| LightPullSwitch.OvershootIsForgotten | src/components/LightPullSwitch.jsx:41-45 | The clamp acts per step: from rest, moves of +200 then -100 leave the pull at 50, not 100. |
| LightPullSwitch.ThresholdIsStrict | src/components/LightPullSwitch.jsx:62-70 | A drag to 81 and release flips the theme with one pulse. A drag to 80 and release does neither. |
| LightPullSwitch.PullFromDarkToLight | src/components/LightPullSwitch.jsx:56-73 | Starting dark, a 100-pixel pull in two moves followed by a release gives the light theme, one pulse and a switch at rest. |
| RobotParts.BasePosition | src/components/RobotParts.jsx:80-82 | Viewports narrower than 5 stand the figure at (1.5, -3, -6). Wider ones stand it at (5.5, -2, -6). |
| RobotParts.UnassignedKeepsDefault | src/components/RobotParts.jsx:84-123 | Any target group a section's case does not assign keeps its default value. |
| RobotParts.DefaultsExactlyOutsideTable | src/components/RobotParts.jsx:84-123 | The table yields exactly the defaults for every section value outside 0..5, including 6 and above, negatives and non-finite values. It yields them for no section inside 0..5. |
| RobotParts.RightArmDefaultUnlessRaised | src/components/RobotParts.jsx:86-123 | The right-arm table target is the default (0, -0.5) if and only if the section is not 2, 4 or 5. |
| RobotParts.BodyDefaultUnlessTurned | src/components/RobotParts.jsx:88-123 | The body target is the default (0, -0.3) if and only if the section is not 0, 1, 3 or 4. |
| RobotParts.LeftArmNeverMoves | src/components/RobotParts.jsx:87-123 | The left-arm target is (0, 0.5) in every section. |
| RobotParts.OnlySection3MovesSideways | src/components/RobotParts.jsx:90-121 | The x position target is the base x if and only if the section is not 3. Section 3 uses base x + 1. |
| RobotParts.Sections0And3 | src/components/RobotParts.jsx:91-110 | Section 3 targets (base x + 1, base y, base z - 2), a body turn of -0.8 and a head turn of -0.5. Section 0 stands at the base with a body turn of -0.4. |
| RobotParts.FrameBodyTurns | src/components/RobotParts.jsx:91-110 | Section 0's frame turns the body to -0.4 and section 3's to -0.8, whatever the viewport, pointer and wave phase. |
| RobotParts.WaveOverride | src/components/RobotParts.jsx:156-161 | Only section 5 is overridden. There the arm's x target is 0.5, its z target is -2.5 + 0.3·w, and that z lies in [-2.8, -2.2] for w in [-1, 1]. |
| RobotParts.HeadGaze | src/components/RobotParts.jsx:147-154 | The head's yaw target moves with the pointer's x and its pitch target against the pointer's y. Each equals the table value exactly when that mouse component is 0. A positive x raises the yaw and a negative x lowers it. A positive y lowers the pitch and a negative y raises it. Each stays within 0.2 of the table value while the component is in [-1, 1], and reaches exactly ±0.2 at the window edges (component ±1). |
| RobotParts.HeadGazeScales | src/components/RobotParts.jsx:149-153 | The parallax is linear: scaling the pointer sample by k scales the head's yaw and pitch offsets from the table target by k. Together with the ±0.2 offsets at the window edges, this pins the gain at 0.2 for every pointer position: yaw = table yaw + 0.2·x and pitch = table pitch − 0.2·y. |
| RobotParts.Overlay | src/components/RobotParts.jsx:149-161 | The frame's overrides pass the pose's position, body and left arm through unchanged. The right arm is the table's outside section 5 and the wave (x 0.5, z -2.5 + 0.3·w) in section 5. The head aim is the mouse parallax applied to the table's head. |
| RobotParts.FrameTargets | src/components/RobotParts.jsx:84-161 | A frame's position and body targets are the table's for the current section and viewport. Its left-arm target is (0, 0.5). Its right-arm target is the table's outside section 5 and the wave in section 5. Its head aim is the parallax of the table's head target. |
| RobotParts.FrameHeadFollowsPointer | src/components/RobotParts.jsx:149-153 | In a full frame, the head's yaw moves with the pointer's x and its pitch against the pointer's y, in sign. Each stays within 0.2 of the section's table target while the pointer component is in [-1, 1]. |
| RobotParts.WaveReplacesTableArm | src/components/RobotParts.jsx:117-161 | In section 5 the table's (0.8, -0.5) arm pose is replaced: x becomes 0.5 and z stays in [-2.8, -2.2]. |
| RobotParts.OnlySection5Varies | src/components/RobotParts.jsx:156-161 | Outside section 5 the frame targets do not depend on the wave phase. In section 5 two phases give equal targets if and only if they are equal. |
| RobotParts.CentredMouseKeepsTableHead | src/components/RobotParts.jsx:149-153 | With the pointer at the centre, the head aims exactly at the table's target. |
| ThreeDRobot.JsRound | src/components/ThreeDRobot.jsx:17 | `Math.round(x)` lies within half a unit of `x`: `x` is at least r - 0.5 and strictly below r + 0.5, i.e. r is strictly above x - 0.5 and at most x + 0.5, so halves round up. |
| ThreeDRobot.JsRoundIsUnique | src/components/ThreeDRobot.jsx:17 | That half-open window determines the rounded integer uniquely. |
| ThreeDRobot.SectionOf | src/components/ThreeDRobot.jsx:14-19 | A zero viewport height, and only that, gives a non-finite section. For a positive height, the scroll offset lies within half a band (0.8·innerHeight) of the chosen section's anchor. |
| ThreeDRobot.SectionIffBand | src/components/ThreeDRobot.jsx:17 | For a positive height, the scroll handler picks section n if and only if the offset lies in [(n - ½)·band, (n + ½)·band). |
| ThreeDRobot.TopOfPageIsSection0 | src/components/ThreeDRobot.jsx:17 | For a non-zero height, `scrollY = 0` gives section 0. |
| ThreeDRobot.SectionNonNegative | src/components/ThreeDRobot.jsx:17 | With `scrollY >= 0` and a positive height, the section is a finite index of at least 0. |
| ThreeDRobot.SectionMonotone | src/components/ThreeDRobot.jsx:17 | For a fixed positive height, the section never decreases as `scrollY` grows. |
| ThreeDRobot.WholeBandsSelectTheirSection | src/components/ThreeDRobot.jsx:17 | For a positive height, `scrollY = k·0.8·innerHeight` for natural k gives exactly section k. |
| ThreeDRobot.SectionCanPassTheTable | src/components/ThreeDRobot.jsx:17-18 | The section is not clamped: six bands down it is 6, and the pose table gives its defaults there. |
| ThreeDRobot.ScrollToExperienceTurnsBody | src/components/ThreeDRobot.jsx:14-19 | Scrolling from the top to three bands down changes the body-turn target from -0.4 to -0.8. |
| ThreeDRobot.NormalizeX | src/components/ThreeDRobot.jsx:23 | The pointer's x sample is in [-1, 1] if and only if the pointer is inside the window. The left edge gives -1, the centre 0 and the right edge 1. |
| ThreeDRobot.NormalizeY | src/components/ThreeDRobot.jsx:24 | The pointer's y sample is in [-1, 1] if and only if the pointer is inside the window. The axis is inverted: the top edge gives +1, the centre 0 and the bottom edge -1. |
| ThreeDRobot.NormalizeRoundTrip | src/components/ThreeDRobot.jsx:22-25 | Normalisation and its inverse undo each other on both axes, so no information about the pointer position is lost. |
| ThreeDRobot.NormalizeOrientation | src/components/ThreeDRobot.jsx:22-25 | Moving right strictly raises the x sample. Moving down strictly lowers the y sample. |
| ThreeDRobot.Handle | src/components/ThreeDRobot.jsx:14-26 | A scroll overwrites the section and leaves the pointer sample alone. A mouse move overwrites both pointer components and leaves the section alone. |
| ThreeDRobot.HandlersKeepToTheirOwnValue | src/components/ThreeDRobot.jsx:14-26 | A run without scrolls keeps the section. A run without mouse moves keeps the pointer sample. |
| ThreeDRobot.MountedUntilFirstEvent | src/components/ThreeDRobot.jsx:9-10 | The scene mounts at section 0 with the pointer sample (0, 0). The section stays 0 until the first scroll, and the sample stays (0, 0) until the first mouse move. |
| ThreeDRobot.LatestScrollWins | src/components/ThreeDRobot.jsx:14-19 | After any history, the section is the one computed from the latest scroll event. |
| ThreeDRobot.LatestMouseMoveWins | src/components/ThreeDRobot.jsx:21-26 | After any history, the pointer sample is the normalisation of the latest mouse move. Nothing older is kept. |

## Left out

- Spring and damping numerics are not modelled: the heavy-spring step (src/components/RobotParts.jsx:128-132), the lerp-based `damp` calls, the camera rig and the react-spring rope animation. They are floating-point dynamics driven by frame timing and external libraries. The model stops at the targets those springs chase.
- Idle motions are not modelled: breathing, spine sway, engine pulse and the left arm's `sin(t) * 0.05` drift. They are trigonometric functions of the clock. The section-5 wave enters only as the bounded phase `w`.
- The eye-blink timer is not modelled. It uses `setInterval`, `Math.random` and `setTimeout`.
- FrameTargets: the left-arm target omits the idle drift `sin(t) * 0.05` that the frame loop adds before damping (src/components/RobotParts.jsx:167).
- Browser plumbing is not modelled: listener registration and teardown, pointer capture and release, and `navigator.vibrate`. A haptic request is modelled as a flag, raised exactly where the source calls `vibrate`. Whether the device supports vibration is not modelled.
- The theme store is not part of this model. Its persistence to local storage and its initial value are also out. `toggleTheme` is an abstract flip.
- React timing is not modelled: render batching, and the stale `pullY` read at src/components/LightPullSwitch.jsx:62. Each handler is one sequential, atomic transition that sees the latest state.
- Floating-point rounding is not modelled. All arithmetic is exact over reals. For example, `0.8 * innerHeight` and the division are exact in the model but not in IEEE doubles.
- NormalizeX: requires a non-zero window width. With width 0 the source yields NaN or ±Infinity, which the real-valued model does not represent.
- NormalizeY: requires a non-zero window height, for the same reason.
- Handle: requires a mouse move to come from a window of non-zero width and height (`Measurable`), because it normalises the pointer with NormalizeX and NormalizeY.
- Replay: requires every event of the history to satisfy `Measurable`, for the same reason.
- HandlersKeepToTheirOwnValue: states its result only for histories of `Measurable` events, for the same reason.
- LatestMouseMoveWins: states its result only for histories of `Measurable` events, for the same reason.
- MountedUntilFirstEvent: states its result only for histories of `Measurable` events, for the same reason.
- LatestScrollWins: states its result only for histories of `Measurable` events, for the same reason.
- Rendering, materials, geometry, content sections, navigation, the contact form, the lazy loader, the error boundary and the build configuration are not modelled. They are view templating, I/O or configuration with no logic to state.
