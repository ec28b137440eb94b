# Point-and-click navigation core, in Dafny

This project models the navigation and interaction state machine of a
small three.js point-and-click demo (`src/main.ts`). The demo has three
"screens", and each screen holds three things:

- a yellow hotspot that leads to the next screen;
- a red cube, the item, which shows a message when the player walks up to it;
- a stick figure that walks to wherever the ground is clicked.

The model keeps the program's rules and abstracts away its geometry library.

- **Registry** (`registry.dfy`) covers the static screen table and the entry-side rule. It also covers what activating a screen builds: the ground pattern, hotspot and item positions, and camera.
- **Planner** (`planner.dfy`) holds the blocked test for a straight walk through the item's bounding box. It also holds the detour choice between the two side points of the box.
- **Animation** (`animation.dfy`) gives the four joint angles of the walk cycle.
- **Navigation** (`navigation.dfy`) models the program's module-level variables as one immutable `State` record. It covers:
  - `setupScreen` as `Activate`, and loading as `Init`;
  - the click handler as `Click`;
  - one `animate` frame as `Tick`, with the arrival effects in `Arrive`.
- **Walking** (`walk.dfy`) covers sequences of frames. A target `d` away is reached on frame `Ceil(d / 0.07)`. The module also proves the 58-frame walk from the start screen to screen 1. It also proves that, from any state satisfying the invariant, a ground click after a hotspot click still ends in the screen change.
- **Session** (`session.dfy`) interleaves clicks, frames and the two timers as events. It proves the state invariant, and proves that the item message is shown at most once per re-arm window.
- **Geometry** (`geometry.dfy`) provides vectors over the reals. Every length the library would compute is an input, tied to its vector by `IsLength(v, len)`, meaning `len >= 0` and `len * len` is the squared norm.

Some points where the model follows the code closely:

- The detour points lie `size.x * 0.7 + 0.3` from the box centre, where `size.x` is the box's full width (0.6), so the offset is 0.72. The code uses the full width, not half of it, and the model does the same.
- `setupScreen` clears the target but not the waypoint queue. The model keeps that. `Inv` shows the queue is always empty at that point.
- Clicking the item or the ground does not cancel a pending screen change. After a hotspot click, the next final arrival anywhere still changes the screen (`Walking.RedirectedWalkStillLeaves`).
- A screen change does not hide the message overlay. Only its timer does.
- The click handler lowers the detour point to the ground a second time. That has no effect, because `getDetourPoint` already returns it at `y = 0`.

## Model

| member | source | states |
|---|---|---|
| Registry.Screens | src/main.ts:18-46 | There are three screens, and every hotspot links to an index inside the table, so no link dangles. |
| Registry.LinksFormCycle | src/main.ts:18-46 | Following hotspots three times returns to the start screen, and no hotspot links a screen to itself. So the links form the cycle 0 → 1 → 2 → 0, and every screen is reachable. |
| Registry.EntrySide | src/main.ts:164-168 | The entry side is Left exactly when the hotspot of the screen being left has x > 0. Otherwise it is Right, including x = 0. |
| Registry.EntrySideTable | src/main.ts:164-168 | On the actual table, leaving screen 0 enters at the left, and leaving screens 1 or 2 enters at the right. |
| Registry.EntersOppositeExit | src/main.ts:164-168 | The player appears on the side opposite the exit. A hotspot right of centre leads to a negative x entry. A hotspot left of or on the centre line leads to a positive x entry. |
| Registry.EntryPosition | src/main.ts:267-273 | Every placement, whether from the left, from the right or with no side, is on the ground (y = 0) on the line z = 0. |
| Registry.BuildScene | src/main.ts:247-263 | Activating a screen puts the hotspot at the table's x and z with its centre at height 0.3 (its radius), and the item at the table's x and z with its centre at height 0.3 (half its edge). The camera takes the table's position and look-at point (278-279). |
| Registry.GroundTexturesDistinct | src/main.ts:219-225 | Two different screens never get the same ground pattern. |
| Navigation.Activate | src/main.ts:266-281 | Activating a screen does three things. It places a fresh figure at (-3.5,0,0) for a left entry, (3.5,0,0) for a right entry, and the origin with no side. It builds that screen's scene. It clears the target. The pending change, the queue, the message flag and the overlay are left alone. |
| Navigation.Init | src/main.ts:285 | The program starts on screen 0 at the origin. There is no target, no queue, no pending change, the message flag is down and the overlay is hidden. The start state satisfies the invariant. |
| Planner.PathIntersectsBox | src/main.ts:304-307 | A walk is blocked exactly when the ray hits the box at a distance t with 0.2 < t < dist - 0.2. A blocking hit lies strictly inside the walk. It is never blocked without a hit, or when the walk is at most 0.4 long. |
| Planner.AcrossFacts | src/main.ts:317-319 | The detour direction is orthogonal to the walk in the ground plane. It has length 1 whenever the walk has a horizontal direction. |
| Planner.GetDetourPoint | src/main.ts:321-324 | The detour point is on the ground. It is the left candidate only when that is strictly closer to the destination. Otherwise, including a tie, it is the right candidate. |
| Planner.DetourPicksCloser | src/main.ts:321-324 | The choice is stated with the two distances the library measures, `dl` and `dr`: the left candidate is taken exactly when dl < dr. |
| Planner.DetourGeometry | src/main.ts:311-324 | The detour point's offset from the box centre is perpendicular to the walk. When the walk has a horizontal direction, that offset is exactly 0.7 × width + 0.3 long. |
| Navigation.Click | src/main.ts:335-369 | The first hit decides, in priority order: hotspot, then item, then ground. A hotspot click targets the hotspot base, empties the queue, and sets the pending screen to the hotspot's link and the pending side to the entry side. An item click targets the item base with an empty queue. A blocked ground click targets the detour and queues the ground point. An unblocked ground click targets the ground point directly. A miss changes nothing. Item and ground clicks keep the pending fields. No click moves the player. The invariant is preserved. |
| Navigation.MoveToward | src/main.ts:381-384 | A step leaves the player exactly `dist - 0.07` from the target. It moves the player exactly 0.07. It keeps the player on the target's level. |
| Navigation.NearItemMatchesDistance | src/main.ts:395-398 | The model's squared-distance test is the program's test `flatDist < 0.45` on the ground-plane distance to the item. |
| Navigation.Arrive | src/main.ts:394-411 | Final arrival raises the message flag exactly when the player is near the item or the flag was already up. It shows the current screen's message only when the flag was down. A pending change then moves the player to the pending screen at the entry position and clears both pending fields. The target is cleared either way. |
| Navigation.Tick | src/main.ts:379-423 | Without a target, the frame only rests the limbs. With a target farther than 0.07, the player steps exactly 0.07 towards it and faces the new heading; nothing else changes. Otherwise the player is placed exactly on the target (no overshoot). A non-empty queue then pops its head as the new target; an empty queue runs the arrival effects. The invariant is preserved. |
| Walking.Walk | src/main.ts:375-376 | Any run of frames, one `Tick` per animation frame, keeps the screen indices valid and keeps the invariant. |
| Walking.StepShortens | src/main.ts:380-384 | After a walking frame, the next frame measures a distance exactly 0.07 shorter. |
| Walking.ApproachKeepsTarget | src/main.ts:379-387 | While k steps are less than the first measured distance, the first k frames change only position, heading and pose. Frame k measures k × 0.07 less than frame 0. |
| Walking.LastFrame | src/main.ts:388-411 | A frame that measures at most 0.07 completes the arrival. Either the next waypoint becomes the target, or the target is cleared, the message check runs at the target, and a pending screen change is committed. |
| Walking.ArrivalWithinCeil | src/main.ts:379-412 | A target d > 0 away is arrived at after exactly Ceil(d / 0.07) frames, with the effects of `LastFrame`. |
| Walking.HotspotTripFromStart | src/main.ts:335-412 | From the start, a hotspot click followed by 58 frames ends on screen 1 at (-3.5,0,0), with no target and no pending change. The hotspot is 4 units away. |
| Walking.RedirectedWalkStillLeaves | src/main.ts:337-409 | A hotspot click, then an unblocked ground click, then walking to the ground point still changes the screen to the hotspot's link, entering at the hotspot's entry side. |
| Animation.WalkPose | src/main.ts:415-423 | A standing figure has every joint at rest. Left arm and right leg share one angle, right arm and left leg share the opposite one. |
| Animation.PoseWithinAmplitude | src/main.ts:416 | With a sine sample in [-1, 1], no arm angle exceeds the amplitude 0.7 in either direction. |
| Animation.WalkingPoseMoves | src/main.ts:416-422 | While walking, the left arm's angle is the sample times 0.7. The figure is at rest exactly when the sample is 0. |
| Session.Step | src/main.ts:335-423 | Clicks (335-369) and frames (375-423) are handled as in `Click` and `Tick`; the two timers are the overlay hide of 155-157 and the re-arm of 401. Every event keeps the invariant. Only the re-arm timer lowers the message flag. The flag is raised only by a frame that also shows the current screen's message. The overlay timer only hides the overlay. |
| Session.Run | src/main.ts:371-376 | Any sequence of clicks, frames and timer firings keeps the invariant. |
| Session.OneMessagePerWindow | src/main.ts:398-401 | Until the re-arm timer fires, the message is shown at most once, and not at all while suppressed, however often the player arrives near the item. |

## Left out

- Rendering is left out: the WebGL renderer, scene graph, lights, shadows, camera placement, procedural canvas textures and stick-figure meshes. They are presentation only. The ground pattern and the camera pose are kept only as values in `Scene`.
- The DOM overlay's styling and the window resize handler are left out as UI plumbing. The overlay is modelled only as its visibility and text.
- Ray picking and ray–box intersection are the geometry library's. A click arrives as which objects the ray hits plus the ground point. The blocked test receives the hit distance `t`, or none.
- `normalize`, `distanceTo`, `length`, `Math.sqrt`, `Math.atan2` and `Math.sin` are library calls. Lengths are inputs tied to their vectors by `IsLength`. The heading and the sine sample are per-frame inputs.
- `setTimeout` and `performance.now` are replaced by two explicit events. One hides the overlay; the other clears the suppression flag. They fire in whatever order the caller chooses, not after 2000 ms.
- `requestAnimationFrame` is replaced by one `Tick` per frame, applied by the caller.
- Floating point is not modelled: all arithmetic is over exact reals. The frame count of `Walking.ArrivalWithinCeil` and the 58 frames of `Walking.HotspotTripFromStart` hold for exact arithmetic. Rounding could shift the count by one frame.
- The screen table's `groundColor` is carried but never read, as in the program.
