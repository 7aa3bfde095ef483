# Tick/frame interpolation engine — a Dafny model

This project models the interpolation engine of Chimera, a Halo PC
modification. The game simulates at a fixed tick rate and renders frames
between ticks. The engine keeps generations of per-entity snapshots. On the
first accepted frame after a tick it swaps the generation roles and captures
the live state, deciding per entity whether it may be interpolated. Before
each frame it blends the live state between the previous and current
generation at the tick progress. After the frame it writes the authoritative
snapshot back.

The model covers:

- the coordinator (`interpolate.cpp`): the delayed progress clock
  `clamp01(raw - 0.25)`, its 0.0001 deadband, the tick reset, and the order
  in which the tick, pre-frame, frame and reset events reach the modules;
- the per-kind modules, each a pure state machine over immutable buffers:
  - objects, including the parent/children lists and the recursive
    at-most-once blend;
  - the three-generation camera;
  - the first-person view-model nodes;
  - lights, with counter-based eligibility;
  - particles;
- the first-person motion-blur smoother (`fp_motion_blur.cpp`);
- the non-trigonometric part of the math kernel (`math_trig.cpp`):
  - `clamp01` and the colour conversions;
  - point interpolation;
  - squared distances;
  - `fast_ftol`;
  - pixel unpacking;
  - the hemisphere flip, linear branch and renormalisation of the
    quaternion blend.

Scalars are Dafny `real`s. The host game's tables (objects, lights,
particles, the camera record and the first-person node array) are
parameters and results of the step functions. `Option` stands in for a
null pointer or a missing element.

Files and modules:

| file | module | contents |
|---|---|---|
| `math_trig.dfy` | `MathTrig` | the math kernel |
| `host.dfy` | `Host` | `Option`, 32-bit words, skeleton nodes and the node blend |
| `roles.dfy` | `Roles` | two- and three-buffer generation roles |
| `object.dfy` | `Objects` | object capture, parent/children lists, blend, restore, clear |
| `camera.dfy` | `Camera` | the camera's three generations, skip and rollback rules |
| `fp.dfy` | `FirstPerson` | first-person node buffers |
| `light.dfy` | `Lights` | light capture, seeding and blend |
| `particle.dfy` | `Particles` | particle capture, blend and restore |
| `motion_blur.dfy` | `MotionBlur` | the yaw/pitch smoother |
| `interpolate.dfy` | `Interpolate` | progress clock and event coordinator |

## Model

Source paths are relative to the repository root.

| member | source | states |
|---|---|---|
| MathTrig.Clamp01 | src/chimera/math_trig/math_trig.cpp:12-14 | the result lies in [0,1], equals the input on [0,1], and is the point of [0,1] nearest the input |
| MathTrig.ByteToUnit | src/chimera/math_trig/math_trig.cpp:22-25 | a byte channel becomes `byte / 255`, which lies in [0,1] |
| MathTrig.UnitToByte | src/chimera/math_trig/math_trig.cpp:45-49 | the byte is the floor of `clamp01(x) * 255`; inputs at or below 0 give 0, at or above 1 give 255 |
| MathTrig.RgbFromFloats | src/chimera/math_trig/math_trig.cpp:19-20 | every channel lies in [0,1]; an in-range channel is kept, a negative one becomes 0 and one above 1 becomes 1 |
| MathTrig.RgbFromBytes | src/chimera/math_trig/math_trig.cpp:22-25 | each channel is its byte divided by 255, in [0,1] |
| MathTrig.RgbFromArgb | src/chimera/math_trig/math_trig.cpp:27-28 | red, green and blue are copied and alpha is dropped |
| MathTrig.ArgbFromFloats | src/chimera/math_trig/math_trig.cpp:30-34 | all four channels lie in [0,1]; an in-range channel is kept, a negative one becomes 0 and one above 1 becomes 1 |
| MathTrig.ArgbFromBytes | src/chimera/math_trig/math_trig.cpp:36-40 | each of the four channels is its byte divided by 255, in [0,1] |
| MathTrig.ArgbFromRgb | src/chimera/math_trig/math_trig.cpp:42-43 | alpha becomes 1 and the colour channels are copied |
| MathTrig.RgbArgbRoundTrip | src/chimera/math_trig/math_trig.cpp:27-43 | RGB to ARGB and back is the identity; ARGB to RGB and back only resets alpha to 1 |
| MathTrig.ByteFromFloats | src/chimera/math_trig/math_trig.cpp:45-49 | each byte is the quantised, clamped float channel |
| MathTrig.ByteFromRgb | src/chimera/math_trig/math_trig.cpp:54-55 | alpha becomes 255 and the colour channels are quantised as from floats |
| MathTrig.ByteFromArgb | src/chimera/math_trig/math_trig.cpp:57-58 | each byte is the largest byte not above 255 times its clamped channel (the channel itself when it lies in [0,1]); alpha at or below 0 gives 0 and at or above 1 gives 255 |
| MathTrig.ByteChannelRoundTrip | src/chimera/math_trig/math_trig.cpp:22-49 | byte to float and back gives the same byte |
| MathTrig.ColorByteRoundTrip | src/chimera/math_trig/math_trig.cpp:36-58 | a byte colour converted to ARGB and back is unchanged |
| MathTrig.UnitChannelQuantisation | src/chimera/math_trig/math_trig.cpp:22-49 | float to byte and back loses less than 1/255 and never rounds up |
| MathTrig.Pixel32ToArgb | src/chimera/math_trig/math_trig.cpp:196-201 | alpha, red, green and blue are bits 24-31, 16-23, 8-15 and 0-7 divided by 255, each in [0,1] |
| MathTrig.PixelDecompose | src/chimera/math_trig/math_trig.cpp:196-201 | the four byte fields reassemble the 32-bit pixel |
| MathTrig.PixelRoundTrip | src/chimera/math_trig/math_trig.cpp:196-201 | unpacking a pixel, quantising it back to bytes and repacking gives the same pixel |
| MathTrig.PackRoundTrip | src/chimera/math_trig/math_trig.cpp:196-201 | packing a byte colour and reading each field back gives each channel |
| MathTrig.Mix | src/chimera/fix/interpolate/object.cpp:145-147 | `a + (b - a) * t` is `a` at t = 0, `b` at t = 1, and `a` when the ends agree |
| MathTrig.MixBetween | src/chimera/fix/interpolate/object.cpp:145-147 | for t in [0,1] the mix lies between its two ends |
| MathTrig.Lerp | src/chimera/math_trig/math_trig.cpp:161-165 | point interpolation gives `a` at t = 0 and `b` at t = 1 |
| MathTrig.LerpDistance | src/chimera/math_trig/math_trig.cpp:161-185 | the interpolated point is `t²` of the squared distance from `a` and `(1-t)²` of it from `b` |
| MathTrig.DistanceSquared2 | src/chimera/math_trig/math_trig.cpp:170-174 | the planar squared distance is non-negative and 0 for equal points |
| MathTrig.DistanceSquared | src/chimera/math_trig/math_trig.cpp:176-185 | the squared distance is non-negative and 0 for equal points |
| MathTrig.DistanceSymmetric | src/chimera/math_trig/math_trig.cpp:176-185 | the squared distance is symmetric |
| MathTrig.MagnitudeSquared | src/chimera/math_trig/math_trig.cpp:187-189 | the squared magnitude is the squared distance to the origin |
| MathTrig.Trunc | src/chimera/math_trig/math_trig.cpp:192 | conversion to integer truncates toward zero |
| MathTrig.FastFtol | src/chimera/math_trig/math_trig.cpp:191-194 | a non-negative input rounds half up, a negative one truncates toward zero, and the result fits a 32-bit `long` |
| MathTrig.FastFtolNegativeIsCeiling | src/chimera/math_trig/math_trig.cpp:191-194 | for negative inputs the result is the ceiling, never the nearest integer below |
| MathTrig.Hemisphere | src/chimera/math_trig/math_trig.cpp:130-136 | after the flip the dot product with `a` is non-negative, the flip negates `b` or keeps it, and it keeps it when the dot product already was non-negative |
| MathTrig.QuatBlend | src/chimera/math_trig/math_trig.cpp:129-159 | above a dot product of 0.9995 the linear mix towards the flipped `b` is renormalised, otherwise the slerp is; with a square root that is exact at the unnormalised result and non-zero there, the result has unit length on both branches |
| MathTrig.QuatBlendSame | src/chimera/math_trig/math_trig.cpp:130-158 | blending a unit quaternion with itself takes the linear branch and returns it |
| MathTrig.QuatBlendStart | src/chimera/math_trig/math_trig.cpp:138-158 | on the linear branch, t = 0 returns the unit start quaternion |
| MathTrig.ScaleByRootIsUnit | src/chimera/math_trig/math_trig.cpp:157-158 | dividing a quaternion by a true, positive root of its squared norm gives unit length |
| MathTrig.Renormalize | src/chimera/math_trig/math_trig.cpp:157-158 | the result is a positive multiple of the input and, with a square root exact at the squared norm, has unit length; a zero root leaves the input unchanged |
| Roles.Pair.Swap | src/chimera/fix/interpolate/object.cpp:47 | the swap exchanges the two roles and keeps them distinct buffers |
| Roles.Pair.Toggle | src/chimera/fix/interpolate/light.cpp:38-45 | the toggle keeps the roles valid and moves the current role |
| Roles.ToggleIsSwap | src/chimera/fix/interpolate/light.cpp:38-45 | the light module's explicit toggle is the same rollover as a swap |
| Roles.RolloverParity | src/chimera/fix/interpolate/object.cpp:46-50 | after n rollovers the roles are the starting ones when n is even and swapped when odd |
| Roles.Triple.Rotate | src/chimera/fix/interpolate/camera.cpp:61-62 | new prev1 is the old current, new prev2 is the old prev1, and the old prev2 is recycled as current |
| Roles.RotateThrice | src/chimera/fix/interpolate/camera.cpp:61-62 | three rotations return every role to its buffer |
| Roles.RotateIsPermutation | src/chimera/fix/interpolate/camera.cpp:61-62 | after a rotation the three roles still occupy all three buffers |
| Host.BlendNode | src/chimera/fix/interpolate/object.cpp:137-155 | position and scale are the ends at alpha 0 and 1, the rotation is the quaternion blend, and a node with a unit rotation blended with itself is unchanged |
| Objects.Take | src/chimera/fix/interpolate/object.cpp:199 | the captured nodes are a prefix of the live node array, of length `min(node_count, size)` |
| Objects.CaptureSlot | src/chimera/fix/interpolate/object.cpp:165-226 | a captured slot is never marked blended; it is eligible exactly when the object is live, has nodes and a node count, moved less than its kind's cap, and is not a wrapped device machine; a missing object clears the slot; nodes are the first node-count live nodes when the parent step is reached and stale otherwise; the device position is taken only from device machines reaching that step |
| Objects.ChildrenOf | src/chimera/fix/interpolate/object.cpp:232-240 | the children list holds exactly the slots whose parent is `p`, in ascending order |
| Objects.ParentMap | src/chimera/fix/interpolate/object.cpp:163-229 | a slot has a parent exactly when its object reaches the parent step with a non-null parent, and then it is that parent |
| Objects.ParentMapAsWritten | src/chimera/fix/interpolate/object.cpp:163-229 | as initialised in the source, every slot above 0 has a parent: its object's real parent when it has one, slot 0 otherwise; slot 0 agrees with the corrected map |
| Objects.AppendChildren | src/chimera/fix/interpolate/object.cpp:232-240 | after the first n iterations every listed child is below n and has that slot as its parent |
| Objects.AppendChildrenIsChildrenOf | src/chimera/fix/interpolate/object.cpp:232-240 | the appending loop builds exactly each slot's ascending children list |
| Objects.CaptureGeneration | src/chimera/fix/interpolate/object.cpp:160-241 | every slot of a fresh generation is unmarked, eligible per the capture rule, and carries exactly its children list |
| Objects.ChildListed | src/chimera/fix/interpolate/object.cpp:227-240 | an object reaching the parent step with a parent is in exactly that parent's list, once |
| Objects.ObjectAlpha | src/chimera/fix/interpolate/object.cpp:101-109 | the object's alpha is the progress itself when that lies in [0,1], and lies in [0,1] near the camera |
| Objects.Gate | src/chimera/fix/interpolate/object.cpp:71-91 | the checks made before a blend: index below 2048, eligible and not yet blended, object live, tags and indices agreeing, and a move of at least the micro-movement threshold |
| Objects.GateChecks | src/chimera/fix/interpolate/object.cpp:71-91 | each early return of `interpolate_object` leaves the generation and live table unchanged; when none applies, the slot is marked and holds its blended value |
| Objects.BlendNodes | src/chimera/fix/interpolate/object.cpp:133-155 | each node both generations hold is blended in position, scale and rotation; other nodes are untouched |
| Objects.BlendLive | src/chimera/fix/interpolate/object.cpp:111-155 | the center is always interpolated at the object alpha; unless the object is a remote or parented biped or has no nodes, its nodes become the node-by-node blend of the two generations at that alpha; nothing else changes |
| Objects.BlendObject | src/chimera/fix/interpolate/object.cpp:69-156 | a slot failing any gate check leaves everything unchanged; one passing is marked together with every child that passes the gate, and every slot marked on the way had its gated children marked too; only newly marked slots are written, each with its blended value; every newly marked slot is `i` or a child of another newly marked slot |
| Objects.BlendChildren | src/chimera/fix/interpolate/object.cpp:96-99 | every listed child from position k on that passes the gate ends up marked, every slot marked on the way had its gated children marked, only newly marked slots are written, and each of them is a listed child from position k on or a child of another newly marked slot |
| Objects.BlendVisible | src/chimera/fix/interpolate/object.cpp:60-64 | every visible slot that passes the gate ends up blended, only gated slots are written, and every newly marked slot is visible or a child of another newly marked slot |
| Objects.OnTick | src/chimera/fix/interpolate/object.cpp:270-272 | the tick only arms the rollover |
| Objects.Rollover | src/chimera/fix/interpolate/object.cpp:46-50 | the roles swap, the old current becomes previous, and the new current is captured from the live table |
| Objects.Before | src/chimera/fix/interpolate/object.cpp:45-156 | a pending rollover happens exactly once, then every visible slot passing the gate is blended, and so is every gated child of every slot blended in the call, so gated descendants are blended at every depth along chains of gated slots; only gated slots are written, and every newly marked slot is visible or a child of another newly marked slot |
| Objects.Restore | src/chimera/fix/interpolate/object.cpp:257-258 | the center and the captured nodes are put back; the remaining live nodes and fields are untouched |
| Objects.After | src/chimera/fix/interpolate/object.cpp:245-260 | every marked slot below the table size is restored and unmarked; other slots and objects are unchanged |
| Objects.Clear | src/chimera/fix/interpolate/object.cpp:262-268 | every current slot becomes ineligible, unmarked, with index 0; its other fields and the previous generation are unchanged |
| Objects.CaptureSynced | src/chimera/fix/interpolate/object.cpp:160-241 | a fresh capture agrees with the live table and has nothing marked |
| Objects.RestoreUndoesBlend | src/chimera/fix/interpolate/object.cpp:111-155 | restoring a blended object that agreed with its snapshot gives back the object |
| Objects.BlendThenRestore | src/chimera/fix/interpolate/object.cpp:69-260 | from a synced generation with nothing marked, blend then restore leaves the live table as it was and nothing marked |
| Objects.CaptureBlendThenRestore | src/chimera/fix/interpolate/object.cpp:45-260 | on the first frame after a tick, capture, blend and restore leave the live table as it was |
| Objects.ClearThenBlendNothing | src/chimera/fix/interpolate/object.cpp:262-268 | after a reset, the next frame blends nothing while live ids are non-zero |
| Objects.AtMostOncePerFrame | src/chimera/fix/interpolate/object.cpp:77-94 | a slot already marked this frame is not written again |
| Objects.UnsetParentsBecomeChildrenOfSlotZero | src/chimera/fix/interpolate/object.cpp:163-240 | with the parent map as initialised in the source, every unparented slot above 0 lands in slot 0's children list; with an explicit "no parent" it does not |
| Camera.Capture | src/chimera/fix/interpolate/camera.cpp:59-89 | the roles rotate, the live camera goes to the recycled buffer, and `skip` is set exactly for a cinematic camera without a followed object, a changed followed object or kind, or a first-person jump of more than 5 units |
| Camera.Before | src/chimera/fix/interpolate/camera.cpp:46-157 | paused, disabled or deadbanded frames change nothing; `last_alpha` only grows; an armed tick rotates the roles and captures the live camera; on an accepted frame `skip` holds exactly when the capture skips (or, without a capture, the state already skipped) or a live debug camera is seen; otherwise the position is the cubic blend of the three generations, and the orientation too exactly for camera kinds that blend it; every accepted frame sets `last_alpha` to the clamped progress; `rollback` holds afterwards exactly when an accepted, unskipped frame blended the orientation, or it was already set and no tick was captured on an accepted frame |
| Camera.After | src/chimera/fix/interpolate/camera.cpp:159-175 | unless skipped, paused or disabled, the position is restored, and the orientation too when `rollback` was set, which is then cleared |
| Camera.Clear | src/chimera/fix/interpolate/camera.cpp:177-182 | the buffers are zeroed, `skip` is set, `rollback` and `last_alpha` are reset |
| Camera.OnTick | src/chimera/fix/interpolate/camera.cpp:184-187 | the tick arms the capture and resets `last_alpha` only |
| Camera.BeforeThenAfterRestores | src/chimera/fix/interpolate/camera.cpp:46-175 | before then after gives the live camera back when the current generation holds it or this frame captures it |
| Camera.DeadbandAfterTickRestoresPreviousCapture | src/chimera/fix/interpolate/camera.cpp:51-166 | on a deadbanded frame after a tick, no capture happens and the restore still writes the previous capture's position |
| Camera.AfterConsumesRollback | src/chimera/fix/interpolate/camera.cpp:167-174 | an active restore always leaves `rollback` cleared |
| Camera.ClearThenNoBlendUntilTick | src/chimera/fix/interpolate/camera.cpp:177-182 | after a reset, nothing is blended until the next capture |
| Camera.SteadyCameraIsInterpolated | src/chimera/fix/interpolate/camera.cpp:76-88 | with the same kind and followed object and no large first-person jump, the capture does not skip |
| Camera.KindChangeSkips | src/chimera/fix/interpolate/camera.cpp:76-80 | a change of camera kind makes the capture skip |
| Camera.AcceptedAlphaAdvances | src/chimera/fix/interpolate/camera.cpp:51-55 | an accepted frame raises `last_alpha` by more than 0.0001; any other frame leaves it as it was |
| FirstPerson.Capture | src/chimera/fix/interpolate/fp.cpp:76-95 | `skip` is set exactly for a zero first word, a changed weapon or a pending revert; the revert is consumed, roles swap and the live nodes become current |
| FirstPerson.BlendAll | src/chimera/fix/interpolate/fp.cpp:97-117 | all 128 nodes are blended between the previous and current generation |
| FirstPerson.Before | src/chimera/fix/interpolate/fp.cpp:59-118 | paused, disabled or deadbanded frames change nothing; an armed tick captures, remembering the weapon, consuming `revert` and swapping the two generations; a skipped tick leaves the nodes alone, otherwise they are blended |
| FirstPerson.After | src/chimera/fix/interpolate/fp.cpp:120-127 | the current generation is copied back exactly when not skipped, not paused and enabled |
| FirstPerson.Clear | src/chimera/fix/interpolate/fp.cpp:129-134 | `skip` and `revert` are set, `last_alpha` reset, buffers zeroed; the remembered weapon is kept |
| FirstPerson.OnTick | src/chimera/fix/interpolate/fp.cpp:136-139 | the tick arms the capture and resets `last_alpha` only |
| FirstPerson.BeforeThenAfterRestores | src/chimera/fix/interpolate/fp.cpp:59-127 | before then after gives the live nodes back when the current generation holds them or this frame captures them |
| FirstPerson.ClearSkipsThroughNextTick | src/chimera/fix/interpolate/fp.cpp:84-134 | a reset between ticks holds the view model still for the rest of the tick and the whole next one |
| FirstPerson.ClearWithPendingTickSkipsOneTick | src/chimera/fix/interpolate/fp.cpp:84-134 | a reset with a tick pending spends the revert on that tick's capture |
| FirstPerson.WeaponDecidesSkip | src/chimera/fix/interpolate/fp.cpp:81-82 | a weapon change always skips; the same weapon with a view model and no revert does not |
| FirstPerson.FirstCaptureSkips | src/chimera/fix/interpolate/fp.cpp:77-82 | the first capture after start-up skips unless the weapon word is all ones |
| Lights.CaptureSlot | src/chimera/fix/interpolate/light.cpp:51-77 | a slot is eligible exactly when the light exists, was seen before, and its counter advanced; a first sighting seeds the previous slot; only eligible slots take the live position and orientation |
| Lights.Capture | src/chimera/fix/interpolate/light.cpp:36-78 | the roles toggle; each slot of the new generations is the per-slot capture of the stale generation against the old current one, so eligibility follows the counter rule and the previous generation changes only where a light is seeded |
| Lights.BlendRecord | src/chimera/fix/interpolate/light.cpp:91-93 | position and both orientation vectors are interpolated; the rest of the light is kept |
| Lights.Blend | src/chimera/fix/interpolate/light.cpp:85-95 | exactly the slots in range and flagged in both generations are blended; others are unchanged |
| Lights.Before | src/chimera/fix/interpolate/light.cpp:33-96 | only position and orientation of a light change; after a pending capture a light is blended exactly when it is live, in range, its counter advanced and it was already eligible, and then moves from its last capture towards its live pose; without a capture the slots flagged in both generations blend between them |
| Lights.Clear | src/chimera/fix/interpolate/light.cpp:98-100 | both generations are zeroed |
| Lights.OnTick | src/chimera/fix/interpolate/light.cpp:102-104 | the tick only arms the capture |
| Lights.FirstSightIsNotInterpolated | src/chimera/fix/interpolate/light.cpp:63-76 | a light whose previous counter is 0 is never flagged at that capture |
| Lights.ClearThenNoBlend | src/chimera/fix/interpolate/light.cpp:64-100 | after a reset, the next frame (with or without a capture) blends nothing |
| Lights.BlendEndpoints | src/chimera/fix/interpolate/light.cpp:91-93 | blending at progress 1 gives the current capture and at 0 the previous one |
| Lights.BlendIdempotent | src/chimera/fix/interpolate/light.cpp:85-95 | repeating the blend at the same progress changes nothing |
| Lights.BlendNeedsTwoAdvances | src/chimera/fix/interpolate/light.cpp:71-90 | a light is blended only when it is live at both of the last two captures and its counter advanced at each of them |
| Particles.Low16 | src/chimera/fix/interpolate/particle.cpp:42 | the mask keeps the low 16 bits: below 65536, equal to small words, congruent to the word |
| Particles.Capture | src/chimera/fix/interpolate/particle.cpp:27-46 | roles swap, every slot is unmarked, eligible exactly when live with non-zero low 16 bits, and live slots take the position |
| Particles.Blend | src/chimera/fix/interpolate/particle.cpp:50-68 | exactly the live slots flagged in both generations are blended and marked |
| Particles.Before | src/chimera/fix/interpolate/particle.cpp:24-69 | after a pending capture a particle is blended and marked exactly when it is live, moving and already eligible, and moves from its last capture towards its live position; without a capture the slots flagged in both generations blend between them and are marked |
| Particles.After | src/chimera/fix/interpolate/particle.cpp:71-87 | exactly the live marked slots are restored and unmarked |
| Particles.Clear | src/chimera/fix/interpolate/particle.cpp:89-96 | both flags are cleared in both generations; positions are kept |
| Particles.OnTick | src/chimera/fix/interpolate/particle.cpp:98-100 | the tick only arms the capture |
| Particles.CaptureSynced | src/chimera/fix/interpolate/particle.cpp:27-46 | a fresh capture agrees with the live table and has nothing marked |
| Particles.BlendThenRestore | src/chimera/fix/interpolate/particle.cpp:50-87 | from a synced state, blend then restore gives back the table and leaves nothing marked |
| Particles.TickBlendThenRestore | src/chimera/fix/interpolate/particle.cpp:24-87 | capture, blend and restore leave the particle table as it was |
| Particles.BlendIdempotent | src/chimera/fix/interpolate/particle.cpp:59-66 | blending twice at the same progress gives the same state and table |
| Particles.ClearThenNoBlend | src/chimera/fix/interpolate/particle.cpp:59-96 | after a reset, nothing is blended on the next frame, with or without a capture |
| MotionBlur.Seed | src/chimera/fix/interpolate/fp_motion_blur.cpp:27-33 | the first frame remembers the raw angle and shows it |
| MotionBlur.StepAsWritten | src/chimera/fix/interpolate/fp_motion_blur.cpp:36-43 | the shown angle moves by 15% of the raw change since the last frame |
| MotionBlur.Step | src/chimera/fix/interpolate/fp_motion_blur.cpp:36-43 | the gap between the raw and shown angle shrinks to 85% each frame |
| MotionBlur.BeforeAsWritten | src/chimera/fix/interpolate/fp_motion_blur.cpp:20-47 | paused frames change nothing; the first frame seeds both axes with the raw angles, shows them and sets the initialised flag; later frames move each shown angle, yaw and pitch alike, by 15% of its raw change since the last frame and remember the raw angles |
| MotionBlur.BeforeSmoothed | src/chimera/fix/interpolate/fp_motion_blur.cpp:20-47 | the corrected hook: paused frames change nothing; the first frame seeds both axes with the raw angles, shows them and sets the initialised flag; later frames close 15% of each shown angle's gap to the raw one |
| MotionBlur.After | src/chimera/fix/interpolate/fp_motion_blur.cpp:49-57 | unless paused, the remembered raw angles are written back |
| MotionBlur.Clear | src/chimera/fix/interpolate/fp_motion_blur.cpp:59-61 | only the initialised flag is reset |
| MotionBlur.BeforeThenAfterRestores | src/chimera/fix/interpolate/fp_motion_blur.cpp:20-57 | before then after leaves yaw and pitch as on entry |
| MotionBlur.AsWrittenTelescopes | src/chimera/fix/interpolate/fp_motion_blur.cpp:36-43 | with the source's accumulation, the shown angle is always the start plus 15% of the net raw change |
| MotionBlur.AsWrittenNeverCatchesUp | src/chimera/fix/interpolate/fp_motion_blur.cpp:27-43 | seeded at 0 and held at 10, the shown angle stays at 1.5 |
| MotionBlur.SmoothingConverges | src/chimera/fix/interpolate/fp_motion_blur.cpp:36-43 | with the smoothing step, holding the angle n frames scales the gap by 0.85^n |
| MotionBlur.SmoothingApproaches | src/chimera/fix/interpolate/fp_motion_blur.cpp:36-43 | with the smoothing step and the raw angle held, the gap never grows and never changes sign |
| Interpolate.DelayedProgress | src/chimera/fix/interpolate/interpolate.cpp:40-82 | the progress is 0 up to the 0.25 delay, `raw - 0.25` on [0.25, 1.25], and 1 beyond |
| Interpolate.Advance | src/chimera/fix/interpolate/interpolate.cpp:82-89 | the progress is always updated; the frame is accepted exactly when it moves past the last accepted progress by more than 0.0001, and only then is that remembered |
| Interpolate.AdvanceAllBound | src/chimera/fix/interpolate/interpolate.cpp:84-89 | over any run of frames the remembered progress stays in [0,1] and rises by more than 0.0001 per accepted frame |
| Interpolate.AcceptedFramesPerTick | src/chimera/fix/interpolate/interpolate.cpp:63-89 | fewer than 10000 frames per tick are accepted |
| Interpolate.EarlyFramesDoNothing | src/chimera/fix/interpolate/interpolate.cpp:63-87 | right after a tick, a raw progress up to 0.2501 does no module work |
| Interpolate.OnTick | src/chimera/fix/interpolate/interpolate.cpp:50-65 | when not paused, each module receives its own tick, the clock resets and the enabled flag is kept; when paused nothing changes |
| Interpolate.OnPreframe | src/chimera/fix/interpolate/interpolate.cpp:72-96 | paused frames change nothing; deadbanded frames change only the progress; accepted frames run the light, object and particle before-hooks, in that order, at the delayed progress; camera and first-person state are untouched |
| Interpolate.OnFrame | src/chimera/fix/interpolate/interpolate.cpp:98-106 | when not paused, exactly the object and particle restores run; lights, camera, first-person state and the clock are untouched |
| Interpolate.PreCamera | src/chimera/fix/interpolate/camera.cpp:46-49 | the camera before-hook runs at the coordinator's progress and enabled flag; nothing else in the engine changes |
| Interpolate.PostCamera | src/chimera/fix/interpolate/camera.cpp:159-162 | the camera after-hook runs with the coordinator's enabled flag; nothing else in the engine changes |
| Interpolate.FirstPersonHook | src/chimera/fix/interpolate/fp.cpp:59-127 | the first-person before-hook runs at the coordinator's progress, the hooked call sees its blended nodes, and the after-hook then runs on the state and nodes the before-hook left |
| Interpolate.FirstPersonHookRestores | src/chimera/fix/interpolate/fp.cpp:59-127 | the hooked call leaves the live nodes as it found them whenever the current generation holds them or the hook captured them |
| Interpolate.ClearBuffers | src/chimera/fix/interpolate/interpolate.cpp:108-115 | each module's own reset runs; afterwards no light, particle or current object slot is eligible, camera and first-person skip, and the clock is kept |
| Interpolate.FrameAfterTickRestores | src/chimera/fix/interpolate/interpolate.cpp:50-106 | tick, accepted pre-frame and frame leave the object and particle tables as they were |
| Interpolate.ClearThenFrameBlendsNothing | src/chimera/fix/interpolate/interpolate.cpp:72-115 | after a reset the next frame leaves the light and particle tables as they are, and the object table while live ids are non-zero |
| Interpolate.CameraEventsRestore | src/chimera/fix/interpolate/camera.cpp:46-175 | the camera event gives back the live camera the pre-camera event saw whenever the current generation holds it or that event captured it |
| Interpolate.PausedChangesNothing | src/chimera/fix/interpolate/interpolate.cpp:51-101 | while paused, tick, pre-frame and frame change nothing |

## Left out

- Float rounding, NaN and infinities: every scalar is a `real`, so the
  model says nothing about `float` precision or about the jitter the
  deadbands guard against.
- `acos`/`sin` in the slerp branch and `sqrt` in the renormalisation are
  parameters of `MathTrig.Trig`. Their facts are stated where a lemma needs
  them, for example `sqrt(1) = 1`.
- MathTrig.Renormalize: a zero-length quaternion is returned unchanged,
  whereas the source divides by zero; the source gives no meaning to that
  case.
- The quaternion/rotation-matrix conversions (`math_trig.cpp:63-124`) are
  trigonometric numerics outside the interpolation logic.
- `counter_time_elapsed` reads the operating system's performance counter.
- `interpolate_cubic`, used by the camera, is not part of this model. It is
  the parameter `Camera.Cubic`, a function of four points and alpha.
- Hook installation and removal (`set_up_interpolation`,
  `disable_interpolation`), signature lookups, tag offsets and the tick-rate
  write-back in `on_tick`: these are host memory patching. `game_paused()`,
  `interpolation_enabled`, the tick progress and the host tables are inputs.
- The antenna and flag modules that the coordinator also notifies are not
  part of this model.
- The motion-blur hooks are not registered by the coordinator. The model
  treats them as a stand-alone state machine.
- Objects.CaptureSlot: the node count comes from an abstract field of the
  live object, not from the model tag at offset `0xB8`. Object types other
  than biped, projectile and device machine are one kind.
- Objects.BlendNodes: the blend covers only nodes both generations hold. The
  source loops to the current generation's node count and can read a stale
  previous-generation entry.
- Objects.Restore: an object without a node array gets only its center
  back. The source would copy through a null node pointer there.
- Objects.After: the loop is capped at the 2048-slot buffer. The source
  loops to the table's size and would index past the buffer for larger
  tables.
- Camera.Clear: the zeroed snapshot's camera kind is taken to be first
  person, the first value of the host's camera-type enumeration.
- Objects.BlendObject, Objects.BlendChildren, Objects.BlendVisible and
  Objects.Before: the confinement clause says each newly marked slot is a
  root or a child of another newly marked slot. It does not rule out a
  cycle of children lists detached from the roots; captured parent links
  form a forest in practice, and the model does not prove that.
- Objects.CaptureGeneration: a live object's parent is typed as a slot index below
  2048. The source (`object.cpp:236-239`) indexes the children buffer with
  the parent's index without a bounds check, so a larger index is not
  modelled.
- Lights: the light module has no restore step. Blended values stay in the
  live table, as in the source.

## Findings

| source | as written | input that shows it | evidently intended | confidence | as-written member | corrected member |
|---|---|---|---|---|---|---|
| src/chimera/fix/interpolate/object.cpp:163,233-240 | `parent_map` is initialised with only element 0 set to the null id; every other element is a zero id, which names slot 0 | any capture in which slot 5 is live without a parent: slot 5 is appended to slot 0's children list | unset entries mean "no parent", so only real children are listed | medium, not executed; holds if the id type has no default member initialiser making every element null | Objects.UnsetParentsBecomeChildrenOfSlotZero | Objects.CaptureGeneration |
| src/chimera/fix/interpolate/fp_motion_blur.cpp:36-40 | `blurred += (raw - last) * 0.15` accumulates raw deltas, so the shown angle is always the start plus 15% of the net raw change | seeded at yaw 0, then yaw held at 10 for any number of frames: the shown yaw stays 1.5 | exponential smoothing, `blurred += (raw - blurred) * 0.15`, which converges to the raw angle | high, not executed | MotionBlur.AsWrittenNeverCatchesUp | MotionBlur.SmoothingConverges |
