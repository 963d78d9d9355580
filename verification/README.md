# CameraWheel ISO dial — a Dafny model

This project models the logic of `CameraWheelView`, a rotary dial for picking a camera ISO value. The dial
holds 22 ISO values, from 50 to 6400, spaced evenly around a full turn. There are two parts.

- **Angle-to-index mapper** (`WheelIndex`, using `Angles`). It takes the accumulated, unbounded
  `wheelRotation` and reduces it with the truncating remainder by 360. A negative remainder gets one full
  turn added. Then half a step is added, so that each value's bucket is centred on its tick. The result is
  divided by the step, truncated, and taken modulo 22.
- **Drag controller** (`Drag`). This is a state machine over `wheelRotation` and `lastAngle`. A
  `lastAngle` of 0 is a sentinel meaning "no previous sample".
  - A drag sample taken without a baseline only records the baseline.
  - Any other sample turns the wheel by the pointer's angle change. That change is wrapped into
    [-180, 180], so the wheel always takes the short way round.
  - The sample emits a tick (the haptic pulse) exactly when the selected index changes.
  - Ending a drag resets the sentinel.

`TrackedDrag` is the same controller with an explicit "no baseline" state in place of the sentinel (see
Findings).

Swift `Double` values are Dafny `real`s, so the arithmetic is exact. The truncating remainder is
`x - 360 * trunc(x / 360)`. `Int(...)` is applied only to non-negative values, so it is `.Floor`.

The pointer angle is an input to the model. The view computes it with `atan2` from the touch location.

One might expect one tick per tick mark passed; the code emits at most one tick per sample, when that
sample changes the selection. So the number of ticks in a drag depends on how the drag was sampled.
`Drag.TicksDependOnSampling` shows this: a turn of 40 degrees from rest gives two ticks when sampled as
+10, +15, +15, and one tick as a single +40 sample.

## Model

| member | source | states |
|---|---|---|
| Angles.Remainder | CameraWheelTest/CameraWheelView.swift:24 | the truncating remainder lies strictly between -360 and 360, has the sign of the rotation, and differs from it by whole turns |
| Angles.Adjusted | CameraWheelTest/CameraWheelView.swift:24-25 | the normalised rotation lies in [0, 360) and differs from the rotation by whole turns |
| Angles.AdjustedUnique | CameraWheelTest/CameraWheelView.swift:24-25 | the normalised rotation is the only angle in [0, 360) that differs from the rotation by whole turns |
| Angles.AdjustedIsFlooredModulus | CameraWheelTest/CameraWheelView.swift:24-25 | the truncating remainder plus the negative fix-up equals the floored modulus `x - 360 * floor(x / 360)` |
| Angles.AdjustedPeriodic | CameraWheelTest/CameraWheelView.swift:24-25 | adding any whole number of turns leaves the normalised rotation unchanged |
| Angles.AdjustedEqualIff | CameraWheelTest/CameraWheelView.swift:24-25 | two rotations normalise to the same angle if and only if they differ by whole turns |
| WheelIndex.IsoValuesShape | CameraWheelTest/CameraWheelView.swift:20 | the ISO list has 22 entries, strictly ascending from 50 to 6400 |
| WheelIndex.SelectedIndex | CameraWheelTest/CameraWheelView.swift:20-28 | for every rotation, the selected index is a valid index of the 22 ISO values |
| WheelIndex.DisplayedIso | CameraWheelTest/CameraWheelView.swift:37 | the value shown in the label is always one of the ISO values, so the lookup is always in range |
| WheelIndex.SelectedIndexBuckets | CameraWheelTest/CameraWheelView.swift:23-26 | index i is selected if and only if the normalised rotation lies in the half-open arc of one step centred on tick i; the arc of index 0 wraps past 360 |
| WheelIndex.SelectedIndexPeriodic | CameraWheelTest/CameraWheelView.swift:24-26 | the selection is the same for rotation r and for r + 360k, for every integer k |
| WheelIndex.CentredOnTick | CameraWheelTest/CameraWheelView.swift:23-26 | a rotation in [i*step - step/2, i*step + step/2), shifted by any whole number of turns, selects index i |
| WheelIndex.RestSelectsFirst | CameraWheelTest/CameraWheelView.swift:16-37 | the initial rotation 0 selects index 0, which shows ISO 50 |
| WheelIndex.HalfStepBoundary | CameraWheelTest/CameraWheelView.swift:23-26 | 8.18 degrees still selects index 0 and 8.19 selects index 1; in reverse, -8.18 selects index 0 and -8.19 selects the last index |
| Drag.InitialState | CameraWheelTest/CameraWheelView.swift:16-17 | the view starts unrotated with no baseline, and so shows ISO 50 |
| Drag.WrapDelta | CameraWheelTest/CameraWheelView.swift:110-116 | a raw pointer delta within [-180, 180] is kept as it is; a raw delta within [-540, 540] is wrapped into [-180, 180] |
| Drag.WrapDeltaCongruent | CameraWheelTest/CameraWheelView.swift:110-116 | the wrapped delta equals `currentAngle - lastAngle` up to whole turns |
| Drag.WrapDeltaShortest | CameraWheelTest/CameraWheelView.swift:110-116 | for pointer angles in [-180, 180], no other rotation that ends at the same angle is shorter than the wrapped delta |
| Drag.WrapDeltaAcrossSeam | CameraWheelTest/CameraWheelView.swift:110-116 | moving from 179 to -179 degrees is a delta of -2, and the reverse move is +2 |
| Drag.OnChanged | CameraWheelTest/CameraWheelView.swift:105-124 | a sample always becomes the new `lastAngle`; without a baseline the rotation is unchanged; with a baseline the rotation grows by the wrapped delta; a tick is emitted exactly when the selected index changes |
| Drag.OnEnded | CameraWheelTest/CameraWheelView.swift:126-128 | ending a drag keeps the rotation and leaves no baseline |
| Drag.BaselineStep | CameraWheelTest/CameraWheelView.swift:105-108 | when `lastAngle` is 0, a sample only records itself as the baseline: the rotation is unchanged and no tick is emitted |
| Drag.StepFollowsPointer | CameraWheelTest/CameraWheelView.swift:110-120 | a rotation step keeps the offset between the wheel rotation and the pointer angle, up to whole turns |
| Drag.StepBounded | CameraWheelTest/CameraWheelView.swift:110-119 | for pointer angles in [-180, 180], one sample turns the wheel by at most 180 degrees |
| Drag.ZeroSampleForgetsBaseline | CameraWheelTest/CameraWheelView.swift:105-120 | after a genuine sample of exactly 0, the next sample is taken as a baseline step: no rotation and no tick |
| Drag.EndThenBaseline | CameraWheelTest/CameraWheelView.swift:105-128 | after a drag ends, the next sample is a baseline step that keeps the rotation |
| Drag.Run | CameraWheelTest/CameraWheelView.swift:100-125 | feeds a drag's samples through `Drag.OnChanged` in order: at most one tick per sample, and the last sample becomes `lastAngle` (a fold helper; the drag-level properties are the lemmas below) |
| Drag.DragFollowsPointer | CameraWheelTest/CameraWheelView.swift:105-120 | along a drag with a baseline and no sample of exactly 0, the offset between wheel and pointer is kept, up to whole turns |
| Drag.DragFromRest | CameraWheelTest/CameraWheelView.swift:105-128 | a drag from rest with no sample of exactly 0 turns the wheel by the angle swept from its first to its last sample, up to whole turns |
| Drag.TicksDependOnSampling | CameraWheelTest/CameraWheelView.swift:118-124 | the same 40-degree turn from rest emits two ticks as three samples and one tick as a single sample |
| Drag.SentinelDropsMotion | CameraWheelTest/CameraWheelView.swift:105-108 | from a baseline at 30, samples 0 then 10 leave the wheel at -30, although the pointer swept -20 |
| TrackedDrag.OnChanged | CameraWheelTest/CameraWheelView.swift:105-124 | the same step as `Drag.OnChanged`, but with an explicit optional baseline in place of the 0 sentinel |
| TrackedDrag.OnEnded | CameraWheelTest/CameraWheelView.swift:126-128 | ending a drag keeps the rotation and clears the baseline |
| TrackedDrag.EndThenBaseline | CameraWheelTest/CameraWheelView.swift:105-128 | after a drag ends, the next sample only records a baseline: the rotation is kept and no tick is emitted |
| TrackedDrag.Run | CameraWheelTest/CameraWheelView.swift:100-125 | feeds a drag's samples through `TrackedDrag.OnChanged` in order: at most one tick per sample, and the last sample becomes the baseline (a fold helper) |
| TrackedDrag.StepAgreesWithSentinel | CameraWheelTest/CameraWheelView.swift:105-124 | when neither the baseline nor the sample is exactly 0, one step gives the same state and tick as the sentinel controller |
| TrackedDrag.RunAgreesWithSentinel | CameraWheelTest/CameraWheelView.swift:100-125 | over a drag with no sample of exactly 0, both controllers reach the same state and emit the same number of ticks |
| TrackedDrag.DragFollowsPointer | CameraWheelTest/CameraWheelView.swift:105-120 | once a baseline exists, every sample keeps the offset between wheel and pointer, including a sample of exactly 0 |
| TrackedDrag.DragFromRest | CameraWheelTest/CameraWheelView.swift:105-128 | every drag from rest turns the wheel by the angle swept from its first to its last sample, up to whole turns |
| TrackedDrag.ZeroSampleKeepsMotion | CameraWheelTest/CameraWheelView.swift:105-108 | from a baseline at 30, samples 0 then 10 turn the wheel to -20 |

## Left out

- Pointer-to-angle conversion (CameraWheelTest/CameraWheelView.swift:101-103). This is `atan2` on a touch
  location offset by the fixed point (225, 125). It is floating-point trigonometry, so the pointer angle is
  an input to `Drag.OnChanged`. Where a property needs the range of `atan2`, it assumes [-180, 180]
  (`Drag.IsPointerAngle`).
- The haptic generator (CameraWheelTest/CameraWheelView.swift:18, 123, 131) is a hardware side effect.
  It appears only as the boolean `tick` of an update.
- All SwiftUI rendering: the `Triangle` shape, tick and label placement with `cos`/`sin`, frames, colours,
  the rotation effect and the previews. CameraWheelTest/ContentView.swift is view composition only.
- IEEE-754 rounding. The model uses exact reals. So it does not show, for example, that adding 360 to a
  tiny negative remainder can round to exactly 360 in `Double`.
- Swift's trap on an out-of-range `Int(...)` conversion. The argument is always in [0.5, 22.5), so it
  cannot happen.

## Findings

| source | as written | input that shows it | evidently intended | confidence | as-written member | corrected member |
|---|---|---|---|---|---|---|
| CameraWheelTest/CameraWheelView.swift:105-108 | `lastAngle == 0` means "no previous sample", but 0 is also a real pointer angle (pointer exactly to the right of the centre) | baseline 30, then samples 0 and 10: the sample 10 is taken as a new baseline, so the wheel stays at -30 while the pointer swept -20 | only the first sample of a drag sets a baseline; every later sample turns the wheel | medium; not executed | Drag.SentinelDropsMotion | TrackedDrag.DragFollowsPointer |
