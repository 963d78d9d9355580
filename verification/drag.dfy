/**
  The drag controller of the ISO dial, as the view implements it.

  The controller owns two numbers: the accumulated `wheelRotation` and the
  pointer angle `lastAngle` of the previous drag sample. A `lastAngle` of
  exactly 0 doubles as "no previous sample": the next sample only records a
  baseline. Every other sample turns the wheel by the shortest angular
  difference between the new and the previous pointer angle, and a tick is
  emitted when that changes the selected ISO value. Ending a drag puts the
  sentinel back.

  The pointer angle is an input here (the view obtains it with `atan2` from
  the touch location), as is the choice of when a drag ends. The tick stands
  for the haptic pulse.
 */
module Drag {
  import opened Angles
  import opened WheelIndex

  datatype State = State(wheelRotation: real, lastAngle: real)

  /** The state when the view appears. */
  const Initial: State := State(0.0, 0.0)

  /** The view appears unrotated, showing ISO 50, with no drag under way. */
  lemma InitialState()
    ensures Initial.wheelRotation == 0.0 && !HasBaseline(Initial)
    ensures SelectedIndex(Initial.wheelRotation) == 0
    ensures DisplayedIso(Initial.wheelRotation) == 50
  {
    RestSelectsFirst();
  }

  /** The state after one drag sample, and whether a tick is emitted. */
  datatype Update = Update(state: State, tick: bool)

  /** A previous sample is recorded; the sentinel 0 means there is none. */
  predicate HasBaseline(s: State) {
    s.lastAngle != 0.0
  }

  /** A pointer angle as produced by `atan2` in degrees. */
  predicate IsPointerAngle(a: real) {
    -180.0 <= a <= 180.0
  }

  /** The change of pointer angle from `lastAngle` to `currentAngle`, moved by
      one full turn when it exceeds half a turn either way, so that crossing
      the +-180 seam counts as the short way round. */
  function WrapDelta(currentAngle: real, lastAngle: real): (d: real)
    ensures var raw := currentAngle - lastAngle;
            -FullTurn / 2.0 <= raw <= FullTurn / 2.0 ==> d == raw
    ensures var raw := currentAngle - lastAngle;
            -3.0 * FullTurn / 2.0 <= raw <= 3.0 * FullTurn / 2.0 ==> -FullTurn / 2.0 <= d <= FullTurn / 2.0
  {
    var delta := currentAngle - lastAngle;
    if delta > 180.0 then delta - 360.0
    else if delta < -180.0 then delta + 360.0
    else delta
  }

  /** The wrapped delta is the raw difference, up to whole turns. */
  lemma WrapDeltaCongruent(currentAngle: real, lastAngle: real)
    ensures Adjusted(WrapDelta(currentAngle, lastAngle)) == Adjusted(currentAngle - lastAngle)
  {
    var raw := currentAngle - lastAngle;
    var d := WrapDelta(currentAngle, lastAngle);
    if d == raw - FullTurn {
      AdjustedPeriodic(d, 1);
    } else if d == raw + FullTurn {
      AdjustedPeriodic(raw, 1);
    }
  }

  /** Between two pointer angles the wrapped delta is no longer than any other
      rotation that ends at the same angle: it is the shortest way round. */
  lemma WrapDeltaShortest(currentAngle: real, lastAngle: real, k: int)
    requires IsPointerAngle(currentAngle) && IsPointerAngle(lastAngle)
    ensures Abs(WrapDelta(currentAngle, lastAngle)) <= Abs(currentAngle - lastAngle + FullTurn * k as real)
  {
  }

  /** The length of a turn, whichever way it goes. */
  function Abs(x: real): real {
    if x < 0.0 then -x else x
  }

  /** Crossing the seam from 179 to -179 degrees is a turn of -2 degrees. */
  lemma WrapDeltaAcrossSeam()
    ensures WrapDelta(179.0, -179.0) == -2.0
    ensures WrapDelta(-179.0, 179.0) == 2.0
  {
  }

  /** One drag sample at pointer angle `currentAngle`. */
  function OnChanged(s: State, currentAngle: real): (u: Update)
    ensures u.state.lastAngle == currentAngle
    ensures !HasBaseline(s) ==> u.state.wheelRotation == s.wheelRotation
    ensures HasBaseline(s) ==> u.state.wheelRotation - s.wheelRotation == WrapDelta(currentAngle, s.lastAngle)
    ensures u.tick <==> SelectedIndex(u.state.wheelRotation) != SelectedIndex(s.wheelRotation)
  {
    if s.lastAngle == 0.0 then
      Update(s.(lastAngle := currentAngle), false)
    else
      var angleDelta := WrapDelta(currentAngle, s.lastAngle);
      var previousIndex := SelectedIndex(s.wheelRotation);
      var rotated := State(s.wheelRotation + angleDelta, currentAngle);
      Update(rotated, SelectedIndex(rotated.wheelRotation) != previousIndex)
  }

  /** The end of a drag: the rotation stays, the baseline is forgotten. */
  function OnEnded(s: State): (s': State)
    ensures s'.wheelRotation == s.wheelRotation
    ensures !HasBaseline(s')
  {
    s.(lastAngle := 0.0)
  }

  /** Without a baseline a sample only records it: nothing turns, no tick. */
  lemma BaselineStep(s: State, currentAngle: real)
    requires !HasBaseline(s)
    ensures OnChanged(s, currentAngle) == Update(State(s.wheelRotation, currentAngle), false)
  {
  }

  /** With a baseline, the offset between the wheel and the pointer is kept
      up to whole turns: the wheel follows the finger. */
  lemma StepFollowsPointer(s: State, currentAngle: real)
    requires HasBaseline(s)
    ensures Adjusted(OnChanged(s, currentAngle).state.wheelRotation - currentAngle)
         == Adjusted(s.wheelRotation - s.lastAngle)
  {
    var r' := OnChanged(s, currentAngle).state.wheelRotation;
    var d := WrapDelta(currentAngle, s.lastAngle);
    WrapDeltaCongruent(currentAngle, s.lastAngle);
    AdjustedEqualIff(d, currentAngle - s.lastAngle);
    assert (r' - currentAngle) - (s.wheelRotation - s.lastAngle) == d - (currentAngle - s.lastAngle);
    AdjustedEqualIff(r' - currentAngle, s.wheelRotation - s.lastAngle);
  }

  /** Between pointer angles, one sample never turns the wheel by more than
      half a turn. */
  lemma StepBounded(s: State, currentAngle: real)
    requires IsPointerAngle(s.lastAngle) && IsPointerAngle(currentAngle)
    ensures Abs(OnChanged(s, currentAngle).state.wheelRotation - s.wheelRotation) <= FullTurn / 2.0
  {
  }

  /** A genuine sample of exactly 0 degrees is taken for the sentinel, so the
      sample after it only records a baseline and its motion is lost. */
  lemma ZeroSampleForgetsBaseline(s: State, nextAngle: real)
    ensures var mid := OnChanged(s, 0.0).state;
            OnChanged(mid, nextAngle) == Update(State(mid.wheelRotation, nextAngle), false)
  {
  }

  /** After a drag ends, the next sample starts a new drag with a baseline step. */
  lemma EndThenBaseline(s: State, currentAngle: real)
    ensures OnChanged(OnEnded(s), currentAngle) == Update(State(s.wheelRotation, currentAngle), false)
  {
  }

  /** The state after a sequence of samples, and the number of ticks emitted. */
  datatype Outcome = Outcome(state: State, ticks: nat)

  /** Feeds the drag samples to the controller in order. */
  function Run(s: State, samples: seq<real>): (o: Outcome)
    ensures o.ticks <= |samples|
    ensures |samples| == 0 ==> o == Outcome(s, 0)
    ensures |samples| > 0 ==> o.state.lastAngle == samples[|samples| - 1]
    decreases |samples|
  {
    if |samples| == 0 then Outcome(s, 0)
    else
      var u := OnChanged(s, samples[0]);
      var rest := Run(u.state, samples[1..]);
      Outcome(rest.state, rest.ticks + if u.tick then 1 else 0)
  }

  /** No sample is exactly the sentinel angle. */
  predicate NoZeroSample(samples: seq<real>) {
    forall i :: 0 <= i < |samples| ==> samples[i] != 0.0
  }

  /** Along a drag that has a baseline and never samples exactly 0, the offset
      between the wheel and the pointer is kept up to whole turns. */
  lemma {:induction false} DragFollowsPointer(s: State, samples: seq<real>)
    requires HasBaseline(s)
    requires NoZeroSample(samples)
    ensures var e := Run(s, samples).state;
            Adjusted(e.wheelRotation - e.lastAngle) == Adjusted(s.wheelRotation - s.lastAngle)
    decreases |samples|
  {
    if |samples| > 0 {
      var u := OnChanged(s, samples[0]);
      StepFollowsPointer(s, samples[0]);
      assert HasBaseline(u.state);
      assert NoZeroSample(samples[1..]) by {
        forall i | 0 <= i < |samples[1..]|
          ensures samples[1..][i] != 0.0
        {
          assert samples[1..][i] == samples[i + 1];
        }
      }
      DragFollowsPointer(u.state, samples[1..]);
    }
  }

  /** A whole drag from rest, none of whose samples is exactly 0, turns the
      wheel by the angle the pointer swept from its first to its last sample,
      up to whole turns. */
  lemma {:induction false} DragFromRest(s: State, samples: seq<real>)
    requires !HasBaseline(s)
    requires |samples| > 0
    requires NoZeroSample(samples)
    ensures Adjusted(Run(s, samples).state.wheelRotation - samples[|samples| - 1])
         == Adjusted(s.wheelRotation - samples[0])
  {
    var u := OnChanged(s, samples[0]);
    assert u.state == State(s.wheelRotation, samples[0]);
    assert NoZeroSample(samples[1..]) by {
      forall i | 0 <= i < |samples[1..]|
        ensures samples[1..][i] != 0.0
      {
        assert samples[1..][i] == samples[i + 1];
      }
    }
    DragFollowsPointer(u.state, samples[1..]);
    if |samples| > 1 {
      assert samples[1..][|samples[1..]| - 1] == samples[|samples| - 1];
    }
  }

  /** One tick is emitted per sample that changes the selection, not one per
      tick mark passed: the same 40-degree turn from rest gives two ticks in
      three samples (+10, +15, +15) and one tick in a single sample. */
  lemma TicksDependOnSampling()
    ensures Run(Initial, [20.0, 30.0, 45.0, 60.0]) == Outcome(State(40.0, 60.0), 2)
    ensures Run(Initial, [20.0, 60.0]) == Outcome(State(40.0, 60.0), 1)
  {
    CentredOnTick(0.0, 0, 0);
    CentredOnTick(10.0, 1, 0);
    CentredOnTick(25.0, 2, 0);
    CentredOnTick(40.0, 2, 0);
  }

  /** As written, a drag that samples exactly 0 degrees loses the next
      sample's motion: from a baseline at 30 degrees, samples 0 and then 10
      leave the wheel at -30 degrees although the pointer swept -20 degrees. */
  lemma SentinelDropsMotion()
    ensures Run(State(0.0, 30.0), [0.0, 10.0]).state == State(-30.0, 10.0)
    ensures Adjusted(-30.0 - 10.0) != Adjusted(0.0 - 30.0)
  {
    AdjustedUnique(-40.0, 320.0);
    AdjustedUnique(-30.0, 330.0);
  }
}
