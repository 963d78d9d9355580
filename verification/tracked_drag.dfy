/**
  The drag controller with an explicit "no previous sample" state instead of
  the numeric sentinel 0. Every other step, including the wrap-around of the
  angle delta and the tick on a change of selection, is the one of `Drag`.
 */
module TrackedDrag {
  import opened Angles
  import opened WheelIndex
  import Drag

  /** The pointer angle of the previous sample of the current drag, if any. */
  datatype Baseline = NoBaseline | Baseline(angle: real)

  datatype Tracker = Tracker(wheelRotation: real, last: Baseline)

  const Initial: Tracker := Tracker(0.0, NoBaseline)

  datatype Update = Update(state: Tracker, tick: bool)

  /** One drag sample: records the first sample of a drag, turns the wheel by
      the wrapped delta on every later one. */
  function OnChanged(t: Tracker, currentAngle: real): (u: Update)
    ensures u.state.last == Baseline(currentAngle)
    ensures t.last.NoBaseline? ==> u.state.wheelRotation == t.wheelRotation
    ensures t.last.Baseline? ==>
              u.state.wheelRotation - t.wheelRotation == Drag.WrapDelta(currentAngle, t.last.angle)
    ensures u.tick <==> SelectedIndex(u.state.wheelRotation) != SelectedIndex(t.wheelRotation)
  {
    match t.last
    case NoBaseline =>
      Update(t.(last := Baseline(currentAngle)), false)
    case Baseline(lastAngle) =>
      var angleDelta := Drag.WrapDelta(currentAngle, lastAngle);
      var previousIndex := SelectedIndex(t.wheelRotation);
      var rotated := Tracker(t.wheelRotation + angleDelta, Baseline(currentAngle));
      Update(rotated, SelectedIndex(rotated.wheelRotation) != previousIndex)
  }

  function OnEnded(t: Tracker): (t': Tracker)
    ensures t'.wheelRotation == t.wheelRotation
    ensures t'.last == NoBaseline
  {
    t.(last := NoBaseline)
  }

  /** After a drag ends, the next sample starts a new drag with a baseline step. */
  lemma EndThenBaseline(t: Tracker, currentAngle: real)
    ensures OnChanged(OnEnded(t), currentAngle) == Update(Tracker(t.wheelRotation, Baseline(currentAngle)), false)
  {
  }

  datatype Outcome = Outcome(state: Tracker, ticks: nat)

  function Run(t: Tracker, samples: seq<real>): (o: Outcome)
    ensures o.ticks <= |samples|
    ensures |samples| == 0 ==> o == Outcome(t, 0)
    ensures |samples| > 0 ==> o.state.last == Baseline(samples[|samples| - 1])
    decreases |samples|
  {
    if |samples| == 0 then Outcome(t, 0)
    else
      var u := OnChanged(t, samples[0]);
      var rest := Run(u.state, samples[1..]);
      Outcome(rest.state, rest.ticks + if u.tick then 1 else 0)
  }

  /** The state of the sentinel controller that a tracker stands for. */
  function AsSentinel(t: Tracker): (s: Drag.State)
    ensures s.wheelRotation == t.wheelRotation
    ensures t.last.NoBaseline? ==> !Drag.HasBaseline(s)
    ensures t.last.Baseline? && t.last.angle != 0.0 ==> s.lastAngle == t.last.angle
  {
    match t.last
    case NoBaseline => Drag.State(t.wheelRotation, 0.0)
    case Baseline(a) => Drag.State(t.wheelRotation, a)
  }

  /** When neither the recorded nor the new sample is exactly 0, one sample
      does the same as in the sentinel controller. */
  lemma StepAgreesWithSentinel(t: Tracker, currentAngle: real)
    requires currentAngle != 0.0
    requires t.last.Baseline? ==> t.last.angle != 0.0
    ensures var u := OnChanged(t, currentAngle);
            var v := Drag.OnChanged(AsSentinel(t), currentAngle);
            AsSentinel(u.state) == v.state && u.tick == v.tick
  {
  }

  /** Once a drag has a baseline, the wheel follows the pointer up to whole
      turns for every sample, whatever angle it measures. */
  lemma {:induction false} DragFollowsPointer(t: Tracker, samples: seq<real>)
    requires t.last.Baseline?
    ensures var e := Run(t, samples).state;
            e.last.Baseline? &&
            Adjusted(e.wheelRotation - e.last.angle) == Adjusted(t.wheelRotation - t.last.angle)
    decreases |samples|
  {
    if |samples| > 0 {
      var u := OnChanged(t, samples[0]);
      var r' := u.state.wheelRotation;
      var d := Drag.WrapDelta(samples[0], t.last.angle);
      Drag.WrapDeltaCongruent(samples[0], t.last.angle);
      AdjustedEqualIff(d, samples[0] - t.last.angle);
      assert (r' - samples[0]) - (t.wheelRotation - t.last.angle) == d - (samples[0] - t.last.angle);
      AdjustedEqualIff(r' - samples[0], t.wheelRotation - t.last.angle);
      DragFollowsPointer(u.state, samples[1..]);
    }
  }

  /** A whole drag from rest turns the wheel by the angle the pointer swept
      from its first to its last sample, up to whole turns, with no exception
      for samples of exactly 0. */
  lemma {:induction false} DragFromRest(t: Tracker, samples: seq<real>)
    requires t.last.NoBaseline?
    requires |samples| > 0
    ensures Adjusted(Run(t, samples).state.wheelRotation - samples[|samples| - 1])
         == Adjusted(t.wheelRotation - samples[0])
  {
    var u := OnChanged(t, samples[0]);
    assert u.state == Tracker(t.wheelRotation, Baseline(samples[0]));
    DragFollowsPointer(u.state, samples[1..]);
  }

  /** Over a drag none of whose samples is exactly 0, the tracker and the
      sentinel controller reach the same state and emit the same ticks. */
  lemma {:induction false} RunAgreesWithSentinel(t: Tracker, samples: seq<real>)
    requires t.last.Baseline? ==> t.last.angle != 0.0
    requires Drag.NoZeroSample(samples)
    ensures var o := Run(t, samples);
            var p := Drag.Run(AsSentinel(t), samples);
            AsSentinel(o.state) == p.state && o.ticks == p.ticks
    decreases |samples|
  {
    if |samples| > 0 {
      StepAgreesWithSentinel(t, samples[0]);
      var u := OnChanged(t, samples[0]);
      assert Drag.NoZeroSample(samples[1..]) by {
        forall i | 0 <= i < |samples[1..]|
          ensures samples[1..][i] != 0.0
        {
          assert samples[1..][i] == samples[i + 1];
        }
      }
      RunAgreesWithSentinel(u.state, samples[1..]);
    }
  }

  /** The drag that loses motion in the sentinel controller is followed here:
      from a baseline at 30 degrees, samples 0 and then 10 turn the wheel by
      -20 degrees. */
  lemma ZeroSampleKeepsMotion()
    ensures Run(Tracker(0.0, Baseline(30.0)), [0.0, 10.0]).state == Tracker(-20.0, Baseline(10.0))
  {
  }
}
