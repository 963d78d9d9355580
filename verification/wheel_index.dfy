/**
  The angle-to-index mapper of the ISO dial.

  The dial shows a fixed, ordered list of ISO values spaced evenly around a
  full turn. The selected value is derived from the accumulated rotation:
  reduce it into [0, 360), add half a step so each value's bucket is centred
  on its tick mark, divide by the step and truncate, and wrap the top bucket
  back to the first value.
 */
module WheelIndex {
  import opened Angles

  /** The selectable ISO values, in dial order. */
  const IsoValues: seq<int> :=
    [50, 64, 80, 100, 125, 160, 200, 250, 320, 400, 500,
     640, 800, 1000, 1250, 1600, 2000, 2500, 3200, 4000, 5000, 6400]

  /** The dial carries 22 values, strictly ascending from ISO 50 to ISO 6400. */
  lemma IsoValuesShape()
    ensures |IsoValues| == 22
    ensures IsoValues[0] == 50 && IsoValues[|IsoValues| - 1] == 6400
    ensures forall i, j :: 0 <= i < j < |IsoValues| ==> IsoValues[i] < IsoValues[j]
  {
  }

  /** The angle between two neighbouring ticks. */
  const StepAngle: real := FullTurn / (|IsoValues| as real)

  lemma StepAngleValue()
    ensures |IsoValues| == 22
    ensures StepAngle == 180.0 / 11.0
  {
  }

  /** The index of the ISO value under the indicator for a given accumulated
      rotation. The view's `Int(...)` truncation is a floor here because its
      argument is never negative. */
  function SelectedIndex(rotation: real): (i: nat)
    ensures i < |IsoValues|
  {
    StepAngleValue();
    var adjusted := Adjusted(rotation);
    ((adjusted + StepAngle / 2.0) / StepAngle).Floor % |IsoValues|
  }

  /** The ISO value the dial displays for a given rotation. */
  function DisplayedIso(rotation: real): (v: int)
    ensures v in IsoValues
  {
    IsoValues[SelectedIndex(rotation)]
  }

  /** The bucket of index `i`: the half-open arc of one step centred on tick
      `i`, where tick `i` sits at `i * StepAngle`. The arc of index 0 straddles
      0 degrees, so within [0, 360) it is two pieces. */
  predicate InBucket(angle: real, i: int) {
    || ((i as real) * StepAngle - StepAngle / 2.0 <= angle < (i as real) * StepAngle + StepAngle / 2.0)
    || (i == 0 && FullTurn - StepAngle / 2.0 <= angle)
  }

  /** Index `i` is selected exactly when the adjusted rotation lies in the
      bucket of `i`. */
  lemma {:induction false} SelectedIndexBuckets(rotation: real, i: int)
    requires 0 <= i < |IsoValues|
    ensures SelectedIndex(rotation) == i <==> InBucket(Adjusted(rotation), i)
  {
    StepAngleValue();
    var a := Adjusted(rotation);
    var q := (a + StepAngle / 2.0) / StepAngle;
    assert q == a * 11.0 / 180.0 + 0.5;
    var f := q.Floor;
    assert 0 <= f <= 22;
    if f == 22 {
      assert SelectedIndex(rotation) == 0;
      assert FullTurn - StepAngle / 2.0 <= a;
    } else {
      assert SelectedIndex(rotation) == f;
      assert (f as real) * StepAngle - StepAngle / 2.0 <= a < (f as real) * StepAngle + StepAngle / 2.0;
    }
  }

  /** Adding any whole number of turns leaves the selection unchanged. */
  lemma SelectedIndexPeriodic(rotation: real, k: int)
    ensures SelectedIndex(rotation + FullTurn * k as real) == SelectedIndex(rotation)
  {
    AdjustedPeriodic(rotation, k);
  }

  /** A rotation within half a step of tick `i`, give or take whole turns,
      selects `i`. */
  lemma CentredOnTick(rotation: real, i: int, k: int)
    requires 0 <= i < |IsoValues|
    requires (i as real) * StepAngle - StepAngle / 2.0 <= rotation - FullTurn * k as real
    requires rotation - FullTurn * k as real < (i as real) * StepAngle + StepAngle / 2.0
    ensures SelectedIndex(rotation) == i
  {
    StepAngleValue();
    var r := rotation - FullTurn * k as real;
    SelectedIndexPeriodic(r, k);
    assert r + FullTurn * k as real == rotation;
    if r < 0.0 {
      assert i == 0;
      AdjustedUnique(r, r + FullTurn);
    } else {
      AdjustedUnique(r, r);
    }
    SelectedIndexBuckets(r, i);
  }

  /** The resting dial selects the first value. */
  lemma RestSelectsFirst()
    ensures SelectedIndex(0.0) == 0
    ensures DisplayedIso(0.0) == 50
  {
  }

  /** The half-step boundary after the first tick lies between 8.18 and 8.19
      degrees; it applies in reverse too. */
  lemma HalfStepBoundary()
    ensures SelectedIndex(8.18) == 0
    ensures SelectedIndex(8.19) == 1
    ensures SelectedIndex(-8.18) == 0
    ensures SelectedIndex(-8.19) == |IsoValues| - 1
  {
    StepAngleValue();
    CentredOnTick(8.18, 0, 0);
    CentredOnTick(8.19, 1, 0);
    CentredOnTick(-8.18, 0, 0);
    CentredOnTick(-8.19, 21, -1);
  }
}
