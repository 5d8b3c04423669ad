/**
 * The command dispatcher: slider percentages become the two integer speeds of one
 * `speed_m1_m2` call. Float arithmetic is modelled by exact real arithmetic; the `as i32`
 * cast truncates toward zero and saturates at the bounds of `i32`.
 */
module Dispatch {
  import opened Device

  const SliderMin: real := -100.0
  const SliderMax: real := 100.0

  /** Device speed units per percent of slider travel. */
  const SpeedScale: real := 1000.0
  /** Turn authority per percent of the turn slider: half that of the speed slider. */
  const TurnScale: real := 500.0

  predicate InSliderRange(v: real)
  {
    SliderMin <= v <= SliderMax
  }

  function Abs(x: int): nat
  {
    if x < 0 then -x else x
  }

  /** A slider keeps its value inside its range: values outside are pinned to the nearer end. */
  function Clamp(v: real): (r: real)
    ensures InSliderRange(r)
    ensures InSliderRange(v) ==> r == v
    ensures v < SliderMin ==> r == SliderMin
    ensures v > SliderMax ==> r == SliderMax
  {
    if v < SliderMin then SliderMin else if v > SliderMax then SliderMax else v
  }

  /** Truncation toward zero: the integer part of `x`, keeping its sign. */
  function Trunc(x: real): (r: int)
    ensures 0.0 <= x ==> 0 <= r && r as real <= x < r as real + 1.0
    ensures x < 0.0 ==> r <= 0 && r as real - 1.0 < x <= r as real
  {
    if x >= 0.0 then x.Floor else -((-x).Floor)
  }

  /** Rust's float-to-`i32` cast: truncate toward zero, saturating at the `i32` bounds. */
  function CastI32(x: real): (r: int)
    ensures InI32(r)
    ensures InI32(Trunc(x)) ==> r == Trunc(x)
    ensures Trunc(x) > I32Max ==> r == I32Max
    ensures Trunc(x) < I32Min ==> r == I32Min
  {
    var t := Trunc(x);
    if t > I32Max then I32Max else if t < I32Min then I32Min else t
  }

  /** The call sent for the two individual motor sliders. */
  function IndividualCommand(m1: real, m2: real): (c: SpeedCommand)
    ensures InI32(c.m1) && InI32(c.m2)
  {
    SpeedCommand(CastI32(m1 * SpeedScale), CastI32(m2 * SpeedScale))
  }

  /** The call sent for the speed/turn pair: left = base - turn, right = base + turn. */
  function MixedCommand(speed: real, turn: real): (c: SpeedCommand)
    ensures InI32(c.m1) && InI32(c.m2)
  {
    var base := speed * SpeedScale;
    var adjustment := turn * TurnScale;
    SpeedCommand(CastI32(base - adjustment), CastI32(base + adjustment))
  }

  /** A truncated value is never further from zero than the value itself. */
  lemma TruncBounded(x: real, bound: int)
    requires -(bound as real) <= x <= bound as real
    ensures Abs(Trunc(x)) <= bound
  {
  }

  /**
   * Within slider range the individual path sends exactly the truncated scaled
   * percentages, at most 100000 in magnitude, so the cast never saturates.
   */
  lemma IndividualCommandInRange(m1: real, m2: real)
    requires InSliderRange(m1) && InSliderRange(m2)
    ensures IndividualCommand(m1, m2) == SpeedCommand(Trunc(m1 * 1000.0), Trunc(m2 * 1000.0))
    ensures Abs(IndividualCommand(m1, m2).m1) <= 100000
    ensures Abs(IndividualCommand(m1, m2).m2) <= 100000
  {
    TruncBounded(m1 * SpeedScale, 100000);
    TruncBounded(m2 * SpeedScale, 100000);
  }

  /**
   * Within slider range the mixed path sends exactly the truncated sums, at most
   * 150000 in magnitude, so the cast never saturates.
   */
  lemma MixedCommandInRange(speed: real, turn: real)
    requires InSliderRange(speed) && InSliderRange(turn)
    ensures MixedCommand(speed, turn)
         == SpeedCommand(Trunc(speed * 1000.0 - turn * 500.0), Trunc(speed * 1000.0 + turn * 500.0))
    ensures Abs(MixedCommand(speed, turn).m1) <= 150000
    ensures Abs(MixedCommand(speed, turn).m2) <= 150000
  {
    TruncBounded(speed * SpeedScale - turn * TurnScale, 150000);
    TruncBounded(speed * SpeedScale + turn * TurnScale, 150000);
  }

  /**
   * The mixed path is the individual path applied to `speed - turn / 2` and
   * `speed + turn / 2`: turning has half the authority of driving.
   */
  lemma MixedIsIndividual(speed: real, turn: real)
    ensures MixedCommand(speed, turn) == IndividualCommand(speed - turn / 2.0, speed + turn / 2.0)
  {
    assert speed * SpeedScale - turn * TurnScale == (speed - turn / 2.0) * SpeedScale;
    assert speed * SpeedScale + turn * TurnScale == (speed + turn / 2.0) * SpeedScale;
  }

  /** With the turn slider centred, both motors get the speed slider's command. */
  lemma StraightMixedDrivesBothAlike(speed: real)
    ensures MixedCommand(speed, 0.0) == IndividualCommand(speed, speed)
  {
    MixedIsIndividual(speed, 0.0);
  }

  /** Worked examples of the scaling: (50, -25) and speed 40 with turn 20. */
  lemma ScalingExamples()
    ensures IndividualCommand(50.0, -25.0) == SpeedCommand(50000, -25000)
    ensures MixedCommand(40.0, 20.0) == SpeedCommand(30000, 50000)
  {
    assert Trunc(50000.0) == 50000;
    assert Trunc(-25000.0) == -25000;
    assert Trunc(30000.0) == 30000;
  }

  /** Centred sliders send a stop on either path. */
  lemma CentredSlidersSendStop()
    ensures IndividualCommand(0.0, 0.0) == SpeedCommand(0, 0)
    ensures MixedCommand(0.0, 0.0) == SpeedCommand(0, 0)
  {
    assert Trunc(0.0) == 0;
  }
}
