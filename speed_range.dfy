/**
 * The playback-speed domain shared by MediaPlayer, VideoPlayer and
 * SpeedControl: the range [0.1, 16] every committed speed must lie in, the
 * preset list, the standalone 0.25 step buttons, and the validity test the
 * speed text field applies before it accepts a number.
 */
module SpeedRange {
  import opened Wrappers
  import opened Decimal

  const MinSpeed: real := 0.1
  const MaxSpeed: real := 16.0
  const StepSize: real := 0.25
  const PresetSpeeds: seq<real> := [0.25, 0.5, 0.75, 1.0, 1.25, 1.5, 2.0, 3.0, 4.0]

  predicate InRange(v: real) {
    MinSpeed <= v <= MaxSpeed
  }

  /** The + button: `Math.min(16, rate + 0.25)`. */
  function StepUp(rate: real): (r: real)
    ensures r <= MaxSpeed && r <= rate + StepSize
    ensures r == MaxSpeed || r == rate + StepSize
    ensures InRange(rate) ==> InRange(r) && r >= rate
  {
    if MaxSpeed < rate + StepSize then MaxSpeed else rate + StepSize
  }

  /** The - button: `Math.max(0.1, rate - 0.25)`. */
  function StepDown(rate: real): (r: real)
    ensures r >= MinSpeed && r >= rate - StepSize
    ensures r == MinSpeed || r == rate - StepSize
    ensures InRange(rate) ==> InRange(r) && r <= rate
  {
    if MinSpeed > rate - StepSize then MinSpeed else rate - StepSize
  }

  /** The bounds are fixed points of the step buttons, and away from them a step up is undone by a step down. */
  lemma StepsAtBounds(rate: real)
    ensures StepUp(MaxSpeed) == MaxSpeed && StepDown(MinSpeed) == MinSpeed
    ensures MinSpeed <= rate <= MaxSpeed - StepSize ==> StepDown(StepUp(rate)) == rate
    ensures MinSpeed + StepSize <= rate <= MaxSpeed ==> StepUp(StepDown(rate)) == rate
  {
  }

  /**
   * The speed a text denotes, when `parseFloat` gives a number and it lies in
   * [0.1, 16]; `None` when the text is not a number or out of range.
   */
  function ValidSpeed(text: string): (r: Option<real>)
    ensures r.Some? ==> InRange(r.value) && ParseFloat(text) == Some(r.value)
    ensures r.None? ==> ParseFloat(text).None? || !InRange(ParseFloat(text).value)
  {
    match ParseFloat(text)
    case Some(v) => if InRange(v) then Some(v) else None
    case None => None
  }

  /**
   * The text a speed field shows after it is normalised (blur, or Enter where
   * the handler reverts): a valid text in two-decimal form, otherwise the
   * fallback speed in two-decimal form.
   */
  function NormalizedText(text: string, fallback: real): string {
    match ValidSpeed(text)
    case Some(v) => ToFixed2(v)
    case None => ToFixed2(fallback)
  }

  /** Rounding a speed in range to hundredths keeps it in range, since both bounds are whole hundredths. */
  lemma RoundedInRange(v: real)
    requires InRange(v)
    ensures InRange(Rounded2(v))
  {
    var n := Hundredths(v);
    assert 10 <= n <= 1600;
  }

  /** A normalised text is always a valid speed when the fallback is, and normalising it again changes nothing. */
  lemma {:induction false} NormalizedTextStable(text: string, fallback: real)
    requires InRange(fallback)
    ensures ValidSpeed(NormalizedText(text, fallback)).Some?
    ensures NormalizedText(NormalizedText(text, fallback), fallback) == NormalizedText(text, fallback)
  {
    var v := match ValidSpeed(text) case Some(v) => v case None => fallback;
    assert InRange(v);
    assert NormalizedText(text, fallback) == ToFixed2(v);
    ParseToFixed2(v);
    RoundedInRange(v);
    assert ValidSpeed(ToFixed2(v)) == Some(Rounded2(v));
    ToFixed2OfRounded(v);
  }

  /** Every preset lies in range and is a whole number of hundredths, so its two-decimal text reads back exactly. */
  lemma {:induction false} PresetsExact(i: nat)
    requires i < |PresetSpeeds|
    ensures InRange(PresetSpeeds[i])
    ensures ValidSpeed(ToFixed2(PresetSpeeds[i])) == Some(PresetSpeeds[i])
  {
    var p := PresetSpeeds[i];
    var n := (p * 100.0).Floor;
    assert n as real == p * 100.0;
    assert Hundredths(p) == n;
    ParseToFixed2(p);
  }

  lemma PresetsAscending()
    ensures forall i, j :: 0 <= i < j < |PresetSpeeds| ==> PresetSpeeds[i] < PresetSpeeds[j]
  {
  }
}
