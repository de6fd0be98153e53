/** The tick interval as a function of the score. */
module Speed {

  /** Interval, in milliseconds, at score 0. */
  const InitialSpeed := 200
  /** The interval never drops below this many milliseconds. */
  const MinSpeed := 60
  /** Milliseconds taken off the interval per point scored. */
  const SpeedStep := 10

  /** `Math.max(60, 200 - score * 10)`. */
  function SpeedFor(score: nat): (r: int)
    ensures MinSpeed <= r <= InitialSpeed
    ensures r == MinSpeed || r == InitialSpeed - score * SpeedStep
    ensures r == MinSpeed <==> score >= 14
  {
    var stepped := InitialSpeed - score * SpeedStep;
    if stepped > MinSpeed then stepped else MinSpeed
  }

  /** A higher score never means a slower game. */
  lemma SpeedNonIncreasing(a: nat, b: nat)
    requires a <= b
    ensures SpeedFor(b) <= SpeedFor(a)
    ensures SpeedFor(b) < SpeedFor(a) <==> a < b && a < 14
  {
  }

  /** Each point below the floor takes exactly one step off the interval. */
  lemma SpeedStepsDown(score: nat)
    ensures score < 14 ==> SpeedFor(score + 1) == SpeedFor(score) - SpeedStep
    ensures score >= 14 ==> SpeedFor(score + 1) == SpeedFor(score)
  {
  }
}
