/** Status band for the selected angle (app.py:105-108): a fixed inclusive
    range of recommended insertion angles, independent of any target. */
module Classification {
  import opened Selection

  /** Drawn orange (on target) or yellow (off target). */
  datatype Status = OnTarget | OffTarget

  const OnTargetLow: real := 20.0
  const OnTargetHigh: real := 40.0

  function Classify(angle: real): (r: Status)
    ensures r == OnTarget <==> OnTargetLow <= angle <= OnTargetHigh
  {
    if OnTargetLow <= angle <= OnTargetHigh then OnTarget else OffTarget
  }

  /** Both ends of the band are on target, and the band sits strictly inside
      the acceptance band of the selector, so every on-target angle is one a
      selected needle can have. */
  lemma OnTargetWithinAcceptance(angle: real)
    ensures Classify(OnTargetLow) == OnTarget && Classify(OnTargetHigh) == OnTarget
    ensures Classify(angle) == OnTarget ==> MinAngle < angle < MaxAngle
  {
  }

  /** Accepted angles on either side of the band are off target. */
  lemma OffTargetOutsideBand(angle: real)
    requires MinAngle < angle < MaxAngle
    ensures Classify(angle) == OffTarget <==> angle < OnTargetLow || OnTargetHigh < angle
  {
  }
}
