/** The points a hit earns, as a function of how far the ring still was from
    the player's disc. Distances are measured in tenths of a pixel, so the
    source's `int(1 / ((d / 10) ** 2) * 1000)` on a distance of d pixels is
    the integer quotient Numerator / (D * D) on D = 10 * d tenths, in real
    arithmetic. */
module Scoring {
  import opened Units

  /** The source's curve-steepness constant: distances are divided by it. */
  const Scale: int := 10

  /** The source's multiplier applied before truncation. */
  const Multiplier: int := 1000

  /** 1 / ((D / (Tenths * Scale)) ** 2) * Multiplier == Numerator / (D * D). */
  const Numerator: int := Multiplier * (Tenths * Scale) * (Tenths * Scale)

  /** The largest distance, in tenths, that still earns a point (316.2 pixels). */
  const MaxScoringDistance: int := 3162

  /** The points a hit at distance D (tenths, D > 0) adds to the score: the
      largest whole number of points p with p * D^2 <= Numerator, that is the
      truncated value of Numerator / D^2. */
  function HitPoints(distance: int): (p: nat)
    requires distance > 0
    ensures p * (distance * distance) <= Numerator
    ensures Numerator < (p + 1) * (distance * distance)
  {
    Numerator / (distance * distance)
  }

  lemma MulMonotone(a: int, b: int, c: int)
    requires 0 <= a <= b && 0 <= c
    ensures a * c <= b * c
  {
  }

  /** Precision pays: a hit closer to the disc never earns fewer points. */
  lemma HitPointsMonotonic(near: int, far: int)
    requires 0 < near <= far
    ensures HitPoints(far) <= HitPoints(near)
  {
    var qNear, qFar := HitPoints(near), HitPoints(far);
    var sNear, sFar := near * near, far * far;
    MulMonotone(near, far, near);
    MulMonotone(near, far, far);
    assert sNear <= sFar;
    MulMonotone(sNear, sFar, qFar);
    assert qFar * sNear <= Numerator;
    if qFar > qNear {
      MulMonotone(qNear + 1, qFar, sNear);
      assert false;
    }
  }

  /** A hit scores at least one point exactly when the ring is within
      MaxScoringDistance of the disc; a hit from further out is worth 0. */
  lemma HitPointsPositiveIff(distance: int)
    requires distance > 0
    ensures HitPoints(distance) > 0 <==> distance <= MaxScoringDistance
  {
    var p := HitPoints(distance);
    if distance <= MaxScoringDistance {
      MulMonotone(distance, MaxScoringDistance, distance);
      MulMonotone(distance, MaxScoringDistance, MaxScoringDistance);
      assert (0 + 1) * (distance * distance) <= Numerator;
    } else {
      MulMonotone(MaxScoringDistance + 1, distance, MaxScoringDistance + 1);
      MulMonotone(MaxScoringDistance + 1, distance, distance);
      assert Numerator < distance * distance;
      if p > 0 {
        MulMonotone(1, p, distance * distance);
        assert false;
      }
    }
  }

  /** The worked examples: 100 pixels (1000 tenths) earns 10 points, 10 pixels
      earns 1000. */
  lemma HitPointsExamples()
    ensures HitPoints(1000) == 10
    ensures HitPoints(100) == 1000
  {
  }
}
