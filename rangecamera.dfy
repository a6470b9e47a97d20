/** The directional coverage of a range camera. Its height resolution is best
    when the camera looks at the surface straight on, so the score grows with
    the sine of the angle between the point's direction and the line of sight
    back to the camera. The cosines of the two angle parameters are given
    values rather than computed. */
module RangeCameras {
  import opened Runtime
  import opened Lasers

  /** The two angle parameters of the camera and their cosines. */
  datatype Angles = Angles(ideal: real, acceptable: real, cosIdeal: real, cosAcceptable: real)

  /** The score of one sine value. When the two angles coincide the score is a
      step at `cos(acceptable)`; otherwise it is the linear ramp from
      `cos(acceptable)` to `cos(ideal)`, clamped into [0, 1]. The ramp divides
      by the difference of the cosines, which is a division by zero when the
      angles differ but their cosines do not. */
  function CdVal(a: Angles, sigma: real): (r: Result<real>)
    ensures r.Err? <==> a.ideal != a.acceptable && a.cosIdeal == a.cosAcceptable
    ensures r.Err? ==> r.error == ZeroDivisionError
    ensures r.Ok? ==> 0.0 <= r.value <= 1.0
    ensures a.ideal == a.acceptable ==> (r == Ok(1.0) <==> sigma > a.cosAcceptable)
    ensures a.ideal == a.acceptable ==> (r == Ok(0.0) <==> sigma <= a.cosAcceptable)
  {
    var aa := a.cosAcceptable;
    if a.ideal == a.acceptable then
      Ok(if sigma > aa then 1.0 else 0.0)
    else if a.cosIdeal - aa == 0.0 then
      Err(ZeroDivisionError)
    else
      Ok(Clamp((sigma - aa) / (a.cosIdeal - aa)))
  }

  /** `min(max(t, 0.0), 1.0)`. */
  function Clamp(t: real): (c: real)
    ensures 0.0 <= c <= 1.0
    ensures 0.0 <= t <= 1.0 ==> c == t
    ensures t < 0.0 ==> c == 0.0
    ensures t > 1.0 ==> c == 1.0
  {
    var m := if t > 0.0 then t else 0.0;
    if m < 1.0 then m else 1.0
  }

  /** Between the two cosines, in either order, the score is the fraction of
      the way from `cos(acceptable)` to `cos(ideal)` that sigma has gone:
      `r * (ci - ca) == sigma - ca`. */
  lemma CdValOnRamp(a: Angles, sigma: real)
    requires a.ideal != a.acceptable && a.cosIdeal != a.cosAcceptable
    requires a.cosAcceptable <= sigma <= a.cosIdeal || a.cosIdeal <= sigma <= a.cosAcceptable
    ensures CdVal(a, sigma).Ok?
    ensures CdVal(a, sigma).value * (a.cosIdeal - a.cosAcceptable) == sigma - a.cosAcceptable
  {
    RampFraction(sigma - a.cosAcceptable, a.cosIdeal - a.cosAcceptable);
  }

  /** A quotient of two values of the same sign, the numerator no larger in
      size, lies in [0, 1]. */
  lemma RampFraction(n: real, d: real)
    requires d != 0.0
    requires 0.0 <= n <= d || d <= n <= 0.0
    ensures 0.0 <= n / d <= 1.0 && (n / d) * d == n
  {
    if d > 0.0 {
      PositiveFraction(n, d);
    } else {
      // both signs flip without changing the quotient
      PositiveFraction(-n, -d);
      assert n / d == (-n) / (-d);
    }
  }

  lemma PositiveFraction(n: real, d: real)
    requires 0.0 <= n <= d
    requires d > 0.0
    ensures 0.0 <= n / d <= 1.0 && (n / d) * d == n
  {
    DivCompare(n, d, d);
    DivCompare(0.0, n, d);
    assert d / d == 1.0 && 0.0 / d == 0.0;
  }

  /** The score is 1 once sigma reaches `cos(ideal)` and 0 once it is no
      nearer to it than `cos(acceptable)`, whichever side of
      `cos(acceptable)` the ideal cosine lies on. */
  lemma CdValSaturates(a: Angles, sigma: real)
    requires a.ideal != a.acceptable
    ensures a.cosIdeal > a.cosAcceptable && sigma >= a.cosIdeal ==> CdVal(a, sigma) == Ok(1.0)
    ensures a.cosIdeal > a.cosAcceptable && sigma <= a.cosAcceptable ==> CdVal(a, sigma) == Ok(0.0)
    ensures a.cosIdeal < a.cosAcceptable && sigma <= a.cosIdeal ==> CdVal(a, sigma) == Ok(1.0)
    ensures a.cosIdeal < a.cosAcceptable && sigma >= a.cosAcceptable ==> CdVal(a, sigma) == Ok(0.0)
  {
    var d := a.cosIdeal - a.cosAcceptable;
    var n := sigma - a.cosAcceptable;
    if d > 0.0 {
      DivCompare(n, d, d);
      DivCompare(n, 0.0, d);
      assert d / d == 1.0 && 0.0 / d == 0.0;
    } else if d < 0.0 {
      assert n / d == (-n) / (-d);
      DivCompare(-n, -d, -d);
      DivCompare(-n, 0.0, -d);
      assert (-d) / (-d) == 1.0 && 0.0 / (-d) == 0.0;
    }
  }

  /** The score never decreases as the sine grows, as long as the angles
      coincide or `cos(ideal) > cos(acceptable)` (an ideal angle narrower than
      the acceptable one). */
  lemma CdValMonotone(a: Angles, s1: real, s2: real)
    requires a.cosIdeal > a.cosAcceptable || a.ideal == a.acceptable
    requires s1 <= s2
    ensures CdVal(a, s1).Ok? && CdVal(a, s2).Ok?
    ensures CdVal(a, s1).value <= CdVal(a, s2).value
  {
    if a.ideal != a.acceptable {
      var d := a.cosIdeal - a.cosAcceptable;
      DivCompare(s1 - a.cosAcceptable, s2 - a.cosAcceptable, d);
    }
  }

  // ---------------------------------------------------------------------
  // The score of a point

  /** What `Cd` may be given: a bare position, or a directional point of the
      relevance model. */
  datatype Target = Plain(position: Vec) | Directed(point: RangePoint) {
    function Position(): Vec {
      match this
      case Plain(position) => position
      case Directed(point) => point.position
    }
  }

  /** `Cd(p)`. The sine of the angle between the point's direction and the
      vector back to the camera is given by `sineToCamera`. A point without a
      direction has none to measure (an AttributeError in the source), and a
      point at the camera's origin has no line of sight (a ValueError); both
      score 1. Only those two exceptions are caught: the division by zero of
      the ramp propagates. */
  function Cd(a: Angles, p: Target, sineToCamera: Target -> real): (r: Result<real>)
    ensures p.Plain? || p.Position() == Origin ==> r == Ok(1.0)
    ensures p.Directed? && p.Position() != Origin ==> r == CdVal(a, sineToCamera(p))
    ensures r.Ok? ==> 0.0 <= r.value <= 1.0
  {
    match p
    case Plain(_) => Ok(1.0)
    case Directed(point) =>
      if point.position == Origin then Ok(1.0) else CdVal(a, sineToCamera(p))
  }
}
