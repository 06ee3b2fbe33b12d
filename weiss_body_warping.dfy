/** The curve-driven body warp (Assets/_Scripts/Redirection/RedirectionTechniques/
    BodyWarping/Weiss_BodyWarping.cs): the offset between real and virtual hand
    grows with the hand's depth progress along a retargeting curve, and a
    retained offset vector shrinks back along its own direction when the curve
    asks for less. */
module WeissBodyWarping {
  import opened Geometry

  /** The AnimationCurve factory calls the study uses. Evaluating a curve is
      not modelled: the evaluated value is a parameter of ApplyRedirection. */
  datatype CurveShape =
    | Constant(timeStart: real, timeEnd: real, value: real)
    | Linear(timeStart: real, valueStart: real, timeEnd: real, valueEnd: real)
    | EaseInOut(timeStart: real, valueStart: real, timeEnd: real, valueEnd: real)

  /** The float the progress division yields: a finite value, or what
      dividing by a zero target-to-origin depth produces: an infinity of
      either sign, or NaN for 0/0. */
  datatype Progress = Finite(value: real) | PlusInfinity | MinusInfinity | NaN

  /** A quotient of a part by a positive whole lies in [0, 1]. */
  lemma QuotientInUnit(a: real, d: real)
    requires 0.0 <= a <= d && d > 0.0
    ensures 0.0 <= a / d <= 1.0
  {
    var q := a / d;
    assert q * d == a;
    assert q <= 1.0 by {
      assert (1.0 - q) * d == d - a;
    }
    assert q >= 0.0 by {
      assert q * d >= 0.0;
    }
  }

  /** 1 - (target.z - hand.z) / (target.z - origin.z). */
  function ProgressAlong(targetZ: real, handZ: real, originZ: real): (p: Progress)
    ensures p.Finite? <==> targetZ != originZ
    ensures targetZ == originZ ==>
      p == (if handZ < targetZ then MinusInfinity else if handZ > targetZ then PlusInfinity else NaN)
    ensures p.Finite? && handZ == originZ ==> p.value == 0.0
    ensures p.Finite? && handZ == targetZ ==> p.value == 1.0
    ensures p.Finite? && (originZ < targetZ) && originZ <= handZ <= targetZ ==> 0.0 <= p.value <= 1.0
  {
    if targetZ == originZ then
      // 1 - (targetZ - handZ) / 0.0 in IEEE arithmetic
      if handZ < targetZ then MinusInfinity else if handZ > targetZ then PlusInfinity else NaN
    else
      var d := targetZ - originZ;
      var q := (targetZ - handZ) / d;
      assert handZ == originZ ==> q == 1.0;
      assert handZ == targetZ ==> q == 0.0;
      assert originZ < targetZ && originZ <= handZ <= targetZ ==> 0.0 <= q <= 1.0 by {
        if originZ < targetZ && originZ <= handZ <= targetZ {
          QuotientInUnit(targetZ - handZ, d);
        }
      }
      Finite(1.0 - q)
  }

  /** Vector3.Lerp(Vector3.zero, virtualTarget - realTarget, curveValue). */
  function Candidate(realTarget: Vec3, virtualTarget: Vec3, curveValue: real): Vec3
  {
    Lerp(Zero, Sub(virtualTarget, realTarget), curveValue)
  }

  /** Because Lerp clamps its parameter to [0, 1], the candidate offset is a
      fraction of the real-to-virtual target offset, whatever the curve gives. */
  lemma CandidateBounded(norm: Vec3 -> real, realTarget: Vec3, virtualTarget: Vec3, curveValue: real)
    requires IsNorm(norm)
    ensures var d := Sub(virtualTarget, realTarget);
      Candidate(realTarget, virtualTarget, curveValue) == Scale(Clamp01(curveValue), d)
      && norm(Candidate(realTarget, virtualTarget, curveValue)) == Clamp01(curveValue) * norm(d)
      && norm(Candidate(realTarget, virtualTarget, curveValue)) <= norm(d)
  {
    LerpFromZero(Sub(virtualTarget, realTarget), curveValue);
    ScaledNormAtMost(norm, Clamp01(curveValue), Sub(virtualTarget, realTarget));
  }

  /** Interpolating from the origin scales the end point. */
  lemma LerpFromZero(b: Vec3, t: real)
    ensures Lerp(Zero, b, t) == Scale(Clamp01(t), b)
  {
    assert Sub(b, Zero) == b;
    assert Add(Zero, Scale(Clamp01(t), b)) == Scale(Clamp01(t), b);
  }

  /** Scaling by a fraction scales the length and never lengthens. */
  lemma ScaledNormAtMost(norm: Vec3 -> real, k: real, v: Vec3)
    requires IsNorm(norm) && 0.0 <= k <= 1.0
    ensures norm(Scale(k, v)) == k * norm(v) && norm(Scale(k, v)) <= norm(v)
  {
    var n := norm(v);
    assert n >= 0.0;
    assert norm(Scale(k, v)) == k * n;
    assert (1.0 - k) * n >= 0.0;
  }

  /** The retained-vector clamp: a candidate at least as long as the retained
      vector replaces it; a shorter one rescales the retained vector to the
      candidate's length. For a zero-length candidate the source divides by
      |retained| / 0 = +infinity, which in floats gives the zero vector. */
  function Retained(norm: Vec3 -> real, previous: Vec3, candidate: Vec3): Vec3
    requires IsNorm(norm)
  {
    if norm(candidate) >= norm(previous) then candidate
    else if norm(candidate) == 0.0 then Zero
    else Scale(norm(candidate) / norm(previous), previous)
  }

  /** After every clamp the retained vector is exactly as long as the
      candidate. */
  lemma RetainedMagnitude(norm: Vec3 -> real, previous: Vec3, candidate: Vec3)
    requires IsNorm(norm)
    ensures norm(Retained(norm, previous, candidate)) == norm(candidate)
  {
    if norm(candidate) >= norm(previous) {
    } else if norm(candidate) == 0.0 {
      NormZero(norm);
    } else {
      var k := norm(candidate) / norm(previous);
      assert k >= 0.0;
      assert norm(Scale(k, previous)) == k * norm(previous);
    }
  }

  /** A shorter candidate does not change the retained direction: the new
      retained vector is the previous one shrunk by a factor below 1. */
  lemma RetainedShrinksAlongPrevious(norm: Vec3 -> real, previous: Vec3, candidate: Vec3)
    requires IsNorm(norm)
    requires norm(candidate) < norm(previous)
    ensures exists k: real :: 0.0 <= k < 1.0 && Retained(norm, previous, candidate) == Scale(k, previous)
  {
    if norm(candidate) == 0.0 {
      assert Retained(norm, previous, candidate) == Scale(0.0, previous);
    } else {
      var k := norm(candidate) / norm(previous);
      assert 0.0 <= k < 1.0 by {
        var np := norm(previous);
        assert np > 0.0 && norm(candidate) >= 0.0;
        assert k * np == norm(candidate);
        assert (1.0 - k) * np == np - norm(candidate);
        assert np - norm(candidate) > 0.0;
        PositiveFactor(1.0 - k, np);
      }
      assert Retained(norm, previous, candidate) == Scale(k, previous);
    }
  }

  lemma PositiveFactor(a: real, b: real)
    requires b > 0.0 && a * b > 0.0
    ensures a > 0.0
  {
  }

  class WeissBodyWarping {
    /** Vector3.magnitude. */
    const norm: Vec3 -> real
    var realTarget: Vec3
    var virtualTarget: Vec3
    /** The offset kept between calls, and between activations: Init does not
        reset it. */
    var retargetingVector: Vec3
    var retargetingCurve: CurveShape

    constructor (norm: Vec3 -> real, curve: CurveShape)
      ensures this.norm == norm && retargetingCurve == curve
      ensures retargetingVector == Zero && realTarget == Zero && virtualTarget == Zero
    {
      this.norm := norm;
      retargetingCurve := curve;
      retargetingVector := Zero;
      realTarget := Zero;
      virtualTarget := Zero;
    }

    /** Init: captures the target's real and virtual positions; the retained
        vector of the previous activation is kept. */
    method Init(realTarget: Vec3, virtualTarget: Vec3)
      modifies this
      ensures this.realTarget == realTarget && this.virtualTarget == virtualTarget
      ensures retargetingVector == old(retargetingVector) && retargetingCurve == old(retargetingCurve)
    {
      this.realTarget := realTarget;
      this.virtualTarget := virtualTarget;
    }

    /** ApplyRedirection; `evaluate` stands for retargetingCurve.Evaluate. */
    method ApplyRedirection(realHand: Transform, virtualHand: Transform, warpOrigin: Transform,
                            evaluate: Progress -> real)
      requires IsNorm(norm)
      modifies this`retargetingVector, virtualHand`position
      ensures var c := Candidate(realTarget, virtualTarget,
                                 evaluate(ProgressAlong(realTarget.z, old(realHand.position.z), old(warpOrigin.position.z))));
        && retargetingVector == Retained(norm, old(retargetingVector), c)
        && norm(retargetingVector) == norm(c)
        && norm(retargetingVector) <= norm(Sub(virtualTarget, realTarget))
      ensures virtualHand.position == Add(old(realHand.position), retargetingVector)
    {
      var hand := realHand.position;
      var progress := ProgressAlong(realTarget.z, hand.z, warpOrigin.position.z);
      var c := Lerp(Zero, Sub(virtualTarget, realTarget), evaluate(progress));
      CandidateBounded(norm, realTarget, virtualTarget, evaluate(progress));
      RetainedMagnitude(norm, retargetingVector, c);
      if norm(c) >= norm(retargetingVector) {
        retargetingVector := c;
      } else if norm(c) == 0.0 {
        retargetingVector := Zero;
      } else {
        retargetingVector := Scale(norm(c) / norm(retargetingVector), retargetingVector);
      }
      virtualHand.position := Add(hand, retargetingVector);
    }
  }
}
