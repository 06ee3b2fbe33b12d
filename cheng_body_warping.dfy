/** The body warp with a zero-warp zone after Cheng et al., "Sparse Haptic
    Proxy" (CHI 2017), as implemented in Assets/_Scripts/Redirection/
    RedirectionTechniques/BodyWarping/Cheng_BodyWarping.cs: the virtual hand is
    shifted by the fraction ds / (ds + dp) of the real-to-virtual target offset,
    where ds is the hand's distance from the warp origin and dp its distance
    from the real target. */
module ChengBodyWarping {
  import opened Common
  import opened Geometry

  /** The shift ratio ds / (ds + dp); None where the float division is 0/0
      (hand both at the warp origin and at the real target), which yields NaN. */
  function ShiftRatio(ds: real, dp: real): (a: Option<real>)
    requires ds >= 0.0 && dp >= 0.0
    ensures a.None? <==> ds + dp == 0.0
    ensures a.Some? ==> 0.0 <= a.value <= 1.0
    ensures ds == 0.0 && dp > 0.0 ==> a == Some(0.0)
    ensures dp == 0.0 && ds > 0.0 ==> a == Some(1.0)
  {
    if ds + dp == 0.0 then None
    else
      var a := ds / (ds + dp);
      assert a <= 1.0 by {
        assert ds <= ds + dp;
      }
      assert dp == 0.0 ==> a == 1.0 by {
        if dp == 0.0 {
          assert ds + dp == ds;
        }
      }
      Some(a)
  }

  /** w = a * t + (1 - a) * t0. */
  function Warp(a: real, t: Vec3, t0: Vec3): Vec3
  {
    Add(Scale(a, t), Scale(1.0 - a, t0))
  }

  /** With t0 the zero vector the warp is a fraction of t, so the virtual hand
      is never further from the real hand than the target offset. */
  lemma WarpBounded(norm: Vec3 -> real, a: real, t: Vec3)
    requires IsNorm(norm)
    requires 0.0 <= a <= 1.0
    ensures Warp(a, t, Zero) == Scale(a, t)
    ensures norm(Warp(a, t, Zero)) <= norm(t)
    ensures a == 0.0 ==> Warp(a, t, Zero) == Zero
    ensures a == 1.0 ==> Warp(a, t, Zero) == t
  {
    assert Scale(1.0 - a, Zero) == Zero;
    assert norm(Scale(a, t)) == a * norm(t);
    assert a * norm(t) <= norm(t) by {
      assert (1.0 - a) * norm(t) >= 0.0;
    }
  }

  /** The virtual hand written for a defined ratio is within |t| of the real
      hand. */
  lemma VirtualHandWithinOffset(norm: Vec3 -> real, hand: Vec3, t: Vec3, ds: real, dp: real)
    requires IsNorm(norm) && ds >= 0.0 && dp >= 0.0
    requires ShiftRatio(ds, dp).Some?
    ensures norm(Sub(Add(hand, Warp(ShiftRatio(ds, dp).value, t, Zero)), hand)) <= norm(t)
  {
    var a := ShiftRatio(ds, dp).value;
    WarpBounded(norm, a, t);
    assert Sub(Add(hand, Warp(a, t, Zero)), hand) == Warp(a, t, Zero);
  }

  /** On the tick the hand leaves the zero-warp zone the warp origin is moved
      onto the hand; when the technique measures ds from that same origin, ds
      is 0 and (away from the real target) the virtual hand sits on the real
      hand. The same holds inside the zone, where ds is 0 by definition. */
  lemma NoWarpAtOrigin(norm: Vec3 -> real, hand: Vec3, t: Vec3, dp: real)
    requires IsNorm(norm) && dp > 0.0
    ensures norm(Sub(hand, hand)) == 0.0
    ensures ShiftRatio(0.0, dp) == Some(0.0)
    ensures Add(hand, Warp(0.0, t, Zero)) == hand
  {
    assert Sub(hand, hand) == Zero;
    NormZero(norm);
    WarpBounded(norm, 0.0, t);
  }

  class ChengBodyWarping {
    /** Vector3.magnitude and Vector3.Distance. */
    const norm: Vec3 -> real
    /** The offset from the real to the virtual target. */
    var t: Vec3
    /** Declared as "the null vector" and never assigned. */
    var t0: Vec3
    var isInZeroWarpZone: bool
    var zeroWarpDistance: real
    var realTargetPos: Vec3

    predicate Valid()
      reads this
    {
      t0 == Zero
    }

    constructor (norm: Vec3 -> real, zeroWarpDistance: real)
      ensures Valid()
      ensures this.norm == norm && this.zeroWarpDistance == zeroWarpDistance
      ensures !isInZeroWarpZone && t == Zero && realTargetPos == Zero
    {
      this.norm := norm;
      this.zeroWarpDistance := zeroWarpDistance;
      t := Zero;
      t0 := Zero;
      isInZeroWarpZone := false;
      realTargetPos := Zero;
    }

    /** Init: stores the real target and the offset to the virtual target. */
    method Init(realTarget: Vec3, virtualTarget: Vec3)
      requires Valid()
      modifies this`realTargetPos, this`t
      ensures Valid()
      ensures realTargetPos == realTarget && t == Sub(virtualTarget, realTarget)
    {
      realTargetPos := realTarget;
      t := Sub(virtualTarget, realTarget);
    }

    /** ApplyRedirection. `managerWarpOrigin` is the manager's warp origin,
        moved to the real hand when the hand leaves the zero-warp zone; the
        `warpOrigin` passed in is usually the same object. */
    method ApplyRedirection(realHand: Transform, virtualHand: Transform, warpOrigin: Transform,
                            body: Transform, managerWarpOrigin: Transform)
      requires Valid() && IsNorm(norm)
      requires virtualHand != realHand && virtualHand != warpOrigin && virtualHand != managerWarpOrigin
      modifies this`isInZeroWarpZone, managerWarpOrigin`position, virtualHand`position
      ensures Valid()
      ensures var hand := old(realHand.position);
        var inZone := norm(Sub(hand, old(body.position))) < zeroWarpDistance;
        var leaving := !inZone && old(isInZeroWarpZone);
        var origin := if leaving && warpOrigin == managerWarpOrigin then hand else old(warpOrigin.position);
        var ds := if inZone then 0.0 else norm(Sub(hand, origin));
        var dp := norm(Sub(hand, realTargetPos));
        && isInZeroWarpZone == inZone
        && managerWarpOrigin.position == (if leaving then hand else old(managerWarpOrigin.position))
        && (ShiftRatio(ds, dp).Some? ==> virtualHand.position == Add(hand, Warp(ShiftRatio(ds, dp).value, t, Zero)))
    {
      var hand := realHand.position;
      var ds := 0.0;
      var dist := norm(Sub(hand, body.position));
      if dist < zeroWarpDistance {
        ds := 0.0;
        isInZeroWarpZone := true;
      } else {
        if isInZeroWarpZone {
          managerWarpOrigin.position := hand;
        }
        ds := norm(Sub(hand, warpOrigin.position));
        isInZeroWarpZone := false;
      }
      var dp := norm(Sub(hand, realTargetPos));
      var a := ShiftRatio(ds, dp);
      if a.Some? {
        virtualHand.position := Add(hand, Warp(a.value, t, t0));
      } else {
        // 0 / 0: the float warp is NaN in every component; the model leaves
        // the written position unconstrained.
        var undefined: Vec3 :| true;
        virtualHand.position := undefined;
      }
    }
  }
}
