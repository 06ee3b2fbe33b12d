/** A redirection target (Assets/_Scripts/Redirection/RedirectionObject.cs):
    its list of real/virtual pose pairs, the choice of the real target
    position by mode, the random offset it remembers, and the highlight
    hand-over to its reset position. */
module RedirectionObject {
  import opened Common
  import opened Geometry

  /** A VirtualToRealConnection child component: a real and a virtual pose.
      `id` stands for the component's identity, which List.Contains compares. */
  datatype Connection = Connection(id: nat, realPosition: Vec3, realRotation: Quaternion,
                                   virtualPosition: Vec3, virtualRotation: Quaternion)

  /** The foreach of Start: each child not yet contained is appended. */
  function Merge(positions: seq<Connection>, children: seq<Connection>): seq<Connection>
    decreases |children|
  {
    if children == [] then positions
    else Merge(if children[0] in positions then positions else positions + [children[0]], children[1..])
  }

  /** The connections already listed keep their places. */
  lemma {:induction false} MergeKeepsPrefix(positions: seq<Connection>, children: seq<Connection>)
    ensures |positions| <= |Merge(positions, children)|
    ensures Merge(positions, children)[..|positions|] == positions
    decreases |children|
  {
    if children != [] {
      var next := if children[0] in positions then positions else positions + [children[0]];
      MergeKeepsPrefix(next, children[1..]);
      assert next[..|positions|] == positions;
    }
  }

  /** Afterwards exactly the listed connections and the children are present. */
  lemma {:induction false} MergeContents(positions: seq<Connection>, children: seq<Connection>)
    ensures forall c :: c in Merge(positions, children) <==> c in positions || c in children
    decreases |children|
  {
    if children != [] {
      var next := if children[0] in positions then positions else positions + [children[0]];
      MergeContents(next, children[1..]);
      assert children == [children[0]] + children[1..];
    }
  }

  /** No connection is added twice: a duplicate-free list stays duplicate-free,
      even when a child appears twice. */
  lemma {:induction false} MergeNoDuplicates(positions: seq<Connection>, children: seq<Connection>)
    requires NoDuplicates(positions)
    ensures NoDuplicates(Merge(positions, children))
    decreases |children|
  {
    if children != [] {
      var next := if children[0] in positions then positions else positions + [children[0]];
      assert NoDuplicates(next) by {
        if children[0] !in positions {
          forall i, j | 0 <= i < j < |next| ensures next[i] != next[j] {
            if j == |positions| {
              assert next[i] == positions[i];
            }
          }
        }
      }
      MergeNoDuplicates(next, children[1..]);
    }
  }

  function RealPositions(positions: seq<Connection>): set<Vec3>
  {
    set c | c in positions :: c.realPosition
  }

  datatype ObjectError = IndexOutOfRange(index: int)

  /** The random-point choice as written: the index is drawn from
      Random.Range(-1, positions.Count), i.e. from [-1, Count), and index -1
      makes the list access throw. */
  function RandomPointAsWritten(positions: seq<Connection>, draw: int): (r: Result<Vec3, ObjectError>)
    requires -1 <= draw < |positions|
    ensures r.Failure? <==> draw == -1
    ensures r.Success? ==> r.value in RealPositions(positions)
  {
    if draw == -1 then Failure(IndexOutOfRange(draw)) else Success(positions[draw].realPosition)
  }

  /** Every call of the random-point mode can draw -1, for any list. */
  lemma RandomPointAsWrittenCanThrow(positions: seq<Connection>)
    ensures RandomPointAsWritten(positions, -1) == Failure(IndexOutOfRange(-1))
  {
  }

  /** The evidently intended choice, Random.Range(0, positions.Count). */
  function RandomPoint(positions: seq<Connection>, draw: int): (r: Vec3)
    requires 0 <= draw < |positions|
    ensures r in RealPositions(positions)
  {
    positions[draw].realPosition
  }

  /** With the intended range every real position can be drawn and nothing
      else can. */
  lemma RandomPointCovers(positions: seq<Connection>)
    ensures (set d | 0 <= d < |positions| :: RandomPoint(positions, d)) == RealPositions(positions)
  {
    var drawn := set d | 0 <= d < |positions| :: RandomPoint(positions, d);
    forall p | p in RealPositions(positions) ensures p in drawn {
      var c :| c in positions && c.realPosition == p;
      var i :| 0 <= i < |positions| && positions[i] == c;
      assert RandomPoint(positions, i) == p;
    }
  }

  class RedirectionObject {
    /** The object's identity, compared with the manager's active target. */
    const id: nat
    /** Vector3.magnitude. */
    const norm: Vec3 -> real
    const resetPosition: RedirectionObject?
    var positions: seq<Connection>
    /** The HandRedirector and warp origin in use, by identity; None is null. */
    var redirectionTechnique: Option<nat>
    var warpOrigin: Option<nat>
    var useResetPosition: bool
    /** Whether the object is drawn in the highlight colour. */
    var highlighted: bool
    /** transform.position */
    var position: Vec3
    var initialPosition: Vec3
    var offset: Vec3

    /** The random offset lies in the keypad plane. */
    predicate Valid()
      reads this
    {
      offset.z == 0.0
    }

    constructor (id: nat, norm: Vec3 -> real, resetPosition: RedirectionObject?, positions: seq<Connection>,
                 redirectionTechnique: Option<nat>, warpOrigin: Option<nat>, useResetPosition: bool, position: Vec3)
      ensures Valid()
      ensures this.id == id && this.norm == norm && this.resetPosition == resetPosition
      ensures this.positions == positions && this.redirectionTechnique == redirectionTechnique
      ensures this.warpOrigin == warpOrigin && this.useResetPosition == useResetPosition
      ensures this.position == position && initialPosition == position
      ensures offset == Zero && !highlighted
    {
      this.id := id;
      this.norm := norm;
      this.resetPosition := resetPosition;
      this.positions := positions;
      this.redirectionTechnique := redirectionTechnique;
      this.warpOrigin := warpOrigin;
      this.useResetPosition := useResetPosition;
      this.position := position;
      initialPosition := position;
      offset := Zero;
      highlighted := false;
    }

    /** Start: falls back to the manager's defaults for a missing technique or
        warp origin, merges the child connections and records the position. */
    method Start(children: seq<Connection>, defaultTechnique: nat, defaultWarpOrigin: nat)
      modifies this`redirectionTechnique, this`warpOrigin, this`positions, this`initialPosition
      ensures redirectionTechnique == if old(redirectionTechnique).None? then Some(defaultTechnique) else old(redirectionTechnique)
      ensures warpOrigin == if old(warpOrigin).None? then Some(defaultWarpOrigin) else old(warpOrigin)
      ensures positions == Merge(old(positions), children)
      ensures initialPosition == position
    {
      if redirectionTechnique.None? {
        redirectionTechnique := Some(defaultTechnique);
      }
      if warpOrigin.None? {
        warpOrigin := Some(defaultWarpOrigin);
      }
      ghost var technique, origin := redirectionTechnique, warpOrigin;
      var i := 0;
      while i < |children|
        invariant 0 <= i <= |children|
        invariant redirectionTechnique == technique && warpOrigin == origin
        invariant Merge(positions, children[i..]) == Merge(old(positions), children)
      {
        assert children[i..][1..] == children[i + 1..];
        if children[i] !in positions {
          positions := positions + [children[i]];
        }
        i := i + 1;
      }
      assert children[i..] == [];
      initialPosition := position;
    }

    /** GetRealTargetPos with the manager's flags, and with
        `maxRandomVectorLength` = Mathf.Tan(maxRedirectionAngle * Deg2Rad) * threshold.
        The random-point index is drawn from [0, Count). */
    method GetRealTargetPos(isRandomTarget: bool, isRandomVector: bool, maxRandomVectorLength: real,
                            randomVector: Transform) returns (r: Vec3)
      requires Valid() && IsNorm(norm)
      requires |positions| >= 1
      modifies this`offset, randomVector`position
      ensures Valid()
      ensures !isRandomTarget ==> r == positions[0].realPosition && offset == old(offset)
      ensures isRandomTarget && !isRandomVector ==> r in RealPositions(positions) && offset == old(offset)
      ensures isRandomTarget && isRandomVector ==>
        && r == Add(position, offset)
        && randomVector.position == r
        && (maxRandomVectorLength >= 0.0 ==> norm(offset) == 0.0 || norm(offset) == maxRandomVectorLength)
      ensures !(isRandomTarget && isRandomVector) ==> randomVector.position == old(randomVector.position)
    {
      if isRandomTarget {
        if isRandomVector {
          // Vector3(Random.Range(-1f, 1f), Random.Range(-1f, 1f), 0).normalized:
          // a unit vector in the plane, or the zero vector.
          var direction: Vec3 :| direction.z == 0.0 && (direction == Zero || norm(direction) == 1.0);
          offset := Scale(maxRandomVectorLength, direction);
          if maxRandomVectorLength >= 0.0 {
            if direction == Zero {
              assert offset == Zero;
              NormZero(norm);
            }
          }
          randomVector.position := Add(position, offset);
          r := randomVector.position;
        } else {
          var draw :| 0 <= draw < |positions|;
          r := RandomPoint(positions, draw);
        }
      } else {
        r := positions[0].realPosition;
      }
    }

    function GetVirtualTargetPos(): (p: Vec3)
      requires |positions| >= 1
      reads this
      ensures p == positions[0].virtualPosition
    {
      positions[0].virtualPosition
    }

    function GetVirtualRot(): (q: Quaternion)
      requires |positions| >= 1
      reads this
      ensures q == positions[0].virtualRotation
    {
      positions[0].virtualRotation
    }

    function GetRealRot(): (q: Quaternion)
      requires |positions| >= 1
      reads this
      ensures q == positions[0].realRotation
    {
      positions[0].realRotation
    }

    /** _offset.magnitude: 0 until a random-vector choice sets the offset. */
    function GetRedirectionDistance(): (d: real)
      requires IsNorm(norm)
      reads this
      ensures d >= 0.0
      ensures offset == Zero ==> d == 0.0
    {
      NormZero(norm);
      norm(offset)
    }

    function GetOffsetVector(): (v: Vec3)
      requires Valid()
      reads this
      ensures v.z == 0.0
    {
      offset
    }

    /** EndRedirection: the highlight goes off, and the reset position's too
        when one is used. The technique's own EndRedirection is not part of
        this model. */
    method EndRedirection(isHighlightActive: bool)
      requires useResetPosition ==> resetPosition != null
      modifies this`highlighted, resetPosition
      ensures highlighted == (if isHighlightActive then false else old(highlighted))
      ensures resetPosition != null && resetPosition != this ==>
        resetPosition.highlighted ==
          (if useResetPosition && isHighlightActive then false else old(resetPosition.highlighted))
      ensures resetPosition != null ==> unchanged(resetPosition`positions, resetPosition`offset)
    {
      if isHighlightActive {
        highlighted := false;
      }
      if useResetPosition && isHighlightActive {
        resetPosition.highlighted := false;
      }
    }

    /** OnHandEnter: only for an object that uses a reset position and is
        the manager's active target, the highlight moves to the reset
        position. */
    method OnHandEnter(activeTarget: Option<nat>, isHighlightActive: bool)
      requires useResetPosition ==> resetPosition != null
      modifies this`highlighted, resetPosition
      ensures !useResetPosition || activeTarget != Some(id) || !isHighlightActive ==>
        highlighted == old(highlighted) &&
        (resetPosition != null ==> resetPosition.highlighted == old(resetPosition.highlighted))
      ensures useResetPosition && activeTarget == Some(id) && isHighlightActive ==>
        resetPosition.highlighted && (resetPosition != this ==> !highlighted)
      ensures resetPosition != null ==> unchanged(resetPosition`positions, resetPosition`offset)
    {
      if !useResetPosition || activeTarget != Some(id) {
        return;
      }
      if isHighlightActive {
        highlighted := false;
        resetPosition.highlighted := true;
      }
    }
  }
}
