/** Which hand the participant uses (Assets/_Scripts/Handedness.cs): the real
    hand, its pointer and the virtual hand's freeze flag are switched on for one
    side and off for the other, and the movement controller tracks the active
    real hand. */
module Handedness {
  import opened Common

  /** Leap's Chirality. A C# enum variable can hold any integer; values other
      than Left and Right reach the `default` branches, which throw. */
  datatype Chirality = Left | Right | OutOfRange(code: int)

  datatype Side = LeftSide | RightSide

  function SideOf(c: Chirality): (s: Side)
    requires !c.OutOfRange?
    ensures s == LeftSide <==> c == Left
  {
    if c == Left then LeftSide else RightSide
  }

  /** The side the manager treats as dominant: Left, or Right for any other
      value. */
  function DominantSide(c: Chirality): (s: Side)
    ensures s == LeftSide <==> c == Left
  {
    if c == Left then LeftSide else RightSide
  }

  function Opposite(s: Side): (o: Side)
    ensures o != s
  {
    if s == LeftSide then RightSide else LeftSide
  }

  /** The objects of one side: the real hand GameObject, the virtual hand
      GameObject, the pointer GameObject, and the virtual hand's
      HandEnableDisable.FreezeHandState. */
  datatype HandSide = HandSide(realActive: bool, virtualActive: bool, pointerActive: bool, frozen: bool)

  /** Both sides and MovementController.trackedHand (None until first set). */
  datatype HandState = HandState(left: HandSide, right: HandSide, tracked: Option<Side>)

  function Hand(s: HandState, side: Side): HandSide
  {
    if side == LeftSide then s.left else s.right
  }

  function With(s: HandState, side: Side, h: HandSide): HandState
  {
    if side == LeftSide then s.(left := h) else s.(right := h)
  }

  /** What Deactivate{Left,Right}Hand leaves on its side. */
  const Off := HandSide(false, false, false, true)

  /** Deactivate{Left,Right}Hand. */
  function Deactivated(s: HandState, side: Side): HandState
  {
    With(s, side, Off)
  }

  /** Activate{Left,Right}Hand, in the source's order: real hand and pointer
      on, the other side deactivated, tracked hand set, virtual hand unfrozen.
      The virtual hand GameObject is not touched. */
  function Activated(s: HandState, side: Side): HandState
  {
    var s1 := With(s, side, Hand(s, side).(realActive := true, pointerActive := true));
    var s2 := Deactivated(s1, Opposite(side));
    With(s2, side, Hand(s2, side).(frozen := false)).(tracked := Some(side))
  }

  /** switchHand: deactivate the other side, then activate this one. */
  function Switched(s: HandState, side: Side): HandState
  {
    Activated(Deactivated(s, Opposite(side)), side)
  }

  /** Start: activate the dominant side, then deactivate the other one. */
  function Started(s: HandState, side: Side): HandState
  {
    Deactivated(Activated(s, side), Opposite(side))
  }

  /** The final state of switchHand: the chosen side's real hand and pointer
      active and its virtual hand unfrozen, its virtual GameObject as before;
      the other side entirely off and frozen; the chosen real hand tracked. */
  lemma SwitchedState(s: HandState, side: Side)
    ensures Hand(Switched(s, side), side) == HandSide(true, Hand(s, side).virtualActive, true, false)
    ensures Hand(Switched(s, side), Opposite(side)) == Off
    ensures Switched(s, side).tracked == Some(side)
  {
  }

  /** After any switch exactly one real hand is active. */
  lemma ExactlyOneRealHand(s: HandState, side: Side)
    ensures Switched(s, side).left.realActive != Switched(s, side).right.realActive
    ensures Switched(s, side).left.realActive <==> side == LeftSide
  {
    SwitchedState(s, side);
  }

  /** Switching twice to the same side is the same as switching once. */
  lemma SwitchIdempotent(s: HandState, side: Side)
    ensures Switched(Switched(s, side), side) == Switched(s, side)
  {
    SwitchedState(s, side);
    SwitchedState(Switched(s, side), side);
  }

  /** Start ends in the same state as switchHand to the dominant side. */
  lemma StartMatchesSwitch(s: HandState, side: Side)
    ensures Started(s, side) == Switched(s, side)
  {
    SwitchedState(s, side);
  }

  /** No switch ever turns a virtual hand GameObject on: once the right hand
      has been chosen and then the left, the left virtual hand stays off. */
  lemma VirtualHandsNeverEnabled(s: HandState, side: Side)
    ensures Switched(s, side).left.virtualActive ==> s.left.virtualActive
    ensures Switched(s, side).right.virtualActive ==> s.right.virtualActive
    ensures !Switched(Switched(s, RightSide), LeftSide).left.virtualActive
  {
    SwitchedState(s, side);
    SwitchedState(s, RightSide);
    SwitchedState(Switched(s, RightSide), LeftSide);
  }

  /** A study break switches to the weak hand and its end switches back:
      the real hands, pointers, tracked hand and freeze flags are then as
      after Start, whatever the state before the break. */
  lemma WeakThenDominantRestores(s: HandState, c: Chirality)
    requires !c.OutOfRange?
    ensures Switched(Switched(s, Opposite(DominantSide(c))), DominantSide(c)) ==
            Started(Switched(s, Opposite(DominantSide(c))), SideOf(c))
    ensures var r := Switched(Switched(s, Opposite(DominantSide(c))), DominantSide(c));
      && Hand(r, DominantSide(c)).realActive && !Hand(r, Opposite(DominantSide(c))).realActive
      && !Hand(r, Opposite(DominantSide(c))).virtualActive
  {
    var d := DominantSide(c);
    var w := Switched(s, Opposite(d));
    StartMatchesSwitch(w, d);
    SwitchedState(w, d);
  }

  class Handedness {
    const dominantHand: Chirality
    var left: HandSide
    var right: HandSide
    var tracked: Option<Side>
    /** PointerElement.forceDisable of the two pointers. */
    var leftForceDisable: bool
    var rightForceDisable: bool

    function State(): HandState
      reads this
    {
      HandState(left, right, tracked)
    }

    constructor (dominantHand: Chirality, initial: HandState)
      ensures this.dominantHand == dominantHand && State() == initial
      ensures !leftForceDisable && !rightForceDisable
    {
      this.dominantHand := dominantHand;
      left := initial.left;
      right := initial.right;
      tracked := initial.tracked;
      leftForceDisable := false;
      rightForceDisable := false;
    }

    /** Deactivate{Left,Right}Hand. */
    method DeactivateHand(side: Side)
      modifies this`left, this`right
      ensures State() == Deactivated(old(State()), side)
    {
      if side == LeftSide {
        left := Off;
      } else {
        right := Off;
      }
    }

    /** Activate{Left,Right}Hand. */
    method ActivateHand(side: Side)
      modifies this`left, this`right, this`tracked
      ensures State() == Activated(old(State()), side)
    {
      if side == LeftSide {
        left := left.(realActive := true, pointerActive := true);
        DeactivateHand(RightSide);
        tracked := Some(LeftSide);
        left := left.(frozen := false);
      } else {
        right := right.(realActive := true, pointerActive := true);
        DeactivateHand(LeftSide);
        tracked := Some(RightSide);
        right := right.(frozen := false);
      }
    }

    /** Start: throws (ok false, nothing changed) for a chirality other than
        Left or Right. */
    method Start() returns (ok: bool)
      modifies this`left, this`right, this`tracked
      ensures ok <==> !dominantHand.OutOfRange?
      ensures ok ==> State() == Switched(old(State()), SideOf(dominantHand))
      ensures !ok ==> State() == old(State())
    {
      if dominantHand.OutOfRange? {
        return false;
      }
      var side := SideOf(dominantHand);
      ActivateHand(side);
      DeactivateHand(Opposite(side));
      StartMatchesSwitch(old(State()), side);
      return true;
    }

    /** switchHand: throws (ok false, nothing changed) for a chirality other
        than Left or Right. */
    method SwitchHand(handedness: Chirality) returns (ok: bool)
      modifies this`left, this`right, this`tracked
      ensures ok <==> !handedness.OutOfRange?
      ensures ok ==> State() == Switched(old(State()), SideOf(handedness))
      ensures !ok ==> State() == old(State())
    {
      if handedness.OutOfRange? {
        return false;
      }
      var side := SideOf(handedness);
      DeactivateHand(Opposite(side));
      ActivateHand(side);
      return true;
    }

    /** RedirectionManager.SwitchHandednessToDominantHand: a dominant hand
        other than Left counts as Right, so this never throws. */
    method SwitchToDominantHand()
      modifies this`left, this`right, this`tracked
      ensures State() == Switched(old(State()), DominantSide(dominantHand))
    {
      var ok := SwitchHand(if dominantHand == Left then Left else Right);
    }

    /** RedirectionManager.SwitchHandednessToWeakHand: only the weak side's
        pointer may be used, then the weak hand becomes the active one. */
    method SwitchToWeakHand()
      modifies this`left, this`right, this`tracked, this`leftForceDisable, this`rightForceDisable
      ensures State() == Switched(old(State()), Opposite(DominantSide(dominantHand)))
      ensures leftForceDisable == (Opposite(DominantSide(dominantHand)) == RightSide)
      ensures rightForceDisable == (Opposite(DominantSide(dominantHand)) == LeftSide)
    {
      var weakHand := if dominantHand == Left then Right else Left;
      if weakHand == Left {
        leftForceDisable := false;
        rightForceDisable := true;
      } else {
        leftForceDisable := true;
        rightForceDisable := false;
      }
      var ok := SwitchHand(weakHand);
    }
  }
}
