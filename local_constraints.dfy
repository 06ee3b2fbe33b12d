/** Per-axis position locks (Assets/LocalConstraints.cs): every frame the
    locked components of the local position are put back to the values they
    had at Start, and the transform is written only if one of them moved. */
module LocalConstraints {
  import opened Geometry

  datatype Locks = Locks(x: bool, y: bool, z: bool)

  /** The position with every locked component taken from `start`. */
  function Constrained(p: Vec3, start: Vec3, locks: Locks): (r: Vec3)
    ensures locks.x ==> r.x == start.x
    ensures locks.y ==> r.y == start.y
    ensures locks.z ==> r.z == start.z
    ensures !locks.x ==> r.x == p.x
    ensures !locks.y ==> r.y == p.y
    ensures !locks.z ==> r.z == p.z
  {
    Vec3(if locks.x then start.x else p.x,
         if locks.y then start.y else p.y,
         if locks.z then start.z else p.z)
  }

  /** Some locked component differs from its start value. */
  predicate Violated(p: Vec3, start: Vec3, locks: Locks)
  {
    (locks.x && p.x != start.x) || (locks.y && p.y != start.y) || (locks.z && p.z != start.z)
  }

  /** Constraining is a no-op exactly when no locked component moved. */
  lemma ConstrainedUnchangedIffSatisfied(p: Vec3, start: Vec3, locks: Locks)
    ensures Constrained(p, start, locks) == p <==> !Violated(p, start, locks)
  {
  }

  /** A constrained position satisfies the locks, so a second frame changes
      nothing. */
  lemma ConstrainedIdempotent(p: Vec3, start: Vec3, locks: Locks)
    ensures !Violated(Constrained(p, start, locks), start, locks)
    ensures Constrained(Constrained(p, start, locks), start, locks) == Constrained(p, start, locks)
  {
  }

  /** With no axis locked nothing is ever constrained. */
  lemma NoLocksNoWrite(p: Vec3, start: Vec3)
    ensures !Violated(p, start, Locks(false, false, false))
    ensures Constrained(p, start, Locks(false, false, false)) == p
  {
  }

  class LocalConstraints {
    const locks: Locks
    /** transform.localPosition */
    var localPosition: Vec3
    var localStartPosition: Vec3
    /** Counts the writes to transform.localPosition. */
    var writes: nat

    constructor (locks: Locks, localPosition: Vec3)
      ensures this.locks == locks && this.localPosition == localPosition
      ensures localStartPosition == Zero && writes == 0
    {
      this.locks := locks;
      this.localPosition := localPosition;
      localStartPosition := Zero;
      writes := 0;
    }

    method Start()
      modifies this`localStartPosition
      ensures localStartPosition == localPosition
    {
      localStartPosition := localPosition;
    }

    method Update()
      modifies this`localPosition, this`writes
      ensures localPosition == Constrained(old(localPosition), localStartPosition, locks)
      ensures writes == old(writes) + (if Violated(old(localPosition), localStartPosition, locks) then 1 else 0)
    {
      var changed := false;
      var current := localPosition;
      if locks.x && current.x != localStartPosition.x {
        current := current.(x := localStartPosition.x);
        changed := true;
      }
      if locks.y && current.y != localStartPosition.y {
        current := current.(y := localStartPosition.y);
        changed := true;
      }
      if locks.z && current.z != localStartPosition.z {
        current := current.(z := localStartPosition.z);
        changed := true;
      }
      if changed {
        localPosition := current;
        writes := writes + 1;
      }
    }
  }
}
