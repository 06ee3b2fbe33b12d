/** A physically pressed button (Assets/PressableButton.cs): each fixed
    update measures the press distance, requests the activated state when the
    distance exceeds the threshold, and a cooldown keeps the button from being
    re-activated too soon. Activation start and end events therefore
    alternate, starting with a start. */
module PressableButton {

  /** The three UnityEvents, each carrying the activation duration
      Time.time - lastActivated at the moment it is raised. */
  datatype ButtonEvent = Started(duration: real) | Stayed(duration: real) | Ended(duration: real)

  /** The start/end events in order, true for a start; stay events dropped. */
  function Transitions(events: seq<ButtonEvent>): (t: seq<bool>)
    ensures |t| <= |events|
  {
    if events == [] then []
    else
      var prefix := Transitions(events[..|events| - 1]);
      var last := events[|events| - 1];
      if last.Stayed? then prefix else prefix + [last.Started?]
  }

  /** Starts and ends alternate, beginning with a start. */
  predicate Alternating(t: seq<bool>)
  {
    forall i :: 0 <= i < |t| ==> t[i] == (i % 2 == 0)
  }

  /** The state a button is in after a history of transitions. */
  predicate ActiveAfter(t: seq<bool>)
  {
    |t| % 2 == 1
  }

  /** The next transition of an alternating history is the one that flips
      the state, and appending it keeps the history alternating. */
  lemma AlternatingExtends(t: seq<bool>, b: bool)
    requires Alternating(t)
    requires b == !ActiveAfter(t)
    ensures Alternating(t + [b])
    ensures ActiveAfter(t + [b]) == b
  {
    assert (t + [b])[|t|] == b;
  }

  /** The distance reading that requests activation: strictly beyond the
      threshold. */
  predicate Requested(distance: real, threshold: real)
  {
    distance > threshold
  }

  class PressableButton {
    const threshold: real
    const cooldown: real
    var state: bool
    var lastActivated: real
    var currentDistance: real
    /** The events raised so far, in order. */
    var events: seq<ButtonEvent>

    /** The state is the one the raised start/end events leave it in, and
        those events alternate. */
    predicate Valid()
      reads this
    {
      Alternating(Transitions(events)) && state == ActiveAfter(Transitions(events))
    }

    constructor (threshold: real, cooldown: real)
      ensures Valid()
      ensures this.threshold == threshold && this.cooldown == cooldown
      ensures !state && lastActivated == 0.0 && currentDistance == 0.0 && events == []
    {
      this.threshold := threshold;
      this.cooldown := cooldown;
      state := false;
      lastActivated := 0.0;
      currentDistance := 0.0;
      events := [];
    }

    /** The ButtonActivationState setter at time `now`. */
    method SetActivationState(value: bool, now: real)
      requires Valid()
      modifies this`state, this`lastActivated, this`events
      ensures Valid()
      ensures value == old(state) ==> state == old(state) && lastActivated == old(lastActivated) && events == old(events)
      ensures value && !old(state) && now >= old(lastActivated) + cooldown ==>
        state && lastActivated == now && events == old(events) + [Started(0.0)]
      ensures value && !old(state) && now < old(lastActivated) + cooldown ==>
        !state && lastActivated == old(lastActivated) && events == old(events)
      ensures !value && old(state) ==>
        !state && lastActivated == old(lastActivated) && events == old(events) + [Ended(now - old(lastActivated))]
    {
      if value == state {
        return;
      }
      ghost var t := Transitions(events);
      if value {
        if now >= lastActivated + cooldown {
          lastActivated := now;
          events := events + [Started(now - lastActivated)];
        } else {
          return;
        }
      } else {
        events := events + [Ended(now - lastActivated)];
      }
      assert Transitions(events) == t + [value];
      AlternatingExtends(t, value);
      state := value;
    }

    /** UpdateActivationCalculations, with the measured distance (global or
        local, per the inspector mode) as input. */
    method UpdateActivationCalculations(distance: real, now: real)
      requires Valid()
      modifies this`currentDistance, this`state, this`lastActivated, this`events
      ensures Valid()
      ensures currentDistance == distance
      ensures Requested(distance, threshold) && !old(state) && now >= old(lastActivated) + cooldown ==>
        state && lastActivated == now && events == old(events) + [Started(0.0)]
      ensures Requested(distance, threshold) && !old(state) && now < old(lastActivated) + cooldown ==>
        !state && lastActivated == old(lastActivated) && events == old(events)
      ensures !Requested(distance, threshold) && old(state) ==>
        !state && lastActivated == old(lastActivated) && events == old(events) + [Ended(now - old(lastActivated))]
      ensures Requested(distance, threshold) == old(state) ==>
        state == old(state) && lastActivated == old(lastActivated) && events == old(events)
    {
      currentDistance := distance;
      if currentDistance > threshold {
        SetActivationState(true, now);
      } else {
        SetActivationState(false, now);
      }
    }

    /** UpdateActivationStay: a stay event while activated. */
    method UpdateActivationStay(now: real)
      requires Valid()
      modifies this`events
      ensures Valid()
      ensures events == old(events) + (if state then [Stayed(now - lastActivated)] else [])
    {
      if state {
        events := events + [Stayed(now - lastActivated)];
        assert Transitions(events) == Transitions(old(events));
      }
    }

    /** FixedUpdate: the stay event is raised only if the button is active
        after the recalculation. */
    method FixedUpdate(distance: real, now: real)
      requires Valid()
      modifies this`currentDistance, this`state, this`lastActivated, this`events
      ensures Valid()
      ensures currentDistance == distance
      ensures state ==> Requested(distance, threshold)
      ensures state ==> events[|events| - 1] == Stayed(now - lastActivated)
      ensures !state ==> forall i :: |old(events)| <= i < |events| ==> !events[i].Stayed?
    {
      UpdateActivationCalculations(distance, now);
      UpdateActivationStay(now);
    }
  }
}
