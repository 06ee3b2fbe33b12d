/** The session controller (Assets/_Scripts/RedirectionManager.cs): the
    reach-retract-press cycle of the hand in front of the keypad, target
    selection over the pool of redirected objects, and the PIN the user
    copies onto the keypad. Targets are referred to by identity. What the
    manager asks of the study schedule and the questionnaire is returned as a
    StudyRequest and carried out by the Session module. */
module RedirectionManager {
  import opened Common
  import opened Geometry
  import Keypad

  /** Identifies a RedirectionObject of the pool. */
  type TargetId = nat

  /** handAlignmentDistance */
  const HandAlignmentDistance: real := 0.01
  /** The press window: the fingertip between these two depths behind the
      keypad counts as a key press. */
  const PressNear: real := 0.02
  const PressFar: real := 0.1
  /** The value appended to the PIN input for each press. */
  const PressPlaceholder: int := -2

  datatype TargetError = NoRedirectedPrefabs

  // ---------------------------------------------------------------------
  // Sequential target selection

  /** List.IndexOf: the first index holding t, or -1. */
  function IndexOf(pool: seq<TargetId>, t: Option<TargetId>): (i: int)
    ensures -1 <= i < |pool|
    ensures 0 <= i ==> t == Some(pool[i]) && forall j :: 0 <= j < i ==> t != Some(pool[j])
    ensures i == -1 ==> forall j :: 0 <= j < |pool| ==> t != Some(pool[j])
    decreases |pool|
  {
    if pool == [] then -1
    else if t == Some(pool[0]) then 0
    else
      var k := IndexOf(pool[1..], t);
      if k == -1 then -1 else k + 1
  }

  /** GetNextTarget: the pool entry after the last target, cyclically. */
  function NextTarget(pool: seq<TargetId>, target: Option<TargetId>, lastTarget: Option<TargetId>)
    : (r: Result<TargetId, TargetError>)
    ensures r.Failure? <==> |pool| == 0
    ensures r.Success? ==> r.value in pool
    ensures |pool| > 0 && ((target.None? && lastTarget.None?) || |pool| == 1) ==> r == Success(pool[0])
    ensures |pool| > 0 && (forall j :: 0 <= j < |pool| ==> lastTarget != Some(pool[j])) ==> r == Success(pool[0])
  {
    if |pool| == 0 then Failure(NoRedirectedPrefabs)
    else if target.None? && lastTarget.None? then Success(pool[0])
    else if |pool| == 1 then Success(pool[0])
    else
      var index := IndexOf(pool, lastTarget);
      Success(pool[(index + 1) % |pool|])
  }

  /** The successor of position j in a pool of n entries. */
  function Succ(j: nat, n: nat): nat
  {
    if j + 1 == n then 0 else j + 1
  }

  lemma ModBelow(x: int, n: int)
    requires 0 <= x < n
    ensures x % n == x
  {
  }

  lemma ModSelf(n: int)
    requires n > 0
    ensures n % n == 0
  {
  }

  /** In a pool without repeats, the target after pool[j] is pool[j + 1],
      wrapping to pool[0] after the last entry. */
  lemma NextTargetAfter(pool: seq<TargetId>, j: nat)
    requires NoDuplicates(pool) && j < |pool|
    ensures NextTarget(pool, Some(pool[j]), Some(pool[j])) == Success(pool[Succ(j, |pool|)])
  {
    var n := |pool|;
    if n > 1 {
      var index := IndexOf(pool, Some(pool[j]));
      assert index != -1;
      assert pool[index] == pool[j];
      assert index == j;
      if j + 1 < n {
        ModBelow(j + 1, n);
      } else {
        ModSelf(n);
      }
    }
  }

  /** The target after k sequential changes starting from `start`:
      CheckForNewTarget sets lastTarget := target and asks for the next one. */
  function Tour(pool: seq<TargetId>, start: TargetId, k: nat): TargetId
    requires |pool| > 0
  {
    if k == 0 then start
    else
      var previous := Tour(pool, start, k - 1);
      NextTarget(pool, Some(previous), Some(previous)).value
  }

  /** Position i moved on by k <= n places in a cyclic list of n entries. */
  function Wrapped(i: nat, k: nat, n: nat): (p: nat)
    requires i < n && k <= n
    ensures p < n
  {
    if i + k < n then i + k else i + k - n
  }

  /** One more sequential change moves the tour on by one place. */
  lemma TourStep(pool: seq<TargetId>, i: nat, k: nat)
    requires NoDuplicates(pool) && i < |pool| && 0 < k <= |pool|
    requires Tour(pool, pool[i], k - 1) == pool[Wrapped(i, k - 1, |pool|)]
    ensures Tour(pool, pool[i], k) == pool[Wrapped(i, k, |pool|)]
  {
    NextTargetAfter(pool, Wrapped(i, k - 1, |pool|));
  }

  lemma {:induction false} TourPosition(pool: seq<TargetId>, i: nat, k: nat)
    requires NoDuplicates(pool) && i < |pool| && k <= |pool|
    ensures Tour(pool, pool[i], k) == pool[Wrapped(i, k, |pool|)]
  {
    if k > 0 {
      TourPosition(pool, i, k - 1);
      TourStep(pool, i, k);
    }
  }

  lemma TourDistinct(pool: seq<TargetId>, i: nat, a: nat, b: nat)
    requires NoDuplicates(pool) && i < |pool| && a < b < |pool|
    ensures Tour(pool, pool[i], a) != Tour(pool, pool[i], b)
  {
    TourPosition(pool, i, a);
    TourPosition(pool, i, b);
    assert Wrapped(i, a, |pool|) != Wrapped(i, b, |pool|);
  }

  /** The number of sequential changes from position i to position j. */
  function StepsTo(i: nat, j: nat, n: nat): nat
    requires i < n
  {
    if j >= i then j - i else j - i + n
  }

  /** Feeding each result back visits no pool entry twice within |pool|
      steps ... */
  lemma {:induction false} TourVisitsOnce(pool: seq<TargetId>, i: nat)
    requires NoDuplicates(pool) && i < |pool|
    ensures forall a, b :: 0 <= a < b < |pool| ==> Tour(pool, pool[i], a) != Tour(pool, pool[i], b)
  {
    forall a, b | 0 <= a < b < |pool| ensures Tour(pool, pool[i], a) != Tour(pool, pool[i], b) {
      TourDistinct(pool, i, a, b);
    }
  }

  /** ... reaches every pool entry within |pool| steps ... */
  lemma {:induction false} TourCoversPool(pool: seq<TargetId>, i: nat)
    requires NoDuplicates(pool) && i < |pool|
    ensures forall j :: 0 <= j < |pool| ==>
      StepsTo(i, j, |pool|) < |pool| && Tour(pool, pool[i], StepsTo(i, j, |pool|)) == pool[j]
  {
    forall j | 0 <= j < |pool|
      ensures StepsTo(i, j, |pool|) < |pool| && Tour(pool, pool[i], StepsTo(i, j, |pool|)) == pool[j]
    {
      TourPosition(pool, i, StepsTo(i, j, |pool|));
    }
  }

  /** ... and is back at the start after |pool| steps. */
  lemma TourReturns(pool: seq<TargetId>, i: nat)
    requires NoDuplicates(pool) && i < |pool|
    ensures Tour(pool, pool[i], |pool|) == pool[i]
  {
    TourPosition(pool, i, |pool|);
    assert Wrapped(i, |pool|, |pool|) == i;
  }

  // ---------------------------------------------------------------------
  // The PIN and the user's input

  /** GetLastPinInput: -1 for no input, otherwise the latest entry. */
  function LastPinInput(input: seq<int>): (r: int)
    ensures |input| == 0 ==> r == -1
    ensures |input| > 0 ==> r == input[|input| - 1]
  {
    if |input| == 0 then -1 else input[|input| - 1]
  }

  lemma LastPinInputAfterAdd(input: seq<int>, x: int)
    ensures LastPinInput(input + [x]) == x
    ensures |input + [x]| == |input| + 1
  {
  }

  /** A PIN as GenerateNewPin draws it: `length` digits (none for a
      non-positive length), each an index into a pool of `poolSize` entries,
      or 0 when the pool is empty (Random.Range(0, 0) yields 0). */
  predicate PinDrawn(pin: seq<int>, length: int, poolSize: nat)
  {
    && |pin| == (if length > 0 then length else 0)
    && forall k :: 0 <= k < |pin| ==> if poolSize > 0 then 0 <= pin[k] < poolSize else pin[k] == 0
  }

  /** What GenerateNewPin asks of the study after a new PIN: the break
      timer, and then either the questionnaire (after which random targets
      are switched off) or the next condition. The manager hands these to
      its caller because the study setup and the questionnaire sit above it. */
  datatype FollowUp = NoFollowUp | ShowQuestionnaire | NextCondition
  datatype StudyRequest = StudyRequest(startTimer: bool, followUp: FollowUp)

  const NoRequest: StudyRequest := StudyRequest(false, NoFollowUp)

  /** The study decisions of GenerateNewPin for the count of PINs generated
      before this one. The inner `if` of the source owns the `else`, so a
      count that is not a multiple of the PIN threshold asks for nothing. */
  function RequestAfterPin(isStudySetup: bool, count: int, attemptsBeforeTimer: int, pinThreshold: int,
                           showQuestionnaire: bool): StudyRequest
    requires isStudySetup ==> attemptsBeforeTimer != 0 && pinThreshold != 0
  {
    if !isStudySetup then NoRequest
    else
      StudyRequest(
        CsRem(count, attemptsBeforeTimer) == 0 && count > 0,
        if CsRem(count, pinThreshold) == 0 then
          (if count > 0 && showQuestionnaire then ShowQuestionnaire else NextCondition)
        else NoFollowUp)
  }

  /** The first PIN of a study session (count 0) never starts the timer and
      always advances to the first condition. */
  lemma FirstPinAdvances(attemptsBeforeTimer: int, pinThreshold: int, showQuestionnaire: bool)
    requires attemptsBeforeTimer != 0 && pinThreshold != 0
    ensures RequestAfterPin(true, 0, attemptsBeforeTimer, pinThreshold, showQuestionnaire)
            == StudyRequest(false, NextCondition)
  {
  }

  /** With positive settings the timer starts exactly at the positive
      multiples of attemptsBeforeTimer, and with the default threshold 1
      every later PIN shows the questionnaire when enabled. */
  lemma RequestSchedule(count: nat, attemptsBeforeTimer: int, showQuestionnaire: bool)
    requires attemptsBeforeTimer > 0
    ensures RequestAfterPin(true, count, attemptsBeforeTimer, 1, showQuestionnaire).startTimer
      <==> (count > 0 && count % attemptsBeforeTimer == 0)
    ensures count > 0 ==>
      RequestAfterPin(true, count, attemptsBeforeTimer, 1, showQuestionnaire).followUp
        == (if showQuestionnaire then ShowQuestionnaire else NextCondition)
  {
    assert CsRem(count, 1) == 0;
  }

  // ---------------------------------------------------------------------
  // The flag machine of Update

  datatype Flags = Flags(targetSelected: bool, warpOriginSet: bool, redirectionActive: bool,
                         handBehindKeypad: bool)

  /** A warp origin is only ever set for a selected target. */
  predicate FlagsValid(f: Flags)
  {
    f.warpOriginSet ==> f.targetSelected
  }

  /** The first part of Update, driven by keypadDistance = keypad z - hand z:
      a retracted hand (distance above threshold) selects a target; a hand
      that reaches past the threshold afterwards anchors the warp origin. */
  function SelectionStep(f: Flags, keypadDistance: real, threshold: real, isRandomTarget: bool): Flags
  {
    if !f.targetSelected && keypadDistance > threshold then
      f.(targetSelected := true, handBehindKeypad := false,
         redirectionActive := if isRandomTarget then false else f.redirectionActive)
    else if f.targetSelected && keypadDistance < threshold && !f.warpOriginSet then
      f.(warpOriginSet := true, redirectionActive := if isRandomTarget then true else f.redirectionActive)
    else f
  }

  predicate IsRetract(f: Flags, keypadDistance: real, threshold: real)
  {
    !f.targetSelected && keypadDistance > threshold
  }

  predicate IsAnchor(f: Flags, keypadDistance: real, threshold: real)
  {
    f.targetSelected && keypadDistance < threshold && !f.warpOriginSet
  }

  /** DeactivateTarget. */
  function Deactivated(f: Flags): (g: Flags)
    ensures !g.targetSelected && !g.warpOriginSet
    ensures g.redirectionActive == f.redirectionActive && g.handBehindKeypad == f.handBehindKeypad
  {
    f.(targetSelected := false, warpOriginSet := false)
  }

  /** The press branch of Update. */
  function Pressed(f: Flags): (g: Flags)
    ensures g.handBehindKeypad && !g.targetSelected && !g.warpOriginSet
    ensures g.redirectionActive == f.redirectionActive
  {
    Deactivated(f).(handBehindKeypad := true)
  }

  predicate InPressWindow(tipZ: real, keypadZ: real)
  {
    keypadZ + PressNear < tipZ < keypadZ + PressFar
  }

  lemma SelectionStepKeepsValid(f: Flags, keypadDistance: real, threshold: real, isRandomTarget: bool)
    requires FlagsValid(f)
    ensures FlagsValid(SelectionStep(f, keypadDistance, threshold, isRandomTarget))
    ensures IsRetract(f, keypadDistance, threshold) ==>
      var g := SelectionStep(f, keypadDistance, threshold, isRandomTarget);
      g.targetSelected && !g.handBehindKeypad && (isRandomTarget ==> !g.redirectionActive)
    ensures IsAnchor(f, keypadDistance, threshold) ==>
      var g := SelectionStep(f, keypadDistance, threshold, isRandomTarget);
      g.warpOriginSet && (isRandomTarget ==> g.redirectionActive)
  {
  }

  lemma DeactivateIdempotent(f: Flags)
    ensures FlagsValid(Deactivated(f)) && FlagsValid(Pressed(f))
    ensures Deactivated(Deactivated(f)) == Deactivated(f)
  {
  }

  /** The redirection switch moves only in random-target mode, and
      DeactivateTarget does not touch it. */
  lemma RedirectionActiveOnlyInRandomMode(f: Flags, keypadDistance: real, threshold: real)
    ensures SelectionStep(f, keypadDistance, threshold, false).redirectionActive == f.redirectionActive
    ensures Deactivated(f).redirectionActive == f.redirectionActive
  {
  }

  /** One press per reach: once a press has been counted, the hand-behind
      flag is cleared only by a retract, so no second press is counted before
      the hand is pulled back past the threshold. */
  lemma PressNeedsRetract(f: Flags, keypadDistance: real, threshold: real, isRandomTarget: bool)
    requires f.handBehindKeypad
    requires !SelectionStep(f, keypadDistance, threshold, isRandomTarget).handBehindKeypad
    ensures IsRetract(f, keypadDistance, threshold)
  {
  }

  class Manager {
    /** allRedirectedPrefabs */
    const pool: seq<TargetId>
    const keypad: Keypad.Keypad
    const realHand: Transform
    const virtualHand: Transform
    const warpOrigin: Transform
    /** Mathf.Tan(angle * Mathf.Deg2Rad) */
    const tanDegrees: real -> real
    /** Vector3.Distance, as the length of the difference */
    const norm: Vec3 -> real

    var threshold: real
    var pinLength: int
    var maxRedirectionAngle: real
    var isRandomTarget: bool
    var isRandomVector: bool
    var isShiftKeypad: bool
    var isStudySetup: bool
    var showQuestionnaire: bool
    var isScaleKeypad: bool
    var isHighlightActive: bool

    var isTargetSelected: bool
    var isWarpOriginSet: bool
    var isRedirectionActive: bool
    var isHandBehindKeypad: bool
    var loggerStarted: bool
    var isRecord: bool

    var pin: seq<int>
    var currentPinInput: seq<int>
    var pinInputCount: int
    var pinThreshold: int
    var initialKeypadPosition: Vec3
    var target: Option<TargetId>
    var lastTarget: Option<TargetId>

    function CurrentFlags(): Flags
      reads this`isTargetSelected, this`isWarpOriginSet, this`isRedirectionActive, this`isHandBehindKeypad
    {
      Flags(isTargetSelected, isWarpOriginSet, isRedirectionActive, isHandBehindKeypad)
    }

    predicate Valid()
      reads this`isTargetSelected, this`isWarpOriginSet, this`isRedirectionActive, this`isHandBehindKeypad,
            this`pinInputCount, this`target, this`lastTarget
    {
      && FlagsValid(CurrentFlags())
      && pinInputCount >= 0
      && (target.Some? ==> target.value in pool)
      && (lastTarget.Some? ==> lastTarget.value in pool)
    }

    /** The PIN state CheckPin leaves, given the PIN, the input, the count
        and the keypad's visibility before it. A completed PIN
        (`regenerated`) is replaced by a freshly drawn one shown on the
        keypad, the input is cleared, the count advances, and `req` is the
        study request for the count before it, the keypad being hidden for a
        break or the questionnaire. Otherwise nothing of the PIN changes and
        nothing is requested. */
    predicate PinOutcome(regenerated: bool, req: StudyRequest, attemptsBeforeTimer: int, pinBefore: seq<int>,
                         inputBefore: seq<int>, countBefore: int, activeBefore: bool)
      requires isStudySetup ==> attemptsBeforeTimer != 0 && pinThreshold != 0
      reads this`pin, this`currentPinInput, this`pinInputCount, this`pinLength, this`isStudySetup,
            this`pinThreshold, this`showQuestionnaire, keypad`pin, keypad`pinText, keypad`active
    {
      if regenerated then
        && currentPinInput == [] && pinInputCount == countBefore + 1
        && PinDrawn(pin, pinLength, |pool|) && keypad.pin == pin && keypad.pinText == ConcatInts(pin)
        && req == RequestAfterPin(isStudySetup, countBefore, attemptsBeforeTimer, pinThreshold, showQuestionnaire)
        && keypad.active == (activeBefore && !req.startTimer && req.followUp != ShowQuestionnaire)
      else
        && req == NoRequest && pin == pinBefore && currentPinInput == inputBefore
        && pinInputCount == countBefore && keypad.active == activeBefore
    }

    /** Where ShiftKeypad leaves the keypad that stood at `before`: in place
        unless a shift was `pending`; otherwise in the plane of its initial
        position, at distance 0 or tan(maxRedirectionAngle) * threshold from
        that position. */
    predicate ShiftedFrom(pending: bool, before: Vec3)
      reads this`initialKeypadPosition, this`maxRedirectionAngle, this`threshold, keypad`position
    {
      if !pending then keypad.position == before
      else
        && keypad.position.z == initialKeypadPosition.z
        && var length := tanDegrees(maxRedirectionAngle) * threshold;
           var offset := Sub(keypad.position, initialKeypadPosition);
           length >= 0.0 ==> norm(offset) == 0.0 || norm(offset) == length
    }

    constructor (pool: seq<TargetId>, keypad: Keypad.Keypad, realHand: Transform, virtualHand: Transform,
                 warpOrigin: Transform, tanDegrees: real -> real, norm: Vec3 -> real)
      ensures Valid()
      ensures this.pool == pool && this.keypad == keypad && this.realHand == realHand
      ensures this.virtualHand == virtualHand && this.warpOrigin == warpOrigin
      ensures this.tanDegrees == tanDegrees && this.norm == norm
      ensures threshold == 0.2 && pinLength == 4 && pinThreshold == 1 && maxRedirectionAngle == 10.0
      ensures CurrentFlags() == Flags(false, false, false, false)
      ensures pin == [] && currentPinInput == [] && pinInputCount == 0
      ensures target.None? && lastTarget.None?
    {
      this.pool := pool;
      this.keypad := keypad;
      this.realHand := realHand;
      this.virtualHand := virtualHand;
      this.warpOrigin := warpOrigin;
      this.tanDegrees := tanDegrees;
      this.norm := norm;
      threshold := 0.2;
      pinLength := 4;
      maxRedirectionAngle := 10.0;
      isRandomTarget, isRandomVector, isShiftKeypad := false, false, false;
      isStudySetup, showQuestionnaire, isScaleKeypad, isHighlightActive := false, false, false, false;
      isTargetSelected, isWarpOriginSet, isRedirectionActive, isHandBehindKeypad := false, false, false, false;
      loggerStarted, isRecord := false, false;
      pin, currentPinInput := [], [];
      pinInputCount := 0;
      pinThreshold := 1;
      initialKeypadPosition := keypad.position;
      target, lastTarget := None, None;
    }

    /** keypad z - real hand z, the depth signal of Update and CheckPin. */
    function KeypadDistance(): real
      reads this, keypad, realHand
    {
      keypad.position.z - realHand.position.z
    }

    /** HandsAreAligned. */
    predicate HandsAreAligned()
      reads this, virtualHand, realHand
    {
      norm(Sub(virtualHand.position, realHand.position)) < HandAlignmentDistance
    }

    method SetVirtualHandToRealHand()
      requires IsNorm(norm)
      modifies virtualHand
      ensures virtualHand.position == old(realHand.position)
      ensures virtualHand.rotation == old(realHand.rotation)
      ensures virtualHand.localScale == old(realHand.localScale)
      ensures HandsAreAligned()
    {
      virtualHand.position := realHand.position;
      virtualHand.rotation := realHand.rotation;
      virtualHand.localScale := realHand.localScale;
      assert Sub(virtualHand.position, realHand.position) == Zero;
      NormZero(norm);
    }

    /** AddUserInput: appends, with no bound on the length. */
    method AddUserInput(input: int)
      modifies this`currentPinInput
      ensures currentPinInput == old(currentPinInput) + [input]
      ensures LastPinInput(currentPinInput) == input
    {
      currentPinInput := currentPinInput + [input];
    }

    method DeactivateTarget()
      requires Valid()
      modifies this`isTargetSelected, this`isWarpOriginSet
      ensures Valid()
      ensures CurrentFlags() == Deactivated(old(CurrentFlags()))
    {
      isTargetSelected := false;
      isWarpOriginSet := false;
    }

    /** GetRandomTarget: null for an empty pool, otherwise a drawn entry. */
    method GetRandomTarget() returns (t: Option<TargetId>)
      ensures t.None? <==> |pool| == 0
      ensures t.Some? ==> t.value in pool
    {
      if |pool| == 0 {
        return None;
      }
      var index :| 0 <= index < |pool|;
      t := Some(pool[index]);
    }

    /** CheckForNewTarget: the current target becomes the last one and is
        ended (`ended`); a new target is chosen at random or sequentially and
        started when there is one (`outcome`). The sequential choice throws on
        an empty pool, after the old target has been ended. */
    method CheckForNewTarget() returns (ended: Option<TargetId>, outcome: Result<Option<TargetId>, TargetError>)
      requires Valid()
      modifies this`lastTarget, this`target, this`isTargetSelected
      ensures Valid()
      ensures ended == old(target) && lastTarget == old(target)
      ensures isRandomTarget ==>
        && outcome == Success(target)
        && (target.None? <==> |pool| == 0)
        && isTargetSelected
      ensures !isRandomTarget ==>
        && isTargetSelected == old(isTargetSelected)
        && (|pool| == 0 ==> outcome == Failure(NoRedirectedPrefabs) && target == old(target))
        && (|pool| > 0 ==> target == Some(NextTarget(pool, old(target), old(target)).value)
                           && outcome == Success(target))
    {
      lastTarget := target;
      ended := lastTarget;
      if isRandomTarget {
        target := GetRandomTarget();
        isTargetSelected := true;
        outcome := Success(target);
      } else {
        var next := NextTarget(pool, target, lastTarget);
        if next.Failure? {
          return ended, Failure(next.error);
        }
        target := Some(next.value);
        outcome := Success(target);
      }
    }

    /** GenerateNewPin: PinLength digits drawn from [0, pool size), shown on
        the keypad; the study decisions are returned. Random.Range(0, 0)
        yields 0, so an empty pool gives a PIN of zeros. */
    method GenerateNewPin(attemptsBeforeTimer: int) returns (req: StudyRequest)
      requires Valid()
      requires isStudySetup ==> attemptsBeforeTimer != 0 && pinThreshold != 0
      modifies this`pin, this`pinInputCount, keypad`pin, keypad`pinText, keypad`active
      ensures Valid()
      ensures PinDrawn(pin, pinLength, |pool|)
      ensures pinInputCount == old(pinInputCount) + 1
      ensures req == RequestAfterPin(isStudySetup, old(pinInputCount), attemptsBeforeTimer, pinThreshold,
                                     showQuestionnaire)
      ensures keypad.pin == pin && keypad.pinText == ConcatInts(pin)
      ensures keypad.active == (old(keypad.active) && !req.startTimer && req.followUp != ShowQuestionnaire)
      ensures keypad.position == old(keypad.position)
    {
      pin := [];
      var i := 0;
      while i < pinLength
        modifies this`pin
        invariant 0 <= i && |pin| == i
        invariant pinLength > 0 ==> i <= pinLength
        invariant pinLength <= 0 ==> i == 0
        invariant forall k :: 0 <= k < |pin| ==> if |pool| > 0 then 0 <= pin[k] < |pool| else pin[k] == 0
      {
        var digit := 0;
        if |pool| > 0 {
          digit :| 0 <= digit < |pool|;
        }
        pin := pin + [digit];
        i := i + 1;
      }
      keypad.SetPin(pin);
      req := RequestAfterPin(isStudySetup, pinInputCount, attemptsBeforeTimer, pinThreshold, showQuestionnaire);
      if req.startTimer {
        keypad.active := false;
      }
      if req.followUp == ShowQuestionnaire {
        keypad.active := false;
      }
      pinInputCount := pinInputCount + 1;
    }

    /** CheckPin: only with at least PinLength inputs and the hand retracted
        past the threshold, a new PIN is generated and the input cleared. */
    method CheckPin(attemptsBeforeTimer: int) returns (regenerated: bool, req: StudyRequest)
      requires Valid()
      requires isStudySetup ==> attemptsBeforeTimer != 0 && pinThreshold != 0
      modifies this`pin, this`pinInputCount, this`currentPinInput, keypad`pin, keypad`pinText, keypad`active
      ensures Valid()
      ensures regenerated <==> |old(currentPinInput)| >= pinLength && old(KeypadDistance()) >= threshold
      ensures !regenerated ==> unchanged(this) && unchanged(keypad)
      ensures PinOutcome(regenerated, req, attemptsBeforeTimer, old(pin), old(currentPinInput), old(pinInputCount),
                         old(keypad.active))
      ensures keypad.position == old(keypad.position)
    {
      if |currentPinInput| < pinLength || keypad.position.z - realHand.position.z < threshold {
        return false, NoRequest;
      }
      req := GenerateNewPin(attemptsBeforeTimer);
      currentPinInput := [];
      regenerated := true;
    }

    /** ShiftKeypad: once per enabling, the keypad is moved from its initial
        position by a random in-plane offset of length
        tan(maxRedirectionAngle) * threshold. */
    method ShiftKeypad()
      requires IsNorm(norm)
      modifies this`isShiftKeypad, keypad`position
      ensures !isShiftKeypad
      ensures ShiftedFrom(old(isShiftKeypad), old(keypad.position))
    {
      if !isShiftKeypad {
        return;
      }
      var direction: Vec3 :| direction.z == 0.0 && (direction == Zero || norm(direction) == 1.0);
      var length := tanDegrees(maxRedirectionAngle) * threshold;
      var offset := Scale(length, direction);
      isShiftKeypad := false;
      keypad.position := Add(initialKeypadPosition, offset);
      assert Sub(keypad.position, initialKeypadPosition) == offset;
      if direction == Zero {
        assert offset == Zero;
        NormZero(norm);
      }
    }

    /** ScaleKeypadToMaxAngle: a positive angle becomes the maximum
        redirection angle. The keypad's scale change is not modelled. */
    method ScaleKeypadToMaxAngle(angle: real)
      modifies this`maxRedirectionAngle
      ensures maxRedirectionAngle == if angle <= 0.0 then old(maxRedirectionAngle) else angle
    {
      if angle <= 0.0 {
        return;
      }
      maxRedirectionAngle := angle;
    }

    /** The first step of a retract: in random-target mode the target is
        changed and redirection stops; otherwise a pending keypad shift is
        carried out. */
    method RetractTarget() returns (ended: Option<TargetId>, started: Option<TargetId>)
      requires Valid() && IsNorm(norm)
      modifies this`lastTarget, this`target, this`isTargetSelected, this`isRedirectionActive,
               this`isShiftKeypad, keypad`position
      ensures Valid()
      ensures isTargetSelected == (isRandomTarget || old(isTargetSelected))
      ensures isRedirectionActive == (if isRandomTarget then false else old(isRedirectionActive))
      ensures ended == (if isRandomTarget then old(target) else None)
      ensures isRandomTarget ==> started == target && (target.None? <==> |pool| == 0)
      ensures !isRandomTarget ==> started.None? && target == old(target)
      ensures lastTarget == (if isRandomTarget then old(target) else old(lastTarget))
      ensures isRandomTarget ==> isShiftKeypad == old(isShiftKeypad) && keypad.position == old(keypad.position)
      ensures !isRandomTarget ==> !isShiftKeypad && ShiftedFrom(old(isShiftKeypad), old(keypad.position))
    {
      ended, started := None, None;
      if isRandomTarget {
        var outcome;
        ended, outcome := CheckForNewTarget();
        started := outcome.value;
        isRedirectionActive := false;
      } else if isShiftKeypad {
        ShiftKeypad();
      }
    }

    /** The retract branch of Update: a new target in random-target mode
        (`ended` and `started` are the targets whose EndRedirection and
        StartRedirection are called), or a keypad shift; the buttons are
        enabled, the PIN is checked (`regenerated` when a new PIN was made,
        `req` what it asks of the study), and the previous log is finished
        (`loggerFinished`, for Logger.Finish). */
    method Retract(attemptsBeforeTimer: int)
      returns (req: StudyRequest, ended: Option<TargetId>, started: Option<TargetId>, loggerFinished: bool,
               regenerated: bool)
      requires Valid() && IsNorm(norm)
      requires !isTargetSelected
      requires isStudySetup ==> attemptsBeforeTimer != 0 && pinThreshold != 0
      modifies this`lastTarget, this`target, this`isTargetSelected, this`isRedirectionActive, this`isShiftKeypad,
               this`isHandBehindKeypad, this`pin, this`pinInputCount, this`currentPinInput, this`loggerStarted,
               keypad`position, keypad`pin, keypad`pinText, keypad`active, set b | b in keypad.buttons
      ensures Valid()
      ensures CurrentFlags() == SelectionStep(old(CurrentFlags()), threshold + 1.0, threshold, old(isRandomTarget))
      ensures forall b :: b in keypad.buttons ==> b.interactable
      ensures loggerFinished == old(loggerStarted) && loggerStarted
      ensures ended == (if old(isRandomTarget) then old(target) else None)
      ensures old(isRandomTarget) ==> started == target && (target.None? <==> |pool| == 0)
      ensures !old(isRandomTarget) ==> started.None? && target == old(target)
      ensures lastTarget == (if old(isRandomTarget) then old(target) else old(lastTarget))
      ensures old(isRandomTarget) ==> isShiftKeypad == old(isShiftKeypad) && keypad.position == old(keypad.position)
      ensures !old(isRandomTarget) ==> !isShiftKeypad && ShiftedFrom(old(isShiftKeypad), old(keypad.position))
      ensures regenerated <==> |old(currentPinInput)| >= pinLength && KeypadDistance() >= threshold
      ensures PinOutcome(regenerated, req, attemptsBeforeTimer, old(pin), old(currentPinInput), old(pinInputCount),
                         old(keypad.active))
    {
      ended, started := SelectTarget();
      regenerated, req, loggerFinished := CheckPinAndLog(attemptsBeforeTimer);
    }

    /** The part of a retract after the selection: the PIN check, then the
        logger bookkeeping. */
    method CheckPinAndLog(attemptsBeforeTimer: int) returns (regenerated: bool, req: StudyRequest, loggerFinished: bool)
      requires Valid()
      requires isStudySetup ==> attemptsBeforeTimer != 0 && pinThreshold != 0
      modifies this`pin, this`pinInputCount, this`currentPinInput, this`loggerStarted,
               keypad`pin, keypad`pinText, keypad`active
      ensures Valid()
      ensures keypad.position == old(keypad.position)
      ensures loggerFinished == old(loggerStarted) && loggerStarted
      ensures regenerated <==> |old(currentPinInput)| >= pinLength && KeypadDistance() >= threshold
      ensures PinOutcome(regenerated, req, attemptsBeforeTimer, old(pin), old(currentPinInput), old(pinInputCount),
                         old(keypad.active))
    {
      regenerated, req := CheckPin(attemptsBeforeTimer);
      loggerFinished := loggerStarted;
      loggerStarted := true;
    }

    /** The part of a retract before the PIN check: target change or keypad
        shift, UpdatePrompt(true) enabling the buttons, and the selection
        flags. */
    method SelectTarget() returns (ended: Option<TargetId>, started: Option<TargetId>)
      requires Valid() && IsNorm(norm)
      requires !isTargetSelected
      modifies this`lastTarget, this`target, this`isTargetSelected, this`isRedirectionActive,
               this`isShiftKeypad, this`isHandBehindKeypad, keypad`position, set b | b in keypad.buttons
      ensures Valid()
      ensures CurrentFlags() == SelectionStep(old(CurrentFlags()), threshold + 1.0, threshold, isRandomTarget)
      ensures forall b :: b in keypad.buttons ==> b.interactable
      ensures ended == (if isRandomTarget then old(target) else None)
      ensures isRandomTarget ==> started == target && (target.None? <==> |pool| == 0)
      ensures !isRandomTarget ==> started.None? && target == old(target)
      ensures lastTarget == (if isRandomTarget then old(target) else old(lastTarget))
      ensures isRandomTarget ==> isShiftKeypad == old(isShiftKeypad) && keypad.position == old(keypad.position)
      ensures !isRandomTarget ==> !isShiftKeypad && ShiftedFrom(old(isShiftKeypad), old(keypad.position))
    {
      ended, started := RetractTarget();
      keypad.ActivateAllButtons(true);
      isTargetSelected := true;
      isHandBehindKeypad := false;
    }

    /** The anchor branch of Update: the warp origin moves to the real hand,
        and redirection starts in random-target mode. */
    method Anchor()
      requires Valid()
      requires isTargetSelected && !isWarpOriginSet
      modifies this`isWarpOriginSet, this`isRedirectionActive, warpOrigin`position
      ensures Valid()
      ensures CurrentFlags() == SelectionStep(old(CurrentFlags()), threshold - 1.0, threshold, isRandomTarget)
      ensures warpOrigin.position == old(realHand.position)
    {
      warpOrigin.position := realHand.position;
      isWarpOriginSet := true;
      if isRandomTarget {
        isRedirectionActive := true;
      }
    }

    /** The target-selection part of Update, see SelectionStep. */
    method UpdateSelection(attemptsBeforeTimer: int)
      returns (req: StudyRequest, ended: Option<TargetId>, started: Option<TargetId>, loggerFinished: bool,
               regenerated: bool)
      requires Valid() && IsNorm(norm)
      requires isStudySetup ==> attemptsBeforeTimer != 0 && pinThreshold != 0
      modifies this`lastTarget, this`target, this`isTargetSelected, this`isWarpOriginSet, this`isRedirectionActive,
               this`isShiftKeypad, this`isHandBehindKeypad, this`pin, this`pinInputCount, this`currentPinInput,
               this`loggerStarted, keypad`position, keypad`pin, keypad`pinText, keypad`active, warpOrigin`position,
               set b | b in keypad.buttons
      ensures Valid()
      ensures CurrentFlags() == SelectionStep(old(CurrentFlags()), old(KeypadDistance()), threshold,
                                              old(isRandomTarget))
      ensures IsAnchor(old(CurrentFlags()), old(KeypadDistance()), threshold) ==>
        warpOrigin.position == old(realHand.position)
      ensures !IsRetract(old(CurrentFlags()), old(KeypadDistance()), threshold) ==>
        && req == NoRequest && ended.None? && started.None? && !loggerFinished && !regenerated
        && unchanged(keypad) && pin == old(pin) && currentPinInput == old(currentPinInput)
        && lastTarget == old(lastTarget) && target == old(target) && isShiftKeypad == old(isShiftKeypad)
      ensures IsRetract(old(CurrentFlags()), old(KeypadDistance()), threshold) ==>
        && loggerFinished == old(loggerStarted) && loggerStarted
        && ended == (if old(isRandomTarget) then old(target) else None)
        && (old(isRandomTarget) ==> started == target && (target.None? <==> |pool| == 0))
        && (!old(isRandomTarget) ==> started.None? && target == old(target))
        && lastTarget == (if old(isRandomTarget) then old(target) else old(lastTarget))
        && (old(isRandomTarget) ==> isShiftKeypad == old(isShiftKeypad) && keypad.position == old(keypad.position))
        && (!old(isRandomTarget) ==> !isShiftKeypad && ShiftedFrom(old(isShiftKeypad), old(keypad.position)))
      ensures regenerated <==>
        IsRetract(old(CurrentFlags()), old(KeypadDistance()), threshold) && |old(currentPinInput)| >= pinLength
        && KeypadDistance() >= threshold
      ensures old(isRandomTarget) || !old(isShiftKeypad) ==>
        (regenerated <==>
           IsRetract(old(CurrentFlags()), old(KeypadDistance()), threshold) && |old(currentPinInput)| >= pinLength)
      ensures PinOutcome(regenerated, req, attemptsBeforeTimer, old(pin), old(currentPinInput), old(pinInputCount),
                         old(keypad.active))
    {
      var keypadDistance := keypad.position.z - realHand.position.z;
      req, ended, started, loggerFinished, regenerated := NoRequest, None, None, false, false;
      if !isTargetSelected && keypadDistance > threshold {
        req, ended, started, loggerFinished, regenerated := Retract(attemptsBeforeTimer);
      } else if isTargetSelected && keypadDistance < threshold && !isWarpOriginSet {
        Anchor();
      }
    }

    /** The press part of Update: the fingertip depth `tipZ` inside the press
        window, no press counted yet and no break running counts one press. */
    method UpdatePress(tipZ: real, timerStarted: bool) returns (pressed: bool)
      requires Valid()
      modifies this`isHandBehindKeypad, this`isShiftKeypad, this`isTargetSelected, this`isWarpOriginSet,
               this`currentPinInput, set b | b in keypad.buttons
      ensures Valid()
      ensures pressed <==> InPressWindow(tipZ, keypad.position.z) && !old(isHandBehindKeypad) && !timerStarted
      ensures pressed ==>
        && CurrentFlags() == Pressed(old(CurrentFlags()))
        && currentPinInput == old(currentPinInput) + [PressPlaceholder]
        && !isShiftKeypad
        && (forall b :: b in keypad.buttons ==> !b.interactable)
      ensures !pressed ==> unchanged(this) && unchanged(set b | b in keypad.buttons)
    {
      pressed := InPressWindow(tipZ, keypad.position.z) && !isHandBehindKeypad && !timerStarted;
      if pressed {
        isHandBehindKeypad := true;
        keypad.ActivateAllButtons(false);
        isShiftKeypad := false;
        DeactivateTarget();
        AddUserInput(PressPlaceholder);
      }
    }

    /** The last part of Update: while redirection is active the target
        redirects the hand (`redirect`), otherwise the virtual hand is put
        back on the real hand. */
    method UpdateHands() returns (redirect: bool)
      requires Valid() && IsNorm(norm)
      modifies this`maxRedirectionAngle, virtualHand
      ensures Valid()
      ensures redirect == isRedirectionActive
      ensures !isRedirectionActive ==>
        && virtualHand.position == old(realHand.position)
        && virtualHand.rotation == old(realHand.rotation)
        && virtualHand.localScale == old(realHand.localScale)
        && HandsAreAligned()
      ensures isRedirectionActive ==> unchanged(virtualHand)
      ensures maxRedirectionAngle == old(maxRedirectionAngle)
    {
      if isScaleKeypad {
        ScaleKeypadToMaxAngle(maxRedirectionAngle);
      }
      redirect := isRedirectionActive;
      if !isRedirectionActive {
        SetVirtualHandToRealHand();
      }
    }
  }
}
