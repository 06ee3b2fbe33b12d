/** The study schedule (Assets/_Scripts/StudySetup.cs): the sixteen study
    conditions (keypad size by retargeting curve, plus a training
    condition), the counterbalancing table that orders them per participant,
    the step cursor with the parameters each condition sets on the manager,
    and the break timer. */
module StudySetup {
  import opened Geometry
  import Common
  import RM = RedirectionManager
  import W = WeissBodyWarping
  import L = Logger

  datatype KeypadSize = Small | Medium | Large

  datatype Curves = None | Linear | EaseIn | EaseOut | Shift

  datatype Condition = Condition(size: KeypadSize, curve: Curves)

  /** Enum.GetValues order. */
  const AllSizes: seq<KeypadSize> := [Small, Medium, Large]
  const AllCurves: seq<Curves> := [None, Linear, EaseIn, EaseOut, Shift]

  /** The last training condition appended after the product. */
  const Training: Condition := Condition(Medium, None)

  // ---------------------------------------------------------------------
  // The condition list

  /** The inner foreach: one condition per curve, for a fixed size. */
  function Pairs(size: KeypadSize, curves: seq<Curves>): (r: seq<Condition>)
    ensures |r| == |curves|
    ensures forall k :: 0 <= k < |curves| ==> r[k] == Condition(size, curves[k])
  {
    seq(|curves|, k requires 0 <= k < |curves| => Condition(size, curves[k]))
  }

  /** The nested foreach: sizes outside, curves inside. */
  function Product(sizes: seq<KeypadSize>, curves: seq<Curves>): seq<Condition>
    decreases |sizes|
  {
    if sizes == [] then []
    else Product(sizes[..|sizes| - 1], curves) + Pairs(sizes[|sizes| - 1], curves)
  }

  /** The list Conditions() returns. */
  function ConditionList(): seq<Condition>
  {
    Product(AllSizes, AllCurves) + [Training]
  }

  /** Conditions: the nested loops over both enums, then the training
      condition. */
  method Conditions() returns (conditions: seq<Condition>)
    ensures conditions == ConditionList()
  {
    conditions := [];
    var i := 0;
    while i < |AllSizes|
      invariant 0 <= i <= |AllSizes|
      invariant conditions == Product(AllSizes[..i], AllCurves)
    {
      var j := 0;
      while j < |AllCurves|
        invariant 0 <= j <= |AllCurves|
        invariant conditions == Product(AllSizes[..i], AllCurves) + Pairs(AllSizes[i], AllCurves[..j])
      {
        assert Pairs(AllSizes[i], AllCurves[..j + 1])
               == Pairs(AllSizes[i], AllCurves[..j]) + [Condition(AllSizes[i], AllCurves[j])];
        conditions := conditions + [Condition(AllSizes[i], AllCurves[j])];
        j := j + 1;
      }
      assert AllCurves[..j] == AllCurves;
      assert AllSizes[..i + 1][..i] == AllSizes[..i];
      i := i + 1;
    }
    assert AllSizes[..i] == AllSizes;
    conditions := conditions + [Training];
  }

  /** The product unrolled: the five curves with Small, then Medium, then
      Large. */
  lemma ProductValue()
    ensures Product(AllSizes, AllCurves)
            == Pairs(Small, AllCurves) + Pairs(Medium, AllCurves) + Pairs(Large, AllCurves)
  {
    assert AllSizes[..2][..1] == [Small];
    assert AllSizes[..2] == [Small, Medium];
    assert [Small][..0] == [];
    assert Product([Small], AllCurves) == Pairs(Small, AllCurves);
    assert Product(AllSizes[..2], AllCurves) == Pairs(Small, AllCurves) + Pairs(Medium, AllCurves);
  }

  /** Sixteen conditions: entry i below 15 is (KeypadSize(i / 5),
      Curves(i % 5)), entry 15 the training condition. */
  lemma ConditionListShape()
    ensures |ConditionList()| == 16
    ensures forall i :: 0 <= i < 15 ==> ConditionList()[i] == Condition(AllSizes[i / 5], AllCurves[i % 5])
    ensures ConditionList()[15] == Training
  {
    ProductValue();
    var small, medium, large := Pairs(Small, AllCurves), Pairs(Medium, AllCurves), Pairs(Large, AllCurves);
    var list := ConditionList();
    assert list == small + medium + large + [Training];
    forall i | 0 <= i < 15 ensures list[i] == Condition(AllSizes[i / 5], AllCurves[i % 5]) {
      if i < 5 {
        assert list[i] == small[i];
      } else if i < 10 {
        assert list[i] == medium[i - 5];
      } else {
        assert list[i] == large[i - 10];
      }
    }
  }

  function SizeIndex(size: KeypadSize): (i: nat)
    ensures i < |AllSizes| && AllSizes[i] == size
  {
    match size case Small => 0 case Medium => 1 case Large => 2
  }

  function CurveIndex(curve: Curves): (i: nat)
    ensures i < |AllCurves| && AllCurves[i] == curve
  {
    match curve case None => 0 case Linear => 1 case EaseIn => 2 case EaseOut => 3 case Shift => 4
  }

  /** Every size and curve pairing is one of the fifteen study conditions,
      at position 5 * size + curve. */
  lemma EveryPairingListed(size: KeypadSize, curve: Curves)
    ensures |ConditionList()| == 16
    ensures ConditionList()[5 * SizeIndex(size) + CurveIndex(curve)] == Condition(size, curve)
  {
    ConditionListShape();
    var i := 5 * SizeIndex(size) + CurveIndex(curve);
    assert i / 5 == SizeIndex(size) && i % 5 == CurveIndex(curve);
  }

  // ---------------------------------------------------------------------
  // The counterbalancing table

  const Row0: seq<nat> := [15, 0, 1, 6, 10, 12, 5, 4, 13, 7, 9, 14, 3, 11, 8, 2]
  const Row1: seq<nat> := [15, 11, 2, 14, 8, 7, 3, 4, 9, 12, 13, 6, 5, 0, 10, 1]
  const Row2: seq<nat> := [15, 10, 5, 1, 13, 0, 9, 6, 3, 12, 8, 4, 2, 7, 11, 14]
  const Row3: seq<nat> := [15, 7, 14, 4, 11, 12, 2, 6, 8, 0, 3, 1, 9, 10, 13, 5]
  const Row4: seq<nat> := [15, 13, 9, 5, 3, 10, 8, 1, 2, 0, 11, 6, 14, 12, 7, 4]
  const Row5: seq<nat> := [15, 12, 4, 6, 7, 0, 14, 1, 11, 10, 2, 5, 8, 13, 3, 9]
  const Row6: seq<nat> := [15, 3, 8, 9, 2, 13, 11, 5, 14, 10, 7, 1, 4, 0, 12, 6]
  const Row7: seq<nat> := [15, 0, 6, 1, 12, 10, 4, 5, 7, 13, 14, 9, 11, 3, 2, 8]
  const Row8: seq<nat> := [15, 2, 11, 8, 14, 3, 7, 9, 4, 13, 12, 5, 6, 10, 0, 1]
  const Row9: seq<nat> := [15, 10, 1, 5, 0, 13, 6, 9, 12, 3, 4, 8, 7, 2, 14, 11]
  const Row10: seq<nat> := [15, 14, 7, 11, 4, 2, 12, 8, 6, 3, 0, 9, 1, 13, 10, 5]
  const Row11: seq<nat> := [15, 13, 5, 9, 10, 3, 1, 8, 0, 2, 6, 11, 12, 14, 4, 7]
  const Row12: seq<nat> := [15, 4, 12, 7, 6, 14, 0, 11, 1, 2, 10, 8, 5, 3, 13, 9]
  const Row13: seq<nat> := [15, 3, 9, 8, 13, 2, 5, 11, 10, 14, 1, 7, 0, 4, 6, 12]
  const Row14: seq<nat> := [15, 6, 0, 12, 1, 4, 10, 7, 5, 14, 13, 11, 9, 2, 3, 8]
  const Row15: seq<nat> := [15, 2, 8, 11, 3, 14, 9, 7, 13, 4, 5, 12, 10, 6, 1, 0]
  const Row16: seq<nat> := [15, 1, 10, 0, 5, 6, 13, 12, 9, 4, 3, 7, 8, 14, 2, 11]
  const Row17: seq<nat> := [15, 14, 11, 7, 2, 4, 8, 12, 3, 6, 9, 0, 13, 1, 5, 10]
  const Row18: seq<nat> := [15, 5, 13, 10, 9, 1, 3, 0, 8, 6, 2, 12, 11, 4, 14, 7]
  const Row19: seq<nat> := [15, 4, 7, 12, 14, 6, 11, 0, 2, 1, 8, 10, 3, 5, 9, 13]
  const Row20: seq<nat> := [15, 9, 3, 13, 8, 5, 2, 10, 11, 1, 14, 0, 7, 6, 4, 12]
  const Row21: seq<nat> := [15, 6, 12, 0, 4, 1, 7, 10, 14, 5, 11, 13, 2, 9, 8, 3]
  const Row22: seq<nat> := [15, 8, 2, 3, 11, 9, 14, 13, 7, 5, 4, 10, 12, 1, 6, 0]
  const Row23: seq<nat> := [15, 1, 0, 10, 6, 5, 12, 13, 4, 9, 7, 3, 14, 8, 11, 2]
  const Row24: seq<nat> := [15, 11, 14, 2, 7, 8, 4, 3, 12, 9, 6, 13, 0, 5, 1, 10]
  const Row25: seq<nat> := [15, 5, 10, 13, 1, 9, 0, 3, 6, 8, 12, 2, 4, 11, 7, 14]
  const Row26: seq<nat> := [15, 7, 4, 14, 12, 11, 6, 2, 0, 8, 1, 3, 10, 9, 5, 13]
  const Row27: seq<nat> := [15, 9, 13, 3, 5, 8, 10, 2, 1, 11, 0, 14, 6, 7, 12, 4]
  const Row28: seq<nat> := [15, 12, 6, 4, 0, 7, 1, 14, 10, 11, 5, 2, 13, 8, 9, 3]
  const Row29: seq<nat> := [15, 8, 3, 2, 9, 11, 13, 14, 5, 7, 10, 4, 1, 12, 0, 6]

  /** _balancedLatinSquare: one row per participant. */
  const BalancedLatinSquare: seq<seq<nat>> := [
    Row0, Row1, Row2, Row3, Row4, Row5,
    Row6, Row7, Row8, Row9, Row10, Row11,
    Row12, Row13, Row14, Row15, Row16, Row17,
    Row18, Row19, Row20, Row21, Row22, Row23,
    Row24, Row25, Row26, Row27, Row28, Row29]

  /** A row of the table: 16 entries, the training condition first, then
      every study condition. */
  predicate WellFormedRow(row: seq<nat>)
  {
    |row| == 16 && row[0] == 15 && forall v :: 0 <= v < 15 ==> v in row[1..]
  }

  /** Rows 0 to 9 are well formed. */
  lemma RowsWellFormed0To9()
    ensures WellFormedRow(Row0)
    ensures WellFormedRow(Row1)
    ensures WellFormedRow(Row2)
    ensures WellFormedRow(Row3)
    ensures WellFormedRow(Row4)
    ensures WellFormedRow(Row5)
    ensures WellFormedRow(Row6)
    ensures WellFormedRow(Row7)
    ensures WellFormedRow(Row8)
    ensures WellFormedRow(Row9)
  {
    assert WellFormedRow(Row0);
    assert WellFormedRow(Row1);
    assert WellFormedRow(Row2);
    assert WellFormedRow(Row3);
    assert WellFormedRow(Row4);
    assert WellFormedRow(Row5);
    assert WellFormedRow(Row6);
    assert WellFormedRow(Row7);
    assert WellFormedRow(Row8);
    assert WellFormedRow(Row9);
  }

  /** Rows 10 to 19 are well formed. */
  lemma RowsWellFormed10To19()
    ensures WellFormedRow(Row10)
    ensures WellFormedRow(Row11)
    ensures WellFormedRow(Row12)
    ensures WellFormedRow(Row13)
    ensures WellFormedRow(Row14)
    ensures WellFormedRow(Row15)
    ensures WellFormedRow(Row16)
    ensures WellFormedRow(Row17)
    ensures WellFormedRow(Row18)
    ensures WellFormedRow(Row19)
  {
    assert WellFormedRow(Row10);
    assert WellFormedRow(Row11);
    assert WellFormedRow(Row12);
    assert WellFormedRow(Row13);
    assert WellFormedRow(Row14);
    assert WellFormedRow(Row15);
    assert WellFormedRow(Row16);
    assert WellFormedRow(Row17);
    assert WellFormedRow(Row18);
    assert WellFormedRow(Row19);
  }

  /** Rows 20 to 29 are well formed. */
  lemma RowsWellFormed20To29()
    ensures WellFormedRow(Row20)
    ensures WellFormedRow(Row21)
    ensures WellFormedRow(Row22)
    ensures WellFormedRow(Row23)
    ensures WellFormedRow(Row24)
    ensures WellFormedRow(Row25)
    ensures WellFormedRow(Row26)
    ensures WellFormedRow(Row27)
    ensures WellFormedRow(Row28)
    ensures WellFormedRow(Row29)
  {
    assert WellFormedRow(Row20);
    assert WellFormedRow(Row21);
    assert WellFormedRow(Row22);
    assert WellFormedRow(Row23);
    assert WellFormedRow(Row24);
    assert WellFormedRow(Row25);
    assert WellFormedRow(Row26);
    assert WellFormedRow(Row27);
    assert WellFormedRow(Row28);
    assert WellFormedRow(Row29);
  }

  lemma TableRowsWellFormed()
    ensures |BalancedLatinSquare| == 30
    ensures forall p :: 0 <= p < 30 ==> WellFormedRow(BalancedLatinSquare[p])
  {
    RowsWellFormed0To9();
    RowsWellFormed10To19();
    RowsWellFormed20To29();
  }

  function Values(s: seq<nat>): set<nat>
  {
    set x | x in s
  }

  /** The values 0..n-1. */
  function Below(n: nat): (r: set<nat>)
    ensures forall v: nat :: v in r <==> v < n
    decreases n
  {
    if n == 0 then {} else Below(n - 1) + {n - 1}
  }

  lemma {:induction false} ValuesCard(s: seq<nat>)
    ensures |Values(s)| <= |s|
    decreases |s|
  {
    if s != [] {
      var front := s[..|s| - 1];
      ValuesCard(front);
      assert Values(s) == Values(front) + {s[|s| - 1]};
    }
  }

  lemma {:induction false} BelowCard(n: nat)
    ensures |Below(n)| == n
    decreases n
  {
    if n > 0 {
      BelowCard(n - 1);
      assert n - 1 !in Below(n - 1);
    }
  }

  lemma {:induction false} SubsetCard(a: set<nat>, b: set<nat>)
    requires a <= b
    ensures |a| <= |b|
    decreases |a|
  {
    if a != {} {
      var x :| x in a;
      SubsetCard(a - {x}, b - {x});
    }
  }

  /** A repeated entry leaves fewer distinct values than entries. */
  lemma DuplicateLosesValue(s: seq<nat>, i: nat, j: nat)
    requires i < j < |s|
    ensures s[i] == s[j] ==> |Values(s)| < |s|
  {
    if s[i] == s[j] {
      var t := s[..j] + s[j + 1..];
      assert s == s[..j] + [s[j]] + s[j + 1..];
      assert Values(s) == Values(t);
      ValuesCard(t);
    }
  }

  /** An entry at or above n adds a value beyond 0..n-1. */
  lemma LargeEntryAddsValue(s: seq<nat>, n: nat, k: nat)
    requires k < |s| && Below(n) <= Values(s)
    ensures s[k] >= n ==> |Values(s)| > n
  {
    if s[k] >= n {
      BelowCard(n);
      assert s[k] !in Below(n);
      SubsetCard(Below(n) + {s[k]}, Values(s));
    }
  }

  /** Pigeonhole: n entries that take all of the values 0..n-1 take each
      exactly once and no other. */
  lemma CoveringIsPermutation(s: seq<nat>, n: nat)
    requires |s| == n && forall v :: 0 <= v < n ==> v in s
    ensures Common.NoDuplicates(s)
    ensures forall k :: 0 <= k < |s| ==> s[k] < n
  {
    assert Below(n) <= Values(s);
    BelowCard(n);
    SubsetCard(Below(n), Values(s));
    ValuesCard(s);
    assert |Values(s)| == n;
    forall i, j | 0 <= i < j < |s| ensures s[i] != s[j] {
      DuplicateLosesValue(s, i, j);
    }
    forall k | 0 <= k < |s| ensures s[k] < n {
      LargeEntryAddsValue(s, n, k);
    }
  }

  /** Each row starts with the training condition 15 followed by a
      permutation of the study conditions 0..14, so every table value is an
      index into the condition list. */
  lemma BalancedLatinSquareShape()
    ensures |BalancedLatinSquare| == 30
    ensures forall p :: 0 <= p < 30 ==>
      && |BalancedLatinSquare[p]| == 16
      && BalancedLatinSquare[p][0] == 15
      && Common.NoDuplicates(BalancedLatinSquare[p][1..])
      && (forall k :: 1 <= k < 16 ==> BalancedLatinSquare[p][k] < 15)
    ensures forall p, k :: 0 <= p < 30 && 0 <= k < 16 ==> BalancedLatinSquare[p][k] < |ConditionList()|
  {
    TableRowsWellFormed();
    ConditionListShape();
    forall p | 0 <= p < 30
      ensures Common.NoDuplicates(BalancedLatinSquare[p][1..])
      ensures forall k :: 1 <= k < 16 ==> BalancedLatinSquare[p][k] < 15
    {
      var row := BalancedLatinSquare[p];
      CoveringIsPermutation(row[1..], 15);
      forall k | 1 <= k < 16 ensures row[k] < 15 {
        assert row[k] == row[1..][k - 1];
      }
    }
  }

  /** The table has 30 rows of 16 entries. */
  lemma TableDimensions()
    ensures |BalancedLatinSquare| == 30
    ensures forall p :: 0 <= p < 30 ==> |BalancedLatinSquare[p]| == 16
  {
    TableRowsWellFormed();
  }

  /** Cell (participant, step) of the table. */
  function TableCell(participant: int, step: int): nat
    requires 0 <= participant < 30 && 0 <= step < 16
  {
    TableDimensions();
    BalancedLatinSquare[participant][step]
  }

  /** Every cell numbers a condition of the list, the first one training. */
  lemma TableCellInRange(participant: int, step: int)
    requires 0 <= participant < 30 && 0 <= step < 16
    ensures TableCell(participant, step) < |ConditionList()|
    ensures step == 0 ==> TableCell(participant, step) == 15
  {
    BalancedLatinSquareShape();
  }

  // ---------------------------------------------------------------------
  // Condition parameters

  /** The ScaleKeypadToMaxAngle argument per keypad size. */
  function MaxAngle(size: KeypadSize): (angle: real)
    ensures angle > 0.0
  {
    match size
    case Small => 4.0
    case Medium => 8.0
    case Large => 16.0
  }

  /** A larger keypad allows a larger redirection angle. */
  lemma MaxAngleIncreasing()
    ensures MaxAngle(Small) < MaxAngle(Medium) < MaxAngle(Large)
  {
  }

  /** The retargeting curve per curve condition; Shift keeps the curve. */
  function CurveShape(curve: Curves): W.CurveShape
    requires curve != Shift
  {
    match curve
    case None => W.Constant(0.0, 1.0, 0.0)
    case Linear => W.Linear(0.0, 0.0, 1.0, 1.0)
    case EaseIn => W.EaseInOut(0.0, 0.0, 2.0, 2.0)
    case EaseOut => W.EaseInOut(-1.0, -1.0, 1.0, 1.0)
  }

  /** What SetupParameters leaves on the manager and the technique for a
      condition. */
  ghost predicate Applied(m: RM.Manager, t: W.WeissBodyWarping, c: Condition, oldCurve: W.CurveShape)
    reads m, t
  {
    && m.isRandomVector == (c.curve != Shift)
    && m.isRandomTarget == (c.curve != Shift)
    && m.isShiftKeypad == (c.curve == Shift)
    && m.maxRedirectionAngle == MaxAngle(c.size)
    && t.retargetingCurve == (if c.curve == Shift then oldCurve else CurveShape(c.curve))
  }

  /** The Shift curve is the only condition with a shifted keypad and fixed
      targets; in every other condition targets are random. */
  lemma ShiftIsExclusive(m: RM.Manager, t: W.WeissBodyWarping, c: Condition, oldCurve: W.CurveShape)
    requires Applied(m, t, c, oldCurve)
    ensures m.isShiftKeypad <==> !m.isRandomTarget
    ensures m.isRandomVector == m.isRandomTarget
    ensures m.maxRedirectionAngle > 0.0
  {
  }

  /** The break timer's text: whole minutes and seconds, two digits each. */
  function TimerText(remaining: real): string
    requires remaining > 0.0
  {
    var minutes := (remaining / 60.0).Floor;
    var seconds := (remaining - 60.0 * (minutes as real)).Floor;
    "Break\n" + TwoDigits(minutes) + ":" + TwoDigits(seconds)
  }

  /** The "00" format: at least two digits. */
  function TwoDigits(n: int): string
  {
    if 0 <= n < 10 then "0" + Common.IntToString(n) else Common.IntToString(n)
  }

  /** The seconds shown are always 0..59 and the minutes never negative. */
  lemma TimerFieldsBounded(remaining: real)
    requires remaining > 0.0
    ensures var minutes := (remaining / 60.0).Floor;
      var seconds := (remaining - 60.0 * (minutes as real)).Floor;
      minutes >= 0 && 0 <= seconds < 60
  {
    var minutes := (remaining / 60.0).Floor;
    assert minutes as real <= remaining / 60.0 < minutes as real + 1.0;
    assert 60.0 * (minutes as real) <= remaining < 60.0 * (minutes as real) + 60.0;
  }

  class StudySetup {
    const manager: RM.Manager
    /** The manager's default technique, a Weiss body warp. */
    const technique: W.WeissBodyWarping
    const logger: L.Logger

    var participantNumber: int
    var step: int
    var pinThreshold: int
    var timerInSec: real
    var pinAttemptsBeforeTimer: int
    var conditions: seq<Condition>
    var conditionNumber: int
    var isTimerStarted: bool
    var remainingTime: real
    var timerShown: bool
    var timerText: string

    /** The state Awake establishes. */
    predicate Valid()
      reads this`conditions, this`participantNumber
    {
      conditions == ConditionList() && 0 <= participantNumber < 30
    }

    constructor (manager: RM.Manager, technique: W.WeissBodyWarping, logger: L.Logger,
                 participantNumber: int, step: int)
      ensures this.manager == manager && this.technique == technique && this.logger == logger
      ensures this.participantNumber == participantNumber && this.step == step
      ensures pinThreshold == 1 && timerInSec == 30.0 && pinAttemptsBeforeTimer == 20
      ensures !isTimerStarted && !timerShown && conditions == []
    {
      this.manager := manager;
      this.technique := technique;
      this.logger := logger;
      this.participantNumber := participantNumber;
      this.step := step;
      pinThreshold := 1;
      timerInSec := 30.0;
      pinAttemptsBeforeTimer := 20;
      conditions := [];
      conditionNumber := 0;
      isTimerStarted := false;
      remainingTime := 0.0;
      timerShown := false;
      timerText := "";
    }

    /** Awake: builds the condition list, reads the table at the current
        step (not step - 1 as SetupCondition does) and hands the PIN
        threshold to the manager. */
    method Awake()
      requires 0 <= participantNumber < 30 && 0 <= step < 16
      modifies this`conditions, this`conditionNumber, manager`pinThreshold
      ensures Valid()
      ensures conditionNumber == TableCell(participantNumber, step)
      ensures manager.pinThreshold == pinThreshold
    {
      conditions := Conditions();
      conditionNumber := TableCell(participantNumber, step);
      manager.pinThreshold := pinThreshold;
    }

    /** SetupParameters. */
    method SetupParameters(size: KeypadSize, curve: Curves)
      modifies manager`isRandomVector, manager`isRandomTarget, manager`isShiftKeypad,
               manager`maxRedirectionAngle, technique`retargetingCurve
      ensures Applied(manager, technique, Condition(size, curve), old(technique.retargetingCurve))
    {
      manager.isRandomVector := true;
      manager.isRandomTarget := true;
      manager.isShiftKeypad := false;
      manager.ScaleKeypadToMaxAngle(MaxAngle(size));
      match curve {
        case None => technique.retargetingCurve := W.Constant(0.0, 1.0, 0.0);
        case Linear => technique.retargetingCurve := W.Linear(0.0, 0.0, 1.0, 1.0);
        case EaseIn => technique.retargetingCurve := W.EaseInOut(0.0, 0.0, 2.0, 2.0);
        case EaseOut => technique.retargetingCurve := W.EaseInOut(-1.0, -1.0, 1.0, 1.0);
        case Shift =>
          manager.isRandomVector := false;
          manager.isRandomTarget := false;
          manager.isShiftKeypad := true;
      }
    }

    /** SetupCondition: the condition at table cell (participant, step - 1). */
    method SetupCondition()
      requires Valid() && 1 <= step <= 16
      modifies this`conditionNumber, manager`isRandomVector, manager`isRandomTarget, manager`isShiftKeypad,
               manager`maxRedirectionAngle, technique`retargetingCurve
      ensures Valid()
      ensures conditionNumber == TableCell(participantNumber, step - 1)
      ensures 0 <= conditionNumber < |conditions|
      ensures Applied(manager, technique, conditions[conditionNumber], old(technique.retargetingCurve))
    {
      conditionNumber := TableCell(participantNumber, step - 1);
      TableCellInRange(participantNumber, step - 1);
      var condition := conditions[conditionNumber];
      SetupParameters(condition.size, condition.curve);
    }

    /** NextCondition: advances the step while conditions remain, otherwise
        finishes the study (the keypad is hidden); the keypad returns to its
        initial position and the condition of the (new) step is set up. From
        step s < 16 the cell read is (participant, s), the one Awake read at
        step s. */
    method NextCondition()
      requires Valid() && 0 <= step <= 16
      modifies this`step, this`conditionNumber, manager`isRandomVector, manager`isRandomTarget,
               manager`isShiftKeypad, manager`maxRedirectionAngle, technique`retargetingCurve,
               manager.keypad`active, manager.keypad`position
      ensures Valid()
      ensures step == (if old(step) < 16 then old(step) + 1 else old(step))
      ensures old(step) < 16 ==> conditionNumber == TableCell(participantNumber, old(step))
      ensures old(step) == 16 ==> !manager.keypad.active
      ensures old(step) < 16 ==> manager.keypad.active == old(manager.keypad.active)
      ensures manager.keypad.position == manager.initialKeypadPosition
      ensures 0 <= conditionNumber < |conditions|
      ensures Applied(manager, technique, conditions[conditionNumber], old(technique.retargetingCurve))
    {
      ConditionListShape();
      if step < |conditions| {
        step := step + 1;
      } else {
        manager.keypad.active := false;
      }
      manager.keypad.position := manager.initialKeypadPosition;
      SetupCondition();
    }

    /** StartTimer: recording stops, the break begins with the full time and
        logging pauses. */
    method StartTimer()
      modifies this`isTimerStarted, this`timerShown, this`remainingTime, manager`isRecord, logger`isLogging
      ensures isTimerStarted && timerShown && remainingTime == timerInSec
      ensures !manager.isRecord && !logger.isLogging
    {
      if manager.isRecord {
        manager.isRecord := false;
      }
      isTimerStarted := true;
      timerShown := true;
      remainingTime := timerInSec;
      logger.PauseLogging();
    }

    /** StopTimer: nothing while the questionnaire is open; otherwise the
        break ends, the keypad comes back at its initial position, recording
        and logging resume and the PIN clock restarts at `now`. */
    method StopTimer(questionnaireActive: bool, now: int)
      modifies this`isTimerStarted, this`timerShown, manager`isRecord, manager.keypad`active,
               manager.keypad`position, logger`isLogging, logger`startingTime
      ensures questionnaireActive ==>
        && isTimerStarted == old(isTimerStarted) && timerShown == old(timerShown)
        && manager.isRecord == old(manager.isRecord)
        && manager.keypad.active == old(manager.keypad.active)
        && manager.keypad.position == old(manager.keypad.position)
        && logger.isLogging == old(logger.isLogging) && logger.startingTime == old(logger.startingTime)
      ensures !questionnaireActive ==>
        && !isTimerStarted && !timerShown && manager.isRecord
        && manager.keypad.active && manager.keypad.position == manager.initialKeypadPosition
        && logger.isLogging && logger.startingTime == now
    {
      if questionnaireActive {
        return;
      }
      if !manager.isRecord {
        manager.isRecord := true;
      }
      isTimerStarted := false;
      timerShown := false;
      manager.keypad.active := true;
      manager.keypad.position := manager.initialKeypadPosition;
      logger.ResumeLogging();
      logger.SetStartingTime(now);
    }

    /** Update: while the break runs the keypad stays hidden and the
        remaining time counts down by `deltaTime`; at zero the timer is
        stopped. */
    method Update(deltaTime: real, questionnaireActive: bool, now: int)
      modifies this`remainingTime, this`timerText, this`isTimerStarted, this`timerShown, manager`isRecord,
               manager.keypad`active, manager.keypad`position, logger`isLogging, logger`startingTime
      ensures !old(isTimerStarted) ==>
        && remainingTime == old(remainingTime) && timerText == old(timerText) && !isTimerStarted
        && manager.keypad.active == old(manager.keypad.active)
        && manager.keypad.position == old(manager.keypad.position)
        && logger.isLogging == old(logger.isLogging)
      ensures old(isTimerStarted) ==>
        && remainingTime == old(remainingTime) - deltaTime
        && (remainingTime > 0.0 ==> timerText == TimerText(remainingTime))
        && (remainingTime > 0.0 || questionnaireActive ==> isTimerStarted && !manager.keypad.active)
        && (remainingTime <= 0.0 && !questionnaireActive ==>
              !isTimerStarted && manager.keypad.active && logger.isLogging && logger.startingTime == now)
    {
      if !isTimerStarted {
        return;
      }
      manager.keypad.active := false;
      remainingTime := remainingTime - deltaTime;
      if remainingTime > 0.0 {
        timerText := TimerText(remainingTime);
      }
      if remainingTime <= 0.0 {
        StopTimer(questionnaireActive, now);
      }
    }
  }
}
