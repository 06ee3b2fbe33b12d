/** The per-frame CSV logger (Assets/_Scripts/Analysis/Logger.cs): which
    columns the header and the rows list, the per-condition file counter and
    file names, and the two summary files. Files are modelled as a map from
    file name to the lines written into it; the log directory, the stream
    flushing and the clock are not modelled (times are parameters). */
module Logger {
  import opened Common

  /** The columns, in the order the header dictionary declares them. */
  datatype Column =
    | Frame | Timestamp
    | RealHandPosition | RealHandRotation | VirtualHandPosition | VirtualHandRotation
    | Target | TargetNr | InputNr | RedirectionDistance | OffsetVector | RedirectionTechnique
    | TargetRealPosition | TargetRealRotation | TargetVirtualPosition | TargetVirtualRotation
    | BodyPosition | BodyRotation

  const Columns: seq<Column> := [
    Frame, Timestamp,
    RealHandPosition, RealHandRotation, VirtualHandPosition, VirtualHandRotation,
    Target, TargetNr, InputNr, RedirectionDistance, OffsetVector, RedirectionTechnique,
    TargetRealPosition, TargetRealRotation, TargetVirtualPosition, TargetVirtualRotation,
    BodyPosition, BodyRotation]

  function ColumnName(c: Column): string
  {
    match c
    case Frame => "Frame"
    case Timestamp => "Timestamp"
    case RealHandPosition => "Real Hand Position"
    case RealHandRotation => "Real Hand Rotation"
    case VirtualHandPosition => "Virtual Hand Position"
    case VirtualHandRotation => "Virtual Hand Rotation"
    case Target => "Target"
    case TargetNr => "Target Nr"
    case InputNr => "Input Nr"
    case RedirectionDistance => "Redirection Distance"
    case OffsetVector => "Offset Vector"
    case RedirectionTechnique => "Redirection Technique"
    case TargetRealPosition => "Target Real Position"
    case TargetRealRotation => "Target Real Rotation"
    case TargetVirtualPosition => "Target Virtual Position"
    case TargetVirtualRotation => "Target Virtual Rotation"
    case BodyPosition => "Body Position"
    case BodyRotation => "Body Rotation"
  }

  /** Frame and Timestamp are always logged; the others when switched on. */
  predicate Shown(c: Column, enabled: set<Column>)
  {
    c == Frame || c == Timestamp || c in enabled
  }

  /** The Where over the columns: the shown ones, in their given order. */
  function Select(cols: seq<Column>, enabled: set<Column>): (r: seq<Column>)
    ensures |r| <= |cols|
    ensures forall c :: c in r <==> c in cols && Shown(c, enabled)
  {
    if cols == [] then []
    else (if Shown(cols[0], enabled) then [cols[0]] else []) + Select(cols[1..], enabled)
  }

  /** The position of a column in the declared order. */
  function Ordinal(c: Column): (n: nat)
    ensures n < |Columns| && Columns[n] == c
  {
    match c
    case Frame => 0
    case Timestamp => 1
    case RealHandPosition => 2
    case RealHandRotation => 3
    case VirtualHandPosition => 4
    case VirtualHandRotation => 5
    case Target => 6
    case TargetNr => 7
    case InputNr => 8
    case RedirectionDistance => 9
    case OffsetVector => 10
    case RedirectionTechnique => 11
    case TargetRealPosition => 12
    case TargetRealRotation => 13
    case TargetVirtualPosition => 14
    case TargetVirtualRotation => 15
    case BodyPosition => 16
    case BodyRotation => 17
  }

  /** The columns appear in declared order, each at most once. */
  predicate InDeclaredOrder(cols: seq<Column>)
  {
    forall i, j :: 0 <= i < j < |cols| ==> Ordinal(cols[i]) < Ordinal(cols[j])
  }

  lemma ColumnsInDeclaredOrder()
    ensures InDeclaredOrder(Columns)
  {
    forall i | 0 <= i < |Columns| ensures Ordinal(Columns[i]) == i {
    }
  }

  /** Every column selected after the first comes later in the declared order. */
  lemma HeadBeforeSelectedRest(cols: seq<Column>, enabled: set<Column>)
    requires cols != [] && InDeclaredOrder(cols)
    ensures forall c :: c in Select(cols[1..], enabled) ==> Ordinal(cols[0]) < Ordinal(c)
  {
    forall c | c in Select(cols[1..], enabled) ensures Ordinal(cols[0]) < Ordinal(c) {
      var m :| 0 <= m < |cols[1..]| && cols[1..][m] == c;
      assert cols[m + 1] == c;
    }
  }

  /** A column placed before columns that all come later keeps the order. */
  lemma ConsInOrder(x: Column, s: seq<Column>)
    requires InDeclaredOrder(s)
    requires forall c :: c in s ==> Ordinal(x) < Ordinal(c)
    ensures InDeclaredOrder([x] + s)
  {
    var r := [x] + s;
    forall i, j | 0 <= i < j < |r| ensures Ordinal(r[i]) < Ordinal(r[j]) {
      assert r[j] == s[j - 1];
      if i > 0 {
        assert r[i] == s[i - 1];
      }
    }
  }

  /** Selecting keeps the declared order, so the header and every row list
      their columns in the same order. */
  lemma {:induction false} SelectKeepsOrder(cols: seq<Column>, enabled: set<Column>)
    requires InDeclaredOrder(cols)
    ensures InDeclaredOrder(Select(cols, enabled))
  {
    if cols != [] {
      var s := Select(cols[1..], enabled);
      SelectKeepsOrder(cols[1..], enabled);
      if Shown(cols[0], enabled) {
        HeadBeforeSelectedRest(cols, enabled);
        ConsInOrder(cols[0], s);
        assert Select(cols, enabled) == [cols[0]] + s;
      } else {
        assert Select(cols, enabled) == s;
      }
    }
  }

  /** The columns of the log file for the given switches. */
  function Selected(enabled: set<Column>): (r: seq<Column>)
    ensures forall c :: c in r <==> Shown(c, enabled)
  {
    Select(Columns, enabled)
  }

  /** The header and the rows list exactly the shown columns, each once, in
      declared order. */
  lemma SelectedInDeclaredOrder(enabled: set<Column>)
    ensures InDeclaredOrder(Selected(enabled))
    ensures forall c :: c in Selected(enabled) <==> Shown(c, enabled)
  {
    ColumnsInDeclaredOrder();
    SelectKeepsOrder(Columns, enabled);
  }

  /** Shown columns at the head of a list head the selection too. */
  lemma SelectShownPrefix(cols: seq<Column>, enabled: set<Column>)
    requires |cols| >= 2 && cols[0] == Frame && cols[1] == Timestamp
    ensures |Select(cols, enabled)| >= 2
    ensures Select(cols, enabled)[0] == Frame && Select(cols, enabled)[1] == Timestamp
  {
    assert cols[1..][1..] == cols[2..];
    assert Select(cols, enabled) == [Frame] + Select(cols[1..], enabled);
    assert Select(cols[1..], enabled) == [Timestamp] + Select(cols[2..], enabled);
  }

  /** Every log file begins with the Frame and Timestamp columns. */
  lemma SelectedStartsWithFrame(enabled: set<Column>)
    ensures |Selected(enabled)| >= 2
    ensures Selected(enabled)[0] == Frame && Selected(enabled)[1] == Timestamp
  {
    SelectShownPrefix(Columns, enabled);
  }

  function Names(cols: seq<Column>): (r: seq<string>)
    ensures |r| == |cols|
    ensures forall k :: 0 <= k < |cols| ==> r[k] == ColumnName(cols[k])
  {
    seq(|cols|, k requires 0 <= k < |cols| => ColumnName(cols[k]))
  }

  /** WriteHeader's line. */
  function Header(enabled: set<Column>): string
  {
    JoinWith(";", Names(Selected(enabled)))
  }

  /** What one row shows in each column: the frame counter, the time stamp
      and the two PIN numbers are integers printed in decimal; every other
      column's text (vectors printed with "f4", rotations, names) is given by
      `text`, since float formatting is not modelled. */
  function FieldText(c: Column, frame: int, time: string, targetNr: int, inputNr: int,
                     text: Column -> string): string
  {
    match c
    case Frame => IntToString(frame)
    case Timestamp => time
    case TargetNr => IntToString(targetNr)
    case InputNr => IntToString(inputNr)
    case _ => text(c)
  }

  function Fields(cols: seq<Column>, frame: int, time: string, targetNr: int, inputNr: int,
                  text: Column -> string): (r: seq<string>)
    ensures |r| == |cols|
    ensures forall k :: 0 <= k < |cols| ==> r[k] == FieldText(cols[k], frame, time, targetNr, inputNr, text)
  {
    seq(|cols|, k requires 0 <= k < |cols| => FieldText(cols[k], frame, time, targetNr, inputNr, text))
  }

  /** The row Update writes. */
  function Row(enabled: set<Column>, frame: int, time: string, targetNr: int, inputNr: int,
               text: Column -> string): string
  {
    JoinWith(";", Fields(Selected(enabled), frame, time, targetNr, inputNr, text))
  }

  /** A row has exactly one field per header name, and field k is the value
      of the column that header name k names; the first field is the frame
      number and the second the time stamp. */
  lemma RowMatchesHeader(enabled: set<Column>, frame: int, time: string, targetNr: int, inputNr: int,
                         text: Column -> string)
    ensures var names := Names(Selected(enabled));
      var fields := Fields(Selected(enabled), frame, time, targetNr, inputNr, text);
      && |fields| == |names| >= 2
      && names[0] == "Frame" && names[1] == "Timestamp"
      && fields[0] == IntToString(frame) && fields[1] == time
      && forall k :: 0 <= k < |names| ==>
           exists c :: names[k] == ColumnName(c) && fields[k] == FieldText(c, frame, time, targetNr, inputNr, text)
  {
    SelectedStartsWithFrame(enabled);
    var cols := Selected(enabled);
    forall k | 0 <= k < |cols|
      ensures exists c :: Names(cols)[k] == ColumnName(c)
                && Fields(cols, frame, time, targetNr, inputNr, text)[k] == FieldText(c, frame, time, targetNr, inputNr, text)
    {
      var c := cols[k];
      assert Names(cols)[k] == ColumnName(c);
    }
  }

  /** `files` after a line is written to `name`; a file not yet written to
      starts empty. */
  function Append(files: map<string, seq<string>>, name: string, line: string): (r: map<string, seq<string>>)
    ensures name in r && r[name] == (if name in files then files[name] else []) + [line]
    ensures forall n :: n != name ==> (n in r <==> n in files) && (n in files ==> r[n] == files[n])
  {
    files[name := (if name in files then files[name] else []) + [line]]
  }

  /** The name GetPath builds. */
  function LogFileName(participant: int, condition: int, counter: int): string
  {
    "log_" + IntToString(participant) + "_" + IntToString(condition) + "_" + IntToString(counter) + ".csv"
  }

  function SummaryFileName(participant: int, condition: int): string
  {
    "summary_" + IntToString(participant) + "_" + IntToString(condition) + ".csv"
  }

  function PinSummaryFileName(participant: int, condition: int): string
  {
    "summaryPIN_" + IntToString(participant) + "_" + IntToString(condition) + ".csv"
  }

  const SummaryHeader: string := "Timestamp; TargetNr; InputNr"
  const PinSummaryHeader: string := "Starting Time; End Time; PIN; Input"

  lemma {:induction false} NatToStringInjective(a: nat, b: nat)
    requires NatToString(a) == NatToString(b)
    ensures a == b
    decreases a
  {
    if a >= 10 && b >= 10 {
      var sa, sb := NatToString(a / 10), NatToString(b / 10);
      assert sa + [DigitChar(a % 10)] == sb + [DigitChar(b % 10)];
      assert |sa| == |sb|;
      assert sa == (sa + [DigitChar(a % 10)])[..|sa|];
      assert sb == (sb + [DigitChar(b % 10)])[..|sb|];
      DigitCharInjective(a % 10, b % 10);
      NatToStringInjective(a / 10, b / 10);
    } else if a < 10 && b < 10 {
      DigitCharInjective(a, b);
    }
  }

  lemma DigitCharInjective(a: nat, b: nat)
    requires a < 10 && b < 10 && DigitChar(a) == DigitChar(b)
    ensures a == b
  {
  }

  /** The sign of a printed integer is its first character. */
  lemma SignFirst(i: int)
    ensures IntToString(i)[0] == '-' <==> i < 0
  {
    if i >= 0 {
      assert '0' <= NatToString(i)[0] <= '9';
    }
  }

  /** A negative number prints as '-' followed by its magnitude. */
  lemma MagnitudeAfterSign(i: int)
    requires i < 0
    ensures IntToString(i)[1..] == NatToString(-i)
  {
    var s := NatToString(-i);
    assert IntToString(i) == "-" + s;
    assert ("-" + s)[1..] == s;
  }

  lemma IntToStringInjective(a: int, b: int)
    requires IntToString(a) == IntToString(b)
    ensures a == b
  {
    SignFirst(a);
    SignFirst(b);
    if a >= 0 && b >= 0 {
      NatToStringInjective(a, b);
    } else if a < 0 && b < 0 {
      MagnitudeAfterSign(a);
      MagnitudeAfterSign(b);
      NatToStringInjective(-a, -b);
    }
  }

  /** Within one participant and condition, different counters give
      different log files, so GetPath never reopens an earlier file while the
      condition stays the same. */
  lemma LogFileNamesDistinct(participant: int, condition: int, m: int, n: int)
    requires m != n
    ensures LogFileName(participant, condition, m) != LogFileName(participant, condition, n)
  {
    var prefix := "log_" + IntToString(participant) + "_" + IntToString(condition) + "_";
    var sm, sn := IntToString(m), IntToString(n);
    assert LogFileName(participant, condition, m) == prefix + sm + ".csv";
    assert LogFileName(participant, condition, n) == prefix + sn + ".csv";
    if prefix + sm + ".csv" == prefix + sn + ".csv" {
      var whole := prefix + sm + ".csv";
      assert |sm| == |sn|;
      assert sm == whole[|prefix|..|prefix| + |sm|];
      assert sn == (prefix + sn + ".csv")[|prefix|..|prefix| + |sn|];
      IntToStringInjective(m, n);
    }
  }

  class Logger {
    var isLogging: bool
    /** The switched-on optional columns (RealHandPosition by default). */
    var enabled: set<Column>
    var participantNr: int
    var counter: int
    var conditionNr: int
    var frame: int
    var time: string
    var targetNr: int
    var inputNr: int
    var startingTime: int
    var endTime: int
    var pinText: string
    var pinInputText: string
    /** The file the stream writer writes to. */
    var path: string
    var files: map<string, seq<string>>

    constructor ()
      ensures isLogging && enabled == {RealHandPosition}
      ensures counter == 0 && conditionNr == 0 && frame == 0 && files == map[]
    {
      isLogging := true;
      enabled := {RealHandPosition};
      participantNr := 0;
      counter, conditionNr, frame := 0, 0, 0;
      time := "";
      targetNr, inputNr := 0, 0;
      startingTime, endTime := 0, 0;
      pinText, pinInputText := "", "";
      path := "";
      files := map[];
    }

    /** GetPath: the counter restarts at 1 for a new condition number and
        counts up otherwise. */
    method GetPath(currentConditionNr: int) returns (name: string)
      modifies this`counter, this`conditionNr
      ensures counter == (if old(conditionNr) != currentConditionNr then 1 else old(counter) + 1)
      ensures conditionNr == currentConditionNr
      ensures name == LogFileName(participantNr, currentConditionNr, counter)
    {
      counter := if conditionNr != currentConditionNr then 1 else counter + 1;
      conditionNr := currentConditionNr;
      name := LogFileName(participantNr, conditionNr, counter);
    }

    /** A new StreamWriter on the file (which truncates it) followed by
        WriteHeader. */
    method OpenLog(name: string)
      modifies this`path, this`files
      ensures path == name
      ensures files == old(files)[name := [Header(enabled)]]
    {
      path := name;
      files := files[name := [Header(enabled)]];
    }

    /** Start: the first log file of the participant. */
    method Start(participant: int, currentConditionNr: int)
      modifies this
      ensures participantNr == participant
      ensures counter == (if old(conditionNr) != currentConditionNr then 1 else old(counter) + 1)
      ensures conditionNr == currentConditionNr
      ensures path == LogFileName(participant, currentConditionNr, counter)
      ensures files == old(files)[path := [Header(enabled)]]
      ensures isLogging == old(isLogging) && enabled == old(enabled) && frame == old(frame)
    {
      participantNr := participant;
      var name := GetPath(currentConditionNr);
      OpenLog(name);
    }

    /** Update, with the manager's state as parameters: `pin`,
        `lastPinInput` (GetLastPinInput) and `hasTarget` (target != null);
        `now` is the Unix time in milliseconds. */
    method Update(now: int, pin: seq<int>, pinLength: int, lastPinInput: int, hasTarget: bool,
                  text: Column -> string)
      requires isLogging ==> counter >= 1 && 0 < pinLength <= |pin|
      modifies this`time, this`targetNr, this`inputNr, this`frame, this`files
      ensures !old(isLogging) ==> unchanged(this)
      ensures old(isLogging) ==>
        && frame == old(frame) + 1
        && time == IntToString(now)
        && targetNr == pin[CsRem(counter - 1, pinLength)]
        && inputNr == lastPinInput
        && files == (if hasTarget
                     then Append(old(files), path, Row(enabled, old(frame), time, targetNr, inputNr, text))
                     else old(files))
    {
      if !isLogging {
        return;
      }
      Sample(now, pin, pinLength, lastPinInput);
      Record(hasTarget, text);
    }

    /** The first half of a logged frame: the time, the target digit and
        the last input digit of this frame. */
    method Sample(now: int, pin: seq<int>, pinLength: int, lastPinInput: int)
      requires counter >= 1 && 0 < pinLength <= |pin|
      modifies this`time, this`targetNr, this`inputNr
      ensures time == IntToString(now)
      ensures targetNr == pin[CsRem(counter - 1, pinLength)]
      ensures inputNr == lastPinInput
    {
      time := IntToString(now);
      targetNr := pin[CsRem(counter - 1, pinLength)];
      inputNr := lastPinInput;
    }

    /** The second half of a logged frame: the row goes to the open log
        file when there is a target, and the frame counter moves on. */
    method Record(hasTarget: bool, text: Column -> string)
      modifies this`files, this`frame
      ensures frame == old(frame) + 1
      ensures files == if hasTarget
                       then Append(old(files), path, Row(enabled, old(frame), time, targetNr, inputNr, text))
                       else old(files)
    {
      if hasTarget {
        files := Append(files, path, Row(enabled, frame, time, targetNr, inputNr, text));
      }
      frame := frame + 1;
    }

    /** SummarizedLog: the first file of a condition starts the summary file
        afresh with its header; later ones append to it. */
    method SummarizedLog()
      modifies this`files
      ensures var name := SummaryFileName(participantNr, conditionNr);
        var line := time + "; " + IntToString(targetNr) + "; " + IntToString(inputNr);
        files == if counter == 1 then old(files)[name := [SummaryHeader, line]]
                 else Append(old(files), name, line)
    {
      var name := SummaryFileName(participantNr, conditionNr);
      var line := time + "; " + IntToString(targetNr) + "; " + IntToString(inputNr);
      if counter == 1 {
        files := files[name := [SummaryHeader, line]];
      } else {
        files := Append(files, name, line);
      }
    }

    /** SummarizedPinLog: nothing while logging is paused; the first PinLength
        log files of a condition rewrite the PIN summary with its header. */
    method SummarizedPinLog(pinLength: int)
      modifies this`files
      ensures var name := PinSummaryFileName(participantNr, conditionNr);
        var line := IntToString(startingTime) + "; " + IntToString(endTime) + "; " + pinText + "; " + pinInputText;
        files == if !isLogging then old(files)
                 else if counter <= pinLength then old(files)[name := [PinSummaryHeader, line]]
                 else Append(old(files), name, line)
    {
      if !isLogging {
        return;
      }
      var name := PinSummaryFileName(participantNr, conditionNr);
      var line := IntToString(startingTime) + "; " + IntToString(endTime) + "; " + pinText + "; " + pinInputText;
      if counter <= pinLength {
        files := files[name := [PinSummaryHeader, line]];
      } else {
        files := Append(files, name, line);
      }
    }

    /** CheckPin: summarises a complete PIN entry only. */
    method CheckPin(pin: seq<int>, currentPinInput: seq<int>, pinLength: int, now: int)
      modifies this`pinText, this`pinInputText, this`endTime, this`files
      ensures |currentPinInput| < pinLength ==> unchanged(this)
      ensures |currentPinInput| >= pinLength ==>
        && pinText == ConcatInts(pin) && pinInputText == ConcatInts(currentPinInput) && endTime == now
        && var name := PinSummaryFileName(participantNr, conditionNr);
           var line := IntToString(startingTime) + "; " + IntToString(now) + "; " + pinText + "; " + pinInputText;
           files == if !isLogging then old(files)
                    else if counter <= pinLength then old(files)[name := [PinSummaryHeader, line]]
                    else Append(old(files), name, line)
    {
      if |currentPinInput| < pinLength {
        return;
      }
      pinText := ConcatInts(pin);
      pinInputText := ConcatInts(currentPinInput);
      endTime := now;
      SummarizedPinLog(pinLength);
    }

    /** Finish: the summary line of the closing file, then a fresh log file
        for the manager's current condition number. */
    method Finish(currentConditionNr: int)
      modifies this`files, this`counter, this`conditionNr, this`path
      ensures counter == (if old(conditionNr) != currentConditionNr then 1 else old(counter) + 1)
      ensures conditionNr == currentConditionNr
      ensures path == LogFileName(participantNr, currentConditionNr, counter)
      ensures var summary := SummaryFileName(participantNr, old(conditionNr));
        var line := time + "; " + IntToString(targetNr) + "; " + IntToString(inputNr);
        var summarized := if old(counter) == 1 then old(files)[summary := [SummaryHeader, line]]
                          else Append(old(files), summary, line);
        files == summarized[path := [Header(enabled)]]
    {
      SummarizedLog();
      ghost var summarized := files;
      var name := GetPath(currentConditionNr);
      OpenLog(name);
      assert files == summarized[path := [Header(enabled)]];
    }

    method ResumeLogging()
      modifies this`isLogging
      ensures isLogging
    {
      isLogging := true;
    }

    method PauseLogging()
      modifies this`isLogging
      ensures !isLogging
    {
      isLogging := false;
    }

    method SetStartingTime(now: int)
      modifies this`startingTime
      ensures startingTime == now
    {
      startingTime := now;
    }
  }

  /** The PIN digit logged as the target number lies in the PIN whenever the
      counter has been started and the PIN has PinLength digits. */
  lemma TargetNrInRange(counter: int, pinLength: int)
    requires counter >= 1 && pinLength > 0
    ensures 0 <= CsRem(counter - 1, pinLength) < pinLength
    ensures counter <= pinLength ==> CsRem(counter - 1, pinLength) == counter - 1
  {
  }
}
