/** The between-conditions questionnaire (Assets/_Scripts/Questionnaire.cs):
    seven questions shown a page at a time on the question panels, one slider
    answer per question kept in a SortedDictionary, and a CSV file with one
    line per answer in ascending question order. Showing it pauses logging,
    hands the participant's weak hand the controls and advances the study;
    finishing it restores the dominant hand, sets up the condition and resumes
    recording and logging. */
module Questionnaire {
  import opened Common
  import H = Handedness
  import L = Logger
  import RM = RedirectionManager
  import S = StudySetup

  const Questions: seq<string> := [
    "How mentally demanding was the task?",
    "How physically demanding was the task?",
    "How hurried or rushed was the pace of the task?",
    "How successful were you in accomplishing what you were asked to do?",
    "How hard did you have to work to accomplish your level of performance?",
    "How insecure, discouraged, irritated, stressed, and annoyed were you?",
    "In a shared space, how concerned would you be that bystanders can guess your input?"
  ]

  const Header: string := "Question; Answer"

  /** The slider value ResetSliderValue sets. */
  const DefaultSlider: int := 10

  function QuestionnaireFileName(participant: int, condition: int): string
  {
    "questionnaire_" + IntToString(participant) + "_" + IntToString(condition) + ".csv"
  }

  /** The ordinal string order: the first differing character decides, and a
      proper prefix comes first. */
  predicate Less(a: string, b: string)
    decreases |a|
  {
    if a == [] then b != []
    else if b == [] then false
    else if a[0] != b[0] then a[0] < b[0]
    else Less(a[1..], b[1..])
  }

  lemma {:induction false} LessIrreflexive(a: string)
    ensures !Less(a, a)
    decreases |a|
  {
    if a != [] {
      LessIrreflexive(a[1..]);
    }
  }

  lemma {:induction false} LessTotal(a: string, b: string)
    requires a != b
    ensures Less(a, b) || Less(b, a)
    decreases |a|
  {
    if a != [] && b != [] && a[0] == b[0] {
      assert a == [a[0]] + a[1..] && b == [b[0]] + b[1..];
      LessTotal(a[1..], b[1..]);
    }
  }

  lemma {:induction false} LessTransitive(a: string, b: string, c: string)
    requires Less(a, b) && Less(b, c)
    ensures Less(a, c)
    decreases |a|
  {
    if a != [] && a[0] == b[0] && b[0] == c[0] {
      LessTransitive(a[1..], b[1..], c[1..]);
    }
  }

  /** One entry of the answer dictionary. */
  datatype Answer = Answer(question: string, value: int)

  /** A SortedDictionary's entries: keys strictly ascending. */
  predicate Sorted(a: seq<Answer>)
  {
    forall i, j :: 0 <= i < j < |a| ==> Less(a[i].question, a[j].question)
  }

  function Keys(a: seq<Answer>): set<string>
  {
    if a == [] then {} else {a[0].question} + Keys(a[1..])
  }

  lemma {:induction false} KeysHasEntries(a: seq<Answer>)
    ensures forall i :: 0 <= i < |a| ==> a[i].question in Keys(a)
  {
    if a != [] {
      KeysHasEntries(a[1..]);
      assert forall i :: 0 < i < |a| ==> a[i] == a[1..][i - 1];
    }
  }

  /** A lower bound of every entry is a lower bound of every key. */
  lemma {:induction false} KeysBounded(a: seq<Answer>, lo: string)
    requires forall i :: 0 <= i < |a| ==> Less(lo, a[i].question)
    ensures forall k :: k in Keys(a) ==> Less(lo, k)
  {
    if a != [] {
      assert forall i :: 0 < i < |a| ==> a[i] == a[1..][i - 1];
      KeysBounded(a[1..], lo);
    }
  }

  /** TryGetValue. */
  function Lookup(a: seq<Answer>, key: string): Option<int>
  {
    if a == [] then None
    else if a[0].question == key then Some(a[0].value)
    else Lookup(a[1..], key)
  }

  /** The indexer assignment `answers[key] = value`: overwrite the entry for
      the key, or insert a new one in key order. */
  function Insert(a: seq<Answer>, key: string, value: int): seq<Answer>
  {
    if a == [] then [Answer(key, value)]
    else if a[0].question == key then [Answer(key, value)] + a[1..]
    else if Less(key, a[0].question) then [Answer(key, value)] + a
    else [a[0]] + Insert(a[1..], key, value)
  }

  lemma {:induction false} LookupKeys(a: seq<Answer>, key: string)
    ensures Lookup(a, key).Some? <==> key in Keys(a)
  {
    if a != [] {
      LookupKeys(a[1..], key);
    }
  }

  lemma {:induction false} InsertKeys(a: seq<Answer>, key: string, value: int)
    ensures Keys(Insert(a, key, value)) == Keys(a) + {key}
  {
    if a != [] {
      assert ([Answer(key, value)] + a)[1..] == a;
      assert ([Answer(key, value)] + a[1..])[1..] == a[1..];
      if a[0].question != key && !Less(key, a[0].question) {
        InsertKeys(a[1..], key, value);
        assert ([a[0]] + Insert(a[1..], key, value))[1..] == Insert(a[1..], key, value);
      }
    }
  }

  /** The last entry for a key wins; every other key keeps its answer. */
  lemma {:induction false} InsertLookup(a: seq<Answer>, key: string, value: int, k: string)
    ensures Lookup(Insert(a, key, value), k) == if k == key then Some(value) else Lookup(a, k)
  {
    if a != [] && a[0].question != key && !Less(key, a[0].question) {
      InsertLookup(a[1..], key, value, k);
    }
  }

  /** An entry below every entry of a sorted dictionary can go in front. */
  lemma ConsSorted(x: Answer, a: seq<Answer>)
    requires Sorted(a)
    requires forall i :: 0 <= i < |a| ==> Less(x.question, a[i].question)
    ensures Sorted([x] + a)
  {
    assert forall i :: 0 < i < |[x] + a| ==> ([x] + a)[i] == a[i - 1];
  }

  /** Storing an answer keeps the dictionary sorted. */
  lemma {:induction false} InsertSorted(a: seq<Answer>, key: string, value: int)
    requires Sorted(a)
    ensures Sorted(Insert(a, key, value))
  {
    if a == [] {
      return;
    }
    var k0 := a[0].question;
    assert Sorted(a[1..]) && forall i :: 0 <= i < |a[1..]| ==> Less(k0, a[1..][i].question) by {
      assert forall i :: 0 <= i < |a[1..]| ==> a[1..][i] == a[i + 1];
    }
    if k0 == key {
      ConsSorted(Answer(key, value), a[1..]);
    } else if Less(key, k0) {
      forall i | 0 <= i < |a| ensures Less(key, a[i].question) {
        if i > 0 {
          LessTransitive(key, k0, a[i].question);
        }
      }
      ConsSorted(Answer(key, value), a);
    } else {
      LessTotal(key, k0);
      var rest := Insert(a[1..], key, value);
      InsertSorted(a[1..], key, value);
      InsertKeys(a[1..], key, value);
      KeysBounded(a[1..], k0);
      KeysHasEntries(rest);
      ConsSorted(a[0], rest);
    }
  }

  /** In a sorted dictionary each key occurs once, so looking up an entry's
      key finds that entry. */
  lemma {:induction false} SortedLookup(a: seq<Answer>)
    requires Sorted(a)
    ensures forall i :: 0 <= i < |a| ==> Lookup(a, a[i].question) == Some(a[i].value)
  {
    if a != [] {
      SortedLookup(a[1..]);
      forall i | 0 < i < |a| ensures Lookup(a, a[i].question) == Some(a[i].value) {
        LessIrreflexive(a[i].question);
        assert a[1..][i - 1] == a[i];
      }
    }
  }

  lemma {:induction false} SortedCard(a: seq<Answer>)
    requires Sorted(a)
    ensures |Keys(a)| == |a|
  {
    if a != [] {
      SortedCard(a[1..]);
      assert forall i :: 0 <= i < |a[1..]| ==> a[1..][i] == a[i + 1];
      KeysBounded(a[1..], a[0].question);
      LessIrreflexive(a[0].question);
    }
  }

  /** One CSV line of the questionnaire file. */
  function Line(x: Answer): string
  {
    x.question + "; " + IntToString(x.value)
  }

  function LogLines(a: seq<Answer>): seq<string>
  {
    seq(|a|, i requires 0 <= i < |a| => Line(a[i]))
  }

  /** Logging one more answer appends its line. */
  lemma LogLinesSnoc(a: seq<Answer>, i: int)
    requires 0 <= i < |a|
    ensures LogLines(a[..i + 1]) == LogLines(a[..i]) + [Line(a[i])]
  {
    var l, r := LogLines(a[..i + 1]), LogLines(a[..i]) + [Line(a[i])];
    assert |l| == |r|;
    forall k | 0 <= k < |l| ensures l[k] == r[k] {
    }
  }

  /** The lines Log writes: one per stored question, each with the answer
      stored for it, in ascending question order. */
  lemma LogOnePerKeyAscending(a: seq<Answer>)
    requires Sorted(a)
    ensures |LogLines(a)| == |Keys(a)|
    ensures forall i :: 0 <= i < |a| ==>
      && a[i].question in Keys(a) && Lookup(a, a[i].question).Some?
      && LogLines(a)[i] == Line(Answer(a[i].question, Lookup(a, a[i].question).value))
    ensures forall i, j :: 0 <= i < j < |a| ==> Less(a[i].question, a[j].question)
  {
    SortedCard(a);
    SortedLookup(a);
    KeysHasEntries(a);
  }

  /** The slider value a panel showing `text` gets from the stored answers,
      or `fallback` when there is none. */
  function SliderFor(answers: seq<Answer>, text: string, fallback: int): int
  {
    match Lookup(answers, text)
    case Some(v) => v
    case None => fallback
  }

  /** The sliders after the TryGetValue pass over all panels. */
  function Restored(sliders: seq<int>, texts: seq<string>, answers: seq<Answer>): (r: seq<int>)
    requires |sliders| == |texts|
    ensures |r| == |sliders|
  {
    seq(|sliders|, i requires 0 <= i < |sliders| => SliderFor(answers, texts[i], sliders[i]))
  }

  function Min(a: int, b: int): (m: int)
    ensures m <= a && m <= b && (m == a || m == b)
  {
    if a < b then a else b
  }

  /** Page arithmetic: the page before the last one shown is complete. */
  lemma PreviousPageInRange(n: int, p: nat)
    requires n >= 2 && (n - 1) * p < |Questions|
    ensures 0 <= (n - 2) * p && (n - 2) * p + p == (n - 1) * p
  {
  }

  class Questionnaire {
    const manager: RM.Manager
    const study: S.StudySetup
    const logger: L.Logger
    const handedness: H.Handedness
    /** questionPanels.Length */
    const panelCount: nat

    var questionsPerPage: int
    var nextPage: int
    var answers: seq<Answer>
    var isActive: bool
    /** gameObject.activeSelf */
    var shown: bool
    /** Each panel's GameObject state, question text and slider value. */
    var panelActive: seq<bool>
    var panelText: seq<string>
    var panelSlider: seq<int>
    /** The questionnaire file: its name, whether the writer is open, and
        the lines written to it. */
    var path: string
    var writerOpen: bool
    var written: seq<string>

    /** The panels are consistent, the dictionary is sorted, and the page
        cursor was only ever moved by NextPage and PreviousPage, so the last
        page shown started inside the question list. */
    predicate Valid()
      reads this`panelActive, this`panelText, this`panelSlider, this`questionsPerPage, this`nextPage, this`answers
    {
      && |panelActive| == panelCount && |panelText| == panelCount && |panelSlider| == panelCount
      && (questionsPerPage == 0 || questionsPerPage == panelCount)
      && nextPage >= 0
      && (nextPage >= 1 ==> (nextPage - 1) * questionsPerPage < |Questions|)
      && Sorted(answers)
      && study.manager == manager && study.logger == logger
    }

    constructor (manager: RM.Manager, study: S.StudySetup, logger: L.Logger, handedness: H.Handedness,
                 panelCount: nat)
      requires study.manager == manager && study.logger == logger
      ensures Valid()
      ensures this.manager == manager && this.study == study && this.logger == logger
      ensures this.handedness == handedness && this.panelCount == panelCount
      ensures questionsPerPage == 0 && nextPage == 0 && answers == [] && !isActive && !shown && !writerOpen
    {
      this.manager := manager;
      this.study := study;
      this.logger := logger;
      this.handedness := handedness;
      this.panelCount := panelCount;
      questionsPerPage := 0;
      nextPage := 0;
      answers := [];
      isActive := false;
      shown := false;
      panelActive := seq(panelCount, _ => false);
      panelText := seq(panelCount, _ => "");
      panelSlider := seq(panelCount, _ => DefaultSlider);
      path := "";
      writerOpen := false;
      written := [];
    }

    /** Begin: as many questions per page as there are panels; a new file
        named after the participant and the current condition, with its
        header. */
    method Begin()
      modifies this`questionsPerPage, this`path, this`writerOpen, this`written
      ensures questionsPerPage == panelCount
      ensures path == QuestionnaireFileName(study.participantNumber, study.conditionNumber)
      ensures writerOpen && written == [Header]
    {
      questionsPerPage := panelCount;
      path := QuestionnaireFileName(study.participantNumber, study.conditionNumber);
      writerOpen := true;
      written := [Header];
    }

    /** Entry: the slider's answer for a question, overwriting any earlier
        one. */
    method Entry(question: string, answer: int)
      requires Valid()
      modifies this`answers
      ensures Valid()
      ensures answers == Insert(old(answers), question, answer)
      ensures Lookup(answers, question) == Some(answer)
      ensures forall k :: k != question ==> Lookup(answers, k) == Lookup(old(answers), k)
      ensures Keys(answers) == Keys(old(answers)) + {question}
    {
      InsertSorted(answers, question, answer);
      InsertKeys(answers, question, answer);
      forall k {
        InsertLookup(answers, question, answer, k);
      }
      answers := Insert(answers, question, answer);
    }

    /** Log: one line per stored answer, in dictionary order. */
    method Log()
      modifies this`written
      ensures written == old(written) + LogLines(answers)
    {
      var a, i := answers, 0;
      while i < |a|
        invariant 0 <= i <= |a|
        invariant written == old(written) + LogLines(a[..i])
      {
        LogLinesSnoc(a, i);
        written := written + [Line(a[i])];
        i := i + 1;
      }
      assert a[..i] == a;
    }

    /** The TryGetValue pass: each panel whose question has an answer shows
        that answer on its slider. */
    method RestoreSliders()
      requires |panelSlider| == |panelText|
      modifies this`panelSlider
      ensures panelSlider == Restored(old(panelSlider), panelText, answers)
    {
      var i := 0;
      while i < |panelSlider|
        invariant 0 <= i <= |panelSlider| == |old(panelSlider)|
        invariant forall k :: 0 <= k < i ==> panelSlider[k] == SliderFor(answers, panelText[k], old(panelSlider)[k])
        invariant forall k :: i <= k < |panelSlider| ==> panelSlider[k] == old(panelSlider)[k]
      {
        match Lookup(answers, panelText[i]) {
          case Some(v) => panelSlider := panelSlider[i := v];
          case None =>
        }
        i := i + 1;
      }
    }

    /** The display part of NextPage: all panels hidden, then the first
        `count` panels shown with the questions from `start` on. */
    method ShowQuestions(start: int, count: int)
      requires 0 <= start && 0 <= count <= panelCount && start + count <= |Questions|
      requires |panelActive| == panelCount && |panelText| == panelCount
      modifies this`panelActive, this`panelText
      ensures |panelActive| == panelCount && |panelText| == panelCount
      ensures forall i :: 0 <= i < panelCount ==> panelActive[i] == (i < count)
      ensures forall i :: 0 <= i < count ==> panelText[i] == Questions[start + i]
      ensures forall i :: count <= i < panelCount ==> panelText[i] == old(panelText)[i]
    {
      panelActive := seq(panelCount, _ => false);
      var i := 0;
      while i < count
        invariant 0 <= i <= count
        invariant |panelActive| == panelCount && |panelText| == panelCount
        invariant forall k :: 0 <= k < panelCount ==> panelActive[k] == (k < i)
        invariant forall k :: 0 <= k < i ==> panelText[k] == Questions[start + k]
        invariant forall k :: i <= k < panelCount ==> panelText[k] == old(panelText)[k]
      {
        panelActive := panelActive[i := true];
        panelText := panelText[i := Questions[start + i]];
        i := i + 1;
      }
    }

    /** NextPage. Past the last page the answers are logged and the
        questionnaire finishes, at time `now`. Otherwise the next page's
        questions go onto the first panels, the rest are hidden, the cursor
        advances, and the sliders show the stored answers (10 where there is
        none). */
    method NextPage(now: int)
      requires Valid()
      requires nextPage * questionsPerPage >= |Questions| ==> study.Valid() && 1 <= study.step <= 16
      modifies this, manager.keypad`active, manager.keypad`position,
               handedness`left, handedness`right, handedness`tracked,
               study`conditionNumber, manager`isRandomVector, manager`isRandomTarget, manager`isShiftKeypad,
               manager`maxRedirectionAngle, study.technique`retargetingCurve, manager`isRecord,
               logger`isLogging, logger`startingTime
      ensures Valid()
      ensures answers == old(answers) && questionsPerPage == old(questionsPerPage)
      ensures old(nextPage * questionsPerPage) >= |Questions| ==>
        && nextPage == old(nextPage)
        && written == old(written) + LogLines(answers)
        && !writerOpen && !shown && !isActive
        && panelActive == old(panelActive) && panelText == old(panelText) && panelSlider == old(panelSlider)
      ensures old(nextPage * questionsPerPage) < |Questions| ==>
        var start := old(nextPage) * questionsPerPage;
        var count := Min(|Questions| - start, questionsPerPage);
        && nextPage == old(nextPage) + 1
        && 0 <= start && start + count <= |Questions|
        && (forall i :: 0 <= i < panelCount ==> panelActive[i] == (i < count))
        && (forall i :: 0 <= i < count ==> panelText[i] == Questions[start + i])
        && (forall i :: count <= i < panelCount ==> panelText[i] == old(panelText)[i])
        && panelSlider == Restored(seq(panelCount, _ => DefaultSlider), panelText, answers)
        && written == old(written) && writerOpen == old(writerOpen)
        && shown == old(shown) && isActive == old(isActive)
        && unchanged(manager, study, logger, handedness, manager.keypad, study.technique)
      ensures path == old(path)
    {
      if nextPage * questionsPerPage >= |Questions| {
        Log();
        Finish(now);
        return;
      }
      TurnPage();
    }

    /** The NextPage branch that shows the next page. */
    method TurnPage()
      requires Valid() && nextPage * questionsPerPage < |Questions|
      modifies this`panelActive, this`panelText, this`panelSlider, this`nextPage
      ensures Valid()
      ensures var start := old(nextPage) * questionsPerPage;
        var count := Min(|Questions| - start, questionsPerPage);
        && nextPage == old(nextPage) + 1
        && 0 <= start && start + count <= |Questions|
        && (forall i :: 0 <= i < panelCount ==> panelActive[i] == (i < count))
        && (forall i :: 0 <= i < count ==> panelText[i] == Questions[start + i])
        && (forall i :: count <= i < panelCount ==> panelText[i] == old(panelText)[i])
        && panelSlider == Restored(seq(panelCount, _ => DefaultSlider), panelText, answers)
    {
      var start := nextPage * questionsPerPage;
      var count := Min(|Questions| - start, questionsPerPage);
      ShowQuestions(start, count);
      nextPage := nextPage + 1;
      assert (nextPage - 1) * questionsPerPage == start;
      panelSlider := seq(panelCount, _ => DefaultSlider);
      RestoreSliders();
    }

    /** PreviousPage: nothing before the second page; otherwise every panel
        is shown with the previous page's questions, the cursor moves back,
        and sliders of answered questions show their answers. */
    method PreviousPage()
      requires Valid()
      modifies this`panelActive, this`panelText, this`panelSlider, this`nextPage
      ensures Valid()
      ensures old(nextPage) < 2 ==>
        nextPage == old(nextPage) && panelActive == old(panelActive) && panelText == old(panelText)
        && panelSlider == old(panelSlider)
      ensures old(nextPage) >= 2 ==>
        var start := (old(nextPage) - 2) * questionsPerPage;
        && nextPage == old(nextPage) - 1
        && 0 <= start && start + questionsPerPage <= |Questions|
        && (forall i :: 0 <= i < panelCount ==> panelActive[i])
        && (forall i :: 0 <= i < questionsPerPage ==> panelText[i] == Questions[start + i])
        && (forall i :: questionsPerPage <= i < panelCount ==> panelText[i] == old(panelText)[i])
        && panelSlider == Restored(old(panelSlider), panelText, answers)
    {
      var previousPage := nextPage - 2;
      if previousPage < 0 {
        return;
      }
      PreviousPageInRange(nextPage, questionsPerPage);
      panelActive := seq(panelCount, _ => true);
      var i := 0;
      while i < questionsPerPage
        modifies this`panelText
        invariant 0 <= i <= questionsPerPage
        invariant |panelText| == panelCount
        invariant forall k :: 0 <= k < i ==> panelText[k] == Questions[previousPage * questionsPerPage + k]
        invariant forall k :: i <= k < panelCount ==> panelText[k] == old(panelText)[k]
      {
        panelText := panelText[i := Questions[i + previousPage * questionsPerPage]];
        i := i + 1;
      }
      nextPage := nextPage - 1;
      RestoreSliders();
    }

    /** The first part of Show: the file is opened, logging paused, the
        answers cleared and the first page shown. */
    method Open()
      requires Valid()
      modifies this, manager.keypad`active, manager.keypad`position,
               handedness`left, handedness`right, handedness`tracked,
               study`conditionNumber, manager`isRandomVector, manager`isRandomTarget, manager`isShiftKeypad,
               manager`maxRedirectionAngle, study.technique`retargetingCurve, manager`isRecord,
               logger`isLogging, logger`startingTime
      ensures Valid()
      ensures isActive && shown && answers == [] && nextPage == 1 && questionsPerPage == panelCount
      ensures path == QuestionnaireFileName(study.participantNumber, study.conditionNumber)
      ensures writerOpen && written == [Header]
      ensures forall i :: 0 <= i < panelCount ==>
        panelActive[i] == (i < Min(|Questions|, panelCount)) && (panelActive[i] ==> panelText[i] == Questions[i])
      ensures forall i :: 0 <= i < panelCount ==> panelSlider[i] == DefaultSlider
      ensures !logger.isLogging && logger.startingTime == old(logger.startingTime)
      ensures unchanged(manager, study, handedness, manager.keypad, study.technique)
    {
      Begin();
      isActive := true;
      logger.PauseLogging();
      shown := true;
      answers := [];
      nextPage := 0;
      NextPage(0);
    }

    /** Show: opens the file, pauses logging, clears the answers and shows
        the first page; then the weak hand takes over, the study moves to
        the next condition and webcam recording stops. The file is named
        after the condition just completed. */
    method Show()
      requires Valid() && study.Valid() && 0 <= study.step <= 16
      modifies this, logger`isLogging, handedness`left, handedness`right, handedness`tracked,
               handedness`leftForceDisable, handedness`rightForceDisable,
               study`step, study`conditionNumber, manager`isRandomVector, manager`isRandomTarget,
               manager`isShiftKeypad, manager`maxRedirectionAngle, study.technique`retargetingCurve,
               manager.keypad`active, manager.keypad`position, manager`isRecord, logger`startingTime
      ensures Valid() && study.Valid()
      ensures isActive && shown && answers == [] && nextPage == 1 && questionsPerPage == panelCount
      ensures path == QuestionnaireFileName(study.participantNumber, old(study.conditionNumber))
      ensures writerOpen && written == [Header]
      ensures forall i :: 0 <= i < panelCount ==>
        panelActive[i] == (i < Min(|Questions|, panelCount)) && (panelActive[i] ==> panelText[i] == Questions[i])
      ensures forall i :: 0 <= i < panelCount ==> panelSlider[i] == DefaultSlider
      ensures !logger.isLogging && !manager.isRecord
      ensures handedness.State() ==
        H.Switched(old(handedness.State()), H.Opposite(H.DominantSide(handedness.dominantHand)))
      ensures study.step == (if old(study.step) < 16 then old(study.step) + 1 else 16)
      ensures old(study.step) < 16 ==>
        study.conditionNumber == S.TableCell(study.participantNumber, old(study.step))
    {
      Open();
      handedness.SwitchToWeakHand();
      // The source stops recording after advancing the study; the condition
      // change does not touch the recording flag, so the order is immaterial.
      if manager.isRecord {
        manager.isRecord := false;
      }
      study.NextCondition();
    }

    /** Finish, at time `now`: closes the file, hides the questionnaire,
        brings the keypad back at its initial position, returns the controls
        to the dominant hand, sets up the study condition, and resumes
        recording and logging with the PIN clock restarted. */
    method Finish(now: int)
      requires Valid() && study.Valid() && 1 <= study.step <= 16
      modifies this`writerOpen, this`shown, this`isActive, manager.keypad`active, manager.keypad`position,
               handedness`left, handedness`right, handedness`tracked,
               study`conditionNumber, manager`isRandomVector, manager`isRandomTarget, manager`isShiftKeypad,
               manager`maxRedirectionAngle, study.technique`retargetingCurve, manager`isRecord,
               logger`isLogging, logger`startingTime
      ensures Valid() && study.Valid()
      ensures !writerOpen && !shown && !isActive
      ensures manager.keypad.active && manager.keypad.position == manager.initialKeypadPosition
      ensures handedness.State() == H.Switched(old(handedness.State()), H.DominantSide(handedness.dominantHand))
      ensures study.conditionNumber == S.TableCell(study.participantNumber, study.step - 1)
      ensures manager.isRecord && logger.isLogging && logger.startingTime == now
    {
      writerOpen := false;
      shown := false;
      // The source clears the active flag last; nothing in between reads
      // it, so the order is immaterial.
      isActive := false;
      Resume(now);
    }

    /** Everything Finish does beyond the questionnaire itself. */
    method Resume(now: int)
      requires study.Valid() && 1 <= study.step <= 16 && study.manager == manager && study.logger == logger
      modifies manager.keypad`active, manager.keypad`position, handedness`left, handedness`right, handedness`tracked,
               study`conditionNumber, manager`isRandomVector, manager`isRandomTarget, manager`isShiftKeypad,
               manager`maxRedirectionAngle, study.technique`retargetingCurve, manager`isRecord,
               logger`isLogging, logger`startingTime
      ensures study.Valid()
      ensures manager.keypad.active && manager.keypad.position == manager.initialKeypadPosition
      ensures handedness.State() == H.Switched(old(handedness.State()), H.DominantSide(handedness.dominantHand))
      ensures study.conditionNumber == S.TableCell(study.participantNumber, study.step - 1)
      ensures manager.isRecord && logger.isLogging && logger.startingTime == now
    {
      RestoreControls();
      ResumeStudy(now);
    }

    /** The first half of Finish: keypad back and visible, dominant hand. */
    method RestoreControls()
      modifies manager.keypad`active, manager.keypad`position, handedness`left, handedness`right, handedness`tracked
      ensures manager.keypad.active && manager.keypad.position == manager.initialKeypadPosition
      ensures handedness.State() == H.Switched(old(handedness.State()), H.DominantSide(handedness.dominantHand))
    {
      manager.keypad.active := true;
      manager.keypad.position := manager.initialKeypadPosition;
      handedness.SwitchToDominantHand();
    }

    /** The second half of Finish: the condition is set up, recording and
        logging resume. */
    method ResumeStudy(now: int)
      requires study.Valid() && 1 <= study.step <= 16 && study.manager == manager && study.logger == logger
      modifies study`conditionNumber, manager`isRandomVector, manager`isRandomTarget, manager`isShiftKeypad,
               manager`maxRedirectionAngle, study.technique`retargetingCurve, manager`isRecord,
               logger`isLogging, logger`startingTime
      ensures study.Valid()
      ensures study.conditionNumber == S.TableCell(study.participantNumber, study.step - 1)
      ensures manager.isRecord && logger.isLogging && logger.startingTime == now
    {
      // The source sets up the condition first; the updates below touch
      // none of the fields it writes, so their order is immaterial.
      if !manager.isRecord {
        manager.isRecord := true;
      }
      logger.ResumeLogging();
      logger.SetStartingTime(now);
      study.SetupCondition();
    }

    function GetIsActive(): (active: bool)
      reads this
      ensures active == isActive
    {
      isActive
    }
  }
}
