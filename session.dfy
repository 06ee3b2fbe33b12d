/** One frame of the study scene, as RedirectionManager.Update
    (Assets/_Scripts/RedirectionManager.cs) runs it together with the objects
    it calls: the target-selection step, the PIN summary and the study
    decisions that follow a completed PIN, the logger's file switch, the
    press detection and the hand update. The manager model returns the study
    decisions as a request; this module carries them out on the study setup
    and the questionnaire in the order the source does.

    Unity calls the scene's Update methods once per frame, in an order the
    project leaves to the engine. A frame is read here as Logger.Update, then
    StudySetup.Update (both modelled in their own modules), then
    RedirectionManager.Update, which is the part this module composes. */
module Session {
  import opened Common
  import opened Geometry
  import RM = RedirectionManager
  import S = StudySetup
  import L = Logger
  import Q = Questionnaire

  /** The study step, the break timer, the condition, the questionnaire's
      visibility, and whether random targets, recording and logging are on. */
  datatype StudyState = StudyState(step: int, timerStarted: bool, remainingTime: real, timerInSec: real,
                                   conditionNumber: int, participantNumber: int, questionnaireActive: bool,
                                   randomTarget: bool, recording: bool, logging: bool)

  /** `after` is `before` with the request `req` carried out: a break runs
      with the full time when one was asked for; the questionnaire is open
      and random targets are off when it was asked for; a follow-up moves the
      study one step on (at most to the last) and sets up the table's
      condition for it; logging and recording pause for a break or the
      questionnaire. Without a follow-up the step and the questionnaire stay
      as they were. */
  ghost predicate Served(req: RM.StudyRequest, before: StudyState, after: StudyState)
  {
    && (req.startTimer ==> after.timerStarted && after.remainingTime == after.timerInSec)
    && (!req.startTimer ==> after.timerStarted == before.timerStarted)
    && (req.startTimer || req.followUp == RM.ShowQuestionnaire ==> !after.logging && !after.recording)
    && (req.followUp == RM.ShowQuestionnaire ==> after.questionnaireActive && !after.randomTarget)
    && (req.followUp == RM.NoFollowUp ==>
         after.step == before.step && after.questionnaireActive == before.questionnaireActive)
    && (req.followUp != RM.NoFollowUp ==>
         && after.step == (if before.step < 16 then before.step + 1 else 16)
         && (0 <= before.step < 16 && 0 <= after.participantNumber < 30 ==>
              after.conditionNumber == S.TableCell(after.participantNumber, before.step)))
  }

  class Session {
    const manager: RM.Manager
    const study: S.StudySetup
    const questionnaire: Q.Questionnaire
    const logger: L.Logger

    /** The scene's singletons refer to each other, the study cursor is in
        range, and a study session has non-zero divisors for its schedule. */
    ghost predicate Valid()
      reads manager`isTargetSelected, manager`isWarpOriginSet, manager`isRedirectionActive,
            manager`isHandBehindKeypad, manager`pinInputCount, manager`target, manager`lastTarget,
            manager`isStudySetup, manager`pinThreshold,
            study`conditions, study`participantNumber, study`step, study`pinAttemptsBeforeTimer,
            questionnaire`panelActive, questionnaire`panelText, questionnaire`panelSlider,
            questionnaire`questionsPerPage, questionnaire`nextPage, questionnaire`answers
    {
      && manager.Valid() && IsNorm(manager.norm)
      && study.Valid() && 0 <= study.step <= 16
      && questionnaire.Valid()
      && study.manager == manager && study.logger == logger
      && questionnaire.manager == manager && questionnaire.study == study && questionnaire.logger == logger
      && (manager.isStudySetup ==> study.pinAttemptsBeforeTimer != 0 && manager.pinThreshold != 0)
    }

    constructor (manager: RM.Manager, study: S.StudySetup, questionnaire: Q.Questionnaire, logger: L.Logger)
      requires manager.Valid() && IsNorm(manager.norm)
      requires study.Valid() && 0 <= study.step <= 16 && questionnaire.Valid()
      requires study.manager == manager && study.logger == logger
      requires questionnaire.manager == manager && questionnaire.study == study && questionnaire.logger == logger
      requires manager.isStudySetup ==> study.pinAttemptsBeforeTimer != 0 && manager.pinThreshold != 0
      ensures Valid()
      ensures this.manager == manager && this.study == study
      ensures this.questionnaire == questionnaire && this.logger == logger
    {
      this.manager := manager;
      this.study := study;
      this.questionnaire := questionnaire;
      this.logger := logger;
    }

    /** The part of the scene a study request acts on. */
    ghost function StudyNow(): StudyState
      reads study`step, study`isTimerStarted, study`remainingTime, study`timerInSec, study`conditionNumber,
            study`participantNumber, questionnaire`isActive, manager`isRandomTarget, manager`isRecord,
            logger`isLogging
    {
      StudyState(study.step, study.isTimerStarted, study.remainingTime, study.timerInSec, study.conditionNumber,
                 study.participantNumber, questionnaire.isActive, manager.isRandomTarget, manager.isRecord,
                 logger.isLogging)
    }

    /** The study part of GenerateNewPin: the break timer first, then the
        questionnaire (after which random targets are switched off) or the
        next condition. */
    method ServeRequest(req: RM.StudyRequest)
      requires Valid()
      modifies study`isTimerStarted, study`timerShown, study`remainingTime, study`step, study`conditionNumber,
               questionnaire, questionnaire.handedness, study.technique`retargetingCurve,
               manager`isRecord, manager`isRandomVector, manager`isRandomTarget, manager`isShiftKeypad,
               manager`maxRedirectionAngle, manager.keypad`active, manager.keypad`position,
               logger`isLogging, logger`startingTime
      ensures Valid()
      ensures Served(req, old(StudyNow()), StudyNow())
    {
      if req.startTimer {
        StartBreak();
      }
      match req.followUp {
        case NoFollowUp =>
        case ShowQuestionnaire =>
          ShowQuestionnaire();
        case NextCondition =>
          NextCondition();
      }
    }

    /** StudySetup.StartTimer within a session. */
    method StartBreak()
      requires Valid()
      modifies study`isTimerStarted, study`timerShown, study`remainingTime, manager`isRecord, logger`isLogging
      ensures Valid()
      ensures study.isTimerStarted && study.remainingTime == study.timerInSec
      ensures !logger.isLogging && !manager.isRecord
      ensures study.step == old(study.step) && questionnaire.isActive == old(questionnaire.isActive)
    {
      study.StartTimer();
    }

    /** Questionnaire.Show, then random targets off. */
    method ShowQuestionnaire()
      requires Valid()
      modifies study`step, study`conditionNumber, questionnaire, questionnaire.handedness,
               study.technique`retargetingCurve, manager`isRecord, manager`isRandomVector, manager`isRandomTarget,
               manager`isShiftKeypad, manager`maxRedirectionAngle, manager.keypad`active, manager.keypad`position,
               logger`isLogging, logger`startingTime
      ensures Valid()
      ensures questionnaire.isActive && !manager.isRandomTarget && !logger.isLogging && !manager.isRecord
      ensures study.isTimerStarted == old(study.isTimerStarted) && study.remainingTime == old(study.remainingTime)
      ensures study.step == (if old(study.step) < 16 then old(study.step) + 1 else 16)
      ensures old(study.step) < 16 ==>
        study.conditionNumber == S.TableCell(study.participantNumber, old(study.step))
    {
      questionnaire.Show();
      manager.isRandomTarget := false;
    }

    /** StudySetup.NextCondition within a session. */
    method NextCondition()
      requires Valid()
      modifies study`step, study`conditionNumber, manager`isRandomVector, manager`isRandomTarget,
               manager`isShiftKeypad, manager`maxRedirectionAngle, study.technique`retargetingCurve,
               manager.keypad`active, manager.keypad`position
      ensures Valid()
      ensures study.step == (if old(study.step) < 16 then old(study.step) + 1 else 16)
      ensures old(study.step) < 16 ==>
        study.conditionNumber == S.TableCell(study.participantNumber, old(study.step))
    {
      study.NextCondition();
    }

    /** What CheckPin does around GenerateNewPin once a PIN is complete:
        the PIN and its input are summarised, the study decisions are carried
        out and the PIN clock restarts at `now`. */
    method CompletePin(pin: seq<int>, input: seq<int>, req: RM.StudyRequest, now: int)
      requires Valid() && |input| >= manager.pinLength
      modifies study`isTimerStarted, study`timerShown, study`remainingTime, study`step, study`conditionNumber,
               questionnaire, questionnaire.handedness, study.technique`retargetingCurve,
               manager`isRecord, manager`isRandomVector, manager`isRandomTarget, manager`isShiftKeypad,
               manager`maxRedirectionAngle, manager.keypad`active, manager.keypad`position,
               logger`isLogging, logger`startingTime, logger`pinText, logger`pinInputText, logger`endTime,
               logger`files
      ensures Valid()
      ensures logger.pinText == ConcatInts(pin) && logger.pinInputText == ConcatInts(input)
      ensures logger.endTime == now && logger.startingTime == now
      ensures Served(req, old(StudyNow()), StudyNow())
    {
      logger.CheckPin(pin, input, manager.pinLength, now);
      ServeRequest(req);
      logger.SetStartingTime(now);
    }

    /** The study request GenerateNewPin makes for the manager's current PIN
        count. */
    ghost function PendingRequest(): RM.StudyRequest
      requires manager.isStudySetup ==> study.pinAttemptsBeforeTimer != 0 && manager.pinThreshold != 0
      reads manager`isStudySetup, manager`pinInputCount, manager`pinThreshold, manager`showQuestionnaire,
            study`pinAttemptsBeforeTimer
    {
      RM.RequestAfterPin(manager.isStudySetup, manager.pinInputCount, study.pinAttemptsBeforeTimer,
                         manager.pinThreshold, manager.showQuestionnaire)
    }

    /** The target-selection part of Update at time `now`. A retract that
        completes a PIN logs the PIN and the input typed for it, carries out
        the study request of the PIN count before it (`served`) and restarts
        the PIN clock; a retract after the first one switches the log to the
        next file of the current condition. Without a keypad shift in the
        frame, the PIN is completed exactly by a retract with PinLength
        inputs. */
    method Select(now: int) returns (regenerated: bool, loggerFinished: bool, served: RM.StudyRequest)
      requires Valid()
      modifies manager`lastTarget, manager`target, manager`isTargetSelected, manager`isWarpOriginSet,
               manager`isRedirectionActive, manager`isShiftKeypad, manager`isHandBehindKeypad, manager`pin,
               manager`pinInputCount, manager`currentPinInput, manager`loggerStarted, manager`isRecord,
               manager`isRandomVector, manager`isRandomTarget, manager`maxRedirectionAngle,
               manager.keypad`position, manager.keypad`pin, manager.keypad`pinText, manager.keypad`active,
               manager.warpOrigin`position,
               study`isTimerStarted, study`timerShown, study`remainingTime, study`step, study`conditionNumber,
               questionnaire, questionnaire.handedness, study.technique`retargetingCurve, logger,
               set b | b in manager.keypad.buttons
      ensures Valid()
      ensures served == (if regenerated then old(PendingRequest()) else RM.NoRequest)
      ensures Served(served, old(StudyNow()), StudyNow())
      ensures regenerated ==>
        && manager.currentPinInput == [] && manager.pinInputCount == old(manager.pinInputCount) + 1
        && RM.PinDrawn(manager.pin, manager.pinLength, |manager.pool|)
        && logger.pinText == ConcatInts(old(manager.pin))
        && logger.pinInputText == ConcatInts(old(manager.currentPinInput))
        && logger.endTime == now && logger.startingTime == now
      ensures !regenerated ==>
        && manager.currentPinInput == old(manager.currentPinInput) && manager.pin == old(manager.pin)
        && manager.pinInputCount == old(manager.pinInputCount)
      ensures manager.CurrentFlags() == RM.SelectionStep(old(manager.CurrentFlags()), old(manager.KeypadDistance()),
                                                         manager.threshold, old(manager.isRandomTarget))
      ensures regenerated ==>
        RM.IsRetract(old(manager.CurrentFlags()), old(manager.KeypadDistance()), manager.threshold)
        && |old(manager.currentPinInput)| >= manager.pinLength
      ensures old(manager.isRandomTarget || !manager.isShiftKeypad) ==>
        (regenerated <==>
           RM.IsRetract(old(manager.CurrentFlags()), old(manager.KeypadDistance()), manager.threshold)
           && |old(manager.currentPinInput)| >= manager.pinLength)
      ensures !RM.IsRetract(old(manager.CurrentFlags()), old(manager.KeypadDistance()), manager.threshold) ==>
        !loggerFinished
      ensures loggerFinished ==> logger.conditionNr == study.conditionNumber
    {
      var pinBefore, inputBefore := manager.pin, manager.currentPinInput;
      regenerated, served, loggerFinished := Retarget();
      Conclude(regenerated, loggerFinished, pinBefore, inputBefore, served, now);
    }

    /** What follows the manager's selection step in the frame: a completed
        PIN is logged with the input typed for it, its request `req` is
        carried out and the PIN clock restarts at `now` (CheckPin); a retract
        after the first one switches the log file (Logger.Finish). The
        manager's PIN and selection state stay as they are. */
    method Conclude(regenerated: bool, loggerFinished: bool, pin: seq<int>, input: seq<int>,
                    req: RM.StudyRequest, now: int)
      requires Valid()
      requires regenerated ==> |input| >= manager.pinLength
      requires !regenerated ==> req == RM.NoRequest
      modifies study`isTimerStarted, study`timerShown, study`remainingTime, study`step, study`conditionNumber,
               questionnaire, questionnaire.handedness, study.technique`retargetingCurve,
               manager`isRecord, manager`isRandomVector, manager`isRandomTarget, manager`isShiftKeypad,
               manager`maxRedirectionAngle, manager.keypad`active, manager.keypad`position,
               logger`isLogging, logger`startingTime, logger`pinText, logger`pinInputText, logger`endTime,
               logger`files, logger`counter, logger`conditionNr, logger`path
      ensures Valid()
      ensures Served(req, old(StudyNow()), StudyNow())
      ensures regenerated ==>
        && logger.pinText == ConcatInts(pin) && logger.pinInputText == ConcatInts(input)
        && logger.endTime == now && logger.startingTime == now
      ensures loggerFinished ==> logger.conditionNr == study.conditionNumber
      ensures manager.CurrentFlags() == old(manager.CurrentFlags())
      ensures manager.pin == old(manager.pin) && manager.currentPinInput == old(manager.currentPinInput)
      ensures manager.pinInputCount == old(manager.pinInputCount)
    {
      if regenerated {
        CompletePin(pin, input, req, now);
      }
      if loggerFinished {
        SwitchLogFile();
      }
    }

    /** Logger.Finish with the study's current condition number. */
    method SwitchLogFile()
      requires Valid()
      modifies logger`files, logger`counter, logger`conditionNr, logger`path
      ensures Valid()
      ensures logger.conditionNr == study.conditionNumber
      ensures logger.counter == (if old(logger.conditionNr) != study.conditionNumber then 1 else old(logger.counter) + 1)
      ensures logger.pinText == old(logger.pinText) && logger.pinInputText == old(logger.pinInputText)
      ensures logger.endTime == old(logger.endTime) && logger.startingTime == old(logger.startingTime)
      ensures StudyNow() == old(StudyNow())
    {
      logger.Finish(study.conditionNumber);
    }

    /** The manager's own part of the selection step, with the study's
        timer divisor: the request `req` is the one for the PIN count before
        a completed PIN, and nothing otherwise. */
    method Retarget() returns (regenerated: bool, req: RM.StudyRequest, loggerFinished: bool)
      requires Valid()
      modifies manager`lastTarget, manager`target, manager`isTargetSelected, manager`isWarpOriginSet,
               manager`isRedirectionActive, manager`isShiftKeypad, manager`isHandBehindKeypad, manager`pin,
               manager`pinInputCount, manager`currentPinInput, manager`loggerStarted,
               manager.keypad`position, manager.keypad`pin, manager.keypad`pinText, manager.keypad`active,
               manager.warpOrigin`position, set b | b in manager.keypad.buttons
      ensures Valid()
      ensures req == (if regenerated then old(PendingRequest()) else RM.NoRequest)
      ensures regenerated ==>
        && manager.currentPinInput == [] && manager.pinInputCount == old(manager.pinInputCount) + 1
        && RM.PinDrawn(manager.pin, manager.pinLength, |manager.pool|)
      ensures !regenerated ==>
        && manager.currentPinInput == old(manager.currentPinInput) && manager.pin == old(manager.pin)
        && manager.pinInputCount == old(manager.pinInputCount)
      ensures StudyNow() == old(StudyNow())
      ensures manager.CurrentFlags() == RM.SelectionStep(old(manager.CurrentFlags()), old(manager.KeypadDistance()),
                                                         manager.threshold, old(manager.isRandomTarget))
      ensures regenerated ==>
        RM.IsRetract(old(manager.CurrentFlags()), old(manager.KeypadDistance()), manager.threshold)
        && |old(manager.currentPinInput)| >= manager.pinLength
      ensures old(manager.isRandomTarget || !manager.isShiftKeypad) ==>
        (regenerated <==>
           RM.IsRetract(old(manager.CurrentFlags()), old(manager.KeypadDistance()), manager.threshold)
           && |old(manager.currentPinInput)| >= manager.pinLength)
      ensures !RM.IsRetract(old(manager.CurrentFlags()), old(manager.KeypadDistance()), manager.threshold) ==>
        !loggerFinished
    {
      var ended, started;
      req, ended, started, loggerFinished, regenerated := manager.UpdateSelection(study.pinAttemptsBeforeTimer);
    }

    /** One frame of RedirectionManager.Update at time `now` with the
        fingertip depth `tipZ`: selection (a completed PIN serves the study
        request of the count before it), press detection (blocked while a
        break runs, including one started by this frame's PIN), then the
        hand update. */
    method Update(tipZ: real, now: int) returns (redirect: bool, regenerated: bool, served: RM.StudyRequest, pressed: bool)
      requires Valid()
      modifies manager`lastTarget, manager`target, manager`isTargetSelected, manager`isWarpOriginSet,
               manager`isRedirectionActive, manager`isShiftKeypad, manager`isHandBehindKeypad, manager`pin,
               manager`pinInputCount, manager`currentPinInput, manager`loggerStarted, manager`isRecord,
               manager`isRandomVector, manager`isRandomTarget, manager`maxRedirectionAngle,
               manager.keypad`position, manager.keypad`pin, manager.keypad`pinText, manager.keypad`active,
               manager.warpOrigin`position, manager.virtualHand,
               study`isTimerStarted, study`timerShown, study`remainingTime, study`step, study`conditionNumber,
               questionnaire, questionnaire.handedness, study.technique`retargetingCurve, logger,
               set b | b in manager.keypad.buttons
      ensures Valid()
      ensures served == (if regenerated then old(PendingRequest()) else RM.NoRequest)
      ensures Served(served, old(StudyNow()), StudyNow())
      ensures regenerated ==> manager.pinInputCount == old(manager.pinInputCount) + 1
      ensures !regenerated ==> manager.pinInputCount == old(manager.pinInputCount)
      ensures old(manager.isRandomTarget || !manager.isShiftKeypad) ==>
        (regenerated <==>
           RM.IsRetract(old(manager.CurrentFlags()), old(manager.KeypadDistance()), manager.threshold)
           && |old(manager.currentPinInput)| >= manager.pinLength)
      ensures redirect == manager.isRedirectionActive
      ensures !redirect ==> manager.HandsAreAligned()
      ensures pressed ==>
        && !study.isTimerStarted && manager.isHandBehindKeypad && |manager.currentPinInput| > 0
        && manager.currentPinInput[|manager.currentPinInput| - 1] == RM.PressPlaceholder
    {
      var loggerFinished;
      regenerated, loggerFinished, served := Select(now);
      pressed := Press(tipZ);
      redirect := MoveHands();
    }

    /** The press part of Update, with the study's break state. */
    method Press(tipZ: real) returns (pressed: bool)
      requires Valid()
      modifies manager`isHandBehindKeypad, manager`isShiftKeypad, manager`isTargetSelected, manager`isWarpOriginSet,
               manager`currentPinInput, set b | b in manager.keypad.buttons
      ensures Valid()
      ensures pressed <==>
        RM.InPressWindow(tipZ, manager.keypad.position.z) && !old(manager.isHandBehindKeypad) && !study.isTimerStarted
      ensures pressed ==>
        && manager.isHandBehindKeypad
        && manager.currentPinInput == old(manager.currentPinInput) + [RM.PressPlaceholder]
      ensures !pressed ==> manager.currentPinInput == old(manager.currentPinInput)
      ensures StudyNow() == old(StudyNow())
      ensures manager.threshold == old(manager.threshold) && manager.pinLength == old(manager.pinLength)
    {
      pressed := manager.UpdatePress(tipZ, study.isTimerStarted);
    }

    /** The hand part of Update. */
    method MoveHands() returns (redirect: bool)
      requires Valid()
      modifies manager`maxRedirectionAngle, manager.virtualHand
      ensures Valid()
      ensures redirect == manager.isRedirectionActive
      ensures !redirect ==> manager.HandsAreAligned()
      ensures manager.isHandBehindKeypad == old(manager.isHandBehindKeypad)
      ensures manager.currentPinInput == old(manager.currentPinInput)
      ensures StudyNow() == old(StudyNow())
      ensures manager.threshold == old(manager.threshold) && manager.pinLength == old(manager.pinLength)
    {
      redirect := manager.UpdateHands();
    }
  }
}
