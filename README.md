# Hand-redirection PIN study, modelled in Dafny

A Dafny model of the logic of a Unity hand-redirection study (namespace
`HR_Toolkit`). In the study, a participant copies a PIN onto a virtual keypad.
Meanwhile a redirection technique displaces the virtual hand from the real one.

The model covers the following parts of the app:

- The session controller (`RedirectionManager`):
  - the reach/retract/press cycle, which sets the target-selected, warp-origin-set, redirection-active and hand-behind-keypad flags;
  - sequential and random target selection;
  - the PIN it generates and checks.
- The study schedule (`StudySetup`):
  - the 30 x 16 counterbalancing table and the 16 conditions;
  - the step cursor, the condition-to-parameter mapping and the break timer.
- The two body-warping techniques (Cheng et al.'s zero-warp-zone warp, and the curve-driven warp with a retained offset vector).
- The redirected object (`RedirectionObject`).
- The questionnaire's pages and its sorted answer store.
- The keypad's digit highlight, pairwise distances and button activation.
- The pressable button's cooldown latch.
- The handedness switch.
- The per-axis position lock.
- The PIN display.
- The CSV logger's columns, file counter and summary files.

The Session module puts one frame of `RedirectionManager.Update` together with the study setup, the questionnaire and the logger. It carries them out in the order the source does.

## How the model is built

Each C# file becomes one Dafny module.

- Objects whose fields change become classes with `modifies` frames.
- The pure logic is functions, each paired with a lemma.
- Positions are `real` vectors.
- Lengths come from an abstract `norm` parameter. The model assumes only that a norm is never negative and that scaling by k >= 0 scales it by k.

The effects of the source are handled this way:

- Random draws become `:|` choices with the bounds of `Random.Range`.
- These become parameters:
  - time (`Time.time`, `DateTimeOffset.Now`);
  - `Mathf.Tan`;
  - `AnimationCurve.Evaluate`;
  - `Math.Round`;
  - the Leap fingertip depth.
- An explicit `throw` becomes a `Result` or an `ok` flag.
- An implicit crash becomes a precondition:
  - an index out of range;
  - a null dereference;
  - a division by zero in C#'s `%` by the break divisor or the questionnaire divisor (RedirectionManager.cs:312 and :322). In a study session both must be non-zero. This is required by `RequestAfterPin`, `GenerateNewPin`, `CheckPin`, `Retract` and `UpdateSelection`, and is part of `Session.Valid`.
- The cast `(Weiss_BodyWarping)` of the manager's default technique (StudySetup.cs:166) cannot fail in the model: the study setup's technique has the type `WeissBodyWarping`. The `InvalidCastException` the source throws for another technique is not modelled.
- C#'s truncating `%` is `Common.CsRem`.
- Integers print through `Common.IntToString`.
- Files are a map from file name to the lines written into it.

Where the specification and the code disagree, the model follows the code:

- A key press does not clear the redirection-active flag. `DeactivateTarget` clears only the selected and warp-origin flags.
- `Awake` reads `table[participant, step]`, while `SetupCondition` reads `table[participant, step - 1]`. Both are modelled as written. Because `NextCondition` increments `step` before `SetupCondition` reads it, the first condition set up is the same cell `Awake` read.

## Model

| member | source | states |
|---|---|---|
| Common.CsRem | Assets/_Scripts/Analysis/Logger.cs:128 | C#'s `%`: the remainder keeps the sign of the dividend, is smaller in size than the divisor, and agrees with the mathematical remainder for non-negative operands |
| Common.IntToString | Assets/_Scripts/Analysis/Logger.cs:239 | `int.ToString()`: a non-empty string of digits, with a leading minus sign exactly for negative numbers |
| Common.ConcatInts | Assets/_Scripts/Keypad.cs:58 | `string.Join("", digits)`: at least one character per number, and only digits and minus signs |
| Geometry.Clamp01 | Assets/_Scripts/Redirection/RedirectionTechniques/BodyWarping/Weiss_BodyWarping.cs:29-30 | the clamp inside `Vector3.Lerp`: the result lies in [0, 1] and equals t inside that range, 0 below it and 1 above it |
| RedirectionManager.IndexOf | Assets/_Scripts/RedirectionManager.cs:408 | `List.IndexOf`: the first index holding the target, or -1 exactly when no entry holds it |
| RedirectionManager.NextTarget | Assets/_Scripts/RedirectionManager.cs:389-411 | GetNextTarget fails exactly on an empty pool. Otherwise it returns a pool member. It returns `pool[0]` when there is neither a current nor a last target, when the pool has one element, or when the last target is not in the pool |
| RedirectionManager.NextTargetAfter | Assets/_Scripts/RedirectionManager.cs:408-411 | in a pool without duplicates, the target after `pool[j]` is `pool[(j + 1) mod N]` |
| RedirectionManager.TourPosition | Assets/_Scripts/RedirectionManager.cs:408-411 | feeding each result back as the last target k times from `pool[i]` reaches `pool[(i + k) mod N]` |
| RedirectionManager.TourDistinct | Assets/_Scripts/RedirectionManager.cs:408-411 | two different step counts below N reach different targets |
| RedirectionManager.TourVisitsOnce | Assets/_Scripts/RedirectionManager.cs:408-411 | the first N targets of the tour are pairwise distinct |
| RedirectionManager.TourCoversPool | Assets/_Scripts/RedirectionManager.cs:408-411 | every pool member is reached within N steps |
| RedirectionManager.TourReturns | Assets/_Scripts/RedirectionManager.cs:408-411 | after exactly N steps the tour is back at its start, so it repeats only after visiting all N |
| RedirectionManager.LastPinInput | Assets/_Scripts/RedirectionManager.cs:577-581 | GetLastPinInput is -1 on empty input and otherwise the last element |
| RedirectionManager.LastPinInputAfterAdd | Assets/_Scripts/RedirectionManager.cs:444-447 | after AddUserInput(x) the input is one longer and its last input is x |
| RedirectionManager.FirstPinAdvances | Assets/_Scripts/RedirectionManager.cs:310-332 | in a study session, the PIN generated at Start (count 0) asks for no break and for the next condition |
| RedirectionManager.RequestSchedule | Assets/_Scripts/RedirectionManager.cs:310-332 | with PIN threshold 1, a break is asked for exactly when the count is a positive multiple of the attempts before the timer. Every later PIN asks for the questionnaire when it is switched on, and for the next condition otherwise |
| RedirectionManager.Deactivated | Assets/_Scripts/RedirectionManager.cs:534-538 | DeactivateTarget clears the selected and warp-origin flags and keeps redirection-active and hand-behind-keypad |
| RedirectionManager.Pressed | Assets/_Scripts/RedirectionManager.cs:238-245 | the press branch: hand behind the keypad, target deselected, warp origin cleared, redirection-active kept |
| RedirectionManager.SelectionStepKeepsValid | Assets/_Scripts/RedirectionManager.cs:184-216 | the depth step keeps "warp origin set implies target selected". A retract leaves the target selected with the hand in front, and stops redirection in random mode. An anchor sets the warp origin, and starts redirection in random mode |
| RedirectionManager.DeactivateIdempotent | Assets/_Scripts/RedirectionManager.cs:534-538 | DeactivateTarget and the press branch restore the flag invariant, and DeactivateTarget is idempotent |
| RedirectionManager.RedirectionActiveOnlyInRandomMode | Assets/_Scripts/RedirectionManager.cs:185-216 | outside random-target mode the depth step never changes redirection-active, and neither does DeactivateTarget |
| RedirectionManager.PressNeedsRetract | Assets/_Scripts/RedirectionManager.cs:184-200 | the hand-behind-keypad flag is only ever cleared by a retract |
| RedirectionManager.Manager.SetVirtualHandToRealHand | Assets/_Scripts/RedirectionManager.cs:437-442 | the virtual hand takes the real hand's position, rotation and scale, so the hands are aligned |
| RedirectionManager.Manager.AddUserInput | Assets/_Scripts/RedirectionManager.cs:444-447 | appends exactly the one input, with no length bound |
| RedirectionManager.Manager.DeactivateTarget | Assets/_Scripts/RedirectionManager.cs:534-538 | the new flags are `Deactivated` of the old ones, and the flag invariant holds |
| RedirectionManager.Manager.GetRandomTarget | Assets/_Scripts/RedirectionManager.cs:414-419 | null exactly for an empty pool, otherwise a pool member |
| RedirectionManager.Manager.CheckForNewTarget | Assets/_Scripts/RedirectionManager.cs:356-382 | the old target becomes the last target and is the one ended. In random mode the new target is random (none only for an empty pool) and the target becomes selected. Otherwise it is NextTarget of the old one, or the empty-pool error with the target kept |
| RedirectionManager.Manager.GenerateNewPin | Assets/_Scripts/RedirectionManager.cs:301-342 | the PIN has PinLength entries, each in [0, pool size), or all 0 for an empty pool. The count rises by exactly 1. The keypad shows the PIN and does not move. The study request is `RequestAfterPin` of the old count. A break or the questionnaire hides the keypad; otherwise it keeps its visibility. Its frame leaves the input, the targets and every setting untouched |
| RedirectionManager.Manager.CheckPin | Assets/_Scripts/RedirectionManager.cs:291-299 | regenerates exactly when the input has at least PinLength entries and the keypad depth is at least the threshold. It then clears the input, draws a new PIN that the keypad shows, raises the count by 1 and returns `RequestAfterPin` of the old count (`PinOutcome`). Otherwise it returns no request and nothing changes |
| RedirectionManager.Manager.CheckPinAndLog | Assets/_Scripts/RedirectionManager.cs:201-205 | CheckPin, then the logger switch: a file switch is due exactly when a retract came before, and the logger counts as started afterwards. The PIN outcome is that of CheckPin |
| RedirectionManager.Manager.ShiftKeypad | Assets/_Scripts/RedirectionManager.cs:421-434 | always clears the pending flag. Without a pending shift the keypad stays where it is. A shift moves it in its own plane by zero or by tan(max angle) x threshold from its initial position (`ShiftedFrom`) |
| RedirectionManager.Manager.ScaleKeypadToMaxAngle | Assets/_Scripts/RedirectionManager.cs:343-353 | a positive angle becomes the maximum redirection angle; a non-positive one is ignored |
| RedirectionManager.Manager.RetractTarget | Assets/_Scripts/RedirectionManager.cs:187-195 | in random mode: the old target becomes the last target and is ended, the new one is started, the target is selected, redirection stops, and the keypad shift is left alone. Otherwise no target starts or ends, the target and last target are kept, redirection-active is unchanged, and a pending keypad shift is carried out and cleared (`ShiftedFrom`) |
| RedirectionManager.Manager.SelectTarget | Assets/_Scripts/RedirectionManager.cs:185-199 | the retract's flag change equals `SelectionStep`, every key becomes interactable again, and the targets and keypad shift change as in RetractTarget |
| RedirectionManager.Manager.Retract | Assets/_Scripts/RedirectionManager.cs:185-206 | the retract branch. Flags follow `SelectionStep` and the keys are enabled. Targets and the keypad shift change as in RetractTarget. A PIN is regenerated exactly when the input is complete and the keypad depth after the shift is at least the threshold, with the `PinOutcome` of CheckPin. The logger switches files on every retract after the first. Its frame keeps the settings (random target, questionnaire, recording, maximum angle) unchanged |
| RedirectionManager.Manager.Anchor | Assets/_Scripts/RedirectionManager.cs:207-215 | the anchor branch: the flags follow `SelectionStep`, and the warp origin is copied from the real hand |
| RedirectionManager.Manager.UpdateSelection | Assets/_Scripts/RedirectionManager.cs:184-215 | the depth part of Update: the flags follow `SelectionStep` of the old depth, and an anchor copies the real hand to the warp origin. Without a retract, no request, target, PIN, input, keypad or shift changes. With one, Retract's target, shift and logger outcomes hold. A PIN is regenerated exactly on a retract with a complete input and enough depth after the shift, and without a pending shift exactly on a retract with a complete input. The request is `RequestAfterPin` of the old count for a regenerated PIN and none otherwise |
| RedirectionManager.Manager.UpdatePress | Assets/_Scripts/RedirectionManager.cs:236-247 | a press is registered exactly when the fingertip is in the window 0.02-0.1 behind the keypad, the hand was not already behind it and no break runs. A press applies `Pressed`, appends -2, cancels the keypad shift and locks the keys. Otherwise nothing changes |
| RedirectionManager.Manager.UpdateHands | Assets/_Scripts/RedirectionManager.cs:259-271 | redirects exactly when redirection is active. Otherwise the virtual hand is set to the real hand |
| StudySetup.Conditions | Assets/_Scripts/StudySetup.cs:148-162 | the nested loops build exactly `ConditionList` |
| StudySetup.ConditionListShape | Assets/_Scripts/StudySetup.cs:148-162 | 16 conditions. Entry i < 15 is (size i / 5, curve i mod 5) and entry 15 is (Medium, None) |
| StudySetup.EveryPairingListed | Assets/_Scripts/StudySetup.cs:148-162 | every size/curve pairing occurs, at index 5 x size + curve |
| StudySetup.TableRowsWellFormed | Assets/_Scripts/StudySetup.cs:40-72 | the table has 30 rows. Each row has 16 entries, starts with 15, and contains every value 0-14 |
| StudySetup.CoveringIsPermutation | Assets/_Scripts/StudySetup.cs:40-72 | n values that contain each of 0..n-1 are a permutation of 0..n-1 |
| StudySetup.BalancedLatinSquareShape | Assets/_Scripts/StudySetup.cs:40-72 | every row is 15 followed by a permutation of 0..14, so every entry indexes a condition |
| StudySetup.TableCellInRange | Assets/_Scripts/StudySetup.cs:40-72 | the cell a participant reads at any step numbers a condition of the list, and the first step gives the training condition 15 |
| StudySetup.MaxAngle | Assets/_Scripts/StudySetup.cs:172-185 | the angle for a keypad size is positive |
| StudySetup.MaxAngleIncreasing | Assets/_Scripts/StudySetup.cs:174-181 | Small (4) < Medium (8) < Large (16) |
| StudySetup.ShiftIsExclusive | Assets/_Scripts/StudySetup.cs:164-209 | after SetupParameters, keypad shifting is on exactly when random targets are off, random vectors follow random targets, and the angle is positive |
| StudySetup.TimerFieldsBounded | Assets/_Scripts/StudySetup.cs:91-95 | while time remains, the shown minutes are non-negative and the seconds lie in 0-59 |
| StudySetup.StudySetup.Awake | Assets/_Scripts/StudySetup.cs:76-82 | reads `table[participant, step]` and hands the PIN threshold to the manager |
| StudySetup.StudySetup.SetupParameters | Assets/_Scripts/StudySetup.cs:164-209 | Shift turns random vectors and targets off and keypad shifting on. Every other curve does the reverse and sets its curve. The size sets the angle to 4, 8 or 16 |
| StudySetup.StudySetup.SetupCondition | Assets/_Scripts/StudySetup.cs:211-217 | the condition number is `table[participant, step - 1]`, a valid index, and its parameters are applied |
| StudySetup.StudySetup.NextCondition | Assets/_Scripts/StudySetup.cs:133-146 | the step rises by one below 16 and otherwise stays, with the keypad hidden. The keypad returns to its initial position. The condition read is the table cell of the old step |
| StudySetup.StudySetup.StartTimer | Assets/_Scripts/StudySetup.cs:103-114 | starts the break with the full time, and stops recording and logging |
| StudySetup.StudySetup.StopTimer | Assets/_Scripts/StudySetup.cs:116-131 | a no-op while the questionnaire is active. Otherwise it ends the break, shows and re-centres the keypad, and resumes recording and logging with a new starting time |
| StudySetup.StudySetup.Update | Assets/_Scripts/StudySetup.cs:84-101 | nothing happens without a break. During a break the time falls by deltaTime and, while time is left, the text shows it. While time is left or the questionnaire is active, the break goes on with the keypad hidden. Otherwise the break ends, the keypad comes back and logging resumes with a new starting time |
| RedirectionObject.MergeKeepsPrefix | Assets/_Scripts/Redirection/RedirectionObject.cs:48-53 | Start's merge keeps the existing positions as a prefix, in order |
| RedirectionObject.MergeContents | Assets/_Scripts/Redirection/RedirectionObject.cs:48-53 | the merged list holds exactly the old positions and the children |
| RedirectionObject.MergeNoDuplicates | Assets/_Scripts/Redirection/RedirectionObject.cs:48-53 | the merge adds no duplicates |
| RedirectionObject.RandomPointAsWritten | Assets/_Scripts/Redirection/RedirectionObject.cs:165-170 | the draw from [-1, Count) fails exactly on -1 and otherwise gives a real position of the object |
| RedirectionObject.RandomPointAsWrittenCanThrow | Assets/_Scripts/Redirection/RedirectionObject.cs:167 | the draw -1 is an index-out-of-range failure |
| RedirectionObject.RandomPoint | Assets/_Scripts/Redirection/RedirectionObject.cs:165-170 | a draw from [0, Count) gives a real position of the object |
| RedirectionObject.RandomPointCovers | Assets/_Scripts/Redirection/RedirectionObject.cs:165-170 | every real position can be drawn, and nothing else can |
| RedirectionObject.RedirectionObject.Start | Assets/_Scripts/Redirection/RedirectionObject.cs:38-55 | the technique and warp origin take the manager defaults only when missing. The positions become the merge with the children. The initial position is recorded |
| RedirectionObject.RedirectionObject.GetRealTargetPos | Assets/_Scripts/Redirection/RedirectionObject.cs:140-178 | outside random mode: `positions[0]`. In random-point mode: one of the real positions, drawn from [0, Count) as corrected under "## Findings". In random-vector mode: the object position plus an offset in the z = 0 plane, of length zero or the maximum random vector length, and the random-vector marker moves there |
| RedirectionObject.RedirectionObject.GetRedirectionDistance | Assets/_Scripts/Redirection/RedirectionObject.cs:235-238 | non-negative, and 0 while the offset is still the zero vector |
| RedirectionObject.RedirectionObject.GetOffsetVector | Assets/_Scripts/Redirection/RedirectionObject.cs:240-243 | the offset always lies in the z = 0 plane |
| RedirectionObject.RedirectionObject.EndRedirection | Assets/_Scripts/Redirection/RedirectionObject.cs:72-78 | with highlighting on, the object's highlight goes off, and so does the reset position's when the reset position is used. With highlighting off nothing changes |
| RedirectionObject.RedirectionObject.OnHandEnter | Assets/_Scripts/Redirection/RedirectionObject.cs:83-89 | acts only when the reset position is used, this object is the active target and highlighting is on. It then highlights the reset position and un-highlights this object |
| ChengBodyWarping.ShiftRatio | Assets/_Scripts/Redirection/RedirectionTechniques/BodyWarping/Cheng_BodyWarping.cs:75-77 | ds / (ds + dp) is undefined exactly when both are 0, and otherwise lies in [0, 1]. It is 0 for ds = 0 < dp and 1 for dp = 0 < ds |
| ChengBodyWarping.WarpBounded | Assets/_Scripts/Redirection/RedirectionTechniques/BodyWarping/Cheng_BodyWarping.cs:77-79 | with the never-assigned zero `_t0`, the warp is a·t: no longer than t, zero for a = 0, and the full t for a = 1 |
| ChengBodyWarping.VirtualHandWithinOffset | Assets/_Scripts/Redirection/RedirectionTechniques/BodyWarping/Cheng_BodyWarping.cs:75-81 | the virtual hand is never further from the real hand than the target offset |
| ChengBodyWarping.NoWarpAtOrigin | Assets/_Scripts/Redirection/RedirectionTechniques/BodyWarping/Cheng_BodyWarping.cs:53-81 | with ds = 0 and dp > 0 the virtual hand is the real hand |
| ChengBodyWarping.ChengBodyWarping.Init | Assets/_Scripts/Redirection/RedirectionTechniques/BodyWarping/Cheng_BodyWarping.cs:84-94 | stores the real target and t = virtual target - real target |
| ChengBodyWarping.ChengBodyWarping.ApplyRedirection | Assets/_Scripts/Redirection/RedirectionTechniques/BodyWarping/Cheng_BodyWarping.cs:50-82 | the zone flag is whether the hand is within the zero-warp distance of the body. On leaving the zone the manager's warp origin moves to the hand, and ds is 0 when it is the origin in use. ds is 0 inside the zone. The virtual hand is the real hand plus `Warp(ShiftRatio(ds, dp))` |
| WeissBodyWarping.ProgressAlong | Assets/_Scripts/Redirection/RedirectionTechniques/BodyWarping/Weiss_BodyWarping.cs:24-27 | the progress is not finite exactly when origin and target depth coincide. It is then -inf for a hand in front of the target, +inf for a hand beyond it and NaN for a hand at the target's depth. It is 0 at the origin and 1 at the target, and lies in [0, 1] for a hand between an origin in front of the target and the target |
| WeissBodyWarping.CandidateBounded | Assets/_Scripts/Redirection/RedirectionTechniques/BodyWarping/Weiss_BodyWarping.cs:29-30 | the candidate is clamp(t) x (virtual - real target), so it is no longer than the target offset |
| WeissBodyWarping.RetainedMagnitude | Assets/_Scripts/Redirection/RedirectionTechniques/BodyWarping/Weiss_BodyWarping.cs:33-39 | after the clamp the retained vector is exactly as long as the candidate, including the zero-length case |
| WeissBodyWarping.RetainedShrinksAlongPrevious | Assets/_Scripts/Redirection/RedirectionTechniques/BodyWarping/Weiss_BodyWarping.cs:36-39 | a shorter candidate rescales the retained vector by a factor in [0, 1), keeping its direction |
| WeissBodyWarping.WeissBodyWarping.Init | Assets/_Scripts/Redirection/RedirectionTechniques/BodyWarping/Weiss_BodyWarping.cs:14-19 | captures both targets and leaves the retained vector as it was |
| WeissBodyWarping.WeissBodyWarping.ApplyRedirection | Assets/_Scripts/Redirection/RedirectionTechniques/BodyWarping/Weiss_BodyWarping.cs:21-43 | the retained vector is `Retained` of the curve candidate, as long as the candidate and no longer than the target offset. The virtual hand is the real hand plus the retained vector |
| Keypad.HighlightRoundTrip | Assets/_Scripts/Keypad.cs:79-87 | stripping the inserted colour tags from the highlighted text gives back the PIN string |
| Keypad.SingleDigitsAlign | Assets/_Scripts/Keypad.cs:79-86 | when all digits are below 10, character k of the joined PIN is the k-th digit |
| Keypad.TwoDigitEntryMisaligns | Assets/_Scripts/Keypad.cs:79-86 | with a digit of 10 or more, position k no longer marks the k-th PIN entry: [12, 3] highlights the "2" |
| Keypad.PairDistanceListed | Assets/_Scripts/Keypad.cs:28-30 | every pairwise distance is in the list GetMaxDistance takes the maximum of |
| Keypad.ListedIsPairDistance | Assets/_Scripts/Keypad.cs:28-30 | every listed distance is the distance of some pair |
| Keypad.NumeralsHaveNoMarkup | Assets/_Scripts/Keypad.cs:79-87 | joined numbers contain no tag characters, so the highlight round trip applies to every PIN text |
| Keypad.SeqMax | Assets/_Scripts/Keypad.cs:31 | `Max` of a non-empty list is a member and bounds every element |
| Keypad.MaxDistance | Assets/_Scripts/Keypad.cs:26-32 | GetMaxDistance is non-negative, bounds every ordered pair's distance, and is attained by some pair |
| Keypad.ThirdSmallest | Assets/_Scripts/Keypad.cs:38-41 | Distinct/OrderBy/Skip(2): a member with exactly two smaller members |
| Keypad.DiagonalDistance | Assets/_Scripts/Keypad.cs:34-42 | 0 for fewer than three distinct rounded distances, and otherwise the third smallest |
| Keypad.SelfPairRounded | Assets/_Scripts/Keypad.cs:36-37 | the self-pairs put round(0) among the distances |
| Keypad.Keypad.SetPin | Assets/_Scripts/Keypad.cs:54-59 | stores the digits and shows their concatenation |
| Keypad.Keypad.HighlightPinDigit | Assets/_Scripts/Keypad.cs:77-88 | no change when the count reaches the text length. Otherwise the text is the PIN with character k wrapped in colour tags, and stripping the tags gives the PIN back |
| Keypad.Keypad.ActivateAllButtons | Assets/_Scripts/Keypad.cs:72-75 | every button's interactable flag becomes the given value |
| PressableButton.AlternatingExtends | Assets/PressableButton.cs:59-87 | an event opposite to the current state keeps Start/End alternating, beginning with Start |
| PressableButton.PressableButton.SetActivationState | Assets/PressableButton.cs:59-88 | assigning the current value changes nothing. Activation succeeds only after the cooldown, and then stamps the time and fires Start. Inside the cooldown nothing changes. Deactivation always fires End |
| PressableButton.PressableButton.UpdateActivationCalculations | Assets/PressableButton.cs:108-127 | requests activation exactly when the distance exceeds the threshold strictly, with the setter's outcomes |
| PressableButton.PressableButton.UpdateActivationStay | Assets/PressableButton.cs:154-160 | fires Stay exactly when the button is active |
| PressableButton.PressableButton.FixedUpdate | Assets/PressableButton.cs:102-106 | an active button has its distance over the threshold and has just fired Stay. An inactive one fires no Stay |
| Handedness.SideOf | Assets/_Scripts/Handedness.cs:41-53 | maps Left to the left side and Right to the right side |
| Handedness.DominantSide | Assets/_Scripts/Handedness.cs:24-36 | the dominant side is the left one exactly for a left-handed participant |
| Handedness.Opposite | Assets/_Scripts/RedirectionManager.cs:625 | the weak hand is the other side |
| Handedness.SwitchedState | Assets/_Scripts/Handedness.cs:39-88 | after switching to a side, its real hand and pointer are active, its virtual hand is unfrozen with its object as before, and it is the tracked hand. The other side's real hand, pointer and virtual hand are all off and frozen |
| Handedness.ExactlyOneRealHand | Assets/_Scripts/Handedness.cs:39-88 | after any switch exactly one real hand is active, and it is the chosen one |
| Handedness.SwitchIdempotent | Assets/_Scripts/Handedness.cs:39-54 | switching twice to the same side is switching once |
| Handedness.StartMatchesSwitch | Assets/_Scripts/Handedness.cs:22-54 | Start ends in the same state as switchHand to the dominant hand |
| Handedness.VirtualHandsNeverEnabled | Assets/_Scripts/Handedness.cs:56-88 | no switch turns a virtual hand on: after Right then Left the left virtual hand is off |
| Handedness.WeakThenDominantRestores | Assets/_Scripts/RedirectionManager.cs:618-638 | the weak hand for the questionnaire, then the dominant hand again, leaves only the dominant real hand active |
| Handedness.Handedness.DeactivateHand | Assets/_Scripts/Handedness.cs:65-88 | the Deactivate methods |
| Handedness.Handedness.ActivateHand | Assets/_Scripts/Handedness.cs:56-80 | the Activate methods, which also deactivate the other side |
| Handedness.Handedness.Start | Assets/_Scripts/Handedness.cs:22-37 | fails exactly for a chirality other than Left or Right, and otherwise switches to the dominant hand |
| Handedness.Handedness.SwitchHand | Assets/_Scripts/Handedness.cs:39-54 | fails exactly for a chirality other than Left or Right, and otherwise yields `Switched` |
| Handedness.Handedness.SwitchToDominantHand | Assets/_Scripts/RedirectionManager.cs:618-621 | switches to the dominant side |
| Handedness.Handedness.SwitchToWeakHand | Assets/_Scripts/RedirectionManager.cs:623-638 | enables the weak side's pointer, disables the other, and switches to the weak side |
| LocalConstraints.Constrained | Assets/LocalConstraints.cs:25-39 | locked axes take the start value, and unlocked axes keep the current one |
| LocalConstraints.ConstrainedUnchangedIffSatisfied | Assets/LocalConstraints.cs:23-43 | constraining changes the position exactly when a locked axis moved |
| LocalConstraints.ConstrainedIdempotent | Assets/LocalConstraints.cs:21-44 | a constrained position satisfies the locks, so a second Update changes nothing |
| LocalConstraints.NoLocksNoWrite | Assets/LocalConstraints.cs:21-44 | with no axis locked Update never writes |
| LocalConstraints.LocalConstraints.Start | Assets/LocalConstraints.cs:16-19 | records the current local position as the start position |
| LocalConstraints.LocalConstraints.Update | Assets/LocalConstraints.cs:21-44 | the position becomes `Constrained`, and it is written exactly when a locked axis differed from its start |
| InputCanvas.Frame | Assets/_Scripts/InputCanvas.cs:18-38 | a pending tick shows ✅ and clears only its own flag. A pending cross shows ❌ and clears both. With neither flag set, a non-empty input shows the concatenated input and an empty one leaves the text alone |
| InputCanvas.BothFlagsShowInTurn | Assets/_Scripts/InputCanvas.cs:22-32 | with both flags pending, ✅ shows first and ❌ next, after which no flag is pending |
| InputCanvas.FrameOnlyClears | Assets/_Scripts/InputCanvas.cs:18-38 | a frame never raises a flag, and the tick flag is always clear after it |
| InputCanvas.FrameText | Assets/_Scripts/InputCanvas.cs:18-38 | the text is a mark, the previous text, or digits and minus signs only |
| InputCanvas.InputCanvas.Update | Assets/_Scripts/InputCanvas.cs:18-38 | one frame is `Frame` of the old display |
| InputCanvas.InputCanvas.PinCorrect | Assets/_Scripts/InputCanvas.cs:40-43 | sets only its own flag |
| InputCanvas.InputCanvas.PinIncorrect | Assets/_Scripts/InputCanvas.cs:45-48 | sets only its own flag |
| InputCanvas.InputCanvas.SetText | Assets/_Scripts/InputCanvas.cs:50-53 | replaces the text |
| Questionnaire.LessIrreflexive | Assets/_Scripts/Questionnaire.cs:32 | the key order of the SortedDictionary is irreflexive |
| Questionnaire.LessTotal | Assets/_Scripts/Questionnaire.cs:32 | any two different keys are ordered |
| Questionnaire.LessTransitive | Assets/_Scripts/Questionnaire.cs:32 | the key order is transitive |
| Questionnaire.LookupKeys | Assets/_Scripts/Questionnaire.cs:73 | TryGetValue finds a value exactly for a stored key |
| Questionnaire.InsertKeys | Assets/_Scripts/Questionnaire.cs:98-101 | storing an answer adds exactly its key |
| Questionnaire.InsertLookup | Assets/_Scripts/Questionnaire.cs:98-101 | the stored key maps to the new answer (the last entry wins) and every other key keeps its answer |
| Questionnaire.InsertSorted | Assets/_Scripts/Questionnaire.cs:98-101 | storing keeps the entries in ascending key order |
| Questionnaire.SortedLookup | Assets/_Scripts/Questionnaire.cs:32 | in a sorted store every entry is what its key looks up |
| Questionnaire.SortedCard | Assets/_Scripts/Questionnaire.cs:32 | a sorted store has one entry per key |
| Questionnaire.LogOnePerKeyAscending | Assets/_Scripts/Questionnaire.cs:125-131 | Log writes one line per stored key, with its stored answer, in strictly ascending key order |
| Questionnaire.Restored | Assets/_Scripts/Questionnaire.cs:70-75 | one slider value per panel |
| Questionnaire.PreviousPageInRange | Assets/_Scripts/Questionnaire.cs:80-88 | when page n - 1 started inside the question list, page n - 2 starts at a non-negative index and ends where page n - 1 begins, so PreviousPage only shows questions that exist |
| Questionnaire.Questionnaire.Begin | Assets/_Scripts/Questionnaire.cs:42-47 | one question per panel per page, a new file `questionnaire_{participant}_{condition}.csv`, and the header line |
| Questionnaire.Questionnaire.Entry | Assets/_Scripts/Questionnaire.cs:98-101 | the question's answer becomes the given one, every other answer is kept, and the store stays sorted |
| Questionnaire.Questionnaire.Log | Assets/_Scripts/Questionnaire.cs:125-131 | appends `LogLines` of the store: one "key; value" line per entry in store order |
| Questionnaire.Questionnaire.RestoreSliders | Assets/_Scripts/Questionnaire.cs:71-75 | each panel whose question has an answer shows it |
| Questionnaire.Questionnaire.ShowQuestions | Assets/_Scripts/Questionnaire.cs:58-67 | exactly the first `count` panels are active and show the questions from `start` on |
| Questionnaire.Questionnaire.NextPage | Assets/_Scripts/Questionnaire.cs:49-76 | past the last page it logs and finishes, with the page cursor kept. Otherwise it shows min(7 - start, per page) questions from start = page x per page, all below 7. It then resets the sliders, restores the stored answers and advances the cursor by one |
| Questionnaire.Questionnaire.TurnPage | Assets/_Scripts/Questionnaire.cs:58-75 | the page-showing branch of NextPage |
| Questionnaire.Questionnaire.PreviousPage | Assets/_Scripts/Questionnaire.cs:78-96 | does nothing before the second page. Otherwise it shows page cursor - 2 on all panels, restores answers and steps the cursor back by one |
| Questionnaire.Questionnaire.Open | Assets/_Scripts/Questionnaire.cs:103-112 | the store is cleared, the cursor reset, the file begun, logging paused and the first page shown |
| Questionnaire.Questionnaire.Show | Assets/_Scripts/Questionnaire.cs:103-121 | as Open. The weak hand takes over. The study moves to the next condition. Recording stops |
| Questionnaire.Questionnaire.Finish | Assets/_Scripts/Questionnaire.cs:150-170 | closes the file. The keypad comes back at its initial position and the dominant hand takes over. The condition of the current step is set up. Recording and logging resume with a new starting time |
| Questionnaire.Questionnaire.Resume | Assets/_Scripts/Questionnaire.cs:155-168 | keypad back and re-centred, dominant hand active, the condition of `table[participant, step - 1]` set up, and recording and logging resumed at the given time |
| Questionnaire.Questionnaire.RestoreControls | Assets/_Scripts/Questionnaire.cs:155-158 | keypad shown and re-centred, dominant hand active |
| Questionnaire.Questionnaire.ResumeStudy | Assets/_Scripts/Questionnaire.cs:160-168 | the condition `table[participant, step - 1]` is set up, and recording and logging resume at the given time |
| Logger.Select | Assets/_Scripts/Analysis/Logger.cs:113 | the Where over the columns keeps exactly the shown ones |
| Logger.Selected | Assets/_Scripts/Analysis/Logger.cs:89-116 | the header columns are exactly the shown ones |
| Logger.SelectKeepsOrder | Assets/_Scripts/Analysis/Logger.cs:113 | selecting keeps the declared column order |
| Logger.SelectedInDeclaredOrder | Assets/_Scripts/Analysis/Logger.cs:89-116 | the header lists exactly the enabled columns plus Frame and Timestamp, each once, in declared order |
| Logger.SelectedStartsWithFrame | Assets/_Scripts/Analysis/Logger.cs:93-94 | every header starts with Frame and Timestamp |
| Logger.RowMatchesHeader | Assets/_Scripts/Analysis/Logger.cs:89-171 | a row has as many fields as the header has names. It starts with the frame and time. Field k is the value of the column named by header entry k |
| Logger.Append | Assets/_Scripts/Analysis/Logger.cs:231-240 | writing a line appends it to that file and leaves every other file alone |
| Logger.IntToStringInjective | Assets/_Scripts/Analysis/Logger.cs:199 | different integers print differently |
| Logger.LogFileNamesDistinct | Assets/_Scripts/Analysis/Logger.cs:192-200 | different counters give different log file names |
| Logger.TargetNrInRange | Assets/_Scripts/Analysis/Logger.cs:128 | with counter >= 1, the index (counter - 1) % PinLength is a valid PIN index, and it is counter - 1 for the first PinLength files |
| Logger.Logger.GetPath | Assets/_Scripts/Analysis/Logger.cs:192-200 | the counter restarts at 1 on a new condition and otherwise rises by one. The name is `log_{participant}_{condition}_{counter}.csv` |
| Logger.Logger.OpenLog | Assets/_Scripts/Analysis/Logger.cs:208-209 | a new file holding just the header |
| Logger.Logger.Start | Assets/_Scripts/Analysis/Logger.cs:73-87 | the first log file of the participant, holding the header |
| Logger.Logger.Update | Assets/_Scripts/Analysis/Logger.cs:118-174 | nothing changes while not logging, not even the frame. Otherwise it stamps the time, reads `pin[(counter - 1) % PinLength]` and the last input, writes a row only when there is a target, and advances the frame by exactly one |
| Logger.Logger.Sample | Assets/_Scripts/Analysis/Logger.cs:122-129 | the time and the two PIN numbers of the frame |
| Logger.Logger.Record | Assets/_Scripts/Analysis/Logger.cs:145-173 | the row goes to the open file only with a target, and the frame advances by one |
| Logger.Logger.SummarizedLog | Assets/_Scripts/Analysis/Logger.cs:227-244 | the summary file is started afresh with its header exactly when the counter is 1, and appended to otherwise |
| Logger.Logger.SummarizedPinLog | Assets/_Scripts/Analysis/Logger.cs:246-265 | nothing while not logging. Otherwise the PIN summary is rewritten with its header exactly when counter <= PinLength, and appended to otherwise |
| Logger.Logger.CheckPin | Assets/_Scripts/Analysis/Logger.cs:176-185 | nothing unless the input has at least PinLength entries. Then it records the joined PIN, the joined input and the end time, and writes the PIN summary |
| Logger.Logger.Finish | Assets/_Scripts/Analysis/Logger.cs:203-210 | summarises the closing file under the old condition, then opens the next file, with the counter rule, holding the header |
| Logger.Logger.ResumeLogging | Assets/_Scripts/Analysis/Logger.cs:212-215 | logging on |
| Logger.Logger.PauseLogging | Assets/_Scripts/Analysis/Logger.cs:217-220 | logging off |
| Logger.Logger.SetStartingTime | Assets/_Scripts/Analysis/Logger.cs:222-225 | the starting time becomes now |
| Session.Session.ServeRequest | Assets/_Scripts/RedirectionManager.cs:310-332 | the state after is `Served` from the state before: the break starts first when asked for, with logging and recording stopped. Then the questionnaire opens, with random targets switched off after it, or the next condition is set up. Either advances the step by one up to 16 and reads that table cell. Without a follow-up the step and the questionnaire are kept |
| Session.Session.ShowQuestionnaire | Assets/_Scripts/RedirectionManager.cs:322-328 | the questionnaire is open, random targets, recording and logging are off, and the study has advanced |
| Session.Session.CompletePin | Assets/_Scripts/RedirectionManager.cs:291-299 | the logger records the joined PIN, the joined input and the end time now, and the PIN clock restarts at the same time. The given request is carried out (`Served`) |
| Session.Session.Select | Assets/_Scripts/RedirectionManager.cs:184-206 | the request served is `RequestAfterPin` of the PIN count before a completed PIN and nothing otherwise, and the study state moves by `Served` of it. The flags follow `SelectionStep`. A completed PIN needs a retract with a complete input. It clears the input, raises the count by 1, draws a new PIN, logs the old PIN and input, and restarts the clock. Otherwise PIN, input and count are untouched. Without a pending shift, a PIN is completed exactly by a retract with a complete input. A log file switch needs a retract and uses the study's current condition |
| Session.Session.Conclude | Assets/_Scripts/RedirectionManager.cs:201-205 | what follows the manager's retract: a completed PIN is logged and its request carried out (`Served`), and a due file switch uses the current condition. The manager's flags, PIN, input and count stay as they are |
| Session.Session.Retarget | Assets/_Scripts/RedirectionManager.cs:184-216 | the manager's depth step with the study's divisors: the request is `RequestAfterPin` of the old count for a regenerated PIN and none otherwise. A regenerated PIN clears the input, raises the count by 1 and is a fresh draw; otherwise PIN, input and count are kept. The study state is untouched. The flags follow `SelectionStep`. Only a retract regenerates or switches files |
| Session.Session.StartBreak | Assets/_Scripts/RedirectionManager.cs:313-319 | the break timer runs at full time, and logging and recording stop. The step and the questionnaire are untouched |
| Session.Session.NextCondition | Assets/_Scripts/RedirectionManager.cs:329-331 | the study step advances by one up to 16, and the condition is read from the table cell of the old step |
| Session.Session.SwitchLogFile | Assets/_Scripts/RedirectionManager.cs:202-203 | Logger.Finish under the study's current condition number: the counter restarts at 1 for a new condition and counts on otherwise. The PIN summary fields and the study state are untouched |
| Session.Session.Press | Assets/_Scripts/RedirectionManager.cs:236-247 | a press is registered exactly when the fingertip is in the press window, the hand was not behind the keypad and no break runs. It puts the hand behind the keypad and appends the -2 placeholder; otherwise the input is kept. The study state is untouched |
| Session.Session.MoveHands | Assets/_Scripts/RedirectionManager.cs:259-271 | the hands are aligned whenever redirection is off. The press flag, the input, the threshold, PinLength and the study state are untouched |
| Session.Session.Update | Assets/_Scripts/RedirectionManager.cs:179-273 | one frame: selection, then press, then hands. The request served is `RequestAfterPin` of the count before a completed PIN and nothing otherwise, and the study state moves by `Served` of it. The count rises by 1 exactly for a completed PIN. Without a pending shift, a PIN is completed exactly by a retract with a complete input. A press is never registered during a break, even one started in this frame, and it appends the -2 placeholder. The hands are aligned whenever redirection is off |

## Left out

- Audio, webcam recording, prompt texts, highlight colours, layers and the `Debug` output are not modelled. Recording appears only as the manager's `isRecord` flag.
- File I/O: a file is the list of lines written into it. The log directory, flushing and `OnApplicationQuit` are not modelled.
- The float formatting of vectors and rotations ("f4") is not modelled. Those row fields are a parameter `text`.
- `MovementController.MoveHand`/`MoveBody`, `HandRedirector`/`BodyWarping` base classes and `VirtualToRealConnection` are not part of this model.
- Session.Session.Update: it does not call the target's `Redirect` (the techniques are modelled on their own). Target Start/EndRedirection is returned as target ids, not performed.
- Session.Session.Update: the fingertip depth is a parameter. The Leap hand lookup is not modelled, including the zero vector used when no hand is tracked.
- RedirectionManager.Manager.ScaleKeypadToMaxAngle: the keypad's scale change is not modelled, because it divides by the diagonal distance, which may be 0.
- Questionnaire.Questionnaire.Finish: the source sets up the condition before resuming recording and logging, and clears the active flag last. The model clears the flag first and sets up the condition last, since none of these steps reads what the others write.
- RedirectionManager.Manager.GenerateNewPin: it returns the study decision instead of carrying it out. The break, the questionnaire and the next condition, and switching random targets off after the questionnaire, are done by Session.Session.ServeRequest. The keypad's temporary PIN-text flag and the new webcam video are not modelled.
- Logger.Logger.Update: the columns holding vectors, rotations and distances are given as a parameter `text`, not computed from the scene.
- Session.Session.CompletePin: does not state the PIN the manager generates. Its contract is about the logger and the study.
- ChengBodyWarping.ChengBodyWarping.ApplyRedirection: when ds + dp = 0 the source writes a NaN position. The model leaves the written position unconstrained in that case.
- The question panels' slider listener and the `ColorButton` and editor scripts are UI wrappers and are not modelled.
- Keys of the questionnaire store are ordered by character code (ordinal order). Culture-specific string comparison is not modelled.
- Keypad.DiagonalDistance: it is a ghost function, because picking the third smallest of a set of reals has no compiled form here.
- `Math.Round` is a parameter `round`.
- Float rounding, NaN and infinity are not modelled. The two divisions that can be 0/0 or x/0 are explicit `Option` or `Progress` results instead.
- RedirectionObject.RedirectionObject.GetRealTargetPos: in random-point mode it draws from [0, Count), the corrected draw under "## Findings". The source draws from [-1, Count) and throws on -1; `RandomPointAsWritten` models that.
- RedirectionObject.RedirectionObject.GetVirtualTargetPos, GetVirtualRot and GetRealRot read the first connection and require a non-empty list. The source's null check on that connection is not modelled, because a connection here is a value and is never null.
- Questionnaire.Questionnaire.GetIsActive is a plain read of the open flag and states nothing further.

## Findings

| source | as written | input that shows it | evidently intended | confidence | as-written member | corrected member |
|---|---|---|---|---|---|---|
| Assets/_Scripts/Redirection/RedirectionObject.cs:167 | `positions[Random.Range(-1, positions.Count)]` draws an index from [-1, Count) | the draw -1, possible on every call in random-point mode, indexes `positions[-1]` and throws | a uniform draw over [0, Count), so that every real position, and only those, can be chosen | not executed | RedirectionObject.RandomPointAsWritten, RedirectionObject.RandomPointAsWrittenCanThrow | RedirectionObject.RandomPoint, RedirectionObject.RandomPointCovers |
