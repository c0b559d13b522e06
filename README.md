# FitBuddy workout types, modelled in Dafny

FitBuddy is a fitness app. Members build workouts of five types and run them
in the browser: EMOM (every minute on the minute), AMRAP (as many rounds as
possible), For Time, Tabata and Ladder. The ASP.NET server stores the
workouts, their results, favourites and live workout sessions. This project
models that workout-type domain layer and proves what it promises:

- the workout-type schema and the client-side validator;
- the five type builders and the generic workout builder;
- the five session runners;
- the client session store (a reducer) and the server session service;
- the request validators and the `TrimLength` rule;
- pagination;
- the favourite toggle;
- the dashboard figures;
- the workout service;
- the name searches;
- the workout timer;
- the filter panel and the list header.

Each source file is one Dafny module, in a file of its own:

| module | models |
|---|---|
| `WorkoutTypes` | `interfaces/workout-types.ts` |
| `WorkoutValidation` | `utils/workout-validation.ts` |
| `LadderBuilder`, `TabataBuilder`, `ForTimeBuilder`, `AMRAPBuilder`, `EMOMBuilder` | `components/workout/builders/*Builder.tsx` |
| `LadderSession`, `TabataSession`, `ForTimeSession`, `AMRAPSession`, `EMOMSession` | `components/workout/sessions/*SessionInterface.tsx` |
| `WorkoutBuilder` | `components/workout/WorkoutBuilder.tsx` |
| `SessionContext` | `contexts/WorkoutSessionContext.tsx` |
| `SessionService` | `Services/WorkoutSessionService.cs` |
| `SessionRequests` | `RequestModels/Sessions/CreateWorkoutSessionRequestModel.cs` |
| `ValidationExtensions` | `Extensions/ValidationExtensions.cs` |
| `CreateWorkoutRequest`, `UpdateWorkoutRequest` | `RequestModels/Workouts/*WorkoutRequestModel.cs` |
| `Paginate` | `Extensions/PaginateExtensions.cs` |
| `Favorites` | `Services/WorkoutFavoriteService.cs` |
| `Dashboard` | `Services/DashboardService.cs` |
| `WorkoutService` | `Services/WorkoutService.cs` |
| `NameSpecs` | `Specifications/Workouts/WorkoutByNameSpec.cs` and `Specifications/Members/MemberByNameSpec.cs` |
| `WorkoutTimer` | `components/workout/WorkoutTimer.tsx` |
| `FilterPanel` | `components/workout/WorkoutFilterPanel.tsx` |
| `ListHeader` | `components/workout/WorkoutListHeader.tsx` |

`Wrappers` (Option, Result), `Text` (white space, trimming, ASCII lower
case, decimal digits), `Lists` (sums, filters, removal, the splice move) and
`Arith` (JavaScript's `%`, ceiling division, clamps) are shared helpers.

How the code is modelled:

- State that a component or a service rewrites step by step is a `class`.
  - Its methods are proved against a step function on a state datatype.
  - The lemmas about that step function carry the properties.
  - This covers the session runners, the builders' picker state, the countdown watch, the session, favourite and workout services, and the request models' trimming setters.
- The source's loops are `while` loops with invariants:
  - the validator's `forEach` callbacks;
  - the ladder generator's `for` loops;
  - the ladder runner's totals;
  - the cleanup of stale sessions;
  - the `splice` move on an array.
- Pure expressions are functions.
- Times are whole seconds passed in as `now`, and dates are day numbers.
- JavaScript's truthiness is explicit: `x || d` on a number falls back on a missing value or on 0.
- C#'s unchecked `int` product is wrapped explicitly where it matters, in pagination.

## Model

| member | source | states |
|---|---|---|
| WorkoutTypes.WorkoutTypeIdsDistinct | ui/application/src/interfaces/workout-types.ts:87-93 | The five workout type ids are 1..5 and pairwise distinct. |
| WorkoutTypes.IsEMOMExercise | ui/application/src/interfaces/workout-types.ts:98-100 | An exercise counts as EMOM exactly when it has a round position; `EmomGuardIsAmrapGuard` shows this is the AMRAP guard itself. |
| WorkoutTypes.IsAMRAPExercise | ui/application/src/interfaces/workout-types.ts:102-104 | An exercise counts as AMRAP exactly when it has a round position, as for EMOM. |
| WorkoutTypes.IsForTimeExercise | ui/application/src/interfaces/workout-types.ts:106-108 | Reps present and no round position, work time or ladder type; `ForTimeGuardExclusive` shows such an exercise passes none of the other guards. |
| WorkoutTypes.IsTabataExercise | ui/application/src/interfaces/workout-types.ts:110-112 | An exercise counts as Tabata exactly when both its work and rest times are present. |
| WorkoutTypes.IsLadderExercise | ui/application/src/interfaces/workout-types.ts:114-116 | An exercise counts as a ladder exactly when its ladder type, start reps and end reps are present. |
| WorkoutTypes.EmomGuardIsAmrapGuard | ui/application/src/interfaces/workout-types.ts:98-104 | The EMOM and AMRAP type guards accept exactly the same records: both test only `roundPosition`. |
| WorkoutTypes.ForTimeGuardExclusive | ui/application/src/interfaces/workout-types.ts:98-116 | A record the For Time guard accepts is rejected by the EMOM/AMRAP, Tabata and Ladder guards. |
| WorkoutTypes.BaseExercise | ui/application/src/interfaces/workout-types.ts:4-12 | An exercise built from the base fields carries no type-specific field. |
| WorkoutTypes.EmptyData | ui/application/src/interfaces/workout-types.ts:20-80 | The empty workout data has no exercises and none of the type settings. |
| WorkoutTypes.UpdateExercise | ui/application/src/components/workout/builders/AMRAPBuilder.tsx:41-49 | Every builder's `updateExercise` changes slot `i` by the one-key update and keeps every other slot and the length. |
| WorkoutTypes.OrElse | ui/application/src/components/workout/sessions/ForTimeSessionInterface.tsx:44 | JavaScript's or-fallback on a number gives the default exactly when the value is missing or 0, and the value otherwise. |
| WorkoutTypes.RenumberKeepsContents | ui/application/src/components/workout/builders/ForTimeBuilder.tsx:50-76 | Renumbering numbers the list 1..n and changes no field but the position fields. |
| WorkoutTypes.RemoveRenumbered | ui/application/src/components/workout/builders/TabataBuilder.tsx:53-66 | Removing slot `i` and renumbering keeps the other exercises, in their order and otherwise untouched, numbered 1..n−1. |
| WorkoutTypes.MoveRenumbered | ui/application/src/components/workout/builders/TabataBuilder.tsx:68-84 | Moving `from` to `to` and renumbering is a permutation, positions aside. The moved exercise lands at `to`, the others keep their order, and all are numbered 1..n. |
| Lists.SpliceMove | ui/application/src/components/workout/WorkoutBuilder.tsx:114-119 | The copy-then-`splice` loop returns the moved list: the element at `from` taken out and put back at `to`. |
| Lists.MoveInPlace | ui/application/src/components/workout/builders/LadderBuilder.tsx:69-76 | The in-place `splice` move on an array leaves exactly the moved sequence of the old contents. |
| Lists.MovedIsPermutation | ui/application/src/components/workout/builders/LadderBuilder.tsx:69-85 | A move keeps the same multiset of exercises. |
| Lists.MovedKeepsOthersInOrder | ui/application/src/components/workout/builders/LadderBuilder.tsx:69-85 | Taking the moved element out of the result gives the list with it taken out of its old place: the others keep their order. |
| WorkoutValidation.ValidateBase | ui/application/src/utils/workout-validation.ts:30-61 | `validateBaseWorkout` collects exactly the base entries: the empty-list error, then each exercise's missing-id and bad-order errors in `forEach` order. |
| WorkoutValidation.ValidateEmom | ui/application/src/utils/workout-validation.ts:64-123 | `validateEMOMWorkout` collects exactly the EMOM entries: the total-minutes error or warning, then each exercise's checks. |
| WorkoutValidation.ValidateAmrap | ui/application/src/utils/workout-validation.ts:126-184 | `validateAMRAPWorkout` collects exactly the AMRAP entries, the duplicate-position error last. |
| WorkoutValidation.ValidateForTime | ui/application/src/utils/workout-validation.ts:187-236 | `validateForTimeWorkout` collects exactly the For Time entries, the volume warning last. |
| WorkoutValidation.ValidateTabata | ui/application/src/utils/workout-validation.ts:239-317 | `validateTabataWorkout` collects exactly the Tabata entries. |
| WorkoutValidation.ValidateLadder | ui/application/src/utils/workout-validation.ts:320-399 | `validateLadderWorkout` collects exactly the Ladder entries. |
| WorkoutValidation.PushEach | ui/application/src/utils/workout-validation.ts:42-58 | A rule set's `forEach` over the exercises appends, after the entries already pushed, every exercise's entries in exercise order. |
| WorkoutValidation.PushChecks | ui/application/src/utils/workout-validation.ts:83-120 | One `forEach` callback appends exactly that exercise's entries for the rule set. |
| WorkoutValidation.PushBaseChecks | ui/application/src/utils/workout-validation.ts:42-58 | The base callback appends the missing-id error and the bad-order error that exercise `i` draws. |
| WorkoutValidation.PushEmomChecks | ui/application/src/utils/workout-validation.ts:83-120 | The EMOM callback appends exercise `i`'s EMOM entries and stops after a failed structure check. |
| WorkoutValidation.PushAmrapChecks | ui/application/src/utils/workout-validation.ts:145-170 | The AMRAP callback appends exercise `i`'s AMRAP entries. |
| WorkoutValidation.PushForTimeChecks | ui/application/src/utils/workout-validation.ts:206-223 | The For Time callback appends exercise `i`'s For Time entries. |
| WorkoutValidation.PushTabataChecks | ui/application/src/utils/workout-validation.ts:252-314 | The Tabata callback appends exercise `i`'s Tabata entries. |
| WorkoutValidation.PushLadderChecks | ui/application/src/utils/workout-validation.ts:333-396 | The Ladder callback appends exercise `i`'s Ladder entries. |
| WorkoutValidation.OrOne | ui/application/src/utils/workout-validation.ts:225-226 | The round multiplier of the volume check is never 0: a missing or zero round count falls back to one round. |
| WorkoutValidation.IndexOf | ui/application/src/utils/workout-validation.ts:174 | `indexOf` returns the first index holding `x`, or −1 when none does. |
| WorkoutValidation.DuplicatesStep | ui/application/src/utils/workout-validation.ts:174 | One more position adds one element to the `indexOf` filter exactly when its value occurred earlier. |
| WorkoutValidation.RepeatBelowStep | ui/application/src/utils/workout-validation.ts:174 | A value among the first `k` positions repeats an earlier one exactly when one does among the first `k − 1`, or position `k − 1` does. |
| WorkoutValidation.DuplicatesNonEmptyIff | ui/application/src/utils/workout-validation.ts:174-175 | The `indexOf` filter over the first `k` positions is non-empty exactly when one of them repeats an earlier value. |
| WorkoutValidation.DuplicatesIffRepeat | ui/application/src/utils/workout-validation.ts:172-175 | The duplicates list is non-empty exactly when two positions hold the same value. |
| WorkoutValidation.OfKind | ui/application/src/utils/workout-validation.ts:434-435 | `filter(e => e.type === kind)` keeps exactly the entries of that kind, in order. |
| WorkoutValidation.Classify | ui/application/src/utils/workout-validation.ts:433-441 | `isValid` holds exactly when no collected entry is an error. The errors hold exactly the error entries and the warnings exactly the warning entries. |
| WorkoutValidation.ValidateWorkout | ui/application/src/utils/workout-validation.ts:402-442 | The base entries and the type's rule entries, split by kind; `EmptyWorkoutInvalid`, `UnknownTypeOneError`, `ExerciseErrorInvalid` and `KindFollowsMessage` state what the result holds. |
| WorkoutValidation.OfKindPartition | ui/application/src/utils/workout-validation.ts:433-441 | The errors and the warnings together are the collected entries, as a multiset: every entry lands in exactly one list. |
| WorkoutValidation.EachInAllEntries | ui/application/src/utils/workout-validation.ts:402-430 | Whatever a type's `forEach` pushes is among the entries `validateWorkout` classifies. |
| WorkoutValidation.ExerciseErrorInvalid | ui/application/src/utils/workout-validation.ts:402-441 | An error any type-specific check reports for an exercise makes the workout invalid. |
| WorkoutValidation.ExerciseWarningReported | ui/application/src/utils/workout-validation.ts:402-441 | A warning any type-specific check reports for an exercise is among the returned warnings. |
| WorkoutValidation.EmptyWorkoutInvalid | ui/application/src/utils/workout-validation.ts:33-39 | A workout with no exercises is invalid whatever its type id, and its errors hold "At least one exercise is required". |
| WorkoutValidation.UnknownTypeOneError | ui/application/src/utils/workout-validation.ts:425-430 | An unknown type id yields the base errors plus exactly one "Invalid workout type" error, and the workout is invalid. |
| WorkoutValidation.KindFollowsMessage | ui/application/src/utils/workout-validation.ts:64-399 | Every entry `validateWorkout` collects has the severity its message calls for, so a workout whose every message is a warning remark is valid. |
| WorkoutValidation.TypeKindsFollowMessages | ui/application/src/utils/workout-validation.ts:402-431 | Every entry a type's validator collects has the severity its message calls for. |
| WorkoutValidation.ExerciseKindsFollowMessages | ui/application/src/utils/workout-validation.ts:83-396 | Every entry a `forEach` callback pushes has the severity its message calls for. |
| WorkoutValidation.HeaderEachKindsFollowMessages | ui/application/src/utils/workout-validation.ts:64-123 | Header entries with the right severities, followed by a rule set's `forEach` entries, keep the right severities. |
| WorkoutValidation.EmomMinuteBeyondTotalInvalid | ui/application/src/utils/workout-validation.ts:99-104 | An EMOM exercise whose minute exceeds `totalMinutes` makes the workout invalid. |
| WorkoutValidation.EmomHighRepsWarns | ui/application/src/utils/workout-validation.ts:113-118 | More than 100 reps in a minute is reported as a warning and not as an error. |
| WorkoutValidation.AmrapExerciseNoDuplicateMessage | ui/application/src/utils/workout-validation.ts:145-170 | No per-exercise AMRAP check reports duplicate positions. |
| WorkoutValidation.AmrapChecksNoDuplicateMessage | ui/application/src/utils/workout-validation.ts:129-170 | Neither the AMRAP header nor its `forEach` reports duplicate positions. |
| WorkoutValidation.AmrapDuplicateErrorOnce | ui/application/src/utils/workout-validation.ts:172-181 | The duplicate-position error appears exactly once when two exercises share a round position, however many do, and never otherwise. |
| WorkoutValidation.ForTimeRoundsErrorIff | ui/application/src/utils/workout-validation.ts:191-203 | For Time draws the rounds error exactly when `totalRounds` is present and negative: a missing or zero count passes. |
| WorkoutValidation.TabataNonClassicWarns | ui/application/src/utils/workout-validation.ts:306-312 | A Tabata exercise that is not 20 s work, 10 s rest and 8 rounds gets the classic-protocol warning. |
| WorkoutValidation.TabataShortWorkInvalid | ui/application/src/utils/workout-validation.ts:262-268 | A Tabata work time under 5 seconds makes the workout invalid. |
| WorkoutValidation.AscendingLadderMustRise | ui/application/src/utils/workout-validation.ts:368-373 | An ascending ladder with `startReps >= endReps` makes the workout invalid. |
| WorkoutValidation.PyramidExerciseHasNoProgressionError | ui/application/src/utils/workout-validation.ts:368-380 | A pyramid exercise draws neither progression error. |
| WorkoutValidation.PyramidHasNoProgressionError | ui/application/src/utils/workout-validation.ts:368-380 | A workout of pyramid ladders has no progression error among its errors. |
| WorkoutValidation.WorkoutTypeRequirements | ui/application/src/utils/workout-validation.ts:445-480 | Each defined type has three requirement lines and any other id has one generic line. |
| WorkoutValidation.ValidationTips | ui/application/src/utils/workout-validation.ts:483-518 | Each defined type has three tips and any other id has none. |
| LadderBuilder.Ascending | ui/application/src/components/workout/builders/LadderBuilder.tsx:96-99 | For a positive step, the ascending run starts at `start`, rises by the step each time and stays at or below `end`. |
| LadderBuilder.Descending | ui/application/src/components/workout/builders/LadderBuilder.tsx:100-103 | For a positive step, the descending run starts at `start`, falls by the step each time and stays at or above `end`. |
| LadderBuilder.AscendingStopsBeforeEnd | ui/application/src/components/workout/builders/LadderBuilder.tsx:96-99 | The ascending run's last value is at most `end`, and one more step would pass it. |
| LadderBuilder.DescendingStopsAboveEnd | ui/application/src/components/workout/builders/LadderBuilder.tsx:100-103 | The descending run's last value is at least `end`, and one more step would pass it. |
| LadderBuilder.LadderSequence | ui/application/src/components/workout/builders/LadderBuilder.tsx:92-116 | An unknown ladder type or a step below 1 gives no sets; the runs themselves are stated by `Ascending`, `Descending` and the pyramid lemmas. |
| LadderBuilder.GenerateLadderSequence | ui/application/src/components/workout/builders/LadderBuilder.tsx:92-116 | The `for` loops of `generateLadderSequence` push exactly the sequence `LadderSequence` describes. |
| LadderBuilder.PushUp | ui/application/src/components/workout/builders/LadderBuilder.tsx:97-99 | One ascending `for` loop appends exactly the ascending run. |
| LadderBuilder.PushDown | ui/application/src/components/workout/builders/LadderBuilder.tsx:101-103 | One descending `for` loop appends exactly the descending run. |
| LadderBuilder.PyramidDownLength | ui/application/src/components/workout/builders/LadderBuilder.tsx:104-113 | When the step divides the range, the pyramid's way down has one value fewer than its way up. |
| LadderBuilder.PyramidAt | ui/application/src/components/workout/builders/LadderBuilder.tsx:104-113 | When the step divides the range into `q` steps, position `j` of the pyramid is `start` plus `min(j, 2q − j)` steps. |
| LadderBuilder.PyramidMirror | ui/application/src/components/workout/builders/LadderBuilder.tsx:104-113 | When the step divides the range, the pyramid reads the same backwards. |
| LadderBuilder.PyramidBelowPeak | ui/application/src/components/workout/builders/LadderBuilder.tsx:104-113 | When the step divides the range, every value other than the middle one is below `end`. |
| LadderBuilder.PyramidPalindrome | ui/application/src/components/workout/builders/LadderBuilder.tsx:104-113 | When the step divides the range, the pyramid is a palindrome whose single peak is `end`. |
| LadderBuilder.PyramidLopsided | ui/application/src/components/workout/builders/LadderBuilder.tsx:104-113 | When the step does not divide the range, the pyramid ends above `start`, so it is not a palindrome. |
| LadderBuilder.TotalReps | ui/application/src/components/workout/builders/LadderBuilder.tsx:118-121 | The sum of the exercise's rep sequence; `TotalRepsWithinRange` bounds it. |
| LadderBuilder.WorkoutTotalReps | ui/application/src/components/workout/builders/LadderBuilder.tsx:123-125 | The exercise totals added up; `WorkoutTotalIsSumOfAllSets` shows it is the sum of every set of every exercise. |
| LadderBuilder.WorkoutTotalSets | ui/application/src/components/workout/builders/LadderBuilder.tsx:130-132 | Never negative; `WorkoutTotalIsSumOfAllSets` shows it counts every set of every exercise. |
| LadderBuilder.SetsWithinRange | ui/application/src/components/workout/builders/LadderBuilder.tsx:92-116 | Every set of a ladder, ascending, descending or pyramid, lies between its start and end reps. |
| LadderBuilder.TotalRepsWithinRange | ui/application/src/components/workout/builders/LadderBuilder.tsx:118-121 | An exercise's rep total lies between its set count times the smaller end and its set count times the larger end. |
| LadderBuilder.WorkoutTotalIsSumOfAllSets | ui/application/src/components/workout/builders/LadderBuilder.tsx:118-125 | The workout total is the sum of every exercise's sequence, the sequences taken one after the other. |
| LadderBuilder.SequencesOf | ui/application/src/components/workout/builders/LadderBuilder.tsx:123-132 | Each exercise's sequence, in exercise order. |
| LadderBuilder.EstimatedMinutes | ui/application/src/components/workout/builders/LadderBuilder.tsx:127-135 | The estimate is the least whole number of minutes covering 2.5 s per rep plus 10 s per set. |
| LadderBuilder.UpdateLadderType | ui/application/src/components/workout/builders/LadderBuilder.tsx:17-23 | The workout and every exercise get the new ladder type, and no other field changes. |
| LadderBuilder.UpdateLadderTypeIdempotent | ui/application/src/components/workout/builders/LadderBuilder.tsx:17-23 | Setting the same type twice is setting it once, and afterwards every exercise follows the workout's type. |
| LadderBuilder.NewLadderExercise | ui/application/src/components/workout/builders/LadderBuilder.tsx:25-37 | The new exercise climbs 1 to 10 by 1, is bodyweight, and is numbered one past the old length. |
| LadderBuilder.AddExercise | ui/application/src/components/workout/builders/LadderBuilder.tsx:25-42 | The new exercise is appended and the rest of the workout is kept. |
| LadderBuilder.NewExerciseSequences | ui/application/src/components/workout/builders/LadderBuilder.tsx:25-37 | The default exercise makes a 1..10 ladder when ascending, 1..10..1 as a pyramid, but no sets at all as a descending ladder. |
| LadderBuilder.DefaultPyramid | ui/application/src/components/workout/builders/LadderBuilder.tsx:104-114 | A 1-to-10 pyramid by 1 climbs 1..10 and comes back down to 1. |
| LadderBuilder.MoveExercise | ui/application/src/components/workout/builders/LadderBuilder.tsx:69-85 | The splice move followed by renumbering both positions. |
| LadderBuilder.RemoveExercise | ui/application/src/components/workout/builders/LadderBuilder.tsx:54-67 | Only the exercise list changes: it loses one entry when the index is in range and none otherwise; `RemoveKeepsOrderAndRenumbers` shows the others keep their order and are renumbered from 1. |
| LadderBuilder.RemoveKeepsOrderAndRenumbers | ui/application/src/components/workout/builders/LadderBuilder.tsx:54-67 | Removing keeps the others in order and otherwise untouched, and numbers `ladderPosition` and `orderInWorkout` 1..n−1. |
| LadderBuilder.MoveKeepsOrderAndRenumbers | ui/application/src/components/workout/builders/LadderBuilder.tsx:69-85 | Moving is a permutation, positions aside: the moved exercise lands at `to`, the others keep their order, and both positions run 1..n. |
| LadderBuilder.ApplyPresetToAll | ui/application/src/components/workout/builders/LadderBuilder.tsx:144-156 | Every exercise gets the preset's start, end and increment, and no other field changes. |
| LadderBuilder.PresetsReachTheirEnd | ui/application/src/components/workout/builders/LadderBuilder.tsx:137-142 | Every preset's ascending ladder ends exactly at its `endReps`. |
| LadderBuilder.AscendingNeverStopsWithoutStep | ui/application/src/components/workout/builders/LadderBuilder.tsx:96-99 | As written, with a step of 0 or less the guard `i <= end` still holds after any number of rounds, so the loop never exits. |
| LadderBuilder.ClearedIncrementHangs | ui/application/src/components/workout/builders/LadderBuilder.tsx:352 | A 1-to-10 ladder whose increment input was cleared (`Number("") = 0`) is such a loop. |
| LadderSession.Steps | ui/application/src/components/workout/sessions/LadderSessionInterface.tsx:49-73 | Every step of an exercise lies between its start and end reps, whichever is smaller and whichever is larger. |
| LadderSession.CurrentSteps | ui/application/src/components/workout/sessions/LadderSessionInterface.tsx:75 | The current exercise's steps, none past the end of the list; `NextStep` and `Runner.LadderSteps` state what is read from it. |
| LadderSession.CurrentReps | ui/application/src/components/workout/sessions/LadderSessionInterface.tsx:77 | The reps of the current step, 0 past the last; `NextStepIsShownNext` shows it is what `getNextStep` announced. |
| LadderSession.TotalSteps | ui/application/src/components/workout/sessions/LadderSessionInterface.tsx:119-123 | The step counts added up; `CompletedStepsBounded` shows the completed steps never exceed it, and fall short of it while a step remains. |
| LadderSession.TotalVolume | ui/application/src/components/workout/sessions/LadderSessionInterface.tsx:134-139 | The reps of every step added up; `CompletedVolumeBounded` and `VolumeNonNegative` bound the completed volume between 0 and it. |
| LadderSession.Runner.LadderSteps | ui/application/src/components/workout/sessions/LadderSessionInterface.tsx:49-73 | `calculateLadderSteps`' loops, the builder's own, give the builder's corrected sequence for the current exercise: no steps for an increment below 1, where the source's loops never end. |
| LadderSession.Next | ui/application/src/components/workout/sessions/LadderSessionInterface.tsx:80-107 | Every "next" is counted and keeps the position within the ladder, and it reports completion exactly on the last step of the last exercise. |
| LadderSession.NextStep | ui/application/src/components/workout/sessions/LadderSessionInterface.tsx:180-185 | `getNextStep` is the following step's reps, and none on the last step. |
| LadderSession.GetStepStatus | ui/application/src/components/workout/sessions/LadderSessionInterface.tsx:187-191 | A step is completed below the current step, current at it, and upcoming above it. |
| LadderSession.StatusesInOrder | ui/application/src/components/workout/sessions/LadderSessionInterface.tsx:187-191 | Along the ladder the statuses run completed, then current, then upcoming, and exactly one step is current. |
| LadderSession.PrefixStep | ui/application/src/components/workout/sessions/LadderSessionInterface.tsx:125-132 | Adding one more exercise to a prefix adds its number of sets. |
| LadderSession.PrefixSetsBounded | ui/application/src/components/workout/sessions/LadderSessionInterface.tsx:119-132 | A prefix of the exercises never has more sets than the whole list. |
| LadderSession.StepsNonNegative | ui/application/src/components/workout/sessions/LadderSessionInterface.tsx:49-73 | With a non-negative start and end, every step of the sequence is non-negative. |
| LadderSession.PrefixVolumeBounded | ui/application/src/components/workout/sessions/LadderSessionInterface.tsx:134-159 | With no negative step, a prefix never has more volume than the whole list. |
| LadderSession.CompletedStepsBounded | ui/application/src/components/workout/sessions/LadderSessionInterface.tsx:119-132 | The completed steps never exceed the total steps, and fall short of them while a step remains. |
| LadderSession.CompletedVolumeBounded | ui/application/src/components/workout/sessions/LadderSessionInterface.tsx:134-159 | The completed volume lies between 0 and the total volume. |
| LadderSession.PartialSumBounded | ui/application/src/components/workout/sessions/LadderSessionInterface.tsx:141-159 | The first `k` of non-negative numbers sum to between 0 and the whole sum. |
| LadderSession.VolumeNonNegative | ui/application/src/components/workout/sessions/LadderSessionInterface.tsx:134-139 | With no negative step, the total volume is non-negative. |
| LadderSession.NextFinishesOneStep | ui/application/src/components/workout/sessions/LadderSessionInterface.tsx:80-107 | Each "next" that does not complete adds exactly one step to the completed steps. |
| LadderSession.CompletionCountsTheLastStep | ui/application/src/components/workout/sessions/LadderSessionInterface.tsx:80-117 | On the last step, the report of "next" is the early-finish count plus that last step. |
| LadderSession.NextStepIsShownNext | ui/application/src/components/workout/sessions/LadderSessionInterface.tsx:77-107 | What `getNextStep` announces is the reps the runner shows after "next". |
| LadderSession.FinishReport | ui/application/src/components/workout/sessions/LadderSessionInterface.tsx:109-117 | The exercises completed are the current index + 1, and the steps and volume never exceed the workout's totals (`FinishNeverOverstates`). |
| LadderSession.FinishNeverOverstates | ui/application/src/components/workout/sessions/LadderSessionInterface.tsx:109-117 | An early finish counts the current exercise as done and never claims more steps than the workout holds. |
| LadderSession.Runner.constructor | ui/application/src/components/workout/sessions/LadderSessionInterface.tsx:39-43 | The runner starts at exercise 0, step 0, nothing done. |
| LadderSession.Runner.HandleNext | ui/application/src/components/workout/sessions/LadderSessionInterface.tsx:80-107 | The state fields after `handleNext` are those of `Next`, and the returned report is its report. |
| LadderSession.Runner.HandleFinish | ui/application/src/components/workout/sessions/LadderSessionInterface.tsx:109-117 | `handleFinish` returns the finish report of the current state. |
| LadderSession.Runner.CalculateCompletedSteps | ui/application/src/components/workout/sessions/LadderSessionInterface.tsx:125-132 | The loop returns the earlier exercises' set counts plus the current step. |
| LadderSession.Runner.CalculateCompletedVolume | ui/application/src/components/workout/sessions/LadderSessionInterface.tsx:141-159 | The loops return the earlier exercises' sums plus the current exercise's finished steps. |
| Text.MinSec | ui/application/src/components/workout/sessions/LadderSessionInterface.tsx:161-165 | `formatTime`; `MinSecReadsBack` shows it is digits, a colon and two digits that read back as the time. |
| Text.MinSecReadsBack | ui/application/src/components/workout/sessions/LadderSessionInterface.tsx:161-165 | The sessions' `m:ss` display is digits, a colon and two digits, and the two numbers read back give the time. |
| TabataBuilder.UpdateTotalRounds | ui/application/src/components/workout/builders/TabataBuilder.tsx:17-23 | The stored rounds are the input clamped to 1..32, and nothing else changes. |
| TabataBuilder.NewTabataExercise | ui/application/src/components/workout/builders/TabataBuilder.tsx:25-36 | The new exercise has 20 s work, 10 s rest and 8 rounds, is bodyweight, and both positions are the old length + 1. |
| TabataBuilder.AddExercise | ui/application/src/components/workout/builders/TabataBuilder.tsx:25-41 | The new exercise is appended and the rest of the workout is kept. |
| TabataBuilder.MoveExercise | ui/application/src/components/workout/builders/TabataBuilder.tsx:68-84 | The splice move followed by renumbering both positions. |
| TabataBuilder.RemoveExercise | ui/application/src/components/workout/builders/TabataBuilder.tsx:53-66 | Only the exercise list changes: it loses one entry when the index is in range and none otherwise; `RemoveKeepsOrderAndRenumbers` shows the others keep their order and are renumbered from 1. |
| TabataBuilder.RemoveKeepsOrderAndRenumbers | ui/application/src/components/workout/builders/TabataBuilder.tsx:53-66 | Removing keeps the others in order and otherwise untouched, and numbers both positions 1..n−1. |
| TabataBuilder.MoveKeepsOrderAndRenumbers | ui/application/src/components/workout/builders/TabataBuilder.tsx:68-84 | Moving is a permutation, positions aside, that keeps the others in order and numbers both positions 1..n. |
| TabataBuilder.CycleTimes | ui/application/src/components/workout/builders/TabataBuilder.tsx:94-97 | Each exercise's (work + rest) × rounds, in order. |
| TabataBuilder.RoundsOf | ui/application/src/components/workout/builders/TabataBuilder.tsx:104-106 | Each exercise's rounds, in order. |
| TabataBuilder.TotalDuration | ui/application/src/components/workout/builders/TabataBuilder.tsx:91-102 | No exercises take 0 minutes. Otherwise the total is the least whole number of minutes covering the summed cycle times. |
| TabataBuilder.ApplyPresetToAll | ui/application/src/components/workout/builders/TabataBuilder.tsx:115-127 | Every exercise gets the preset's work, rest and rounds, and no other field changes. |
| TabataBuilder.TotalIntervals | ui/application/src/components/workout/builders/TabataBuilder.tsx:104-106 | The rounds of every exercise added up; `PresetTotals` and `ClassicTabataIsFourMinutesEach` give it as exercises × rounds after a preset and as 8 per exercise for classic Tabata. |
| TabataBuilder.PresetTotals | ui/application/src/components/workout/builders/TabataBuilder.tsx:104-127 | After a preset the intervals are rounds × n and the cycle times add up to n × (work + rest) × rounds. |
| TabataBuilder.ClassicTabataIsFourMinutesEach | ui/application/src/components/workout/builders/TabataBuilder.tsx:91-127 | After the classic preset, n exercises take 4n minutes and 8n intervals. |
| TabataSession.WorkTime | ui/application/src/components/workout/sessions/TabataSessionInterface.tsx:46 | The current exercise's work seconds, 20 when it gives none; `PhaseTimeRemaining` counts a work phase down from it. |
| TabataSession.PhaseTimeRemaining | ui/application/src/components/workout/sessions/TabataSessionInterface.tsx:46-54 | The phase's limit (work or rest, defaulting to 20 and 10) less the time spent in it, never below 0. |
| TabataSession.AutoAdvance | ui/application/src/components/workout/sessions/TabataSessionInterface.tsx:58-96 | Paused or with time left in the phase, nothing changes; completion is reported only when the work phase of the final round of the last exercise expires. |
| TabataSession.Next | ui/application/src/components/workout/sessions/TabataSessionInterface.tsx:98-115 | `handleNext` starts the next exercise at round 1 in work, or completes on the last one. |
| TabataSession.NextExercise | ui/application/src/components/workout/sessions/TabataSessionInterface.tsx:137-142 | The following exercise, none on the last one. |
| TabataSession.StartIsRunning | ui/application/src/components/workout/sessions/TabataSessionInterface.tsx:37-43 | A session starts at the first exercise, round 1, in work, from time 0, within bounds. |
| TabataSession.AutoAdvanceKeepsRunning | ui/application/src/components/workout/sessions/TabataSessionInterface.tsx:58-96 | The effect keeps the index and round within bounds until it reports completion. |
| TabataSession.NextKeepsRunning | ui/application/src/components/workout/sessions/TabataSessionInterface.tsx:98-115 | "Next" keeps the index and round within bounds when it does not complete. |
| TabataSession.ExpiredPhaseMovesForward | ui/application/src/components/workout/sessions/TabataSessionInterface.tsx:62-94 | An expired phase always moves on: to the rest, to the next round or to the next exercise. |
| TabataSession.CompletionCountsAllIntervals | ui/application/src/components/workout/sessions/TabataSessionInterface.tsx:75-86 | The completion report counts exercises × rounds intervals. |
| TabataSession.FinishReport | ui/application/src/components/workout/sessions/TabataSessionInterface.tsx:117-125 | Finishing on the last round of the last exercise counts the intervals the completion report counts (`FinishOnLastRoundMatchesCompletion`). |
| TabataSession.FinishOnLastRoundMatchesCompletion | ui/application/src/components/workout/sessions/TabataSessionInterface.tsx:117-125 | Finishing in the last work round of the last exercise reports the intervals that round's completion would. |
| TabataSession.OverallProgress | ui/application/src/components/workout/sessions/TabataSessionInterface.tsx:131-135 | Intervals finished, out of all; `OverallProgressBelowWhole` shows the first stays below the second while running. |
| TabataSession.OverallProgressBelowWhole | ui/application/src/components/workout/sessions/TabataSessionInterface.tsx:131-135 | While running with a positive round count, the intervals done are fewer than all of them. |
| TabataSession.Runner.constructor | ui/application/src/components/workout/sessions/TabataSessionInterface.tsx:37-43 | The runner starts at the first exercise, round 1, in work, from time 0. |
| TabataSession.Runner.Tick | ui/application/src/components/workout/sessions/TabataSessionInterface.tsx:58-96 | The state after the effect, with the last write winning, is that of `AutoAdvance`, and so is the report. |
| TabataSession.Runner.HandleNext | ui/application/src/components/workout/sessions/TabataSessionInterface.tsx:98-115 | The state after `handleNext` is that of `Next`, and so is the report. |
| ForTimeBuilder.UpdateTotalRounds | ui/application/src/components/workout/builders/ForTimeBuilder.tsx:17-23 | The stored rounds are the input clamped to 1..50, and nothing else changes. |
| ForTimeBuilder.NewForTimeExercise | ui/application/src/components/workout/builders/ForTimeBuilder.tsx:25-34 | The new exercise has 21 reps, is bodyweight, and is numbered one past the old length. |
| ForTimeBuilder.AddExercise | ui/application/src/components/workout/builders/ForTimeBuilder.tsx:25-38 | The new exercise is appended and the rest of the workout is kept. |
| ForTimeBuilder.MoveExercise | ui/application/src/components/workout/builders/ForTimeBuilder.tsx:61-76 | The splice move followed by renumbering `orderInWorkout`. |
| ForTimeBuilder.RemoveExercise | ui/application/src/components/workout/builders/ForTimeBuilder.tsx:50-59 | Only the exercise list changes: it loses one entry when the index is in range and none otherwise; `RemoveKeepsOrderAndRenumbers` shows the others keep their order and are renumbered from 1. |
| ForTimeBuilder.RemoveKeepsOrderAndRenumbers | ui/application/src/components/workout/builders/ForTimeBuilder.tsx:50-59 | Removing keeps the others in order and otherwise untouched, numbered 1..n−1. |
| ForTimeBuilder.MoveKeepsOrderAndRenumbers | ui/application/src/components/workout/builders/ForTimeBuilder.tsx:61-76 | Moving is a permutation, order numbers aside, that keeps the others in order and numbers all 1..n. |
| ForTimeBuilder.Rounds | ui/application/src/components/workout/builders/ForTimeBuilder.tsx:84-85 | The round multiplier is never 0: a missing or zero setting counts as one round. |
| ForTimeBuilder.EstimatedMinutes | ui/application/src/components/workout/builders/ForTimeBuilder.tsx:88-94 | The estimate is the least whole number of minutes covering 2.5 s per rep plus 5 s per exercise per round. |
| ForTimeBuilder.MultipleRoundsAfterUpdate | ui/application/src/components/workout/builders/ForTimeBuilder.tsx:17-23 | After the rounds input is set, `isMultipleRounds` holds exactly when the input asked for more than one round. |
| ForTimeBuilder.TotalReps | ui/application/src/components/workout/builders/ForTimeBuilder.tsx:83-86 | One round's reps times the rounds: adding an exercise adds 21 × rounds (`AddExerciseAddsARoundOfReps`), it equals the session's volume (`ForTimeSession.TotalVolumeIsBuilderTotal`), and it is over 1000 exactly when the validator warns (`VolumeWarningMatchesBuilderTotal`). |
| ForTimeBuilder.AddExerciseAddsARoundOfReps | ui/application/src/components/workout/builders/ForTimeBuilder.tsx:25-38 | Adding an exercise adds its 21 reps once per round to the total. |
| ForTimeBuilder.VolumeWarningMatchesBuilderTotal | ui/application/src/utils/workout-validation.ts:225-233 | The validator's volume warning fires exactly when the builder's rep total passes 1000. |
| ForTimeSession.TotalRounds | ui/application/src/components/workout/sessions/ForTimeSessionInterface.tsx:44 | The round multiplier is never 0: a missing or zero setting counts as one round. |
| ForTimeSession.RecordStart | ui/application/src/components/workout/sessions/ForTimeSessionInterface.tsx:50-54 | A start time is appended only when as many starts are recorded as exercises completed. |
| ForTimeSession.ExerciseSplits | ui/application/src/components/workout/sessions/ForTimeSessionInterface.tsx:96-101 | One split for each recorded start. |
| ForTimeSession.Next | ui/application/src/components/workout/sessions/ForTimeSessionInterface.tsx:56-83 | The completion time is appended and counted, the starts are kept, and completion is reported exactly after the last exercise of the last round. |
| ForTimeSession.NextExercise | ui/application/src/components/workout/sessions/ForTimeSessionInterface.tsx:109-117 | The next exercise in the round, else the first one while a round remains, else none. |
| ForTimeSession.TotalExercises | ui/application/src/components/workout/sessions/ForTimeSessionInterface.tsx:45 | Exercises per round times rounds; `CompletionCountsEveryExercise` shows the completion report reaches it, and `FinishReportsLessThanCompletion` that an early finish stays below it. |
| ForTimeSession.TotalVolume | ui/application/src/components/workout/sessions/ForTimeSessionInterface.tsx:123-127 | Each exercise's reps times the rounds, added up; `TotalVolumeIsBuilderTotal` shows it is the builder's rep total for the same workout. |
| ForTimeSession.TotalVolumeIsBuilderTotal | ui/application/src/components/workout/sessions/ForTimeSessionInterface.tsx:123-127 | The session's total volume equals the builder's rep total for the same workout. |
| ForTimeSession.StartIsRecordedAndOnTrack | ui/application/src/components/workout/sessions/ForTimeSessionInterface.tsx:37-45 | The start state has consistent time records and counters. |
| ForTimeSession.RecordStartKeepsRecords | ui/application/src/components/workout/sessions/ForTimeSessionInterface.tsx:50-54 | The start effect keeps the starts at most one ahead of the completions. |
| ForTimeSession.NextKeepsRecords | ui/application/src/components/workout/sessions/ForTimeSessionInterface.tsx:56-59 | "Next" keeps the starts at most one ahead of the completions. |
| ForTimeSession.NextStaysOnTrack | ui/application/src/components/workout/sessions/ForTimeSessionInterface.tsx:61-82 | Each "next" that does not complete keeps exercises completed = rounds done × n + index. |
| ForTimeSession.CompletionCountsEveryExercise | ui/application/src/components/workout/sessions/ForTimeSessionInterface.tsx:66-73 | The completion reports exactly rounds × n exercises and every round. |
| ForTimeSession.FinishReport | ui/application/src/components/workout/sessions/ForTimeSessionInterface.tsx:85-94 | The round on show, the exercises completed, the time and the splits so far; `FinishReportsLessThanCompletion` bounds it. |
| ForTimeSession.FinishReportsLessThanCompletion | ui/application/src/components/workout/sessions/ForTimeSessionInterface.tsx:85-94 | Finishing while the workout runs reports a round within the rounds set and fewer exercises than rounds × exercises, with one split per recorded start. |
| ForTimeSession.SplitsIncludeTheLastCompletion | ui/application/src/components/workout/sessions/ForTimeSessionInterface.tsx:66-73 | The splits the completion report computes before the last completion is recorded equal the splits after it. |
| ForTimeSession.RecordStartChronological | ui/application/src/components/workout/sessions/ForTimeSessionInterface.tsx:50-54 | As the clock moves on, the start effect keeps the recorded times in order. |
| ForTimeSession.NextChronological | ui/application/src/components/workout/sessions/ForTimeSessionInterface.tsx:56-59 | As the clock moves on, "next" keeps the recorded times in order. |
| ForTimeSession.SplitsNonNegative | ui/application/src/components/workout/sessions/ForTimeSessionInterface.tsx:96-101 | With the times in order, no split is negative. |
| ForTimeSession.Runner.constructor | ui/application/src/components/workout/sessions/ForTimeSessionInterface.tsx:37-42 | The runner starts in round 1 at index 0 with no times recorded. |
| ForTimeSession.Runner.TrackStart | ui/application/src/components/workout/sessions/ForTimeSessionInterface.tsx:50-54 | The state after the effect is that of `RecordStart`. |
| ForTimeSession.Runner.HandleNext | ui/application/src/components/workout/sessions/ForTimeSessionInterface.tsx:56-83 | The state after `handleNext` is that of `Next`, and so is the report. |
| AMRAPBuilder.UpdateTimeCapMinutes | ui/application/src/components/workout/builders/AMRAPBuilder.tsx:17-23 | The stored time cap is the input clamped to 1..120, and nothing else changes. |
| AMRAPBuilder.NewAmrapExercise | ui/application/src/components/workout/builders/AMRAPBuilder.tsx:25-35 | The new exercise has 10 reps, is bodyweight, and both positions are the old length + 1. |
| AMRAPBuilder.AddExerciseToRound | ui/application/src/components/workout/builders/AMRAPBuilder.tsx:25-39 | The new exercise is appended and the rest of the workout is kept. |
| AMRAPBuilder.MoveExercise | ui/application/src/components/workout/builders/AMRAPBuilder.tsx:62-78 | The splice move followed by renumbering both positions. |
| AMRAPBuilder.RemoveExercise | ui/application/src/components/workout/builders/AMRAPBuilder.tsx:51-60 | Only the exercise list changes: it loses one entry when the index is in range and none otherwise; `RemoveKeepsOrderAndRenumbers` shows the others keep their order and are renumbered from 1. |
| AMRAPBuilder.RemoveKeepsOrderAndRenumbers | ui/application/src/components/workout/builders/AMRAPBuilder.tsx:51-60 | Removing keeps the others in order and otherwise untouched, and numbers both positions 1..n−1. |
| AMRAPBuilder.MoveKeepsOrderAndRenumbers | ui/application/src/components/workout/builders/AMRAPBuilder.tsx:62-78 | Moving is a permutation, positions aside, that keeps the others in order and numbers both positions 1..n. |
| AMRAPBuilder.EstimatedRoundTime | ui/application/src/components/workout/builders/AMRAPBuilder.tsx:85-90 | The round time is the least whole number of minutes covering 2.5 s per rep plus 30 s. |
| AMRAPBuilder.EstimatedRounds | ui/application/src/components/workout/builders/AMRAPBuilder.tsx:92-94 | No exercises give 0 rounds; the rest is stated by `EstimatedRoundsFitTheCap`. |
| AMRAPBuilder.RoundTimeAtLeastOneIff | ui/application/src/components/workout/builders/AMRAPBuilder.tsx:85-90 | The round time is at least one minute exactly when the reps add up to more than −12. |
| AMRAPBuilder.RoundTimeBounds | ui/application/src/components/workout/builders/AMRAPBuilder.tsx:85-90 | With no negative reps the round time is at least a minute, and every 24 reps add at most a minute. |
| AMRAPBuilder.EstimatedRoundsFitTheCap | ui/application/src/components/workout/builders/AMRAPBuilder.tsx:92-94 | With no negative reps and a non-negative cap, the estimate is the most whole rounds that fit in the cap, and at most the cap in minutes. |
| AMRAPBuilder.EstimatedRoundsAfterUpdateAtMostMaxTimeCap | ui/application/src/components/workout/builders/AMRAPBuilder.tsx:17-23 | Once the cap comes from the input, the estimate is at most 120 rounds. |
| AMRAPSession.TimeRemaining | ui/application/src/components/workout/sessions/AMRAPSessionInterface.tsx:44-45 | The seconds left are 60 × cap − session time, never below 0. |
| AMRAPSession.CheckTime | ui/application/src/components/workout/sessions/AMRAPSessionInterface.tsx:50-62 | The first time no time remains, the session is marked timed out and reports. Otherwise nothing changes. |
| AMRAPSession.Next | ui/application/src/components/workout/sessions/AMRAPSessionInterface.tsx:64-78 | One more exercise is counted. The index advances, or after the last exercise it wraps to 0 and both round counters go up. |
| AMRAPSession.NextExercise | ui/application/src/components/workout/sessions/AMRAPSessionInterface.tsx:97-102 | The following exercise, or the first one after the last. |
| AMRAPSession.RoundLength | ui/application/src/components/workout/sessions/AMRAPSessionInterface.tsx:64-78 | A round takes as many "next"s as it has exercises, and one for an empty round. |
| AMRAPSession.RoundProgress | ui/application/src/components/workout/sessions/AMRAPSessionInterface.tsx:104-106 | The position in the round out of its length; `RoundProgressTracksNext` states what it shows. |
| AMRAPSession.RoundProgressTracksNext | ui/application/src/components/workout/sessions/AMRAPSessionInterface.tsx:104-106 | On counted state of a non-empty round the position runs from 1 to the round's length, the exercises done are the full rounds plus the position less one, and "next" moves the position on by one or back to 1. |
| AMRAPSession.StartIsCounted | ui/application/src/components/workout/sessions/AMRAPSessionInterface.tsx:37-42 | The start state satisfies currentRound = roundsCompleted + 1 and exercisesCompleted = roundsCompleted × n + index. |
| AMRAPSession.NextStaysCounted | ui/application/src/components/workout/sessions/AMRAPSessionInterface.tsx:64-78 | "Next" preserves both counter invariants. |
| AMRAPSession.CheckTimeStaysCounted | ui/application/src/components/workout/sessions/AMRAPSessionInterface.tsx:50-62 | The time-up effect preserves both counter invariants. |
| AMRAPSession.TimeUpReportsOnce | ui/application/src/components/workout/sessions/AMRAPSessionInterface.tsx:50-62 | Right after the time-up report, the effect reports nothing and changes nothing. |
| AMRAPSession.FinishReport | ui/application/src/components/workout/sessions/AMRAPSessionInterface.tsx:80-89 | The rounds and exercises completed so far; the time-up report is this report (`TimeUpReportIsFinishReport`), and its exercises are rounds × exercises per round plus a partial round (`ReportAddsUp`). |
| AMRAPSession.TimeUpReportIsFinishReport | ui/application/src/components/workout/sessions/AMRAPSessionInterface.tsx:50-89 | The time-up report is what finishing at that moment reports. |
| AMRAPSession.ReportAddsUp | ui/application/src/components/workout/sessions/AMRAPSessionInterface.tsx:80-89 | A report from a counted state splits the exercises done into full rounds and the partial round. |
| AMRAPSession.NextsAdvanceOneRound | ui/application/src/components/workout/sessions/AMRAPSessionInterface.tsx:64-78 | A full round of "next"s from a round's start returns to index 0, one round further on. |
| AMRAPSession.Runner.constructor | ui/application/src/components/workout/sessions/AMRAPSessionInterface.tsx:37-42 | The runner starts in round 1 at index 0, nothing done, counters consistent. |
| AMRAPSession.Runner.CheckTimeUp | ui/application/src/components/workout/sessions/AMRAPSessionInterface.tsx:50-62 | The state after the effect is that of `CheckTime`, and so is the report. |
| AMRAPSession.Runner.HandleNext | ui/application/src/components/workout/sessions/AMRAPSessionInterface.tsx:64-78 | The state after `handleNext` is that of `Next`. |
| EMOMBuilder.UpdateTotalMinutes | ui/application/src/components/workout/builders/EMOMBuilder.tsx:18-26 | The minutes are the input clamped to 1..60, every other field is kept, and exactly the exercises whose minute is within it are kept. |
| EMOMBuilder.UpdateTotalMinutesIdempotent | ui/application/src/components/workout/builders/EMOMBuilder.tsx:18-26 | Setting the same minute count again changes nothing. |
| EMOMBuilder.UpdateTotalMinutesKeepsFittingWorkout | ui/application/src/components/workout/builders/EMOMBuilder.tsx:18-26 | When every exercise fits the new count, none is dropped. |
| EMOMBuilder.NewEmomExercise | ui/application/src/components/workout/builders/EMOMBuilder.tsx:28-38 | The new exercise is at that minute, has 10 reps, is bodyweight, and is numbered one past the old length. |
| EMOMBuilder.AddExerciseToMinute | ui/application/src/components/workout/builders/EMOMBuilder.tsx:28-42 | The new exercise is appended and the rest of the workout is kept. |
| EMOMBuilder.RemoveExercise | ui/application/src/components/workout/builders/EMOMBuilder.tsx:54-60 | Only the exercise list changes. An index in range drops exactly that entry, and the others keep their order and their `orderInWorkout` numbers. Any other index leaves the workout as it was. |
| EMOMBuilder.RemoveThenAddRepeatsLastOrder | ui/application/src/components/workout/builders/EMOMBuilder.tsx:54-60 | Removal does not renumber: removing any but the last of a list numbered 1..n and then adding leaves two exercises numbered n. |
| EMOMBuilder.ExercisesForMinute | ui/application/src/components/workout/builders/EMOMBuilder.tsx:62-64 | Exactly the exercises at that minute, in workout order. |
| EMOMBuilder.AddShowsAtItsMinuteOnly | ui/application/src/components/workout/builders/EMOMBuilder.tsx:28-64 | Adding at a minute appends to that minute's list and leaves every other minute's list as it was. |
| EMOMBuilder.Builder.constructor | ui/application/src/components/workout/builders/EMOMBuilder.tsx:14-15 | The picker starts closed with no minute selected. |
| EMOMBuilder.Builder.HandleAddExercise | ui/application/src/components/workout/builders/EMOMBuilder.tsx:66-69 | The picker opens for that minute and the workout is kept. |
| EMOMBuilder.Builder.HandleExerciseSelect | ui/application/src/components/workout/builders/EMOMBuilder.tsx:71-77 | The exercise is added at the selected minute when there is one, and nothing is added otherwise. The picker closes and forgets the minute either way. |
| EMOMSession.MoveTo | ui/application/src/components/workout/sessions/EMOMSessionInterface.tsx:89-100 | Moving to a minute steps both round counters when it starts a round, and sets the index to the minute's place in its round. |
| EMOMSession.Next | ui/application/src/components/workout/sessions/EMOMSessionInterface.tsx:75-102 | One more exercise is counted. At or past the last minute the workout completes with the configured round count; otherwise the next minute starts. |
| EMOMSession.CatchUp | ui/application/src/components/workout/sessions/EMOMSessionInterface.tsx:49-73 | Unless paused, the minute catches up with the clock, never past the last minute and never backwards. |
| EMOMSession.At | ui/application/src/components/workout/sessions/EMOMSessionInterface.tsx:45 | An exercise by index, none outside the list. |
| EMOMSession.NextExercise | ui/application/src/components/workout/sessions/EMOMSessionInterface.tsx:120-125 | The next exercise in the round, or the round's first after its last. |
| EMOMSession.StartIsAligned | ui/application/src/components/workout/sessions/EMOMSessionInterface.tsx:36-40 | The start state's round and index agree with minute 1. |
| EMOMSession.OneMinuteOnStaysAligned | ui/application/src/components/workout/sessions/EMOMSessionInterface.tsx:89-100 | Moving on one minute keeps round and index aligned with the minute. |
| EMOMSession.NextKeepsAligned | ui/application/src/components/workout/sessions/EMOMSessionInterface.tsx:75-102 | "Next" keeps round and index aligned with the minute. |
| EMOMSession.CatchUpKeepsAligned | ui/application/src/components/workout/sessions/EMOMSessionInterface.tsx:49-73 | A timer callback that finds the clock at most one minute ahead keeps them aligned. |
| EMOMSession.FinishReport | ui/application/src/components/workout/sessions/EMOMSessionInterface.tsx:104-112 | On an aligned tally it reports the round on show and the minute reached (`FinishReportsCurrentRound`). |
| EMOMSession.FinishReportsCurrentRound | ui/application/src/components/workout/sessions/EMOMSessionInterface.tsx:104-112 | While aligned, finishing reports exactly the round on show, and the current minute as the total. |
| EMOMSession.RoundTestsAgreeFromTwoPerRound | ui/application/src/components/workout/sessions/EMOMSessionInterface.tsx:92 | With two or more exercises per round, the written round test and the intended one agree. |
| EMOMSession.NextAsWritten | ui/application/src/components/workout/sessions/EMOMSessionInterface.tsx:75-102 | The source's `handleNext`: it agrees with `Next` from two exercises per round (`AsWrittenAgreesFromTwoPerRound`) and never changes the round with one (`OneExercisePerRoundNeverAdvancesRound`). |
| EMOMSession.CatchUpAsWritten | ui/application/src/components/workout/sessions/EMOMSessionInterface.tsx:49-73 | The source's timer callback: it agrees with `CatchUp` from two exercises per round and never changes the round with one. |
| EMOMSession.AsWrittenAgreesFromTwoPerRound | ui/application/src/components/workout/sessions/EMOMSessionInterface.tsx:49-102 | With two or more exercises per round, "next" and the timer as written equal the intended ones. |
| EMOMSession.OneExercisePerRoundNeverAdvancesRound | ui/application/src/components/workout/sessions/EMOMSessionInterface.tsx:59-97 | As written, with one exercise per round neither "next" nor the timer ever changes the round. |
| EMOMSession.AsWrittenRoundDisagreesWithFinish | ui/application/src/components/workout/sessions/EMOMSessionInterface.tsx:92-112 | As written, a 3-minute workout with one exercise per round shows round 1 after two "next"s while finishing reports 3 rounds. |
| EMOMSession.Runner.constructor | ui/application/src/components/workout/sessions/EMOMSessionInterface.tsx:36-40 | The runner starts at minute 1, round 1, index 0, aligned. |
| EMOMSession.Runner.HandleNext | ui/application/src/components/workout/sessions/EMOMSessionInterface.tsx:75-102 | The state after `handleNext` is that of `Next`, with the intended round test, and so is the report. |
| EMOMSession.Runner.Tick | ui/application/src/components/workout/sessions/EMOMSessionInterface.tsx:52-69 | The state after the timer callback is that of `CatchUp`, with the intended round test. |
| WorkoutBuilder.InitialTypeData | ui/application/src/components/workout/WorkoutBuilder.tsx:41-56 | EMOM starts at 12 minutes, AMRAP at a 20-minute cap, For Time and Tabata at one round and Ladder ascending, all without exercises. |
| WorkoutBuilder.ExerciseDefaults | ui/application/src/components/workout/WorkoutBuilder.tsx:75-85 | One set of 10 reps with 60 s rest, numbered one past the old length. |
| WorkoutBuilder.AddKeepsNumbering | ui/application/src/components/workout/WorkoutBuilder.tsx:87-95 | Adding to a list numbered 1..n leaves it numbered 1..n+1. |
| WorkoutBuilder.RenumberKeepsPlan | ui/application/src/components/workout/WorkoutBuilder.tsx:97-105 | Renumbering touches only `orderInWorkout` and numbers the list 1..n. |
| WorkoutBuilder.RemoveExercise | ui/application/src/components/workout/WorkoutBuilder.tsx:97-105 | The list loses one entry when the index is in range and none otherwise; `RemoveKeepsOrderAndRenumbers` shows the others keep their order and are renumbered from 1. |
| WorkoutBuilder.RemoveKeepsOrderAndRenumbers | ui/application/src/components/workout/WorkoutBuilder.tsx:97-105 | Removing keeps the others in order and otherwise untouched, numbered 1..n−1. |
| WorkoutBuilder.TextInput | ui/application/src/components/workout/WorkoutBuilder.tsx:307-321 | An emptied text input stores no value, and any other text is kept. |
| WorkoutBuilder.UpdateExercise | ui/application/src/components/workout/WorkoutBuilder.tsx:107-112 | Slot `i` gets the update merged in, and every other slot and the length are kept. |
| WorkoutBuilder.UpdateKeepsNumbering | ui/application/src/components/workout/WorkoutBuilder.tsx:107-112 | No input of the form touches `orderInWorkout`, so an update keeps the numbering. |
| WorkoutBuilder.MoveExercise | ui/application/src/components/workout/WorkoutBuilder.tsx:114-125 | The splice move followed by renumbering. |
| WorkoutBuilder.MoveKeepsOrderAndRenumbers | ui/application/src/components/workout/WorkoutBuilder.tsx:114-125 | Moving is a permutation, order numbers aside: the moved exercise lands at `to`, the others keep their order, and all are numbered 1..n. |
| WorkoutBuilder.AvailableExercises | ui/application/src/components/workout/WorkoutBuilder.tsx:60-66 | The search results replace the full list exactly when the search term is at least 2 UTF-16 code units long, JavaScript's `length`. |
| WorkoutBuilder.OneAstralCharacterSearches | ui/application/src/components/workout/WorkoutBuilder.tsx:60-66 | A single emoji beyond U+FFFF already has length 2, so it switches the search results on. |
| WorkoutBuilder.Builder.constructor | ui/application/src/components/workout/WorkoutBuilder.tsx:37-56 | The builder starts with the initial type data, an empty search and the picker closed. |
| WorkoutBuilder.Builder.AddExercise | ui/application/src/components/workout/WorkoutBuilder.tsx:87-95 | The defaults are appended, the picker closes and the search is cleared. |
| WorkoutBuilder.Builder.SetSearchTerm | ui/application/src/components/workout/WorkoutBuilder.tsx:379 | The search term becomes the typed text, and nothing else changes. |
| WorkoutBuilder.Builder.HandleWorkoutTypeDataChange | ui/application/src/components/workout/WorkoutBuilder.tsx:69-73 | The type builder's new data is kept, and nothing else changes. |
| SessionContext.SetCount | ui/application/src/contexts/WorkoutSessionContext.tsx:95-96 | The planned sets, falling back to 1, as an array length: missing or 0 gives one set, and a negative length gives none. |
| SessionContext.CreateExerciseProgress | ui/application/src/contexts/WorkoutSessionContext.tsx:89-114 | One entry per planned exercise, in order, not started, with sets numbered 1..k that are all not started. |
| SessionContext.SetCounts | ui/application/src/contexts/WorkoutSessionContext.tsx:49 | Each exercise's number of sets, in order. |
| SessionContext.CompletedSetCounts | ui/application/src/contexts/WorkoutSessionContext.tsx:50-52 | Each exercise's number of completed sets, in order. |
| SessionContext.SetVolume | ui/application/src/contexts/WorkoutSessionContext.tsx:53-59 | A set contributes weight × reps when it is completed with both values present, and 0 when it is not completed. |
| SessionContext.SetVolumes | ui/application/src/contexts/WorkoutSessionContext.tsx:53-59 | Each set's contribution, in order. |
| SessionContext.ExerciseVolumes | ui/application/src/contexts/WorkoutSessionContext.tsx:53-59 | Each exercise's summed contributions, in order. |
| SessionContext.CalculateStats | ui/application/src/contexts/WorkoutSessionContext.tsx:44-87 | Completed and skipped exercises never exceed the exercises, completed sets never exceed the sets (`StatsBounds`), a new session has zero counts beside its totals (`NewSessionStats`), and no completed set means no volume (`NoCompletedSetNoVolume`). |
| SessionContext.StatsBounds | ui/application/src/contexts/WorkoutSessionContext.tsx:44-52 | Completed plus skipped exercises are at most all exercises, and completed sets are at most all sets. |
| SessionContext.NoCompletedSetNoVolume | ui/application/src/contexts/WorkoutSessionContext.tsx:53-59 | Until a set is completed the total volume is 0. |
| SessionContext.LadderDirection | ui/application/src/contexts/WorkoutSessionContext.tsx:150-155 | The ladder type, ascending when none is set. |
| SessionContext.FirstOr | ui/application/src/contexts/WorkoutSessionContext.tsx:116-159 | The first exercise's field, falling back to a default when it is missing or 0 or there is no exercise. |
| SessionContext.InitialTypeProgress | ui/application/src/contexts/WorkoutSessionContext.tsx:116-159 | Without a type id (or with id 0) or without type data, the progress is empty. Otherwise each type's starting counters are set, always with volume 0 and estimate 0. |
| SessionContext.InitializeWorkoutTypeProgress | ui/application/src/contexts/WorkoutSessionContext.tsx:116-159 | The record filled in key by key equals `InitialTypeProgress`. |
| SessionContext.Over | ui/application/src/contexts/WorkoutSessionContext.tsx:543-546 | `{...old, ...update}` on one key: the update's value when present, the old one otherwise. |
| SessionContext.MergeLaws | ui/application/src/contexts/WorkoutSessionContext.tsx:539-556 | Merging an empty update changes nothing, merging the same update twice is merging once, and later updates win. |
| SessionContext.NewSession | ui/application/src/contexts/WorkoutSessionContext.tsx:231-267 | The new session is active at the first exercise, with progress from `createExerciseProgress` and nothing done. |
| SessionContext.Tick | ui/application/src/contexts/WorkoutSessionContext.tsx:614-631 | A tick updates the time only while the timer runs with a start, and then shows the time since the start less the paused time. |
| SessionContext.Reduce | ui/application/src/contexts/WorkoutSessionContext.tsx:229-581 | The reducer: the lemmas that follow state each action's effect, and `ReduceKeepsConsistent` shows every action keeps the state consistent. |
| SessionContext.NoSessionNoChange | ui/application/src/contexts/WorkoutSessionContext.tsx:270-540 | Without a session, every action other than START_SESSION, UPDATE_TIMER, LOAD_SESSION and CLEAR_SESSION returns the state unchanged. |
| SessionContext.ReduceKeepsConsistent | ui/application/src/contexts/WorkoutSessionContext.tsx:229-581 | Every action keeps the stats equal to `calculateStats` of the current session. |
| SessionContext.InitialIsConsistent | ui/application/src/contexts/WorkoutSessionContext.tsx:22-42 | The initial store is consistent, with no session active and the timer stopped. |
| SessionContext.NewSessionStats | ui/application/src/contexts/WorkoutSessionContext.tsx:44-59 | A new session's stats count all its exercises and sets, none done and no volume. |
| SessionContext.StartSessionStarts | ui/application/src/contexts/WorkoutSessionContext.tsx:231-267 | START_SESSION makes the session active, running its timer from `now`, with nothing done. |
| SessionContext.StartKeepsEarlierPausedTime | ui/application/src/contexts/WorkoutSessionContext.tsx:255-264 | START_SESSION keeps the timer's paused total, pause mark and target duration from before. |
| SessionContext.PauseEffect | ui/application/src/contexts/WorkoutSessionContext.tsx:269-291 | PAUSE_SESSION marks the session paused and the timer stopped and paused at `now`, and keeps the progress. |
| SessionContext.ResumeEffect | ui/application/src/contexts/WorkoutSessionContext.tsx:293-320 | RESUME_SESSION makes the session active, clears the pause mark and adds the time since it to the paused time. |
| SessionContext.PauseResumeTick | ui/application/src/contexts/WorkoutSessionContext.tsx:269-320 | A pause from `p` to `q` takes exactly `q − p` off the running time the next tick reports. |
| SessionContext.EndAndAbandonEffects | ui/application/src/contexts/WorkoutSessionContext.tsx:322-364 | END_SESSION completes the session at `now`; ABANDON_SESSION marks it abandoned and resets the timer. Both leave no session active. |
| SessionContext.ExerciseActionsTouchOnlyTheirExercise | ui/application/src/contexts/WorkoutSessionContext.tsx:366-452 | START, COMPLETE and SKIP_EXERCISE change only the addressed exercise. An index outside the list changes no progress, though START_EXERCISE still moves `currentExerciseIndex`. |
| SessionContext.CompletedExerciseTime | ui/application/src/contexts/WorkoutSessionContext.tsx:394-425 | A completed exercise's time is the span since its start, or 0 if it never started. |
| SessionContext.StartSetTouchesOnlyItsSet | ui/application/src/contexts/WorkoutSessionContext.tsx:454-489 | START_SET changes only set `setNumber − 1` of the addressed exercise. An index outside the lists changes nothing. |
| SessionContext.CompleteSetTouchesOnlyItsSet | ui/application/src/contexts/WorkoutSessionContext.tsx:491-527 | COMPLETE_SET changes only that set, merging the given values and marking it completed. |
| SessionContext.SetActionsUpdateProgress | ui/application/src/contexts/WorkoutSessionContext.tsx:454-527 | The set actions are those updates of the current session's progress, with the stats recomputed. |
| SessionContext.CompletedSetKeepsMissingValues | ui/application/src/contexts/WorkoutSessionContext.tsx:491-527 | A completed set keeps the values it is not given and is marked completed at `now`. |
| SessionContext.LoadSessionActiveIff | ui/application/src/contexts/WorkoutSessionContext.tsx:558-566 | LOAD_SESSION makes the store active exactly when the loaded session is active. |
| SessionContext.ClearSessionResets | ui/application/src/contexts/WorkoutSessionContext.tsx:568-576 | CLEAR_SESSION returns the initial store. |
| SessionService.Find | server/src/FitBuddy.Services/Services/WorkoutSessionService.cs:488-494 | The index of the first session with that id, none when no session has it. |
| SessionService.ReplaceKeepsValid | server/src/FitBuddy.Services/Services/WorkoutSessionService.cs:107-177 | Replacing a session by one with the same id and owner, under way only if the old one was, keeps the ids unique and one session under way per member. |
| SessionService.ServerSetCount | server/src/FitBuddy.Services/Services/WorkoutSessionService.cs:81-89 | `PlannedSets ?? 1` as a loop bound: a missing count gives one set, and zero or a negative count gives none. |
| SessionService.SetCountsAgreeExceptZero | server/src/FitBuddy.Services/Services/WorkoutSessionService.cs:81-89 | The server and the client build the same number of sets except for a planned count of 0. |
| SessionService.NewExerciseRow | server/src/FitBuddy.Services/Services/WorkoutSessionService.cs:66-89 | The row of a planned exercise is not started and has sets numbered 1..k, all not started. |
| SessionService.NewRows | server/src/FitBuddy.Services/Services/WorkoutSessionService.cs:64-92 | One row per planned exercise, in order. |
| SessionService.StartSession | server/src/FitBuddy.Services/Services/WorkoutSessionService.cs:31-105 | Refused for an anonymous caller, a member with a session under way, an unknown workout or an id already stored. Otherwise a new active session at index 0 is stored last. |
| SessionService.StartKeepsValid | server/src/FitBuddy.Services/Services/WorkoutSessionService.cs:39-45 | Starting keeps the store valid and leaves the member exactly one session under way. |
| SessionService.SecondStartRefused | server/src/FitBuddy.Services/Services/WorkoutSessionService.cs:39-45 | Right after a successful start, a second start by the same member is refused. |
| SessionService.PauseSession | server/src/FitBuddy.Services/Services/WorkoutSessionService.cs:107-127 | Only an active session pauses, marked at `now`. Anything else returns false and changes nothing. |
| SessionService.ResumeSession | server/src/FitBuddy.Services/Services/WorkoutSessionService.cs:129-155 | Only a paused session resumes, adding the time since the pause mark and clearing it. Anything else returns false and changes nothing. |
| SessionService.AbandonSession | server/src/FitBuddy.Services/Services/WorkoutSessionService.cs:157-177 | Any stored session is abandoned at `now`, and an unknown id returns false. |
| SessionService.PauseResumeAbandonKeepValid | server/src/FitBuddy.Services/Services/WorkoutSessionService.cs:107-177 | Pause, resume and abandon keep the store valid. |
| SessionService.PauseThenResume | server/src/FitBuddy.Services/Services/WorkoutSessionService.cs:107-155 | Pausing at `p` and resuming at `q` adds exactly `q − p` to the paused total and leaves the session active and unmarked. |
| SessionService.FindSameIds | server/src/FitBuddy.Services/Services/WorkoutSessionService.cs:488-494 | Stores with the same ids in the same order find the same index. |
| SessionService.FirstIsFirst | server/src/FitBuddy.Services/Services/WorkoutSessionService.cs:488-494 | The index found is at or before every session with that id. |
| SessionService.CompletedCount | server/src/FitBuddy.Services/Services/WorkoutSessionService.cs:511-519 | The completed count never exceeds the number of exercises. |
| SessionService.CalculateWorkoutResult | server/src/FitBuddy.Services/Services/WorkoutSessionService.cs:511-519 | The text `<done>/<all> exercises completed`: two runs of digits that read back as the completed count and the number of exercise rows, the first never above the second. |
| SessionService.CompleteSession | server/src/FitBuddy.Services/Services/WorkoutSessionService.cs:179-221 | Refused for an unknown session or another member's. Otherwise the session is completed at `now` and its result records (end − start) − paused seconds. |
| SessionService.CompleteKeepsValid | server/src/FitBuddy.Services/Services/WorkoutSessionService.cs:179-221 | Completing keeps the store valid. |
| SessionService.CompleteIgnoresStatus | server/src/FitBuddy.Services/Services/WorkoutSessionService.cs:179-221 | Completion does not check the status: a completed or abandoned session completes again and yields one more result. |
| SessionService.FindStarted | server/src/FitBuddy.Services/Services/WorkoutSessionService.cs:52-98 | A just-started session is the last one stored and is found there. |
| SessionService.PausedTimeLeftOutOfDuration | server/src/FitBuddy.Services/Services/WorkoutSessionService.cs:107-221 | Started at `t0`, paused at `p`, resumed at `q` and completed at `c`, a session records `(c − t0) − (q − p)` seconds. |
| SessionService.FindRow | server/src/FitBuddy.Services/Services/WorkoutSessionService.cs:496-501 | A slot found holds a row for that exercise in a session with that id. |
| SessionService.PutRow | server/src/FitBuddy.Services/Services/WorkoutSessionService.cs:292-440 | The store with one exercise row replaced and everything else kept. |
| SessionService.PutRowKeepsValid | server/src/FitBuddy.Services/Services/WorkoutSessionService.cs:292-440 | Rewriting a row changes no session's id, owner or status. |
| SessionService.StartExercise | server/src/FitBuddy.Services/Services/WorkoutSessionService.cs:292-311 | Only a row that has not started starts, at `now`. Anything else returns false and changes nothing. |
| SessionService.CompleteExercise | server/src/FitBuddy.Services/Services/WorkoutSessionService.cs:313-338 | Any existing row is completed, whatever its status. |
| SessionService.SkipExercise | server/src/FitBuddy.Services/Services/WorkoutSessionService.cs:340-359 | Any existing row is skipped, whatever its status. |
| SessionService.MapProgressDto | server/src/FitBuddy.Services/Profiles/WorkoutSessionProfile.cs:33-35 | The status becomes the DTO's; a start time, end time or notes given in the DTO replaces the row's; id, order and sets are kept; with none given only the status changes. |
| SessionService.UpdateExerciseProgress | server/src/FitBuddy.Services/Services/WorkoutSessionService.cs:404-421 | Any existing row takes the update. |
| SessionService.RowChangesMoveCompletedCount | server/src/FitBuddy.Services/Services/WorkoutSessionService.cs:292-359 | Completing a row that was not completed adds one to the result's count. Skipping such a row, or starting one, leaves the count as it was. |
| SessionService.FindSetIn | server/src/FitBuddy.Services/Services/WorkoutSessionService.cs:503-509 | The row's first set with that number, if any. |
| SessionService.FindSet | server/src/FitBuddy.Services/Services/WorkoutSessionService.cs:503-509 | A slot found holds a set with that number, in a row for that exercise, in a session with that id. |
| SessionService.PutSet | server/src/FitBuddy.Services/Services/WorkoutSessionService.cs:361-440 | The set at that slot becomes the given row. |
| SessionService.StartSet | server/src/FitBuddy.Services/Services/WorkoutSessionService.cs:361-380 | Only a set that has not started starts. Anything else returns false and changes nothing. |
| SessionService.CompleteSet | server/src/FitBuddy.Services/Services/WorkoutSessionService.cs:382-402 | Any existing set takes the given values and is completed at `now`, whatever status was sent. |
| SessionService.MapSetDto | server/src/FitBuddy.Services/Profiles/WorkoutSessionProfile.cs:37-39 | The status becomes the DTO's and the set number is kept; actual reps, weight, RPE or notes given in the DTO replace the set's; with no value given only the status changes. |
| SessionService.UpdateSetProgress | server/src/FitBuddy.Services/Services/WorkoutSessionService.cs:423-440 | Any existing set takes the update, its status included. |
| SessionService.PutSetKeepsValid | server/src/FitBuddy.Services/Services/WorkoutSessionService.cs:361-440 | Rewriting a set keeps the store valid. |
| SessionService.SessionExists | server/src/FitBuddy.Services/Services/WorkoutSessionService.cs:442-445 | True exactly when some stored session has that id. |
| SessionService.IsSessionActive | server/src/FitBuddy.Services/Services/WorkoutSessionService.cs:447-451 | True exactly when the session exists and is active or paused. |
| SessionService.IsSessionOwnedByMember | server/src/FitBuddy.Services/Services/WorkoutSessionService.cs:453-457 | In a store with distinct ids, true exactly when the session exists and belongs to the member. |
| SessionService.ActiveMemberSession | server/src/FitBuddy.Services/Services/WorkoutSessionService.cs:244-264 | The member's session that is active or paused, if any. |
| SessionService.ActiveMemberSessionIsTheOne | server/src/FitBuddy.Services/Services/WorkoutSessionService.cs:244-264 | In a valid store the member's session under way is the only one. |
| SessionService.MemberSessions | server/src/FitBuddy.Services/Services/WorkoutSessionService.cs:266-290 | Exactly the member's sessions, of that workout when one is given. |
| SessionService.Sweep | server/src/FitBuddy.Services/Services/WorkoutSessionService.cs:463-478 | Each session marked abandoned when stale and kept otherwise. |
| SessionService.StaleCountStep | server/src/FitBuddy.Services/Services/WorkoutSessionService.cs:463-478 | Counting one more session adds one exactly when it is stale. |
| SessionService.SweepStep | server/src/FitBuddy.Services/Services/WorkoutSessionService.cs:470-476 | Sweeping position `k` of a store swept up to `k` gives one swept up to `k + 1`. |
| SessionService.SweptPointwise | server/src/FitBuddy.Services/Services/WorkoutSessionService.cs:463-478 | A store swept at every position is the cleanup's store. |
| SessionService.SweepStale | server/src/FitBuddy.Services/Services/WorkoutSessionService.cs:463-478 | The loop marks exactly the stale sessions abandoned in place and returns their count. |
| SessionService.Cleanup | server/src/FitBuddy.Services/Services/WorkoutSessionService.cs:459-485 | Each session stale at the cutoff becomes abandoned, ending now, every other is unchanged, and the count returned is at most the store's size and is 0 exactly when none was stale. |
| SessionService.CleanupLeavesNoStale | server/src/FitBuddy.Services/Services/WorkoutSessionService.cs:459-486 | After a cleanup no stale session remains and the store is still valid. |
| SessionService.CleanupTwiceFindsNothing | server/src/FitBuddy.Services/Services/WorkoutSessionService.cs:459-486 | A second cleanup with the same cutoff finds nothing and changes nothing. |
| SessionService.Service.constructor | server/src/FitBuddy.Services/Services/WorkoutSessionService.cs:19-29 | The service starts with no sessions and no results. |
| SessionService.Service.Start | server/src/FitBuddy.Services/Services/WorkoutSessionService.cs:31-105 | The store and answer after `StartSession` are those of the function, and the store stays valid. |
| SessionService.Service.Pause | server/src/FitBuddy.Services/Services/WorkoutSessionService.cs:107-127 | The store and answer after `PauseSession` are those of the function. |
| SessionService.Service.Resume | server/src/FitBuddy.Services/Services/WorkoutSessionService.cs:129-155 | The store and answer after `ResumeSession` are those of the function. |
| SessionService.Service.Abandon | server/src/FitBuddy.Services/Services/WorkoutSessionService.cs:157-177 | The store and answer after `AbandonSession` are those of the function. |
| SessionService.Service.Complete | server/src/FitBuddy.Services/Services/WorkoutSessionService.cs:179-221 | The store after `CompleteSession` is that of the function; on success the new result is appended and its id, its position in `results`, is returned, as `CreateWorkoutResult` returns the new result's id. |
| SessionService.Service.StartExerciseOf | server/src/FitBuddy.Services/Services/WorkoutSessionService.cs:292-311 | The store and answer are those of `StartExercise`. |
| SessionService.Service.CompleteExerciseOf | server/src/FitBuddy.Services/Services/WorkoutSessionService.cs:313-338 | The store and answer are those of `CompleteExercise`, and the store stays valid. |
| SessionService.Service.SkipExerciseOf | server/src/FitBuddy.Services/Services/WorkoutSessionService.cs:340-359 | The store and answer are those of `SkipExercise`. |
| SessionService.Service.UpdateExerciseProgressOf | server/src/FitBuddy.Services/Services/WorkoutSessionService.cs:404-421 | The store and answer are those of `UpdateExerciseProgress`. |
| SessionService.Service.StartSetOf | server/src/FitBuddy.Services/Services/WorkoutSessionService.cs:361-380 | The store and answer are those of `StartSet`. |
| SessionService.Service.CompleteSetOf | server/src/FitBuddy.Services/Services/WorkoutSessionService.cs:382-402 | The store and answer are those of `CompleteSet`. |
| SessionService.Service.UpdateSetProgressOf | server/src/FitBuddy.Services/Services/WorkoutSessionService.cs:423-440 | The store and answer are those of `UpdateSetProgress`. |
| SessionService.Service.CleanupAbandoned | server/src/FitBuddy.Services/Services/WorkoutSessionService.cs:459-486 | The store after the cleanup is that of `Cleanup` and the count returned is its count of stale sessions. |
| SessionService.Service.CreateRows | server/src/FitBuddy.Services/Services/WorkoutSessionService.cs:64-90 | The loops build exactly `NewRows`: one row per planned exercise, in order, each with its sets numbered from 1 (one set when none is planned). |
| SessionRequests.CreateSessionErrors | server/src/FitBuddy.Api/RequestModels/Sessions/CreateWorkoutSessionRequestModel.cs:73-84 | A session request passes exactly with a non-empty id, a workout id above 0 and at least one planned exercise; nothing inside the planned exercises is checked. |
| SessionRequests.PlannedExerciseErrors | server/src/FitBuddy.Api/RequestModels/Sessions/CreateWorkoutSessionRequestModel.cs:91-112 | Passes exactly with exercise id above 0, order at least 0, and sets and reps above 0 and weight at least 0 where they are given. |
| SessionRequests.ValidPlanAgreesWithClient | server/src/FitBuddy.Api/RequestModels/Sessions/CreateWorkoutSessionRequestModel.cs:99-102 | A planned exercise that passes the nested rules makes the server build its planned number of sets (one when none is planned): those rules refuse 0, where server and client disagree. |
| SessionRequests.PlanErrors | server/src/FitBuddy.Api/RequestModels/Sessions/CreateWorkoutSessionRequestModel.cs:89-113 | No message exactly when every planned exercise passes the nested rules. |
| SessionRequests.CreateSessionErrorsWithPlans | server/src/FitBuddy.Api/RequestModels/Sessions/CreateWorkoutSessionRequestModel.cs:69-113 | The start-session rules with the nested rules attached to every planned exercise: no message exactly when the request passes and every planned exercise passes. |
| SessionRequests.ZeroPlannedSetsPassAsWritten | server/src/FitBuddy.Api/RequestModels/Sessions/CreateWorkoutSessionRequestModel.cs:69-85 | A start request planning 0 sets for an exercise passes as written; the server then builds no set where the client counts one, and the attached nested rules would refuse it. |
| SessionRequests.CheckedPlansAgreeWithClient | server/src/FitBuddy.Services/Services/WorkoutSessionService.cs:81-89 | When the nested rules are attached and pass, the server and the client build the same number of sets for every planned exercise. |
| SessionRequests.CompleteSessionErrors | server/src/FitBuddy.Api/RequestModels/Sessions/CreateWorkoutSessionRequestModel.cs:120-134 | A completion passes exactly with a rating in 1..5, mood and energy level empty or in their lists ignoring case, and notes of at most 1000 UTF-16 code units. |
| SessionRequests.FoldedChecksIgnoreCase | server/src/FitBuddy.Api/RequestModels/Sessions/CreateWorkoutSessionRequestModel.cs:124-130 | A mood or energy level passes exactly when its lower-case form does. |
| SessionRequests.MoodExamples | server/src/FitBuddy.Api/RequestModels/Sessions/CreateWorkoutSessionRequestModel.cs:124-126 | "Good" passes as a mood while a blank " " is refused. |
| SessionRequests.StatusName | server/src/FitBuddy.Api/RequestModels/Sessions/CreateWorkoutSessionRequestModel.cs:145 | Every status has one of the four listed names. |
| SessionRequests.ParseStatus | server/src/FitBuddy.Api/RequestModels/Sessions/CreateWorkoutSessionRequestModel.cs:145 | A status is found exactly for a listed name. |
| SessionRequests.StatusNamesRoundTrip | server/src/FitBuddy.Api/RequestModels/Sessions/CreateWorkoutSessionRequestModel.cs:145 | Every status reads back from its name, and every accepted name is a status's name. |
| SessionRequests.NamesNotBlank | server/src/FitBuddy.Api/RequestModels/Sessions/CreateWorkoutSessionRequestModel.cs:142-146 | No status name is blank, so an accepted name also passes `NotEmpty`. |
| SessionRequests.StatusErrors | server/src/FitBuddy.Api/RequestModels/Sessions/CreateWorkoutSessionRequestModel.cs:142-146 | No message exactly for a listed name. A missing or blank status draws both messages. |
| SessionRequests.StatusIsCaseSensitive | server/src/FitBuddy.Api/RequestModels/Sessions/CreateWorkoutSessionRequestModel.cs:145 | "completed" is refused. |
| SessionRequests.ExerciseProgressErrors | server/src/FitBuddy.Api/RequestModels/Sessions/CreateWorkoutSessionRequestModel.cs:142-150 | Exercise progress passes exactly with a listed status and notes of at most 500 UTF-16 code units. |
| SessionRequests.SetProgressErrors | server/src/FitBuddy.Api/RequestModels/Sessions/CreateWorkoutSessionRequestModel.cs:158-181 | Set progress passes exactly with a listed status, reps and weight at least 0 and RPE in 1..10 where given, and notes of at most 500 UTF-16 code units. |
| SessionRequests.AstralNotesCountTwice | server/src/FitBuddy.Api/RequestModels/Sessions/CreateWorkoutSessionRequestModel.cs:132-150 | Notes made only of emoji beyond U+FFFF fit 1000 code units exactly up to 500 emoji, and 500 code units up to 250. |
| ValidationExtensions.TrimLength | server/src/FitBuddy.Api/Extensions/ValidationExtensions.cs:8-11 | Null fails and no bounds fail; a pass meets each given bound on the trimmed length, counted in UTF-16 code units as .NET's `Length` counts. |
| ValidationExtensions.TrimLengthIgnoresPadding | server/src/FitBuddy.Api/Extensions/ValidationExtensions.cs:10-11 | Surrounding white space never changes the verdict. |
| ValidationExtensions.TrimLengthOfTrimmed | server/src/FitBuddy.Api/Extensions/ValidationExtensions.cs:10-11 | A text and its trimmed form get the same verdict. |
| ValidationExtensions.LooserBoundsKeepPass | server/src/FitBuddy.Api/Extensions/ValidationExtensions.cs:10-11 | Lowering a minimum or raising a maximum never turns a pass into a fail. |
| ValidationExtensions.BlankPassesOnlyWithoutMinimum | server/src/FitBuddy.Api/Extensions/ValidationExtensions.cs:9-11 | A blank string passes exactly when some bound is given, no minimum is above 0 and no maximum is below 0. |
| Text.TrimIdempotent | server/src/FitBuddy.Api/RequestModels/Workouts/CreateWorkoutRequestModel.cs:15-19 | Trimming twice is trimming once. |
| Text.TrimIgnoresPadding | server/src/FitBuddy.Api/Extensions/ValidationExtensions.cs:10-11 | White space before or after a text never changes its trimmed form. |
| Text.Utf16Length | server/src/FitBuddy.Api/Extensions/ValidationExtensions.cs:10-11 | A text's .NET `Length`: between its number of characters and twice that, and equal to it exactly when no character lies beyond U+FFFF. |
| Text.Utf16LengthAppend | server/src/FitBuddy.Api/Extensions/ValidationExtensions.cs:10-11 | The code-unit length of two texts joined is the sum of their lengths. |
| Text.Utf16LengthBeyondBasicPlane | server/src/FitBuddy.Api/Extensions/ValidationExtensions.cs:10-11 | A text made only of characters beyond U+FFFF has twice as many code units as characters. |
| Text.AstralCharacterIsTwoUnits | server/src/FitBuddy.Api/Extensions/ValidationExtensions.cs:10-11 | One emoji beyond U+FFFF is one character and two code units. |
| CreateWorkoutRequest.Trimmed | server/src/FitBuddy.Api/RequestModels/Workouts/CreateWorkoutRequestModel.cs:15-19 | The setter stores the trimmed text, and null stays null. |
| CreateWorkoutRequest.TrimmedRoundTrip | server/src/FitBuddy.Api/RequestModels/Workouts/CreateWorkoutRequestModel.cs:15-19 | Setting what was read back stores the same value. |
| CreateWorkoutRequest.Model.constructor | server/src/FitBuddy.Api/RequestModels/Workouts/CreateWorkoutRequestModel.cs:11-37 | A new model has no name, type 0 and no optional values. |
| CreateWorkoutRequest.Model.SetName | server/src/FitBuddy.Api/RequestModels/Workouts/CreateWorkoutRequestModel.cs:15-19 | The name becomes the trimmed value, and nothing else changes. |
| CreateWorkoutRequest.Model.Errors | server/src/FitBuddy.Api/RequestModels/Workouts/CreateWorkoutRequestModel.cs:41-51 | No message exactly when the trimmed name is 3..25 UTF-16 code units long and the type is defined, and at most two messages. |
| CreateWorkoutRequest.NameErrors | server/src/FitBuddy.Api/RequestModels/Workouts/CreateWorkoutRequestModel.cs:43-45 | No message exactly when the trimmed name is 3..25 UTF-16 code units long. |
| CreateWorkoutRequest.TwoAstralCharactersName | server/src/FitBuddy.Api/RequestModels/Workouts/CreateWorkoutRequestModel.cs:43-45 | Two emoji beyond U+FFFF are four code units, so they make an acceptable name. |
| CreateWorkoutRequest.TypeErrors | server/src/FitBuddy.Api/RequestModels/Workouts/CreateWorkoutRequestModel.cs:46-50 | No message exactly when the type id is 1..5. |
| CreateWorkoutRequest.SetterKeepsVerdict | server/src/FitBuddy.Api/RequestModels/Workouts/CreateWorkoutRequestModel.cs:15-19 | A name the validator accepts is still accepted after the setter trims it. |
| UpdateWorkoutRequest.Model.constructor | server/src/FitBuddy.Api/RequestModels/Workouts/UpdateWorkoutRequestModel.cs:9-29 | A new model has no name, no description and type 0. |
| UpdateWorkoutRequest.Model.SetName | server/src/FitBuddy.Api/RequestModels/Workouts/UpdateWorkoutRequestModel.cs:13-17 | The name becomes the trimmed value, and nothing else changes. |
| UpdateWorkoutRequest.Model.SetDescription | server/src/FitBuddy.Api/RequestModels/Workouts/UpdateWorkoutRequestModel.cs:19-23 | The description becomes the trimmed value, and nothing else changes. |
| UpdateWorkoutRequest.Model.Errors | server/src/FitBuddy.Api/RequestModels/Workouts/UpdateWorkoutRequestModel.cs:33-46 | No message exactly when the name, the description and the type each pass their rule. |
| UpdateWorkoutRequest.DescriptionErrors | server/src/FitBuddy.Api/RequestModels/Workouts/UpdateWorkoutRequestModel.cs:38-40 | No message exactly when the trimmed description has at least 10 UTF-16 code units, with no upper bound. |
| UpdateWorkoutRequest.LongDescriptionPasses | server/src/FitBuddy.Api/RequestModels/Workouts/UpdateWorkoutRequestModel.cs:38-40 | However long, a description passes once it has ten UTF-16 code units besides its surrounding white space. |
| UpdateWorkoutRequest.FiveAstralCharactersDescribe | server/src/FitBuddy.Api/RequestModels/Workouts/UpdateWorkoutRequestModel.cs:38-40 | Five emoji beyond U+FFFF are ten code units, so they make an acceptable description. |
| Paginate.Wrap32 | server/src/FitBuddy.Services/Extensions/PaginateExtensions.cs:14 | The value wrapped into the 32-bit `int` range, congruent to it modulo 2³². |
| Paginate.PageSize | server/src/FitBuddy.Services/Extensions/PaginateExtensions.cs:10 | A positive page size is kept, and any other becomes 10. |
| Paginate.PageNumber | server/src/FitBuddy.Services/Extensions/PaginateExtensions.cs:11 | A positive page number is kept, and any other becomes 1. |
| Paginate.Skip | server/src/FitBuddy.Services/Extensions/PaginateExtensions.cs:14 | `Skip(n)` drops the first `n` items, and none for `n` of 0 or less; the intended page only ever skips a non-negative offset, and the source's negative wrapped offset is a failure before any skip. |
| Paginate.Take | server/src/FitBuddy.Services/Extensions/PaginateExtensions.cs:14 | `Take(n)` keeps at most `n` items from the front. |
| Paginate.Offset | server/src/FitBuddy.Services/Extensions/PaginateExtensions.cs:14 | The offset is never negative; `OffsetStep` states how it grows from page to page. |
| Paginate.Paginate | server/src/FitBuddy.Services/Extensions/PaginateExtensions.cs:8-20 | The items are the query from the offset, at most one page of them, empty past the end, and the total is the query's length. |
| Paginate.PaginateAsWritten | server/src/FitBuddy.Services/Extensions/PaginateExtensions.cs:8-20 | None exactly when the wrapped offset is negative (the database refuses the query); otherwise the items from the wrapped offset, at most one page of them, empty past the end, with the query's total. |
| Paginate.AsWrittenAgreesWithoutOverflow | server/src/FitBuddy.Services/Extensions/PaginateExtensions.cs:14 | While the offset fits an `int`, the source's query succeeds with the intended page. |
| Paginate.WrappedOffsetRepeatsFirstPage | server/src/FitBuddy.Services/Extensions/PaginateExtensions.cs:14 | Page 1073741825 of size 4 over five items should be empty, but its wrapped offset is 0 and the source's query succeeds with the first page. |
| Paginate.WrappedOffsetFailsQuery | server/src/FitBuddy.Services/Extensions/PaginateExtensions.cs:14 | Page 536870913 of size 4 over five items should be empty, but its offset wraps to −2147483648 and the source's query fails. |
| Paginate.PaginateProjected | server/src/FitBuddy.Services/Extensions/PaginateExtensions.cs:22-42 | The projecting overload returns the selector applied to each item of the page, in order, with the same total. |
| Paginate.OffsetStep | server/src/FitBuddy.Services/Extensions/PaginateExtensions.cs:14 | The next page starts one page size further on. |
| Paginate.PageExtendsPrefix | server/src/FitBuddy.Services/Extensions/PaginateExtensions.cs:14 | A page appended to the items before it reaches to where the next page starts. |
| Paginate.PagesArePrefix | server/src/FitBuddy.Services/Extensions/PaginateExtensions.cs:14 | The first n pages together are the query's items before page n + 1 starts. |
| Paginate.PagesCoverQuery | server/src/FitBuddy.Services/Extensions/PaginateExtensions.cs:14 | Reading pages 1..⌈len/size⌉ in turn gives back the whole query. |
| Favorites.IsFavorite | server/src/FitBuddy.Services/Services/WorkoutFavoriteService.cs:61-65 | True exactly when some row is for that member and workout. |
| Favorites.FavoriteCount | server/src/FitBuddy.Services/Services/WorkoutFavoriteService.cs:83-87 | At most the number of rows, and 0 exactly when no row is for the workout; `ToggleMovesCountByOne` shows a toggle moves it by one. |
| Favorites.MemberFavoriteCount | server/src/FitBuddy.Services/Services/WorkoutFavoriteService.cs:89-93 | At most the number of rows, and 0 exactly when no row belongs to the member; `ToggleMovesMemberCountByOne` shows a toggle moves it by one. |
| Favorites.Toggle | server/src/FitBuddy.Services/Services/WorkoutFavoriteService.cs:21-59 | The answer says favourited exactly when the pair was not a favourite before, and gives the workout's count after the change. |
| Favorites.ToggleReportsNewState | server/src/FitBuddy.Services/Services/WorkoutFavoriteService.cs:21-65 | In a store without repeated pairs, the pair is a favourite afterwards exactly when the toggle says so. |
| Favorites.ToggleLeavesOtherPairs | server/src/FitBuddy.Services/Services/WorkoutFavoriteService.cs:21-47 | Every other pair keeps its favourite status. |
| Favorites.PairsAreFavorites | server/src/FitBuddy.Services/Services/WorkoutFavoriteService.cs:61-65 | A pair is in the relation exactly when it is a favourite. |
| Favorites.ToggleTwiceRestoresPairs | server/src/FitBuddy.Services/Services/WorkoutFavoriteService.cs:21-47 | Toggling the same pair twice restores which pairs are favourites. |
| Favorites.ToggleMovesFilterByOne | server/src/FitBuddy.Services/Services/WorkoutFavoriteService.cs:21-47 | A toggle moves by exactly one the number of rows of any kind that includes the toggled pair: up when it adds, down when it removes. |
| Favorites.ToggleMovesCountByOne | server/src/FitBuddy.Services/Services/WorkoutFavoriteService.cs:83-87 | Adding raises the workout's count by one and removing lowers it by one. |
| Favorites.ToggleMovesMemberCountByOne | server/src/FitBuddy.Services/Services/WorkoutFavoriteService.cs:89-93 | Adding raises the member's count by one and removing lowers it by one. |
| Favorites.Service.constructor | server/src/FitBuddy.Services/Services/WorkoutFavoriteService.cs:15-19 | The service starts with no favourites. |
| Favorites.Service.ToggleFavorite | server/src/FitBuddy.Services/Services/WorkoutFavoriteService.cs:21-59 | The rows and answer after the toggle are those of `Toggle`. |
| Dashboard.DayOfWeek | server/src/FitBuddy.Services/Services/DashboardService.cs:20 | The day of the week is between 0 (Sunday) and 6 (Saturday). |
| Dashboard.WeekStart | server/src/FitBuddy.Services/Services/DashboardService.cs:20 | The week start is a Sunday, at most six days before today. |
| Dashboard.WeekStartIsLatestSunday | server/src/FitBuddy.Services/Services/DashboardService.cs:20 | No later Sunday lies on or before today. |
| Dashboard.WorkoutCounts | server/src/FitBuddy.Services/Services/DashboardService.cs:51-59 | Today's count is at most this week's, which is at most the all-time count (`CountsAreNested`). |
| Dashboard.CountsAreNested | server/src/FitBuddy.Services/Services/DashboardService.cs:51-59 | Today's count is at most this week's, which is at most the all-time count. |
| Dashboard.CommentCount | server/src/FitBuddy.Services/Services/DashboardService.cs:61-64 | At most the number of comments, and 0 exactly when the member wrote none. |
| Dashboard.FavoriteAmong | server/src/FitBuddy.Services/Services/DashboardService.cs:66-73 | None exactly when there are no rows. Otherwise a type of one of the rows, logged at least as often as every other row's type. |
| Dashboard.FavoriteWorkoutType | server/src/FitBuddy.Services/Services/DashboardService.cs:66-73 | None exactly when there are no results. Otherwise a logged type name with the most results. |
| Dashboard.FavoriteIsMostLogged | server/src/FitBuddy.Services/Services/DashboardService.cs:66-73 | The favourite is logged at least as often as any name, logged or not. |
| Dashboard.DaysFrom | server/src/FitBuddy.Services/Services/DashboardService.cs:111-113 | Exactly the dates on or after `from` that have a result. |
| Dashboard.RawCounts | server/src/FitBuddy.Services/Services/DashboardService.cs:111-119 | One count per date since six days ago that has a result, the number of results that day. |
| Dashboard.WeeklyWorkoutCounts | server/src/FitBuddy.Services/Services/DashboardService.cs:108-129 | Seven entries, for today − 6 … today in ascending order. |
| Dashboard.Week | server/src/FitBuddy.Services/Services/DashboardService.cs:121-128 | Seven entries, entry `d` dated `today − 6 + d` with its looked-up count. |
| Dashboard.CountFor | server/src/FitBuddy.Services/Services/DashboardService.cs:126-127 | The entry found is dated the date asked for; its count is stated by `CountForIsCountOn`. |
| Dashboard.CountForIsCountOn | server/src/FitBuddy.Services/Services/DashboardService.cs:110-128 | A date in the window reads the number of results dated that day. |
| Dashboard.WeeklyCountsAreDayCounts | server/src/FitBuddy.Services/Services/DashboardService.cs:110-128 | Each day's entry is the number of results dated that day, 0 for a day without results. |
| Dashboard.WindowSplits | server/src/FitBuddy.Services/Services/DashboardService.cs:121-128 | A row lies in a window of `n` days exactly when it lies in the first `n − 1` or on the last, never both. |
| Dashboard.WindowCountStep | server/src/FitBuddy.Services/Services/DashboardService.cs:121-128 | Widening a window by a day adds that day's results. |
| Dashboard.DayByDayUnfolds | server/src/FitBuddy.Services/Services/DashboardService.cs:121-128 | Adding up `n` days is adding up `n − 1` and the last day. |
| Dashboard.EmptyWindow | server/src/FitBuddy.Services/Services/DashboardService.cs:121-128 | A window of no days holds no results. |
| Dashboard.WindowOfDays | server/src/FitBuddy.Services/Services/DashboardService.cs:121-128 | For every `n`, the `n` days added up one at a time count the results dated within them. |
| Dashboard.WeekPrefixTotal | server/src/FitBuddy.Services/Services/DashboardService.cs:121-128 | The first `k` weekly entries add up to those days' results. |
| Dashboard.WeeklyTotalIsWindowCount | server/src/FitBuddy.Services/Services/DashboardService.cs:108-129 | The seven daily counts add up to the results dated within the seven days ending today. |
| Dashboard.OrdinalLessIrreflexive | server/src/FitBuddy.Services/Services/DashboardService.cs:91-95 | No result string sorts before itself. |
| Dashboard.AheadCount | server/src/FitBuddy.Services/Services/DashboardService.cs:91-95 | How many of the first `k` rows the stable sort puts before row `i`, at most `k`. |
| Dashboard.Rank | server/src/FitBuddy.Services/Services/DashboardService.cs:103 | One more than the rows sorted before it, so between 1 and the group's size. |
| Dashboard.AheadCountZero | server/src/FitBuddy.Services/Services/DashboardService.cs:91-95 | No row is counted ahead exactly when none of the first `k` sorts before row `i`. |
| Dashboard.RankOneIsTop | server/src/FitBuddy.Services/Services/DashboardService.cs:91-103 | A row ranks first exactly when no row of its workout sorts before it. |
| Dashboard.Keys | server/src/FitBuddy.Services/Services/DashboardService.cs:80-84 | Exactly the workout keys of the rows with a result. |
| Dashboard.Entry | server/src/FitBuddy.Services/Services/DashboardService.cs:85-104 | A group's entry exists exactly when the member has a result in it. |
| Dashboard.EntryIsMemberResult | server/src/FitBuddy.Services/Services/DashboardService.cs:85-104 | A group's entry is the member's own result in that workout, ranked between 1 and the group's size. |
| Dashboard.Entries | server/src/FitBuddy.Services/Services/DashboardService.cs:97-104 | Exactly the entries of the listed groups where the member has a result. |
| Dashboard.MinByRank | server/src/FitBuddy.Services/Services/DashboardService.cs:105 | None exactly for no entries. Otherwise an entry whose rank is at most every entry's rank. |
| Dashboard.BestWorkoutResult | server/src/FitBuddy.Services/Services/DashboardService.cs:75-106 | A best result exists exactly when the member has a result (`BestExistsIffMemberHasResult`), and it is one of the member's results, of least rank among the member's entries (`BestIsMemberResultOfLeastRank`). |
| Dashboard.BestExistsIffMemberHasResult | server/src/FitBuddy.Services/Services/DashboardService.cs:75-106 | There is a best result exactly when the member has logged a result with a value. |
| Dashboard.BestIsMemberResultOfLeastRank | server/src/FitBuddy.Services/Services/DashboardService.cs:75-106 | The best result is the member's own result on its workout, ranked within it, and no other workout ranks the member higher. |
| Dashboard.NoResultsNoBest | server/src/FitBuddy.Services/Services/DashboardService.cs:75-106 | A member without results has no best result. |
| Dashboard.MemberDashboard | server/src/FitBuddy.Services/Services/DashboardService.cs:18-49 | The counts are nested, a favourite type exists exactly when there are workouts, there is no best result without workouts, and the weekly counts stay within the all-time count (`DashboardIsConsistent`). |
| Dashboard.DashboardIsConsistent | server/src/FitBuddy.Services/Services/DashboardService.cs:18-49 | Today ≤ week ≤ all time. A favourite type and a best result exist only for a member with results. The last seven days hold no more than all time. |
| WorkoutService.ScoreTypeFor | server/src/FitBuddy.Services/Services/WorkoutService.cs:53-57 | Score type 1 for For Time and Ladder, and 2 for every other id, an unknown one included. |
| WorkoutService.FindWorkout | server/src/FitBuddy.Services/Services/WorkoutService.cs:66-68 | The index of the first workout with that id, none when no workout has it. |
| WorkoutService.RetrieveWorkout | server/src/FitBuddy.Services/Services/WorkoutService.cs:44-48 | The workout with that id when there is one, and none otherwise. |
| WorkoutService.NewWorkout | server/src/FitBuddy.Services/Services/WorkoutService.cs:50-57 | The new row has the given id, the request's name and type, and the score type of its type. |
| WorkoutService.Updated | server/src/FitBuddy.Services/Services/WorkoutService.cs:72 | The mapping writes name, description and type, and keeps id, score type and creation date. |
| WorkoutService.CreateWorkout | server/src/FitBuddy.Services/Services/WorkoutService.cs:50-62 | `NameTaken` and no change exactly when some workout already has the name, as the unique index `workouts_name_key` (server/src/FitBuddy.Dal/Models/application/Workout.cs:8) makes the save throw. Otherwise the new row is appended with the next id, which is returned. |
| WorkoutService.UpdateWorkout | server/src/FitBuddy.Services/Services/WorkoutService.cs:64-75 | False and no change exactly when no workout has the id. `NameTaken` and no change exactly when the row is found and another workout holds the new name. Otherwise the ids stay in place, every other row is unchanged, and the row found by that id is the mapped one. |
| WorkoutService.CreateKeepsStoreValid | server/src/FitBuddy.Dal/Models/application/Workout.cs:8 | A create keeps the ids distinct and below the next id, and the names distinct. |
| WorkoutService.UpdateKeepsStoreValid | server/src/FitBuddy.Dal/Models/application/Workout.cs:8 | An update keeps the ids valid and the names distinct, whatever it answers. |
| WorkoutService.SecondCreateRefused | server/src/FitBuddy.Services/Services/WorkoutService.cs:50-62 | A second create under the same name is refused and changes nothing. |
| WorkoutService.RenameOntoTakenNameRefused | server/src/FitBuddy.Services/Services/WorkoutService.cs:64-75 | Renaming workout 2 to the name of workout 1 is refused with no change; keeping its own name is accepted. |
| WorkoutService.DeleteWorkout | server/src/FitBuddy.Services/Services/WorkoutService.cs:77-88 | False and no change for a missing id. Otherwise one row fewer, every workout with another id stays and none is added. |
| WorkoutService.DeleteKeepsIdsValid | server/src/FitBuddy.Services/Services/WorkoutService.cs:77-88 | Deleting keeps the ids distinct and below the next id, and distinct names stay distinct. |
| WorkoutService.DeleteRemovesExactlyThat | server/src/FitBuddy.Services/Services/WorkoutService.cs:77-88 | With distinct ids, a deleted workout is gone, every other one stays, and deleting it again returns false. |
| WorkoutService.UpdateKeepsScoreType | server/src/FitBuddy.Services/Services/WorkoutService.cs:64-75 | Updating never changes a workout's score type. |
| WorkoutService.ScoreTypeCanGoStale | server/src/FitBuddy.Services/Services/WorkoutService.cs:50-75 | A For Time workout moved to AMRAP keeps score type 1, which no longer matches its type. |
| WorkoutService.PrependKeepsOrder | server/src/FitBuddy.Services/Services/WorkoutService.cs:37-39 | A workout at least as new as every element of a newest-first list may go in front of it. |
| WorkoutService.Insert | server/src/FitBuddy.Services/Services/WorkoutService.cs:37-39 | Inserting into a newest-first list keeps it newest first and adds exactly that workout. |
| WorkoutService.NewestFirst | server/src/FitBuddy.Services/Services/WorkoutService.cs:37-39 | The same workouts, as a multiset, ordered newest first. |
| WorkoutService.RetrieveWorkouts | server/src/FitBuddy.Services/Services/WorkoutService.cs:26-42 | One page of the workouts the search keeps, newest first, and the total of all of them. |
| WorkoutService.Filtered | server/src/FitBuddy.Services/Services/WorkoutService.cs:30-35 | Exactly the workouts whose name matches the search. |
| WorkoutService.ResultExists | server/src/FitBuddy.Services/Services/WorkoutService.cs:119-124 | True exactly when the current user has a result for that workout. |
| WorkoutService.RetrieveWorkoutResults | server/src/FitBuddy.Services/Services/WorkoutService.cs:93-107 | Exactly the page of the workout's results, in stored order, with their total. |
| WorkoutService.UpdateResult | server/src/FitBuddy.Services/Services/WorkoutService.cs:126-137 | False and no change for a missing id. Otherwise only that result's text is mapped over. |
| WorkoutService.CreatedResultExists | server/src/FitBuddy.Services/Services/WorkoutService.cs:109-124 | Logging a result makes `ResultExists` true for its workout and author. |
| WorkoutService.Service.constructor | server/src/FitBuddy.Services/Services/WorkoutService.cs:21-24 | The service starts with no workouts and no results. |
| WorkoutService.Service.CreateWorkoutOf | server/src/FitBuddy.Services/Services/WorkoutService.cs:50-62 | The rows and answer are those of `CreateWorkout`: a fresh id, or `NameTaken` with nothing saved. Ids and names stay distinct. |
| WorkoutService.Service.UpdateWorkoutOf | server/src/FitBuddy.Services/Services/WorkoutService.cs:64-75 | The rows and answer are those of `UpdateWorkout`. Ids and names stay distinct. |
| WorkoutService.Service.DeleteWorkoutOf | server/src/FitBuddy.Services/Services/WorkoutService.cs:77-88 | The rows and answer are those of `DeleteWorkout`, and afterwards no workout has that id. |
| WorkoutService.Service.CreateWorkoutResult | server/src/FitBuddy.Services/Services/WorkoutService.cs:109-117 | The new result is appended with a fresh id and the signed-in member as its author. |
| WorkoutService.Service.UpdateWorkoutResult | server/src/FitBuddy.Services/Services/WorkoutService.cs:126-137 | The results and answer are those of `UpdateResult`. |
| NameSpecs.Folded | server/src/FitBuddy.Dal/Specifications/Workouts/WorkoutByNameSpec.cs:11-13 | Null stays null and a search keeps its length. |
| NameSpecs.NameMatches | server/src/FitBuddy.Dal/Specifications/Workouts/WorkoutByNameSpec.cs:15-17 | A null or empty search matches every name, and a match is never shorter than the search. |
| NameSpecs.MatchesIffExtends | server/src/FitBuddy.Dal/Specifications/Workouts/WorkoutByNameSpec.cs:17 | A non-empty search matches exactly the names whose lower-case form extends the search's. |
| NameSpecs.CaseOfSearchIrrelevant | server/src/FitBuddy.Dal/Specifications/Members/MemberByNameSpec.cs:11-17 | Two searches with the same lower-case form match the same names. |
| NameSpecs.LowerCasedSearchMatchesAlike | server/src/FitBuddy.Dal/Specifications/Workouts/WorkoutByNameSpec.cs:11-17 | Lower-casing the search changes no match. |
| NameSpecs.LongerSearchMatchesFewer | server/src/FitBuddy.Dal/Specifications/Members/MemberByNameSpec.cs:17 | A name that matches a longer search matches any shorter search it begins with. |
| NameSpecs.OwnNameMatches | server/src/FitBuddy.Dal/Specifications/Workouts/WorkoutByNameSpec.cs:17 | A name matches a search for itself and for any of its leading parts. |
| NameSpecs.WorkoutByName | server/src/FitBuddy.Dal/Specifications/Workouts/WorkoutByNameSpec.cs:7-19 | For no name or an empty one every workout matches, otherwise exactly those whose lower-cased name starts with the lower-cased search (`SearchWorkouts`, `MatchesIffExtends`). |
| NameSpecs.MemberByName | server/src/FitBuddy.Dal/Specifications/Members/MemberByNameSpec.cs:7-19 | For no name or an empty one every member matches, otherwise exactly those whose lower-cased username starts with the lower-cased search (`SearchMembers`, `MatchesIffExtends`). |
| NameSpecs.SearchWorkouts | server/src/FitBuddy.Dal/Specifications/Workouts/WorkoutByNameSpec.cs:15-17 | Exactly the workouts whose name matches, and all of them, in order, for a missing or empty search. |
| NameSpecs.SearchMembers | server/src/FitBuddy.Dal/Specifications/Members/MemberByNameSpec.cs:15-17 | Exactly the members whose username matches, and all of them, in order, for a missing or empty search. |
| WorkoutTimer.PartsRecompose | ui/application/src/components/workout/WorkoutTimer.tsx:95-97 | Minutes and seconds are below 60, and hours × 3600 + minutes × 60 + seconds is the time. |
| WorkoutTimer.FormatTime | ui/application/src/components/workout/WorkoutTimer.tsx:94-103 | Below an hour the display is the `m:ss` form. |
| WorkoutTimer.FormatTimeReadsBack | ui/application/src/components/workout/WorkoutTimer.tsx:94-103 | From one hour on, the display is digits, a colon, two digits, a colon and two digits, and the numbers read back give the time. |
| WorkoutTimer.DisplayTime | ui/application/src/components/workout/WorkoutTimer.tsx:106-111 | A countdown with a non-zero target shows the time left, never below 0. Any other timer shows the elapsed time. |
| WorkoutTimer.CountdownDisplayStepsDown | ui/application/src/components/workout/WorkoutTimer.tsx:106-111 | One more elapsed second takes one second off a countdown's display until it shows 0. |
| WorkoutTimer.TickStep | ui/application/src/components/workout/WorkoutTimer.tsx:71-90 | Completion fires exactly when a running countdown has no time left. A warning fires only at a mark of 10, 5, 3, 2 or 1 seconds left that differs from the last warning, and records it. Otherwise the last warning is kept. |
| WorkoutTimer.NoRepeatedWarning | ui/application/src/components/workout/WorkoutTimer.tsx:83-88 | Running the effect again at the same second never warns twice. |
| WorkoutTimer.WarnsAtEachMark | ui/application/src/components/workout/WorkoutTimer.tsx:83-88 | At each mark not yet warned, a countdown warns with that mark. |
| WorkoutTimer.CountdownWatch.constructor | ui/application/src/components/workout/WorkoutTimer.tsx:47 | No warning is recorded at first. |
| WorkoutTimer.CountdownWatch.Tick | ui/application/src/components/workout/WorkoutTimer.tsx:71-90 | The signal and the recorded warning after one run of the effect are those of `TickStep`. |
| WorkoutTimer.TimerColor | ui/application/src/components/workout/WorkoutTimer.tsx:174-194 | Yellow exactly when paused and not running, and grey exactly when stopped. Red exactly when a running countdown has at most 10 s left, and orange exactly when it has 11 to 30 s left. |
| WorkoutTimer.RelaxedColorFollowsType | ui/application/src/components/workout/WorkoutTimer.tsx:186-193 | A running timer that is not a countdown within 30 s takes its type's colour. |
| FilterPanel.Toggle | ui/application/src/components/workout/WorkoutFilterPanel.tsx:73-78 | The item is in the result exactly when it was not in the list. Every other item keeps its membership, an absent item is appended, and a present one shortens the list. |
| FilterPanel.ToggleTwiceRestores | ui/application/src/components/workout/WorkoutFilterPanel.tsx:73-78 | Toggling an absent item twice gives back the very same list. |
| FilterPanel.ToggleTwiceKeepsItems | ui/application/src/components/workout/WorkoutFilterPanel.tsx:73-78 | Toggling any item twice keeps the same items. |
| FilterPanel.UpdateFilter | ui/application/src/components/workout/WorkoutFilterPanel.tsx:66-71 | Exactly the named field takes the new value, and every other field is kept. |
| FilterPanel.UpdateWithSameValueIsIdentity | ui/application/src/components/workout/WorkoutFilterPanel.tsx:66-71 | Setting a field to the value it has changes nothing. |
| FilterPanel.ToggleCategory | ui/application/src/components/workout/WorkoutFilterPanel.tsx:73-78 | Only the categories change, by the toggle. |
| FilterPanel.ToggleEquipment | ui/application/src/components/workout/WorkoutFilterPanel.tsx:80-85 | Only the equipment changes, by the toggle. |
| FilterPanel.ToggleSection | ui/application/src/components/workout/WorkoutFilterPanel.tsx:39-45 | The section is expanded afterwards exactly when it was not, and every other section keeps its state. |
| FilterPanel.QuickSelectDifficulty | ui/application/src/components/workout/WorkoutFilterPanel.tsx:228 | Both ends of the difficulty range become the chosen level, and nothing else changes. |
| FilterPanel.QuickSelectSelectsOnlyThatLevel | ui/application/src/components/workout/WorkoutFilterPanel.tsx:226-233 | After choosing a level, its button shows selected and no other does. |
| FilterPanel.ClearForgetsToggles | ui/application/src/components/workout/WorkoutFilterPanel.tsx:377-384 | From cleared filters, one category toggle selects just that category, and an equipment toggle done twice clears again. |
| ListHeader.HasActiveFilters | ui/application/src/components/workout/WorkoutListHeader.tsx:73-79 | No filter is active exactly when every list is empty, the creator is blank, difficulty still covers 1..5 and duration still covers 0..120. |
| ListHeader.ClearedIsInactive | ui/application/src/components/workout/WorkoutListHeader.tsx:73-79 | Cleared filters are inactive; one toggled category or one quick select makes them active. |
| ListHeader.ToggleTwiceStaysInactive | ui/application/src/components/workout/WorkoutListHeader.tsx:73-79 | Toggling the same category twice from inactive filters leaves them inactive. |
| ListHeader.BadgeCount | ui/application/src/components/workout/WorkoutListHeader.tsx:196-200 | The badge reads 0 exactly when no category and no equipment is selected. |
| ListHeader.BadgeFollowsCategoryToggle | ui/application/src/components/workout/WorkoutListHeader.tsx:196-200 | Toggling a category on adds one to the badge, and toggling it off lowers it. |
| ListHeader.BadgeCanReadZeroWhileActive | ui/application/src/components/workout/WorkoutListHeader.tsx:196-200 | A creator or a difficulty filter alone shows the badge reading 0. |
| ListHeader.DifficultyChipShown | ui/application/src/components/workout/WorkoutListHeader.tsx:282 | The chip shows exactly when the difficulty range no longer covers 1..5. |
| ListHeader.DifficultyChipOnlyWhenActive | ui/application/src/components/workout/WorkoutListHeader.tsx:236-282 | The chip shows only inside the active-filters panel, and every quick select shows it. |
| ListHeader.TotalsLabel | ui/application/src/components/workout/WorkoutListHeader.tsx:106-107 | The label is the total's digits, then " workout", then an "s" exactly when the total is not 1. |
| ListHeader.TotalsLabelReadsBack | ui/application/src/components/workout/WorkoutListHeader.tsx:106-107 | The label's leading digits read back as the total, and it ends in " (filtered)" exactly when a filter is active. |
| ListHeader.Lookup | ui/application/src/components/workout/WorkoutListHeader.tsx:81-91 | Reading a key of an object literal finds an entry exactly when one has that key, and returns the value of the last entry with that key. |
| ListHeader.CategoryNameAsWritten | ui/application/src/components/workout/WorkoutListHeader.tsx:81-91 | Every id reads "Unknown", CrossFit's included (`CategoryNameAsWrittenIsAlwaysUnknown`). |
| ListHeader.CategoryName | ui/application/src/components/workout/WorkoutListHeader.tsx:81-91 | CrossFit reads "CrossFit WOD" and every other id "Unknown" (`CategoryNameNamesListedCategories`). |
| ListHeader.CategoryNameAsWrittenIsAlwaysUnknown | ui/application/src/components/workout/WorkoutListHeader.tsx:81-91 | As written, every category chip reads "Unknown", the CrossFit one included. |
| ListHeader.CategoryNameIn | ui/application/src/interfaces/categories.ts:79-83 | The name of the first category with that id, or "Unknown" when none has it. |
| ListHeader.CategoryNameNamesListedCategories | ui/application/src/interfaces/categories.ts:65-83 | The CrossFit chip reads "CrossFit WOD" and any other id reads "Unknown". |

## Left out

- Floating-point values are not modelled: averages, percentages, progress bars and ring angles. The 2.5 s-per-rep estimates are computed exactly in half seconds.
- Clocks are parameters. `new Date()` and `DateTime.UtcNow` are whole seconds passed in as `now`, and fractional session times are not modelled.
- Dates are day numbers. `DateTime.Date` and `DayOfWeek` are modelled on days counted from 0001-01-01, a Monday.
- Timers are not modelled: `setInterval`, `setTimeout` banners and the Web Audio beeps. Each effect run is one call.
- Client persistence is not modelled: `localStorage` save and load in the session context.
- The server's database is an in-memory sequence of rows. Exceptions are error results, and the transaction and logging are not modelled.
- Weights and distances are integers.
- `ToLower` folds ASCII letters only. .NET's culture-sensitive lower-casing has no finite model here.
- Dashboard.OrdinalLess and Dashboard.Rank order result strings character by character, by Unicode scalar value. The source sorts in memory, after `AsEnumerable()`, with `OrderBy` and `ThenByDescending` and no comparer, so .NET's culture-sensitive default string comparison decides. That comparison is not modelled, and it can rank results such as "1:30" and "10:00" differently.
- Dashboard.FavoriteWorkoutType does not model the SQL order of tied favourite types.
- The declarative FluentValidation and DataAnnotations wiring is not modelled. The rules are functions returning their messages, and the `[Range]` attributes on the create model are not checked.
- `RetrieveWorkoutTypes` and the `CreatedBy` navigation are not modelled: they are reads of reference data.
- Cascade deletes of a workout's results are not modelled.
- `GetMemberSessions` returns sessions in store order. The `OrderByDescending(CreatedDate)` is not modelled.
- Nullable numbers are `Option<int>`. A `NaN` from arithmetic on a missing value is not modelled.
- The list header's sort selector, view toggle and quick-filter buttons are not modelled: they only forward events to the page.
- The builders' slider and input handlers are not modelled. `parseInt` and `Number` parsing of text are left out, except the cleared increment in the ladder finding.
- WorkoutTimer default colour branches for unknown timer types are not modelled: the type is a closed datatype.
- WorkoutTimer times are whole non-negative seconds, so `Math.ceil` of the remaining time is the remaining time.
- EMOMSession: the runner requires `exercisesPerRound >= 1`. With 0 the source computes `NaN` indices.
- AMRAPBuilder.EstimatedRounds requires a round time other than 0. That happens only when the reps sum to −12 or less, which the validator rejects.
- SessionService.StartSession refuses a duplicate id as the database key would. The model does not raise the database's exception type.
- LadderSession.Runner.LadderSteps and LadderSession.Steps run the corrected ladder sequence, with no steps for an increment below 1. The source's `calculateLadderSteps` (ui/application/src/components/workout/sessions/LadderSessionInterface.tsx:53-69) has the builder's unguarded loops and never ends for such an increment; see Findings.
- The server's `WorkoutTypes` enum (namespace `FitBuddy.Dal.Enums`) is not part of this model. WorkoutTypes.IsDefinedType, CreateWorkoutRequest.TypeErrors, UpdateWorkoutRequest and WorkoutService.ScoreTypeFor take its members to carry the client's ids: EMOM 1, AMRAP 2, For Time 3, Tabata 4, Ladder 5.
- WorkoutService.CreateWorkout and WorkoutService.UpdateWorkout answer `NameTaken` where the unique name index makes `SaveChangesAsync` throw. The exception type, and the HTTP error the caller then sees, are not modelled. Names compare as exact strings, as PostgreSQL's default collation does.

## Findings

| source | as written | input that shows it | evidently intended | confidence | as-written member | corrected member |
|---|---|---|---|---|---|---|
| ui/application/src/components/workout/sessions/EMOMSessionInterface.tsx:92 | `handleNext` starts a new round when `nextMinute % exercisesPerRound === 1`, which never holds when `exercisesPerRound` is 1 | 3 minutes, one exercise per round, "next" twice: round 1 on show while finishing reports 3 rounds | a new round at every minute whose `(minute − 1) % exercisesPerRound` is 0 | high, not executed | EMOMSession.NextAsWritten, EMOMSession.AsWrittenRoundDisagreesWithFinish | EMOMSession.Next, EMOMSession.NextKeepsAligned |
| ui/application/src/components/workout/sessions/EMOMSessionInterface.tsx:59 | the timer callback uses the same round test | one exercise per round: the timer never changes the round | the same corrected test | high, not executed | EMOMSession.CatchUpAsWritten, EMOMSession.OneExercisePerRoundNeverAdvancesRound | EMOMSession.CatchUp, EMOMSession.CatchUpKeepsAligned |
| ui/application/src/components/workout/builders/LadderBuilder.tsx:97-111 | the ladder loops step by `increment` with no guard | a 1-to-10 ladder whose increment input was cleared (`Number("") = 0`): the loop never exits | a step below 1 yields no sets, as the validator's "Increment must be at least 1" rule demands | high, not executed | LadderBuilder.AscendingNeverStopsWithoutStep, LadderBuilder.ClearedIncrementHangs | LadderBuilder.LadderSequence, LadderBuilder.AscendingStopsBeforeEnd |
| ui/application/src/components/workout/sessions/LadderSessionInterface.tsx:53-69 | the session's `calculateLadderSteps` repeats the builder's unguarded loops | a ladder session whose exercise has increment 0: opening it never ends | the same guard: no steps below an increment of 1 | high, not executed | LadderBuilder.AscendingNeverStopsWithoutStep, LadderBuilder.ClearedIncrementHangs | LadderSession.Steps, LadderSession.Runner.LadderSteps |
| server/src/FitBuddy.Services/Extensions/PaginateExtensions.cs:14 | `(pageNumber - 1) * pageSize` is an unchecked `int` product | page 1073741825 of size 4 over five items: the offset wraps to 0 and the first page comes back; page 536870913 of size 4: the offset wraps to −2147483648 and the query fails | the offset as a whole number, so that a page past the end is empty | medium, not executed | Paginate.PaginateAsWritten, Paginate.WrappedOffsetRepeatsFirstPage, Paginate.WrappedOffsetFailsQuery | Paginate.Paginate, Paginate.PagesCoverQuery |
| ui/application/src/components/workout/WorkoutListHeader.tsx:81-91 | `getCategoryName`'s keys read named members of `WORKOUT_CATEGORIES`, which is an array, so every key is `undefined` | category 2 (CrossFit) reads "Unknown" | the name `WORKOUT_CATEGORIES` gives the id, "CrossFit WOD" for 2 | high, not executed | ListHeader.CategoryNameAsWritten, ListHeader.CategoryNameAsWrittenIsAlwaysUnknown | ListHeader.CategoryName, ListHeader.CategoryNameNamesListedCategories |
| server/src/FitBuddy.Api/RequestModels/Sessions/CreateWorkoutSessionRequestModel.cs:69-85 | `CreateSessionExerciseProgressRequestModelValidator` is never attached: no `RuleForEach(..).SetValidator(..)`, and the list is checked only for being non-empty | a start request planning 0 sets for an exercise passes, and the server builds no set where the client counts one | the nested rules run on every planned exercise | medium, not executed | SessionRequests.CreateSessionErrors, SessionRequests.ZeroPlannedSetsPassAsWritten | SessionRequests.CreateSessionErrorsWithPlans, SessionRequests.CheckedPlansAgreeWithClient |

Also observed, and modelled as written:

- `WorkoutService.ScoreTypeCanGoStale`: updating a workout's type never updates its score type.
- `ListHeader.BadgeCanReadZeroWhileActive`: the filter badge can read 0 while filters are active.
- `EMOMBuilder.RemoveThenAddRepeatsLastOrder`: removing an EMOM exercise does not renumber the others.
- `SessionService.CompleteIgnoresStatus`: a completed or abandoned session can be completed again.
