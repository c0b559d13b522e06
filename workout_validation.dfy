/**
 * Client-side validation of a workout definition: base checks for every type,
 * one rule set per workout type, and the split of the collected entries into
 * errors and warnings.
 *
 * Each rule set is a loop that pushes entries (`ValidateBase`, `ValidateEmom`, ...),
 * proved equal to a declarative list (`BaseEntries`, `EmomEntries`, ...) about which
 * the properties are stated.
 */
module WorkoutValidation {
  import opened Wrappers
  import opened WorkoutTypes
  import Lists
  import Text
  import opened Arith

  datatype Severity = Error | Warning

  /** `field`: a top-level key, `exercises.<i>`, or `exercises.<i>.<key>`. */
  datatype Field = Top(key: string) | ExerciseEntry(index: nat) | ExerciseField(index: nat, key: string)

  /** The messages; `n` is the 1-based exercise number the text starts with. */
  datatype Message =
    | AtLeastOneExercise
    | ExerciseIdRequired(n: nat)
    | ValidOrderRequired(n: nat)
    | InvalidStructure(n: nat, typeName: string)
    | TotalMinutesTooSmall
    | EmomTooLong
    | MinuteRequired(n: nat)
    | MinuteBeyondTotal(n: nat, minute: nat)
    | RepsTooFew(n: nat)
    | RepsPerMinuteHigh(n: nat, reps: nat)
    | TimeCapTooSmall
    | AmrapTooLong
    | RoundPositionRequired(n: nat)
    | DuplicateRoundPositions
    | TotalRoundsTooFew
    | ForTimeTooManyRounds
    | TotalVolumeHigh(totalReps: nat)
    | WorkTimeTooShort(n: nat)
    | WorkTimeLong(n: nat)
    | RestTimeTooShort(n: nat)
    | RoundsTooFew(n: nat)
    | RoundsExcessive(n: nat)
    | ExercisePositionRequired(n: nat)
    | NotClassicTabata(n: nat)
    | LadderTypeRequired
    | StartRepsTooFew(n: nat)
    | EndRepsTooFew(n: nat)
    | IncrementTooSmall(n: nat)
    | AscendingShouldRise(n: nat)
    | DescendingShouldFall(n: nat)
    | LadderVolumeHigh(n: nat, totalReps: nat)
    | LadderVolumeUnbounded(n: nat)
    | InvalidWorkoutType

  datatype Entry = Entry(field: Field, message: Message, kind: Severity)

  datatype ValidationResult = ValidationResult(isValid: bool, errors: seq<Entry>, warnings: seq<Entry>)

  /** The text shown for each message. */
  function MessageText(m: Message): string
  {
    var ex := (n: nat) => "Exercise " + Text.NatToString(n) + ": ";
    match m
    case AtLeastOneExercise => "At least one exercise is required"
    case ExerciseIdRequired(n) => ex(n) + "Exercise ID is required"
    case ValidOrderRequired(n) => ex(n) + "Valid order is required"
    case InvalidStructure(n, t) => ex(n) + "Invalid " + t + " exercise structure"
    case TotalMinutesTooSmall => "Total minutes must be at least 1"
    case EmomTooLong => "EMOM workouts longer than 60 minutes may be impractical"
    case MinuteRequired(n) => ex(n) + "Valid minute number is required"
    case MinuteBeyondTotal(n, minute) => ex(n) + "Minute " + Text.NatToString(minute) + " exceeds total workout minutes"
    case RepsTooFew(n) => ex(n) + "Reps must be at least 1"
    case RepsPerMinuteHigh(n, reps) => ex(n) + Text.NatToString(reps) + " reps may be difficult to complete in one minute"
    case TimeCapTooSmall => "Time cap must be at least 1 minute"
    case AmrapTooLong => "AMRAP workouts longer than 60 minutes may be impractical"
    case RoundPositionRequired(n) => ex(n) + "Valid round position is required"
    case DuplicateRoundPositions => "Duplicate round positions found. Each exercise should have a unique position in the round."
    case TotalRoundsTooFew => "Total rounds must be at least 1"
    case ForTimeTooManyRounds => "For Time workouts with more than 50 rounds may be impractical"
    case TotalVolumeHigh(total) => "Total volume of " + Text.NatToString(total) + " reps may be very challenging"
    case WorkTimeTooShort(n) => ex(n) + "Work time must be at least 5 seconds"
    case WorkTimeLong(n) => ex(n) + "Work intervals longer than 5 minutes are not typical for Tabata"
    case RestTimeTooShort(n) => ex(n) + "Rest time must be at least 5 seconds"
    case RoundsTooFew(n) => ex(n) + "Rounds must be at least 1"
    case RoundsExcessive(n) => ex(n) + "More than 20 Tabata rounds may be excessive"
    case ExercisePositionRequired(n) => ex(n) + "Valid exercise position is required"
    case NotClassicTabata(n) => ex(n) + "Classic Tabata protocol is 20s work, 10s rest for 8 rounds"
    case LadderTypeRequired => "Valid ladder type is required (ascending, descending, or pyramid)"
    case StartRepsTooFew(n) => ex(n) + "Start reps must be at least 1"
    case EndRepsTooFew(n) => ex(n) + "End reps must be at least 1"
    case IncrementTooSmall(n) => ex(n) + "Increment must be at least 1"
    case AscendingShouldRise(n) => ex(n) + "Ascending ladder should start lower than it ends"
    case DescendingShouldFall(n) => ex(n) + "Descending ladder should start higher than it ends"
    case LadderVolumeHigh(n, total) => ex(n) + "Total volume of " + Text.NatToString(total) + " reps may be excessive"
    case LadderVolumeUnbounded(n) => ex(n) + "Total volume of Infinity reps may be excessive"
    case InvalidWorkoutType => "Invalid workout type"
  }

  /** `!x || x < min` for `min >= 1`: absent, zero or too small. */
  predicate Below(o: Option<int>, min: int)
  {
    o.None? || o.value < min
  }

  /** `x > max`: an absent value compares false. */
  predicate Above(o: Option<int>, max: int)
  {
    o.Some? && o.value > max
  }

  /** `x || 1`: absent and zero both read as 1. */
  function OrOne(o: Option<int>): (r: int)
    ensures r != 0
  {
    OrElse(o, 1)
  }

  // ---------------------------------------------------------------- per exercise

  datatype RuleSet = BaseRules | EmomRules | AmrapRules | ForTimeRules | TabataRules | LadderRules

  function BaseExerciseEntries(e: Exercise, i: nat): seq<Entry>
  {
    (if e.exerciseId == 0 then [Entry(ExerciseField(i, "exerciseId"), ExerciseIdRequired(i + 1), Error)] else [])
    + (if e.orderInWorkout < 1 then [Entry(ExerciseField(i, "orderInWorkout"), ValidOrderRequired(i + 1), Error)] else [])
  }

  function EmomExerciseEntries(d: WorkoutData, e: Exercise, i: nat): seq<Entry>
  {
    if !IsEMOMExercise(e) then [Entry(ExerciseEntry(i), InvalidStructure(i + 1, "EMOM"), Error)]
    else
      (if Below(e.minute, 1) then [Entry(ExerciseField(i, "minute"), MinuteRequired(i + 1), Error)]
       else if d.totalMinutes.Some? && e.minute.value > d.totalMinutes.value
       then [Entry(ExerciseField(i, "minute"), MinuteBeyondTotal(i + 1, e.minute.value), Error)]
       else [])
      + (if Below(e.reps, 1) then [Entry(ExerciseField(i, "reps"), RepsTooFew(i + 1), Error)]
         else if Above(e.reps, 100) then [Entry(ExerciseField(i, "reps"), RepsPerMinuteHigh(i + 1, e.reps.value), Warning)]
         else [])
  }

  function AmrapExerciseEntries(e: Exercise, i: nat): seq<Entry>
  {
    if !IsAMRAPExercise(e) then [Entry(ExerciseEntry(i), InvalidStructure(i + 1, "AMRAP"), Error)]
    else
      (if Below(e.reps, 1) then [Entry(ExerciseField(i, "reps"), RepsTooFew(i + 1), Error)] else [])
      + (if Below(e.roundPosition, 1) then [Entry(ExerciseField(i, "roundPosition"), RoundPositionRequired(i + 1), Error)] else [])
  }

  function ForTimeExerciseEntries(e: Exercise, i: nat): seq<Entry>
  {
    if !IsForTimeExercise(e) then [Entry(ExerciseEntry(i), InvalidStructure(i + 1, "For Time"), Error)]
    else if Below(e.reps, 1) then [Entry(ExerciseField(i, "reps"), RepsTooFew(i + 1), Error)]
    else []
  }

  predicate IsClassicTabata(e: Exercise)
  {
    e.workTimeSeconds == Some(20) && e.restTimeSeconds == Some(10) && e.rounds == Some(8)
  }

  function WorkTimeEntries(e: Exercise, i: nat): seq<Entry>
  {
    if Below(e.workTimeSeconds, 5) then [Entry(ExerciseField(i, "workTimeSeconds"), WorkTimeTooShort(i + 1), Error)]
    else if Above(e.workTimeSeconds, 300) then [Entry(ExerciseField(i, "workTimeSeconds"), WorkTimeLong(i + 1), Warning)]
    else []
  }

  function RestTimeEntries(e: Exercise, i: nat): seq<Entry>
  {
    if Below(e.restTimeSeconds, 5) then [Entry(ExerciseField(i, "restTimeSeconds"), RestTimeTooShort(i + 1), Error)] else []
  }

  function RoundsEntries(e: Exercise, i: nat): seq<Entry>
  {
    if Below(e.rounds, 1) then [Entry(ExerciseField(i, "rounds"), RoundsTooFew(i + 1), Error)]
    else if Above(e.rounds, 20) then [Entry(ExerciseField(i, "rounds"), RoundsExcessive(i + 1), Warning)]
    else []
  }

  function PositionEntries(e: Exercise, i: nat): seq<Entry>
  {
    if Below(e.exercisePosition, 1) then [Entry(ExerciseField(i, "exercisePosition"), ExercisePositionRequired(i + 1), Error)] else []
  }

  function TimingEntries(e: Exercise, i: nat): seq<Entry>
  {
    if !IsClassicTabata(e) then [Entry(ExerciseField(i, "timing"), NotClassicTabata(i + 1), Warning)] else []
  }

  function TabataExerciseEntries(e: Exercise, i: nat): seq<Entry>
  {
    if !IsTabataExercise(e) then [Entry(ExerciseEntry(i), InvalidStructure(i + 1, "Tabata"), Error)]
    else WorkTimeEntries(e, i) + RestTimeEntries(e, i) + RoundsEntries(e, i) + PositionEntries(e, i) + TimingEntries(e, i)
  }

  /**
   * The ladder volume estimate, doubled so that it stays whole:
   * steps = ⌊|end − start| / increment⌋ + 1, and the estimate is
   * (2·steps − 1)·(start + end)/2 for a pyramid, steps·(start + end)/2 otherwise.
   * `None` when the increment is absent (the arithmetic gives NaN).
   */
  datatype Volume = Finite(twice: int) | Unbounded | NotANumber

  function LadderVolume(e: Exercise): Volume
    requires IsLadderExercise(e)
  {
    var s, t := e.startReps.value, e.endReps.value;
    var range := Abs(t - s);
    if e.increment.None? then NotANumber
    else if e.increment.value == 0 then
      // range / 0 is Infinity (NaN when range is 0); Infinity·(start+end) keeps the sign of start+end
      if range == 0 || s + t == 0 then NotANumber else if s + t > 0 then Unbounded else NotANumber
    else
      var steps := FloorDiv(range, e.increment.value) + 1;
      Finite(if e.ladderType == Some("pyramid") then (steps * 2 - 1) * (s + t) else steps * (s + t))
  }

  function LadderVolumeEntries(e: Exercise, i: nat): seq<Entry>
    requires IsLadderExercise(e)
  {
    match LadderVolume(e)
    case Finite(twice) =>
      // totalReps > 500 on the halved value; Math.round(twice / 2) = ⌊(twice + 1) / 2⌋
      if twice > 1000 then [Entry(ExerciseField(i, "volume"), LadderVolumeHigh(i + 1, (twice + 1) / 2), Warning)] else []
    case Unbounded => [Entry(ExerciseField(i, "volume"), LadderVolumeUnbounded(i + 1), Warning)]
    case NotANumber => []
  }

  function RepsFieldEntries(e: Exercise, i: nat): seq<Entry>
  {
    (if Below(e.startReps, 1) then [Entry(ExerciseField(i, "startReps"), StartRepsTooFew(i + 1), Error)] else [])
    + (if Below(e.endReps, 1) then [Entry(ExerciseField(i, "endReps"), EndRepsTooFew(i + 1), Error)] else [])
    + (if Below(e.increment, 1) then [Entry(ExerciseField(i, "increment"), IncrementTooSmall(i + 1), Error)] else [])
  }

  function ProgressionEntries(e: Exercise, i: nat): seq<Entry>
    requires IsLadderExercise(e)
  {
    if e.ladderType == Some("ascending") && e.startReps.value >= e.endReps.value
    then [Entry(ExerciseField(i, "progression"), AscendingShouldRise(i + 1), Error)]
    else if e.ladderType == Some("descending") && e.startReps.value <= e.endReps.value
    then [Entry(ExerciseField(i, "progression"), DescendingShouldFall(i + 1), Error)]
    else []
  }

  function LadderExerciseEntries(e: Exercise, i: nat): seq<Entry>
  {
    if !IsLadderExercise(e) then [Entry(ExerciseEntry(i), InvalidStructure(i + 1, "Ladder"), Error)]
    else RepsFieldEntries(e, i) + ProgressionEntries(e, i) + LadderVolumeEntries(e, i)
  }

  function ExerciseEntries(rules: RuleSet, d: WorkoutData, i: nat): seq<Entry>
    requires i < |d.exercises|
  {
    var e := d.exercises[i];
    match rules
    case BaseRules => BaseExerciseEntries(e, i)
    case EmomRules => EmomExerciseEntries(d, e, i)
    case AmrapRules => AmrapExerciseEntries(e, i)
    case ForTimeRules => ForTimeExerciseEntries(e, i)
    case TabataRules => TabataExerciseEntries(e, i)
    case LadderRules => LadderExerciseEntries(e, i)
  }

  /** What one pass of the `forEach` pushes, exercise by exercise. */
  function PerExercise(rules: RuleSet, d: WorkoutData): seq<seq<Entry>>
  {
    seq(|d.exercises|, i requires 0 <= i < |d.exercises| => ExerciseEntries(rules, d, i))
  }

  /** The entries the `forEach` over all exercises pushes. */
  function AllEach(rules: RuleSet, d: WorkoutData): seq<Entry>
  {
    Lists.Flatten(PerExercise(rules, d))
  }

  lemma AllEachContains(rules: RuleSet, d: WorkoutData, i: nat, x: Entry)
    requires i < |d.exercises| && x in ExerciseEntries(rules, d, i)
    ensures x in AllEach(rules, d)
  {
    Lists.FlattenContains(PerExercise(rules, d), i, x);
  }

  lemma AllEachOnly(rules: RuleSet, d: WorkoutData, x: Entry)
    requires x in AllEach(rules, d)
    ensures exists i :: 0 <= i < |d.exercises| && x in ExerciseEntries(rules, d, i)
  {
    Lists.FlattenOnly(PerExercise(rules, d), x);
  }

  /** The loops' progress: the entries pushed for the first `k` exercises. */
  function Pushed(rules: RuleSet, d: WorkoutData, k: nat): seq<Entry>
    requires k <= |d.exercises|
  {
    Lists.Flatten(PerExercise(rules, d)[..k])
  }

  lemma PushedStep(rules: RuleSet, d: WorkoutData, k: nat)
    requires k < |d.exercises|
    ensures Pushed(rules, d, k + 1) == Pushed(rules, d, k) + ExerciseEntries(rules, d, k)
    ensures Pushed(rules, d, 0) == []
  {
    Lists.FlattenSnoc(PerExercise(rules, d), k);
  }

  lemma PushedAll(rules: RuleSet, d: WorkoutData)
    ensures Pushed(rules, d, |d.exercises|) == AllEach(rules, d)
  {
    assert PerExercise(rules, d)[..|d.exercises|] == PerExercise(rules, d);
  }

  // ---------------------------------------------------------------- rule sets

  function BaseHeader(d: WorkoutData): seq<Entry>
  {
    if |d.exercises| == 0 then [Entry(Top("exercises"), AtLeastOneExercise, Error)] else []
  }

  function BaseEntries(d: WorkoutData): seq<Entry>
  {
    BaseHeader(d) + AllEach(BaseRules, d)
  }

  function EmomHeader(d: WorkoutData): seq<Entry>
  {
    if Below(d.totalMinutes, 1) then [Entry(Top("totalMinutes"), TotalMinutesTooSmall, Error)]
    else if Above(d.totalMinutes, 60) then [Entry(Top("totalMinutes"), EmomTooLong, Warning)]
    else []
  }

  function EmomEntries(d: WorkoutData): seq<Entry>
  {
    EmomHeader(d) + AllEach(EmomRules, d)
  }

  function AmrapHeader(d: WorkoutData): seq<Entry>
  {
    if Below(d.timeCapMinutes, 1) then [Entry(Top("timeCapMinutes"), TimeCapTooSmall, Error)]
    else if Above(d.timeCapMinutes, 60) then [Entry(Top("timeCapMinutes"), AmrapTooLong, Warning)]
    else []
  }

  function RoundPositions(exercises: seq<Exercise>): (ps: seq<Option<int>>)
    ensures |ps| == |exercises| && forall i :: 0 <= i < |ps| ==> ps[i] == exercises[i].roundPosition
  {
    seq(|exercises|, i requires 0 <= i < |exercises| => exercises[i].roundPosition)
  }

  /** `indexOf`: the first index holding `x`, or -1. */
  function IndexOf<T(==)>(s: seq<T>, x: T): (r: int)
    ensures -1 <= r < |s|
    ensures r == -1 <==> x !in s
    ensures r >= 0 ==> s[r] == x && forall j :: 0 <= j < r ==> s[j] != x
  {
    if s == [] then -1
    else if s[0] == x then 0
    else var r := IndexOf(s[1..], x); if r == -1 then -1 else r + 1
  }

  /** `positions.filter((pos, index) => positions.indexOf(pos) !== index)`, over the first `k` positions. */
  function Duplicates<T(==)>(s: seq<T>, k: nat): seq<T>
    requires k <= |s|
  {
    if k == 0 then [] else Duplicates(s, k - 1) + (if IndexOf(s, s[k - 1]) != k - 1 then [s[k - 1]] else [])
  }

  predicate HasRepeat<T(==)>(s: seq<T>)
  {
    exists i, j :: 0 <= i < j < |s| && s[i] == s[j]
  }

  /** One more position adds one duplicate exactly when that position's value occurred earlier. */
  lemma DuplicatesStep<T>(s: seq<T>, k: nat)
    requires 0 < k <= |s|
    ensures |Duplicates(s, k)| == |Duplicates(s, k - 1)| + (if IndexOf(s, s[k - 1]) != k - 1 then 1 else 0)
  {
  }

  /** Some position below `k` holds a value that occurred earlier. */
  predicate RepeatBelow<T(==)>(s: seq<T>, k: nat)
    requires k <= |s|
  {
    exists j :: 0 <= j < k && IndexOf(s, s[j]) != j
  }

  /** Some position below `k` repeats an earlier value exactly when one below `k - 1` does or `k - 1` does. */
  lemma RepeatBelowStep<T>(s: seq<T>, k: nat)
    requires 0 < k <= |s|
    ensures RepeatBelow(s, k) <==> RepeatBelow(s, k - 1) || IndexOf(s, s[k - 1]) != k - 1
  {
    if RepeatBelow(s, k) {
      var j :| 0 <= j < k && IndexOf(s, s[j]) != j;
      assert j < k - 1 ==> RepeatBelow(s, k - 1);
    }
  }

  lemma {:induction false} DuplicatesNonEmptyIff<T>(s: seq<T>, k: nat)
    requires k <= |s|
    ensures |Duplicates(s, k)| > 0 <==> RepeatBelow(s, k)
  {
    if k > 0 {
      DuplicatesNonEmptyIff(s, k - 1);
      DuplicatesStep(s, k);
      RepeatBelowStep(s, k);
    }
  }

  /** The `indexOf` filter is non-empty exactly when some value occurs twice. */
  lemma DuplicatesIffRepeat<T>(s: seq<T>)
    ensures |Duplicates(s, |s|)| > 0 <==> HasRepeat(s)
  {
    DuplicatesNonEmptyIff(s, |s|);
    if HasRepeat(s) {
      var i, j :| 0 <= i < j < |s| && s[i] == s[j];
      assert IndexOf(s, s[j]) != j;
    }
    if exists j :: 0 <= j < |s| && IndexOf(s, s[j]) != j {
      var j :| 0 <= j < |s| && IndexOf(s, s[j]) != j;
      var i := IndexOf(s, s[j]);
      assert 0 <= i < j && s[i] == s[j];
    }
  }

  function AmrapEntries(d: WorkoutData): seq<Entry>
  {
    AmrapHeader(d) + AllEach(AmrapRules, d)
    + (var ps := RoundPositions(d.exercises);
       if |Duplicates(ps, |ps|)| > 0 then [Entry(Top("exercises"), DuplicateRoundPositions, Error)] else [])
  }

  function ForTimeHeader(d: WorkoutData): seq<Entry>
  {
    if d.totalRounds.Some? && d.totalRounds.value != 0 && d.totalRounds.value < 1
    then [Entry(Top("totalRounds"), TotalRoundsTooFew, Error)]
    else if Above(d.totalRounds, 50) then [Entry(Top("totalRounds"), ForTimeTooManyRounds, Warning)]
    else []
  }

  /** Σ reps × (totalRounds || 1); a missing rep count makes the sum NaN and the warning never fires. */
  function ForTimeVolumeEntries(d: WorkoutData): seq<Entry>
  {
    if !AllRepsPresent(d.exercises) then []
    else
      var total := Lists.Sum(RepsOf(d.exercises)) * OrOne(d.totalRounds);
      if total > 1000 then [Entry(Top("totalVolume"), TotalVolumeHigh(total), Warning)] else []
  }

  function ForTimeEntries(d: WorkoutData): seq<Entry>
  {
    ForTimeHeader(d) + AllEach(ForTimeRules, d) + ForTimeVolumeEntries(d)
  }

  function TabataHeader(d: WorkoutData): seq<Entry>
  {
    if Below(d.totalRounds, 1) then [Entry(Top("totalRounds"), TotalRoundsTooFew, Error)] else []
  }

  function TabataEntries(d: WorkoutData): seq<Entry>
  {
    TabataHeader(d) + AllEach(TabataRules, d)
  }

  predicate IsLadderKind(t: Option<string>)
  {
    t.Some? && t.value in ["ascending", "descending", "pyramid"]
  }

  function LadderHeader(d: WorkoutData): seq<Entry>
  {
    if !IsLadderKind(d.ladderType) then [Entry(Top("ladderType"), LadderTypeRequired, Error)] else []
  }

  function LadderEntries(d: WorkoutData): seq<Entry>
  {
    LadderHeader(d) + AllEach(LadderRules, d)
  }

  /** The type-specific entries; an unknown id gets the single 'Invalid workout type' error. */
  function TypeEntries(typeId: int, d: WorkoutData): seq<Entry>
  {
    if typeId == EMOM then EmomEntries(d)
    else if typeId == AMRAP then AmrapEntries(d)
    else if typeId == FOR_TIME then ForTimeEntries(d)
    else if typeId == TABATA then TabataEntries(d)
    else if typeId == LADDER then LadderEntries(d)
    else [Entry(Top("workoutType"), InvalidWorkoutType, Error)]
  }

  function AllEntries(typeId: int, d: WorkoutData): seq<Entry>
  {
    BaseEntries(d) + TypeEntries(typeId, d)
  }

  /** `filter(e => e.type === kind)`. */
  function OfKind(s: seq<Entry>, kind: Severity): (r: seq<Entry>)
    ensures forall x :: x in r <==> x in s && x.kind == kind
    ensures |r| <= |s|
  {
    if s == [] then [] else OfKind(s[..|s| - 1], kind) + (if s[|s| - 1].kind == kind then [s[|s| - 1]] else [])
  }

  /**
   * The tail of `validateWorkout`: the entries split into errors and warnings, valid when no error.
   * Every entry lands in exactly one of the two lists.
   */
  function Classify(all: seq<Entry>): (r: ValidationResult)
    ensures r.isValid <==> forall x :: x in all ==> x.kind != Error
    ensures multiset(r.errors) + multiset(r.warnings) == multiset(all)
    ensures forall x :: x in r.errors <==> x in all && x.kind == Error
    ensures forall x :: x in r.warnings <==> x in all && x.kind == Warning
  {
    OfKindPartition(all);
    var errors := OfKind(all, Error);
    assert (forall x :: x in all ==> x.kind != Error) ==> |errors| == 0 by {
      if |errors| > 0 {
        assert errors[0] in errors;
      }
    }
    ValidationResult(|errors| == 0, errors, OfKind(all, Warning))
  }

  /** `validateWorkout`: base checks, then the rule set of the type, then the split. */
  function ValidateWorkout(typeId: int, d: WorkoutData): ValidationResult
  {
    Classify(AllEntries(typeId, d))
  }

  // ---------------------------------------------------------------- the loops

  method ValidateBase(d: WorkoutData) returns (errors: seq<Entry>)
    ensures errors == BaseEntries(d)
  {
    errors := [];
    if |d.exercises| == 0 {
      errors := errors + [Entry(Top("exercises"), AtLeastOneExercise, Error)];
    }
    errors := PushEach(BaseRules, d, errors);
  }

  method ValidateEmom(d: WorkoutData) returns (errors: seq<Entry>)
    ensures errors == EmomEntries(d)
  {
    errors := [];
    if Below(d.totalMinutes, 1) {
      errors := errors + [Entry(Top("totalMinutes"), TotalMinutesTooSmall, Error)];
    } else if Above(d.totalMinutes, 60) {
      errors := errors + [Entry(Top("totalMinutes"), EmomTooLong, Warning)];
    }
    errors := PushEach(EmomRules, d, errors);
  }

  method ValidateAmrap(d: WorkoutData) returns (errors: seq<Entry>)
    ensures errors == AmrapEntries(d)
  {
    errors := [];
    if Below(d.timeCapMinutes, 1) {
      errors := errors + [Entry(Top("timeCapMinutes"), TimeCapTooSmall, Error)];
    } else if Above(d.timeCapMinutes, 60) {
      errors := errors + [Entry(Top("timeCapMinutes"), AmrapTooLong, Warning)];
    }
    assert errors == AmrapHeader(d);
    errors := PushEach(AmrapRules, d, errors);
    var positions := RoundPositions(d.exercises);
    var duplicates := Duplicates(positions, |positions|);
    if |duplicates| > 0 {
      errors := errors + [Entry(Top("exercises"), DuplicateRoundPositions, Error)];
    }
  }

  method ValidateForTime(d: WorkoutData) returns (errors: seq<Entry>)
    ensures errors == ForTimeEntries(d)
  {
    errors := [];
    if d.totalRounds.Some? && d.totalRounds.value != 0 && d.totalRounds.value < 1 {
      errors := errors + [Entry(Top("totalRounds"), TotalRoundsTooFew, Error)];
    } else if d.totalRounds.Some? && d.totalRounds.value != 0 && d.totalRounds.value > 50 {
      errors := errors + [Entry(Top("totalRounds"), ForTimeTooManyRounds, Warning)];
    }
    assert errors == ForTimeHeader(d);
    errors := PushEach(ForTimeRules, d, errors);
    errors := errors + ForTimeVolumeEntries(d);
  }

  method ValidateTabata(d: WorkoutData) returns (errors: seq<Entry>)
    ensures errors == TabataEntries(d)
  {
    errors := [];
    if Below(d.totalRounds, 1) {
      errors := errors + [Entry(Top("totalRounds"), TotalRoundsTooFew, Error)];
    }
    errors := PushEach(TabataRules, d, errors);
  }

  method ValidateLadder(d: WorkoutData) returns (errors: seq<Entry>)
    ensures errors == LadderEntries(d)
  {
    errors := [];
    if d.ladderType.None? || d.ladderType.value !in ["ascending", "descending", "pyramid"] {
      errors := errors + [Entry(Top("ladderType"), LadderTypeRequired, Error)];
    }
    errors := PushEach(LadderRules, d, errors);
  }

  /** A rule set's `forEach` over the exercises, pushing after the entries already in `header`. */
  method PushEach(rules: RuleSet, d: WorkoutData, header: seq<Entry>) returns (errors: seq<Entry>)
    ensures errors == header + AllEach(rules, d)
  {
    errors := header;
    var i := 0;
    while i < |d.exercises|
      invariant 0 <= i <= |d.exercises|
      invariant errors == header + Pushed(rules, d, i)
    {
      errors := PushChecks(rules, errors, d, i);
      PushedStep(rules, d, i);
      Lists.AppendAssoc(header, Pushed(rules, d, i), ExerciseEntries(rules, d, i));
      i := i + 1;
    }
    PushedAll(rules, d);
  }

  /** The rule set's `forEach` callback, run on exercise `i`. */
  method PushChecks(rules: RuleSet, errors: seq<Entry>, d: WorkoutData, i: nat) returns (pushed: seq<Entry>)
    requires i < |d.exercises|
    ensures pushed == errors + ExerciseEntries(rules, d, i)
  {
    var e := d.exercises[i];
    match rules
    case BaseRules => pushed := PushBaseChecks(errors, e, i);
    case EmomRules => pushed := PushEmomChecks(errors, d, e, i);
    case AmrapRules => pushed := PushAmrapChecks(errors, e, i);
    case ForTimeRules => pushed := PushForTimeChecks(errors, e, i);
    case TabataRules => pushed := PushTabataChecks(errors, e, i);
    case LadderRules => pushed := PushLadderChecks(errors, e, i);
  }

  /** The `forEach` callback of the base rules: pushes the entries for exercise `i`. */
  method PushBaseChecks(errors: seq<Entry>, e: Exercise, i: nat) returns (pushed: seq<Entry>)
    ensures pushed == errors + BaseExerciseEntries(e, i)
  {
    pushed := errors;
    if e.exerciseId == 0 {
      pushed := pushed + [Entry(ExerciseField(i, "exerciseId"), ExerciseIdRequired(i + 1), Error)];
    }
    if e.orderInWorkout < 1 {
      pushed := pushed + [Entry(ExerciseField(i, "orderInWorkout"), ValidOrderRequired(i + 1), Error)];
    }
  }

  /** The `forEach` callback of the EMOM rules; a failed structure check returns early. */
  method PushEmomChecks(errors: seq<Entry>, d: WorkoutData, e: Exercise, i: nat) returns (pushed: seq<Entry>)
    ensures pushed == errors + EmomExerciseEntries(d, e, i)
  {
    pushed := errors;
    if !IsEMOMExercise(e) {
      pushed := pushed + [Entry(ExerciseEntry(i), InvalidStructure(i + 1, "EMOM"), Error)];
      return;
    }
    if Below(e.minute, 1) {
      pushed := pushed + [Entry(ExerciseField(i, "minute"), MinuteRequired(i + 1), Error)];
    } else if d.totalMinutes.Some? && e.minute.value > d.totalMinutes.value {
      pushed := pushed + [Entry(ExerciseField(i, "minute"), MinuteBeyondTotal(i + 1, e.minute.value), Error)];
    }
    if Below(e.reps, 1) {
      pushed := pushed + [Entry(ExerciseField(i, "reps"), RepsTooFew(i + 1), Error)];
    } else if Above(e.reps, 100) {
      pushed := pushed + [Entry(ExerciseField(i, "reps"), RepsPerMinuteHigh(i + 1, e.reps.value), Warning)];
    }
  }

  /** The `forEach` callback of the AMRAP rules. */
  method PushAmrapChecks(errors: seq<Entry>, e: Exercise, i: nat) returns (pushed: seq<Entry>)
    ensures pushed == errors + AmrapExerciseEntries(e, i)
  {
    pushed := errors;
    if !IsAMRAPExercise(e) {
      pushed := pushed + [Entry(ExerciseEntry(i), InvalidStructure(i + 1, "AMRAP"), Error)];
      return;
    }
    if Below(e.reps, 1) {
      pushed := pushed + [Entry(ExerciseField(i, "reps"), RepsTooFew(i + 1), Error)];
    }
    if Below(e.roundPosition, 1) {
      pushed := pushed + [Entry(ExerciseField(i, "roundPosition"), RoundPositionRequired(i + 1), Error)];
    }
  }

  /** The `forEach` callback of the For Time rules. */
  method PushForTimeChecks(errors: seq<Entry>, e: Exercise, i: nat) returns (pushed: seq<Entry>)
    ensures pushed == errors + ForTimeExerciseEntries(e, i)
  {
    pushed := errors;
    if !IsForTimeExercise(e) {
      pushed := pushed + [Entry(ExerciseEntry(i), InvalidStructure(i + 1, "For Time"), Error)];
      return;
    }
    if Below(e.reps, 1) {
      pushed := pushed + [Entry(ExerciseField(i, "reps"), RepsTooFew(i + 1), Error)];
    }
  }

  /** The `forEach` callback of the Tabata rules. */
  method PushTabataChecks(errors: seq<Entry>, e: Exercise, i: nat) returns (pushed: seq<Entry>)
    ensures pushed == errors + TabataExerciseEntries(e, i)
  {
    pushed := errors;
    if !IsTabataExercise(e) {
      pushed := pushed + [Entry(ExerciseEntry(i), InvalidStructure(i + 1, "Tabata"), Error)];
      return;
    }
    if Below(e.workTimeSeconds, 5) {
      pushed := pushed + [Entry(ExerciseField(i, "workTimeSeconds"), WorkTimeTooShort(i + 1), Error)];
    } else if Above(e.workTimeSeconds, 300) {
      pushed := pushed + [Entry(ExerciseField(i, "workTimeSeconds"), WorkTimeLong(i + 1), Warning)];
    }
    ghost var acc := WorkTimeEntries(e, i);
    assert pushed == errors + acc;
    ghost var before := pushed;
    if Below(e.restTimeSeconds, 5) {
      pushed := pushed + [Entry(ExerciseField(i, "restTimeSeconds"), RestTimeTooShort(i + 1), Error)];
    }
    assert pushed == before + RestTimeEntries(e, i);
    Lists.AppendAssoc(errors, acc, RestTimeEntries(e, i));
    acc, before := acc + RestTimeEntries(e, i), pushed;
    if Below(e.rounds, 1) {
      pushed := pushed + [Entry(ExerciseField(i, "rounds"), RoundsTooFew(i + 1), Error)];
    } else if Above(e.rounds, 20) {
      pushed := pushed + [Entry(ExerciseField(i, "rounds"), RoundsExcessive(i + 1), Warning)];
    }
    assert pushed == before + RoundsEntries(e, i);
    Lists.AppendAssoc(errors, acc, RoundsEntries(e, i));
    acc, before := acc + RoundsEntries(e, i), pushed;
    if Below(e.exercisePosition, 1) {
      pushed := pushed + [Entry(ExerciseField(i, "exercisePosition"), ExercisePositionRequired(i + 1), Error)];
    }
    assert pushed == before + PositionEntries(e, i);
    Lists.AppendAssoc(errors, acc, PositionEntries(e, i));
    acc, before := acc + PositionEntries(e, i), pushed;
    if e.workTimeSeconds != Some(20) || e.restTimeSeconds != Some(10) || e.rounds != Some(8) {
      pushed := pushed + [Entry(ExerciseField(i, "timing"), NotClassicTabata(i + 1), Warning)];
    }
    assert pushed == before + TimingEntries(e, i);
    Lists.AppendAssoc(errors, acc, TimingEntries(e, i));
  }

  /** The `forEach` callback of the Ladder rules. */
  method PushLadderChecks(errors: seq<Entry>, e: Exercise, i: nat) returns (pushed: seq<Entry>)
    ensures pushed == errors + LadderExerciseEntries(e, i)
  {
    pushed := errors;
    if !IsLadderExercise(e) {
      pushed := pushed + [Entry(ExerciseEntry(i), InvalidStructure(i + 1, "Ladder"), Error)];
      return;
    }
    if Below(e.startReps, 1) {
      pushed := pushed + [Entry(ExerciseField(i, "startReps"), StartRepsTooFew(i + 1), Error)];
    }
    if Below(e.endReps, 1) {
      pushed := pushed + [Entry(ExerciseField(i, "endReps"), EndRepsTooFew(i + 1), Error)];
    }
    if Below(e.increment, 1) {
      pushed := pushed + [Entry(ExerciseField(i, "increment"), IncrementTooSmall(i + 1), Error)];
    }
    ghost var acc := RepsFieldEntries(e, i);
    assert pushed == errors + acc;
    ghost var before := pushed;
    if e.ladderType == Some("ascending") && e.startReps.value >= e.endReps.value {
      pushed := pushed + [Entry(ExerciseField(i, "progression"), AscendingShouldRise(i + 1), Error)];
    } else if e.ladderType == Some("descending") && e.startReps.value <= e.endReps.value {
      pushed := pushed + [Entry(ExerciseField(i, "progression"), DescendingShouldFall(i + 1), Error)];
    }
    assert pushed == before + ProgressionEntries(e, i);
    Lists.AppendAssoc(errors, acc, ProgressionEntries(e, i));
    acc := acc + ProgressionEntries(e, i);
    pushed := pushed + LadderVolumeEntries(e, i);
    Lists.AppendAssoc(errors, acc, LadderVolumeEntries(e, i));
  }

  // ---------------------------------------------------------------- helper texts

  const EmomRequirements: seq<string> :=
    ["Total workout duration in minutes", "Exercise assignment to specific minutes", "Rep count for each exercise per minute"]
  const AmrapRequirements: seq<string> :=
    ["Time cap for the workout", "Round definition with exercises and reps", "Sequential order of exercises within round"]
  const ForTimeRequirements: seq<string> :=
    ["Number of rounds (if applicable)", "Exercise sequence with rep counts", "Clear completion criteria"]
  const TabataRequirements: seq<string> :=
    ["Work and rest intervals for each exercise", "Number of rounds per exercise", "Exercise sequence and timing"]
  const LadderRequirements: seq<string> :=
    ["Ladder type (ascending, descending, or pyramid)", "Starting and ending rep counts", "Increment step size"]
  const BasicRequirements: seq<string> := ["Basic exercise information"]

  /** `getWorkoutTypeRequirements`: three lines per defined type, one generic line otherwise. */
  function WorkoutTypeRequirements(typeId: int): (r: seq<string>)
    ensures |r| == if IsDefinedType(typeId) then 3 else 1
    ensures !IsDefinedType(typeId) <==> r == BasicRequirements
  {
    if typeId == EMOM then EmomRequirements
    else if typeId == AMRAP then AmrapRequirements
    else if typeId == FOR_TIME then ForTimeRequirements
    else if typeId == TABATA then TabataRequirements
    else if typeId == LADDER then LadderRequirements
    else BasicRequirements
  }

  const EmomTips: seq<string> :=
    ["Keep rep counts manageable to allow for rest within each minute",
     "Consider workout scaling for different fitness levels",
     "Distribute exercises across minutes to avoid overloading specific minutes"]
  const AmrapTips: seq<string> :=
    ["Design rounds that can be completed in 3-8 minutes",
     "Balance high and low intensity exercises",
     "Include clear rep counts for consistent scoring"]
  const ForTimeTips: seq<string> :=
    ["Consider total volume when setting rep counts",
     "Balance speed with safety for movement selection",
     "Set realistic time caps for completion"]
  const TabataTips: seq<string> :=
    ["Classic Tabata: 20s work, 10s rest for 8 rounds",
     "Choose exercises that can maintain high intensity",
     "Consider exercise transitions between intervals"]
  const LadderTips: seq<string> :=
    ["Ensure progression makes logical sense",
     "Consider total volume accumulation",
     "Choose appropriate increment sizes for the exercise"]

  /** `getValidationTips`: three tips per defined type, none otherwise. */
  function ValidationTips(typeId: int): (r: seq<string>)
    ensures |r| == if IsDefinedType(typeId) then 3 else 0
  {
    if typeId == EMOM then EmomTips
    else if typeId == AMRAP then AmrapTips
    else if typeId == FOR_TIME then ForTimeTips
    else if typeId == TABATA then TabataTips
    else if typeId == LADDER then LadderTips
    else []
  }

  // ---------------------------------------------------------------- properties

  lemma {:induction false} OfKindAppend(a: seq<Entry>, b: seq<Entry>, kind: Severity)
    ensures OfKind(a + b, kind) == OfKind(a, kind) + OfKind(b, kind)
  {
    if b == [] {
      assert a + b == a;
    } else {
      assert (a + b)[..|a + b| - 1] == a + b[..|b| - 1];
      OfKindAppend(a, b[..|b| - 1], kind);
      Lists.AppendAssoc(OfKind(a, kind), OfKind(b[..|b| - 1], kind), if b[|b| - 1].kind == kind then [b[|b| - 1]] else []);
    }
  }

  lemma OfKindSnoc(init: seq<Entry>, last: Entry, kind: Severity)
    ensures OfKind(init + [last], kind) == OfKind(init, kind) + (if last.kind == kind then [last] else [])
  {
    assert (init + [last])[..|init|] == init;
  }

  lemma {:induction false} OfKindPartition(s: seq<Entry>)
    ensures multiset(OfKind(s, Error)) + multiset(OfKind(s, Warning)) == multiset(s)
  {
    if s != [] {
      var init, last := s[..|s| - 1], s[|s| - 1];
      assert s == init + [last];
      OfKindPartition(init);
      OfKindSnoc(init, last, Error);
      OfKindSnoc(init, last, Warning);
      assert multiset(s) == multiset(init) + multiset{last};
    }
  }

  /** The rule set each defined type adds per exercise. */
  function RulesOf(typeId: int): RuleSet
  {
    if typeId == EMOM then EmomRules
    else if typeId == AMRAP then AmrapRules
    else if typeId == FOR_TIME then ForTimeRules
    else if typeId == TABATA then TabataRules
    else LadderRules
  }

  /** Whatever a type's `forEach` pushes reaches the final result. */
  lemma EachInAllEntries(typeId: int, d: WorkoutData, x: Entry)
    requires IsDefinedType(typeId) && x in AllEach(RulesOf(typeId), d)
    ensures x in AllEntries(typeId, d)
  {
    assert x in TypeEntries(typeId, d);
  }

  /** An error any type-specific check reports for exercise `i` makes the workout invalid. */
  lemma ExerciseErrorInvalid(typeId: int, d: WorkoutData, i: nat, x: Entry)
    requires IsDefinedType(typeId) && i < |d.exercises|
    requires x in ExerciseEntries(RulesOf(typeId), d, i) && x.kind == Error
    ensures x in ValidateWorkout(typeId, d).errors && !ValidateWorkout(typeId, d).isValid
  {
    AllEachContains(RulesOf(typeId), d, i, x);
    EachInAllEntries(typeId, d, x);
  }

  /** A warning any type-specific check reports for exercise `i` is in the warnings. */
  lemma ExerciseWarningReported(typeId: int, d: WorkoutData, i: nat, x: Entry)
    requires IsDefinedType(typeId) && i < |d.exercises|
    requires x in ExerciseEntries(RulesOf(typeId), d, i) && x.kind == Warning
    ensures x in ValidateWorkout(typeId, d).warnings
  {
    AllEachContains(RulesOf(typeId), d, i, x);
    EachInAllEntries(typeId, d, x);
  }

  /** A workout with no exercises is never valid, whatever its type. */
  lemma EmptyWorkoutInvalid(typeId: int, d: WorkoutData)
    requires |d.exercises| == 0
    ensures Entry(Top("exercises"), AtLeastOneExercise, Error) in ValidateWorkout(typeId, d).errors
    ensures !ValidateWorkout(typeId, d).isValid
  {
    assert BaseEntries(d)[0] == Entry(Top("exercises"), AtLeastOneExercise, Error);
  }

  /** An unknown type id adds exactly one error after the base checks, and the workout is invalid. */
  lemma UnknownTypeOneError(typeId: int, d: WorkoutData)
    requires !IsDefinedType(typeId)
    ensures ValidateWorkout(typeId, d).errors == OfKind(BaseEntries(d), Error) + [Entry(Top("workoutType"), InvalidWorkoutType, Error)]
    ensures ValidateWorkout(typeId, d).warnings == OfKind(BaseEntries(d), Warning)
    ensures !ValidateWorkout(typeId, d).isValid
  {
    var x := Entry(Top("workoutType"), InvalidWorkoutType, Error);
    assert AllEntries(typeId, d) == BaseEntries(d) + [x];
    OfKindAppend(BaseEntries(d), [x], Error);
    OfKindAppend(BaseEntries(d), [x], Warning);
    assert [x][..0] == [];
  }

  /** The severity each message is always reported with. */
  function KindOf(m: Message): Severity
  {
    match m
    case EmomTooLong | RepsPerMinuteHigh(_, _) | AmrapTooLong | ForTimeTooManyRounds | TotalVolumeHigh(_)
      | WorkTimeLong(_) | RoundsExcessive(_) | NotClassicTabata(_) | LadderVolumeHigh(_, _) | LadderVolumeUnbounded(_) => Warning
    case _ => Error
  }

  predicate KindsFollowMessages(s: seq<Entry>)
  {
    forall x :: x in s ==> x.kind == KindOf(x.message)
  }

  lemma TabataKindsFollowMessages(e: Exercise, i: nat)
    ensures KindsFollowMessages(TabataExerciseEntries(e, i))
  {
    if IsTabataExercise(e) {
      assert TabataExerciseEntries(e, i)
        == WorkTimeEntries(e, i) + RestTimeEntries(e, i) + RoundsEntries(e, i) + PositionEntries(e, i) + TimingEntries(e, i);
    }
  }

  lemma LadderKindsFollowMessages(e: Exercise, i: nat)
    ensures KindsFollowMessages(LadderExerciseEntries(e, i))
  {
    if IsLadderExercise(e) {
      assert LadderExerciseEntries(e, i) == RepsFieldEntries(e, i) + ProgressionEntries(e, i) + LadderVolumeEntries(e, i);
      assert KindsFollowMessages(LadderVolumeEntries(e, i));
    }
  }

  lemma ExerciseKindsFollowMessages(rules: RuleSet, d: WorkoutData, i: nat)
    requires i < |d.exercises|
    ensures KindsFollowMessages(ExerciseEntries(rules, d, i))
  {
    var e := d.exercises[i];
    match rules
    case BaseRules => assert KindsFollowMessages(BaseExerciseEntries(e, i));
    case EmomRules => assert KindsFollowMessages(EmomExerciseEntries(d, e, i));
    case AmrapRules => assert KindsFollowMessages(AmrapExerciseEntries(e, i));
    case ForTimeRules => assert KindsFollowMessages(ForTimeExerciseEntries(e, i));
    case TabataRules => TabataKindsFollowMessages(e, i);
    case LadderRules => LadderKindsFollowMessages(e, i);
  }

  lemma EachKindsFollowMessages(rules: RuleSet, d: WorkoutData)
    ensures KindsFollowMessages(AllEach(rules, d))
  {
    forall x | x in AllEach(rules, d)
      ensures x.kind == KindOf(x.message)
    {
      AllEachOnly(rules, d, x);
      var i :| 0 <= i < |d.exercises| && x in ExerciseEntries(rules, d, i);
      ExerciseKindsFollowMessages(rules, d, i);
    }
  }

  lemma KindsFollowMessagesAppend(a: seq<Entry>, b: seq<Entry>)
    requires KindsFollowMessages(a) && KindsFollowMessages(b)
    ensures KindsFollowMessages(a + b)
  {
  }

  /** A header with the right severities, followed by a rule set's `forEach`, keeps them right. */
  lemma HeaderEachKindsFollowMessages(header: seq<Entry>, rules: RuleSet, d: WorkoutData)
    requires KindsFollowMessages(header)
    ensures KindsFollowMessages(header + AllEach(rules, d))
  {
    EachKindsFollowMessages(rules, d);
    KindsFollowMessagesAppend(header, AllEach(rules, d));
  }

  lemma AmrapKindsFollowMessages(d: WorkoutData)
    ensures KindsFollowMessages(AmrapEntries(d))
  {
    HeaderEachKindsFollowMessages(AmrapHeader(d), AmrapRules, d);
    var ps := RoundPositions(d.exercises);
    KindsFollowMessagesAppend(AmrapHeader(d) + AllEach(AmrapRules, d),
      if |Duplicates(ps, |ps|)| > 0 then [Entry(Top("exercises"), DuplicateRoundPositions, Error)] else []);
  }

  lemma ForTimeKindsFollowMessages(d: WorkoutData)
    ensures KindsFollowMessages(ForTimeEntries(d))
  {
    HeaderEachKindsFollowMessages(ForTimeHeader(d), ForTimeRules, d);
    KindsFollowMessagesAppend(ForTimeHeader(d) + AllEach(ForTimeRules, d), ForTimeVolumeEntries(d));
  }

  lemma TypeKindsFollowMessages(typeId: int, d: WorkoutData)
    ensures KindsFollowMessages(TypeEntries(typeId, d))
  {
    if typeId == EMOM {
      HeaderEachKindsFollowMessages(EmomHeader(d), EmomRules, d);
    } else if typeId == AMRAP {
      AmrapKindsFollowMessages(d);
    } else if typeId == FOR_TIME {
      ForTimeKindsFollowMessages(d);
    } else if typeId == TABATA {
      HeaderEachKindsFollowMessages(TabataHeader(d), TabataRules, d);
    } else if typeId == LADDER {
      HeaderEachKindsFollowMessages(LadderHeader(d), LadderRules, d);
    }
  }

  /**
   * Each message has a fixed severity: the "may be impractical / challenging / excessive / not typical"
   * remarks (EMOM over 60 minutes, over 100 reps a minute, For Time volume over 1000, ...) are only
   * ever warnings, and a workout whose only findings are such remarks is valid.
   */
  lemma KindFollowsMessage(typeId: int, d: WorkoutData)
    ensures KindsFollowMessages(AllEntries(typeId, d))
    ensures (forall x :: x in AllEntries(typeId, d) ==> KindOf(x.message) == Warning) ==> ValidateWorkout(typeId, d).isValid
  {
    EachKindsFollowMessages(BaseRules, d);
    TypeKindsFollowMessages(typeId, d);
  }

  /** An EMOM exercise scheduled after the last minute makes the workout invalid. */
  lemma EmomMinuteBeyondTotalInvalid(d: WorkoutData, i: nat)
    requires i < |d.exercises| && IsEMOMExercise(d.exercises[i])
    requires d.exercises[i].minute.Some? && d.exercises[i].minute.value >= 1
    requires d.totalMinutes.Some? && d.exercises[i].minute.value > d.totalMinutes.value
    ensures !ValidateWorkout(EMOM, d).isValid
  {
    var x := Entry(ExerciseField(i, "minute"), MinuteBeyondTotal(i + 1, d.exercises[i].minute.value), Error);
    assert x in EmomExerciseEntries(d, d.exercises[i], i);
    ExerciseErrorInvalid(EMOM, d, i, x);
  }

  /** More than 100 reps in a minute is reported, as a warning. */
  lemma EmomHighRepsWarns(d: WorkoutData, i: nat)
    requires i < |d.exercises| && IsEMOMExercise(d.exercises[i])
    requires d.exercises[i].reps.Some? && d.exercises[i].reps.value > 100
    ensures Entry(ExerciseField(i, "reps"), RepsPerMinuteHigh(i + 1, d.exercises[i].reps.value), Warning)
      in ValidateWorkout(EMOM, d).warnings
  {
    var x := Entry(ExerciseField(i, "reps"), RepsPerMinuteHigh(i + 1, d.exercises[i].reps.value), Warning);
    assert x in EmomExerciseEntries(d, d.exercises[i], i);
    ExerciseWarningReported(EMOM, d, i, x);
  }

  /** How many entries carry message `m`. */
  function CountMessage(s: seq<Entry>, m: Message): nat
  {
    if s == [] then 0 else CountMessage(s[..|s| - 1], m) + (if s[|s| - 1].message == m then 1 else 0)
  }

  lemma {:induction false} CountMessageAppend(a: seq<Entry>, b: seq<Entry>, m: Message)
    ensures CountMessage(a + b, m) == CountMessage(a, m) + CountMessage(b, m)
  {
    if b == [] {
      assert a + b == a;
    } else {
      assert (a + b)[..|a + b| - 1] == a + b[..|b| - 1];
      CountMessageAppend(a, b[..|b| - 1], m);
    }
  }

  lemma {:induction false} CountMessageAbsent(s: seq<Entry>, m: Message)
    requires forall x :: x in s ==> x.message != m
    ensures CountMessage(s, m) == 0
  {
    if s != [] {
      assert s[|s| - 1] in s;
      CountMessageAbsent(s[..|s| - 1], m);
    }
  }

  /** The per-exercise AMRAP checks never report duplicate positions. */
  lemma AmrapExerciseNoDuplicateMessage(e: Exercise, i: nat)
    ensures forall x :: x in AmrapExerciseEntries(e, i) ==> x.message != DuplicateRoundPositions
  {
  }

  /** Neither the header nor the `forEach` of the AMRAP rules reports duplicate positions. */
  lemma AmrapChecksNoDuplicateMessage(d: WorkoutData)
    ensures CountMessage(AmrapHeader(d) + AllEach(AmrapRules, d), DuplicateRoundPositions) == 0
  {
    var each := AllEach(AmrapRules, d);
    forall x | x in each
      ensures x.message != DuplicateRoundPositions
    {
      AllEachOnly(AmrapRules, d, x);
      var i :| 0 <= i < |d.exercises| && x in ExerciseEntries(AmrapRules, d, i);
      AmrapExerciseNoDuplicateMessage(d.exercises[i], i);
    }
    CountMessageAbsent(each, DuplicateRoundPositions);
    CountMessageAbsent(AmrapHeader(d), DuplicateRoundPositions);
    CountMessageAppend(AmrapHeader(d), each, DuplicateRoundPositions);
  }

  /** The duplicate-position error appears once when two exercises share a round position, and never otherwise. */
  lemma AmrapDuplicateErrorOnce(d: WorkoutData)
    ensures CountMessage(AmrapEntries(d), DuplicateRoundPositions) == if HasRepeat(RoundPositions(d.exercises)) then 1 else 0
  {
    var ps := RoundPositions(d.exercises);
    DuplicatesIffRepeat(ps);
    AmrapChecksNoDuplicateMessage(d);
    var tail := if |Duplicates(ps, |ps|)| > 0 then [Entry(Top("exercises"), DuplicateRoundPositions, Error)] else [];
    CountMessageAppend(AmrapHeader(d) + AllEach(AmrapRules, d), tail, DuplicateRoundPositions);
    assert CountMessage(tail, DuplicateRoundPositions) == if |tail| > 0 then 1 else 0 by {
      if |tail| > 0 {
        assert tail[..0] == [];
      }
    }
  }

  /** For Time: an absent or zero round count is accepted; only a negative one is an error. */
  lemma ForTimeRoundsErrorIff(d: WorkoutData)
    ensures Entry(Top("totalRounds"), TotalRoundsTooFew, Error) in ForTimeEntries(d)
      <==> d.totalRounds.Some? && d.totalRounds.value < 0
  {
    var x := Entry(Top("totalRounds"), TotalRoundsTooFew, Error);
    if x in AllEach(ForTimeRules, d) {
      AllEachOnly(ForTimeRules, d, x);
    }
  }

  /** A Tabata exercise that is not 20 s / 10 s / 8 rounds gets the classic-protocol warning. */
  lemma TabataNonClassicWarns(d: WorkoutData, i: nat)
    requires i < |d.exercises| && IsTabataExercise(d.exercises[i]) && !IsClassicTabata(d.exercises[i])
    ensures Entry(ExerciseField(i, "timing"), NotClassicTabata(i + 1), Warning) in ValidateWorkout(TABATA, d).warnings
  {
    var x := Entry(ExerciseField(i, "timing"), NotClassicTabata(i + 1), Warning);
    var e := d.exercises[i];
    assert x in TimingEntries(e, i);
    assert x in TabataExerciseEntries(e, i);
    ExerciseWarningReported(TABATA, d, i, x);
  }

  /** A Tabata work interval under 5 seconds makes the workout invalid. */
  lemma TabataShortWorkInvalid(d: WorkoutData, i: nat)
    requires i < |d.exercises| && IsTabataExercise(d.exercises[i]) && Below(d.exercises[i].workTimeSeconds, 5)
    ensures !ValidateWorkout(TABATA, d).isValid
  {
    var x := Entry(ExerciseField(i, "workTimeSeconds"), WorkTimeTooShort(i + 1), Error);
    var e := d.exercises[i];
    assert x in WorkTimeEntries(e, i);
    assert x in TabataExerciseEntries(e, i);
    ExerciseErrorInvalid(TABATA, d, i, x);
  }

  /** An ascending ladder that does not rise makes the workout invalid. */
  lemma AscendingLadderMustRise(d: WorkoutData, i: nat)
    requires i < |d.exercises| && IsLadderExercise(d.exercises[i]) && d.exercises[i].ladderType == Some("ascending")
    requires d.exercises[i].startReps.value >= d.exercises[i].endReps.value
    ensures !ValidateWorkout(LADDER, d).isValid
  {
    var x := Entry(ExerciseField(i, "progression"), AscendingShouldRise(i + 1), Error);
    var e := d.exercises[i];
    assert x in ProgressionEntries(e, i);
    assert x in LadderExerciseEntries(e, i);
    ExerciseErrorInvalid(LADDER, d, i, x);
  }

  /** A pyramid exercise gets no progression error. */
  lemma PyramidExerciseHasNoProgressionError(d: WorkoutData, i: nat)
    requires i < |d.exercises| && d.exercises[i].ladderType == Some("pyramid")
    ensures forall x :: x in ExerciseEntries(LadderRules, d, i) ==> !x.message.AscendingShouldRise? && !x.message.DescendingShouldFall?
  {
    var e := d.exercises[i];
    if IsLadderExercise(e) {
      assert ProgressionEntries(e, i) == [];
      assert ExerciseEntries(LadderRules, d, i) == RepsFieldEntries(e, i) + LadderVolumeEntries(e, i);
    }
  }

  /** A pyramid is never held to a direction: no progression error for a workout of pyramid ladders. */
  lemma PyramidHasNoProgressionError(d: WorkoutData)
    requires forall i :: 0 <= i < |d.exercises| ==> d.exercises[i].ladderType == Some("pyramid")
    ensures forall x :: x in LadderEntries(d) ==> !x.message.AscendingShouldRise? && !x.message.DescendingShouldFall?
  {
    forall x | x in AllEach(LadderRules, d)
      ensures !x.message.AscendingShouldRise? && !x.message.DescendingShouldFall?
    {
      AllEachOnly(LadderRules, d, x);
      var i :| 0 <= i < |d.exercises| && x in ExerciseEntries(LadderRules, d, i);
      PyramidExerciseHasNoProgressionError(d, i);
    }
  }
}
