/**
 * The validators of the session request models: starting a session, each
 * planned exercise of it, completing it, and updating an exercise's or a
 * set's progress. A validator yields its failure messages in rule order; a
 * request is valid when there are none.
 */
module SessionRequests {
  import opened Wrappers
  import Text
  import SessionService
  import SessionContext

  /** One rule: no message when it holds, its message when it does not. */
  function Rule(holds: bool, message: string): (r: seq<string>)
    ensures holds <==> r == []
    ensures !holds ==> r == [message]
  {
    if holds then [] else [message]
  }

  /** FluentValidation's `NotEmpty` on a string: present and not blank. */
  predicate NotEmpty(s: Option<string>)
  {
    s.Some? && !Text.AllWhiteSpace(s.value)
  }

  /** `MaximumLength(n)`, counted in UTF-16 code units as .NET's `Length` is: an absent string passes. */
  predicate MaximumLength(s: Option<string>, n: int)
  {
    s.None? || Text.Utf16Length(s.value) <= n
  }

  /** `GreaterThan`/`GreaterThanOrEqualTo` guarded by `When(x => x.HasValue)`: an absent value passes. */
  predicate AtLeastWhenPresent(v: Option<int>, bound: int)
  {
    v.None? || v.value >= bound
  }

  // ---------------------------------------------------------------- starting a session

  datatype CreateSession = CreateSession(id: Option<string>, workoutId: int, exerciseProgress: seq<PlannedExercise>)

  /**
   * The start-session validator as written: the list of planned exercises
   * must not be empty, but no rule looks inside it.
   */
  function CreateSessionErrors(m: CreateSession): (r: seq<string>)
    ensures r == [] <==> NotEmpty(m.id) && m.workoutId > 0 && |m.exerciseProgress| > 0
  {
    Rule(NotEmpty(m.id), "Session ID is required")
    + Rule(m.workoutId > 0, "Valid workout ID is required")
    + Rule(|m.exerciseProgress| > 0, "At least one exercise is required")
  }

  datatype PlannedExercise = PlannedExercise(
    exerciseId: int,
    orderInWorkout: int,
    plannedSets: Option<int>,
    plannedReps: Option<int>,
    plannedWeightKg: Option<int>)

  /** Planned sets and reps must be positive and weight non-negative, each only when given; order 0 is allowed. */
  function PlannedExerciseErrors(m: PlannedExercise): (r: seq<string>)
    ensures r == [] <==> (m.exerciseId > 0 && m.orderInWorkout >= 0
      && (m.plannedSets.None? || m.plannedSets.value > 0)
      && (m.plannedReps.None? || m.plannedReps.value > 0)
      && (m.plannedWeightKg.None? || m.plannedWeightKg.value >= 0))
    ensures |r| <= 5
  {
    Rule(m.exerciseId > 0, "Valid exercise ID is required")
    + Rule(m.orderInWorkout >= 0, "Order in workout cannot be negative")
    + Rule(AtLeastWhenPresent(m.plannedSets, 1), "Planned sets must be greater than 0")
    + Rule(AtLeastWhenPresent(m.plannedReps, 1), "Planned reps must be greater than 0")
    + Rule(AtLeastWhenPresent(m.plannedWeightKg, 0), "Planned weight cannot be negative")
  }

  /**
   * A planned exercise that passes the nested rules makes the service build
   * exactly its planned number of sets (one when none is planned): those rules
   * refuse zero, the one value on which the server and the client disagree.
   */
  lemma ValidPlanAgreesWithClient(m: PlannedExercise)
    requires PlannedExerciseErrors(m) == []
    ensures SessionService.ServerSetCount(m.plannedSets) == if m.plannedSets.Some? then m.plannedSets.value else 1
    ensures m.plannedSets != Some(0)
  {
  }

  /** A planned exercise the nested rules let through. */
  predicate PlanPasses(m: PlannedExercise)
  {
    PlannedExerciseErrors(m) == []
  }

  /** The nested rules' messages for every planned exercise, in order. */
  function PlanErrors(plans: seq<PlannedExercise>): (r: seq<string>)
    ensures r == [] <==> forall k :: 0 <= k < |plans| ==> PlanPasses(plans[k])
    decreases |plans|
  {
    if plans == [] then []
    else
      var rest := PlanErrors(plans[1..]);
      assert forall k :: 1 <= k < |plans| ==> plans[1..][k - 1] == plans[k];
      PlannedExerciseErrors(plans[0]) + rest
  }

  /**
   * The start-session validator with the planned-exercise validator attached
   * to every entry, as `RuleForEach(..).SetValidator(..)` would.
   */
  function CreateSessionErrorsWithPlans(m: CreateSession): (r: seq<string>)
    ensures r == [] <==> (CreateSessionErrors(m) == []
      && forall k :: 0 <= k < |m.exerciseProgress| ==> PlanPasses(m.exerciseProgress[k]))
  {
    CreateSessionErrors(m) + PlanErrors(m.exerciseProgress)
  }

  /**
   * As written, a start request planning 0 sets passes: the server then builds
   * no set for that exercise where the client's session counts one.
   */
  lemma ZeroPlannedSetsPassAsWritten()
    ensures var m := CreateSession(Some("s"), 1, [PlannedExercise(1, 0, Some(0), None, None)]);
      CreateSessionErrors(m) == []
      && SessionService.ServerSetCount(m.exerciseProgress[0].plannedSets) == 0
      && SessionContext.SetCount(m.exerciseProgress[0].plannedSets) == 1
      && CreateSessionErrorsWithPlans(m) != []
  {
    var m := CreateSession(Some("s"), 1, [PlannedExercise(1, 0, Some(0), None, None)]);
    assert !Text.AllWhiteSpace("s") by {
      assert !Text.IsWhiteSpace("s"[0]);
    }
    assert PlannedExerciseErrors(m.exerciseProgress[0]) != [];
  }

  /** With the nested rules attached, every planned exercise gets the same number of sets on the server as on the client. */
  lemma CheckedPlansAgreeWithClient(m: CreateSession)
    requires CreateSessionErrorsWithPlans(m) == []
    ensures forall k :: 0 <= k < |m.exerciseProgress| ==>
      SessionService.ServerSetCount(m.exerciseProgress[k].plannedSets) == SessionContext.SetCount(m.exerciseProgress[k].plannedSets)
  {
    forall k | 0 <= k < |m.exerciseProgress|
      ensures SessionService.ServerSetCount(m.exerciseProgress[k].plannedSets) == SessionContext.SetCount(m.exerciseProgress[k].plannedSets)
    {
      ValidPlanAgreesWithClient(m.exerciseProgress[k]);
      SessionService.SetCountsAgreeExceptZero(m.exerciseProgress[k].plannedSets);
    }
  }

  // ---------------------------------------------------------------- completing a session

  const Moods: seq<string> := ["terrible", "bad", "okay", "good", "amazing"]
  const EnergyLevels: seq<string> := ["very_low", "low", "medium", "high", "very_high"]

  /** `string.IsNullOrEmpty(s) || words.Contains(s.ToLower())`. */
  predicate OneOfFolded(s: Option<string>, words: seq<string>)
  {
    s.None? || s.value == "" || Text.ToLower(s.value) in words
  }

  datatype CompleteSession = CompleteSession(rating: int, mood: Option<string>, energyLevel: Option<string>, notes: Option<string>)

  function CompleteSessionErrors(m: CompleteSession): (r: seq<string>)
    ensures r == [] <==> (1 <= m.rating <= 5 && OneOfFolded(m.mood, Moods)
      && OneOfFolded(m.energyLevel, EnergyLevels) && MaximumLength(m.notes, 1000))
  {
    Rule(1 <= m.rating <= 5, "Rating must be between 1 and 5")
    + Rule(OneOfFolded(m.mood, Moods), "Mood must be one of: terrible, bad, okay, good, amazing")
    + Rule(OneOfFolded(m.energyLevel, EnergyLevels), "Energy level must be one of: very_low, low, medium, high, very_high")
    + Rule(MaximumLength(m.notes, 1000), "Notes cannot exceed 1000 characters")
  }

  /** Mood and energy level ignore letter case: a value passes exactly when its lower-case form does. */
  lemma FoldedChecksIgnoreCase(s: string, words: seq<string>)
    ensures OneOfFolded(Some(s), words) <==> OneOfFolded(Some(Text.ToLower(s)), words)
  {
    Text.ToLowerIdempotent(s);
  }

  /** "Good" is accepted as a mood, while a blank " " is refused (only the empty string is let through). */
  lemma MoodExamples()
    ensures OneOfFolded(Some("Good"), Moods)
    ensures !OneOfFolded(Some(" "), Moods)
  {
    assert Text.ToLower("Good") == "good";
    assert Text.ToLower(" ") == " ";
  }

  /** Notes made only of characters beyond U+FFFF reach each limit at half as many characters. */
  lemma AstralNotesCountTwice(notes: string)
    requires forall i :: 0 <= i < |notes| ==> (notes[i] as int) >= 0x1_0000
    ensures MaximumLength(Some(notes), 1000) <==> |notes| <= 500
    ensures MaximumLength(Some(notes), 500) <==> |notes| <= 250
  {
    Text.Utf16LengthBeyondBasicPlane(notes);
  }

  // ---------------------------------------------------------------- progress updates

  const StatusNames: seq<string> := ["NotStarted", "InProgress", "Completed", "Skipped"]

  /** The name a status is sent under. */
  function StatusName(s: SessionService.Status): (r: string)
    ensures r in StatusNames
  {
    match s
    case NotStarted => "NotStarted"
    case InProgress => "InProgress"
    case Completed => "Completed"
    case Skipped => "Skipped"
  }

  /** The status a name stands for, matched exactly (letter case included). */
  function ParseStatus(name: string): (r: Option<SessionService.Status>)
    ensures r.Some? <==> name in StatusNames
  {
    if name == "NotStarted" then Some(SessionService.NotStarted)
    else if name == "InProgress" then Some(SessionService.InProgress)
    else if name == "Completed" then Some(SessionService.Completed)
    else if name == "Skipped" then Some(SessionService.Skipped)
    else None
  }

  /** Every status reads back from its name, and every accepted name is a status's name. */
  lemma StatusNamesRoundTrip(s: SessionService.Status, name: string)
    ensures ParseStatus(StatusName(s)) == Some(s)
    ensures ParseStatus(name).Some? ==> StatusName(ParseStatus(name).value) == name
  {
  }

  /** No status name is blank, so a name the list accepts also passes `NotEmpty`. */
  lemma NamesNotBlank()
    ensures forall n :: n in StatusNames ==> !Text.AllWhiteSpace(n)
  {
    forall n | n in StatusNames
      ensures !Text.AllWhiteSpace(n)
    {
      assert !Text.IsWhiteSpace(n[0]);
    }
  }

  /**
   * The status rules: `NotEmpty` and then `Must(… Contains(status))`; both
   * run, so a missing or blank status draws both messages.
   */
  function StatusErrors(status: Option<string>): (r: seq<string>)
    ensures r == [] <==> status.Some? && ParseStatus(status.value).Some?
    ensures status.None? || status == Some("") ==> |r| == 2
  {
    NamesNotBlank();
    Rule(NotEmpty(status), "Status is required")
    + Rule(status.Some? && status.value in StatusNames, "Status must be one of: NotStarted, InProgress, Completed, Skipped")
  }

  /** Status names are matched with their letter case: "completed" is refused. */
  lemma StatusIsCaseSensitive()
    ensures StatusErrors(Some("completed")) != []
    ensures StatusErrors(Some("Completed")) == []
  {
    assert "completed" != "NotStarted" && "completed" != "InProgress" && "completed" != "Completed" && "completed" != "Skipped";
  }

  function ExerciseProgressErrors(status: Option<string>, notes: Option<string>): (r: seq<string>)
    ensures r == [] <==> status.Some? && ParseStatus(status.value).Some? && MaximumLength(notes, 500)
  {
    StatusErrors(status) + Rule(MaximumLength(notes, 500), "Notes cannot exceed 500 characters")
  }

  datatype SetProgress = SetProgress(
    status: Option<string>,
    actualReps: Option<int>,
    actualWeightKg: Option<int>,
    rpe: Option<int>,
    notes: Option<string>)

  /** Reps and weight non-negative and RPE within 1..10, each only when given; notes up to 500 UTF-16 code units. */
  function SetProgressErrors(m: SetProgress): (r: seq<string>)
    ensures r == [] <==> (m.status.Some? && ParseStatus(m.status.value).Some?
      && (m.actualReps.None? || m.actualReps.value >= 0)
      && (m.actualWeightKg.None? || m.actualWeightKg.value >= 0)
      && (m.rpe.None? || 1 <= m.rpe.value <= 10)
      && MaximumLength(m.notes, 500))
  {
    var status := StatusErrors(m.status);
    var reps := Rule(AtLeastWhenPresent(m.actualReps, 0), "Actual reps cannot be negative");
    var weight := Rule(AtLeastWhenPresent(m.actualWeightKg, 0), "Actual weight cannot be negative");
    var rpe := Rule(m.rpe.None? || 1 <= m.rpe.value <= 10, "RPE must be between 1 and 10");
    var notes := Rule(MaximumLength(m.notes, 500), "Notes cannot exceed 500 characters");
    assert |status + reps + weight + rpe + notes| == |status| + |reps| + |weight| + |rpe| + |notes|;
    status + reps + weight + rpe + notes
  }
}
