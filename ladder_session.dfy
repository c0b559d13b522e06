/**
 * The ladder session runner: it walks the exercises one ladder step at a
 * time, counting every "next", and reports the completed steps and volume
 * when the last step of the last exercise is done or the user finishes early.
 */
module LadderSession {
  import opened Wrappers
  import opened WorkoutTypes
  import Lists
  import LadderBuilder
  import Arith

  /** The three counters the runner keeps in state. */
  datatype Progress = Progress(currentExerciseIndex: nat, currentStep: nat, exercisesCompleted: nat)

  /** The result handed to `onComplete`. */
  datatype Report = Report(exercisesCompleted: int, stepsCompleted: int, totalVolume: int, completionTime: int)

  /** The state after a "next", and the report when it completed the workout. */
  datatype Outcome = Outcome(after: Progress, report: Option<Report>)

  /**
   * `calculateLadderSteps`: the session runs the builder's sequence, the same
   * three loops over the same fields.
   */
  function Steps(e: Exercise): (r: seq<int>)
    requires LadderBuilder.HasLadderNumbers(e)
    ensures var a, b := e.startReps.value, e.endReps.value;
      forall k :: 0 <= k < |r| ==> (if a <= b then a else b) <= r[k] <= (if a <= b then b else a)
  {
    LadderBuilder.SetsWithinRange(e);
    LadderBuilder.ExerciseSequence(e)
  }

  /** `ladderSteps`: the current exercise's steps, or none past the end of the list. */
  function CurrentSteps(exs: seq<Exercise>, p: Progress): seq<int>
    requires LadderBuilder.AllHaveLadderNumbers(exs)
  {
    if p.currentExerciseIndex < |exs| then Steps(exs[p.currentExerciseIndex]) else []
  }

  /**
   * The positions the runner can be in: on an existing exercise (index 0 of an
   * empty list), and on one of its steps, or at step 0 when it has none.
   */
  predicate InRange(exs: seq<Exercise>, p: Progress)
  {
    LadderBuilder.AllHaveLadderNumbers(exs)
    && (if exs == [] then p.currentExerciseIndex == 0 && p.currentStep == 0
        else p.currentExerciseIndex < |exs|
             && (p.currentStep == 0 || p.currentStep < |Steps(exs[p.currentExerciseIndex])|))
  }

  /** `calculateTotalSteps`: the step counts of all exercises added up. */
  function TotalSteps(exs: seq<Exercise>): nat
    requires LadderBuilder.AllHaveLadderNumbers(exs)
  {
    LadderBuilder.WorkoutTotalSets(exs)
  }

  /** `calculateTotalVolume`: the reps of all steps of all exercises added up. */
  function TotalVolume(exs: seq<Exercise>): int
    requires LadderBuilder.AllHaveLadderNumbers(exs)
  {
    LadderBuilder.WorkoutTotalReps(exs)
  }

  /** `calculateCompletedSteps`: all steps of the earlier exercises, then the finished steps of this one. */
  function CompletedSteps(exs: seq<Exercise>, p: Progress): int
    requires InRange(exs, p)
  {
    LadderBuilder.WorkoutTotalSets(exs[..p.currentExerciseIndex]) + p.currentStep
  }

  /** `calculateCompletedVolume`: the volume of the earlier exercises, then the reps of this one's finished steps. */
  function CompletedVolume(exs: seq<Exercise>, p: Progress): int
    requires InRange(exs, p)
  {
    LadderBuilder.WorkoutTotalReps(exs[..p.currentExerciseIndex])
    + Lists.Sum(CurrentSteps(exs, p)[..p.currentStep])
  }

  /**
   * `handleNext`: every press counts; then the step advances, or the next
   * exercise starts at step 0, or the workout completes with the totals.
   */
  function Next(exs: seq<Exercise>, p: Progress, sessionTime: int): (r: Outcome)
    requires InRange(exs, p)
    ensures InRange(exs, r.after)
    ensures r.after.exercisesCompleted == p.exercisesCompleted + 1
    ensures r.report.Some? <==>
      p.currentExerciseIndex + 1 >= |exs| && p.currentStep + 1 >= |CurrentSteps(exs, p)|
  {
    var totalSteps := |CurrentSteps(exs, p)|;
    var counted := p.exercisesCompleted + 1;
    if p.currentStep < totalSteps - 1 then
      Outcome(p.(currentStep := p.currentStep + 1, exercisesCompleted := counted), None)
    else if p.currentExerciseIndex < |exs| - 1 then
      Outcome(Progress(p.currentExerciseIndex + 1, 0, counted), None)
    else
      Outcome(p.(exercisesCompleted := counted),
              Some(Report(|exs|, TotalSteps(exs), TotalVolume(exs), sessionTime)))
  }

  /** `handleFinish`: the current exercise counts as done, but only its finished steps do. */
  function FinishReport(exs: seq<Exercise>, p: Progress, sessionTime: int): Report
    requires InRange(exs, p)
  {
    Report(p.currentExerciseIndex + 1, CompletedSteps(exs, p), CompletedVolume(exs, p), sessionTime)
  }

  /** `currentReps`: `ladderSteps[currentStep] || 0`. */
  function CurrentReps(exs: seq<Exercise>, p: Progress): int
    requires LadderBuilder.AllHaveLadderNumbers(exs)
  {
    var steps := CurrentSteps(exs, p);
    if p.currentStep < |steps| then steps[p.currentStep] else 0
  }

  /** `getNextStep`: the reps of the following step, none on the last one. */
  function NextStep(exs: seq<Exercise>, p: Progress): (r: Option<int>)
    requires LadderBuilder.AllHaveLadderNumbers(exs)
    ensures r.Some? <==> p.currentStep + 1 < |CurrentSteps(exs, p)|
    ensures r.Some? ==> r.value == CurrentSteps(exs, p)[p.currentStep + 1]
  {
    var steps := CurrentSteps(exs, p);
    if p.currentStep < |steps| - 1 then Some(steps[p.currentStep + 1]) else None
  }

  datatype StepStatus = Completed | Current | Upcoming

  /** `getStepStatus`. */
  function GetStepStatus(stepIndex: int, currentStep: int): (r: StepStatus)
    ensures r == Completed <==> stepIndex < currentStep
    ensures r == Current <==> stepIndex == currentStep
    ensures r == Upcoming <==> stepIndex > currentStep
  {
    if stepIndex < currentStep then Completed
    else if stepIndex == currentStep then Current
    else Upcoming
  }

  function Rank(s: StepStatus): nat
  {
    match s
    case Completed => 2
    case Current => 1
    case Upcoming => 0
  }

  /**
   * Read along the ladder, the statuses never go back: completed steps, then
   * the current one, then the upcoming ones; only one step is current.
   */
  lemma StatusesInOrder(currentStep: nat, i: int, j: int)
    requires i <= j
    ensures Rank(GetStepStatus(i, currentStep)) >= Rank(GetStepStatus(j, currentStep))
    ensures GetStepStatus(i, currentStep) == Current && GetStepStatus(j, currentStep) == Current ==> i == j
  {
  }

  // ---------------------------------------------------------------- properties

  /** Adding one more exercise's sets to a prefix. */
  lemma PrefixStep(s: seq<Exercise>, i: nat)
    requires LadderBuilder.AllHaveLadderNumbers(s) && i < |s|
    ensures LadderBuilder.WorkoutTotalSets(s[..i + 1]) == LadderBuilder.WorkoutTotalSets(s[..i]) + |Steps(s[i])|
    ensures LadderBuilder.WorkoutTotalReps(s[..i + 1]) == LadderBuilder.WorkoutTotalReps(s[..i]) + Lists.Sum(Steps(s[i]))
  {
    assert s[..i + 1][..i] == s[..i];
  }

  /** A prefix never has more sets than the whole list. */
  lemma {:induction false} PrefixSetsBounded(s: seq<Exercise>, i: nat)
    requires LadderBuilder.AllHaveLadderNumbers(s) && i <= |s|
    ensures LadderBuilder.WorkoutTotalSets(s[..i]) <= LadderBuilder.WorkoutTotalSets(s)
    decreases |s| - i
  {
    if i == |s| {
      assert s[..i] == s;
    } else {
      PrefixSetsBounded(s, i + 1);
      PrefixStep(s, i);
    }
  }

  /** Ladders that never count below zero: start and end are not negative. */
  predicate NonNegativeLadders(s: seq<Exercise>)
    requires LadderBuilder.AllHaveLadderNumbers(s)
  {
    forall i :: 0 <= i < |s| ==> s[i].startReps.value >= 0 && s[i].endReps.value >= 0
  }

  /** With a non-negative start and end, every step of the sequence is non-negative. */
  lemma StepsNonNegative(e: Exercise)
    requires LadderBuilder.HasLadderNumbers(e) && e.startReps.value >= 0 && e.endReps.value >= 0
    ensures forall k :: 0 <= k < |Steps(e)| ==> Steps(e)[k] >= 0
  {
    var kind, start, end, inc := e.ladderType.value, e.startReps.value, e.endReps.value, e.increment.value;
    if inc >= 1 {
      var up, down := LadderBuilder.Ascending(start, end, inc), LadderBuilder.Descending(end - inc, start, inc);
      forall k | 0 <= k < |up|
        ensures up[k] >= 0
      {
        if k >= 1 {
          Arith.MulAtLeast(k, inc);
        }
      }
      if kind == "pyramid" {
        assert Steps(e) == up + down;
        forall k | 0 <= k < |up + down|
          ensures (up + down)[k] >= 0
        {
          if k >= |up| {
            assert (up + down)[k] == down[k - |up|];
          }
        }
      }
    }
  }

  /** A prefix never has more volume than the whole list, when no step is negative. */
  lemma {:induction false} PrefixVolumeBounded(s: seq<Exercise>, i: nat)
    requires LadderBuilder.AllHaveLadderNumbers(s) && NonNegativeLadders(s) && i <= |s|
    ensures LadderBuilder.WorkoutTotalReps(s[..i]) <= LadderBuilder.WorkoutTotalReps(s)
    decreases |s| - i
  {
    if i == |s| {
      assert s[..i] == s;
    } else {
      PrefixVolumeBounded(s, i + 1);
      PrefixStep(s, i);
      StepsNonNegative(s[i]);
      Lists.SumNonNegative(Steps(s[i]));
    }
  }

  /** The completed steps never exceed the total, and fall short of it while a step is in front of the runner. */
  lemma CompletedStepsBounded(exs: seq<Exercise>, p: Progress)
    requires InRange(exs, p)
    ensures 0 <= CompletedSteps(exs, p) <= TotalSteps(exs)
    ensures p.currentStep < |CurrentSteps(exs, p)| ==> CompletedSteps(exs, p) < TotalSteps(exs)
  {
    if exs != [] {
      PrefixStep(exs, p.currentExerciseIndex);
      PrefixSetsBounded(exs, p.currentExerciseIndex + 1);
    }
  }

  /** The completed volume is never negative and never exceeds the total volume. */
  lemma CompletedVolumeBounded(exs: seq<Exercise>, p: Progress)
    requires InRange(exs, p) && NonNegativeLadders(exs)
    ensures 0 <= CompletedVolume(exs, p) <= TotalVolume(exs)
  {
    var i := p.currentExerciseIndex;
    if exs != [] {
      StepsNonNegative(exs[i]);
      PartialSumBounded(Steps(exs[i]), p.currentStep);
      PrefixStep(exs, i);
      PrefixVolumeBounded(exs, i + 1);
      VolumeNonNegative(exs[..i]);
    }
  }

  /** The first `k` of non-negative numbers sum to between 0 and the whole sum. */
  lemma PartialSumBounded(steps: seq<int>, k: nat)
    requires k <= |steps| && forall j :: 0 <= j < |steps| ==> steps[j] >= 0
    ensures 0 <= Lists.Sum(steps[..k]) <= Lists.Sum(steps)
  {
    assert steps == steps[..k] + steps[k..];
    Lists.SumAppend(steps[..k], steps[k..]);
    Lists.SumNonNegative(steps[..k]);
    Lists.SumNonNegative(steps[k..]);
  }

  lemma {:induction false} VolumeNonNegative(s: seq<Exercise>)
    requires LadderBuilder.AllHaveLadderNumbers(s) && NonNegativeLadders(s)
    ensures LadderBuilder.WorkoutTotalReps(s) >= 0
    decreases |s|
  {
    if s != [] {
      VolumeNonNegative(s[..|s| - 1]);
      StepsNonNegative(s[|s| - 1]);
      Lists.SumNonNegative(Steps(s[|s| - 1]));
    }
  }

  /** Each "next" that does not complete moves the completed-step count on by exactly the step it finished. */
  lemma NextFinishesOneStep(exs: seq<Exercise>, p: Progress, sessionTime: int)
    requires InRange(exs, p) && Next(exs, p, sessionTime).report.None?
    ensures CompletedSteps(exs, Next(exs, p, sessionTime).after)
      == CompletedSteps(exs, p) + (if CurrentSteps(exs, p) == [] then 0 else 1)
  {
    if p.currentStep + 1 >= |CurrentSteps(exs, p)| {
      PrefixStep(exs, p.currentExerciseIndex);
    }
  }

  /**
   * The completion report of "next" is the early-finish count plus the step
   * just finished: on the last step, finishing and pressing "next" agree.
   */
  lemma CompletionCountsTheLastStep(exs: seq<Exercise>, p: Progress, sessionTime: int)
    requires InRange(exs, p) && Next(exs, p, sessionTime).report.Some?
    ensures Next(exs, p, sessionTime).report.value.stepsCompleted
      == CompletedSteps(exs, p) + (if CurrentSteps(exs, p) == [] then 0 else 1)
  {
    if exs != [] {
      PrefixStep(exs, p.currentExerciseIndex);
      assert exs[..p.currentExerciseIndex + 1] == exs;
    }
  }

  /** What `getNextStep` announces is what the runner shows after "next". */
  lemma NextStepIsShownNext(exs: seq<Exercise>, p: Progress, sessionTime: int)
    requires InRange(exs, p) && NextStep(exs, p).Some?
    ensures CurrentReps(exs, Next(exs, p, sessionTime).after) == NextStep(exs, p).value
  {
  }

  /** An early finish never claims more than the workout holds, and counts the current exercise. */
  lemma FinishNeverOverstates(exs: seq<Exercise>, p: Progress, sessionTime: int)
    requires InRange(exs, p) && NonNegativeLadders(exs)
    ensures var r := FinishReport(exs, p, sessionTime);
      r.exercisesCompleted == p.currentExerciseIndex + 1
      && 0 <= r.stepsCompleted <= TotalSteps(exs) && 0 <= r.totalVolume <= TotalVolume(exs)
  {
    CompletedStepsBounded(exs, p);
    CompletedVolumeBounded(exs, p);
  }

  // ---------------------------------------------------------------- the runner

  class Runner {
    const exercises: seq<Exercise>
    var currentExerciseIndex: nat
    var currentStep: nat
    var exercisesCompleted: nat

    function Position(): Progress
      reads this
    {
      Progress(currentExerciseIndex, currentStep, exercisesCompleted)
    }

    ghost predicate Valid()
      reads this
    {
      InRange(exercises, Position())
    }

    constructor(exercises: seq<Exercise>)
      requires LadderBuilder.AllHaveLadderNumbers(exercises)
      ensures Valid() && this.exercises == exercises && Position() == Progress(0, 0, 0)
    {
      this.exercises := exercises;
      currentExerciseIndex, currentStep, exercisesCompleted := 0, 0, 0;
    }

    /** The current exercise's steps, generated by the loops. */
    method LadderSteps() returns (steps: seq<int>)
      requires Valid()
      ensures steps == CurrentSteps(exercises, Position())
    {
      steps := [];
      if currentExerciseIndex < |exercises| {
        var e := exercises[currentExerciseIndex];
        steps := LadderBuilder.GenerateLadderSequence(e.ladderType.value, e.startReps.value, e.endReps.value, e.increment.value);
      }
    }

    /** `handleNext`. */
    method HandleNext(sessionTime: int) returns (report: Option<Report>)
      requires Valid()
      modifies this
      ensures Valid()
      ensures Outcome(Position(), report) == Next(exercises, old(Position()), sessionTime)
    {
      var steps := LadderSteps();
      var totalSteps := |steps|;
      exercisesCompleted := exercisesCompleted + 1;
      report := None;
      if currentStep < totalSteps - 1 {
        currentStep := currentStep + 1;
      } else if currentExerciseIndex < |exercises| - 1 {
        currentExerciseIndex := currentExerciseIndex + 1;
        currentStep := 0;
      } else {
        report := Some(Report(|exercises|, TotalSteps(exercises), TotalVolume(exercises), sessionTime));
      }
    }

    /** `handleFinish`. */
    method HandleFinish(sessionTime: int) returns (report: Report)
      requires Valid()
      ensures report == FinishReport(exercises, Position(), sessionTime)
    {
      var steps := CalculateCompletedSteps();
      var volume := CalculateCompletedVolume();
      report := Report(currentExerciseIndex + 1, steps, volume, sessionTime);
    }

    /** `calculateCompletedSteps`: the loop over the earlier exercises. */
    method CalculateCompletedSteps() returns (completed: int)
      requires Valid()
      ensures completed == CompletedSteps(exercises, Position())
    {
      completed := 0;
      var i := 0;
      while i < currentExerciseIndex
        invariant i <= currentExerciseIndex
        invariant completed == LadderBuilder.WorkoutTotalSets(exercises[..i])
      {
        var e := exercises[i];
        var steps := LadderBuilder.GenerateLadderSequence(e.ladderType.value, e.startReps.value, e.endReps.value, e.increment.value);
        PrefixStep(exercises, i);
        completed := completed + |steps|;
        i := i + 1;
      }
      completed := completed + currentStep;
    }

    /** `calculateCompletedVolume`: the earlier exercises' sums, then the current exercise's finished steps. */
    method CalculateCompletedVolume() returns (volume: int)
      requires Valid()
      ensures volume == CompletedVolume(exercises, Position())
    {
      volume := 0;
      var i := 0;
      while i < currentExerciseIndex
        invariant i <= currentExerciseIndex
        invariant volume == LadderBuilder.WorkoutTotalReps(exercises[..i])
      {
        var e := exercises[i];
        var steps := LadderBuilder.GenerateLadderSequence(e.ladderType.value, e.startReps.value, e.endReps.value, e.increment.value);
        PrefixStep(exercises, i);
        volume := volume + Lists.Sum(steps);
        i := i + 1;
      }
      var steps := LadderSteps();
      var k := 0;
      while k < currentStep
        invariant k <= currentStep
        invariant volume == LadderBuilder.WorkoutTotalReps(exercises[..currentExerciseIndex]) + Lists.Sum(steps[..k])
      {
        assert steps[..k + 1][..k] == steps[..k];
        volume := volume + steps[k];
        k := k + 1;
      }
    }
  }
}
