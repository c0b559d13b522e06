/**
 * The For Time session runner: the exercises are done in order, round after
 * round; every "next" records a completion time, and an effect records the
 * start time of each exercise once.
 */
module ForTimeSession {
  import opened Wrappers
  import opened WorkoutTypes
  import Lists
  import Arith
  import ForTimeBuilder

  /** The runner's state fields. */
  datatype Clock = Clock(
    currentRound: int,
    currentExerciseIndex: nat,
    exercisesCompleted: nat,
    exerciseStartTimes: seq<int>,
    exerciseCompleteTimes: seq<int>)

  /** The result handed to `onComplete` (the average round time, a fraction, is left out). */
  datatype Report = Report(roundsCompleted: int, exercisesCompleted: int, totalTime: int, exerciseSplits: seq<int>)

  datatype Outcome = Outcome(after: Clock, report: Option<Report>)

  const Start: Clock := Clock(1, 0, 0, [], [])

  /** `totalRounds`: `workoutData.totalRounds || 1`. */
  function TotalRounds(totalRoundsSetting: Option<int>): (r: int)
    ensures r != 0
  {
    OrElse(totalRoundsSetting, 1)
  }

  /** `totalExercises`: exercises per round times rounds. */
  function TotalExercises(exs: seq<Exercise>, totalRoundsSetting: Option<int>): int
  {
    |exs| * TotalRounds(totalRoundsSetting)
  }

  /** The start-time effect: a start is recorded only while none is recorded for the current exercise. */
  function RecordStart(st: Clock, sessionTime: int): (r: Clock)
    ensures |st.exerciseStartTimes| == st.exercisesCompleted ==> r == st.(exerciseStartTimes := st.exerciseStartTimes + [sessionTime])
    ensures |st.exerciseStartTimes| != st.exercisesCompleted ==> r == st
  {
    if |st.exerciseStartTimes| == st.exercisesCompleted
    then st.(exerciseStartTimes := st.exerciseStartTimes + [sessionTime])
    else st
  }

  /**
   * `calculateExerciseSplits`: one split per recorded start, ending at its
   * completion when one is recorded (and is not 0), else at the current time.
   */
  function ExerciseSplits(st: Clock, sessionTime: int): (r: seq<int>)
    ensures |r| == |st.exerciseStartTimes|
  {
    seq(|st.exerciseStartTimes|, i requires 0 <= i < |st.exerciseStartTimes| =>
      if i < |st.exerciseCompleteTimes| && st.exerciseCompleteTimes[i] != 0
      then st.exerciseCompleteTimes[i] - st.exerciseStartTimes[i]
      else sessionTime - st.exerciseStartTimes[i])
  }

  /**
   * `handleNext`: the completion time is recorded and counted; then the next
   * exercise of the round, or the first of the next round, or the workout
   * completes with every round done.
   */
  function Next(exs: seq<Exercise>, totalRoundsSetting: Option<int>, st: Clock, sessionTime: int): (r: Outcome)
    ensures r.after.exerciseCompleteTimes == st.exerciseCompleteTimes + [sessionTime]
    ensures r.after.exercisesCompleted == st.exercisesCompleted + 1
    ensures r.after.exerciseStartTimes == st.exerciseStartTimes
    ensures r.report.Some? <==>
      st.currentExerciseIndex + 1 >= |exs| && st.currentRound >= TotalRounds(totalRoundsSetting)
  {
    var counted := st.(exerciseCompleteTimes := st.exerciseCompleteTimes + [sessionTime],
                       exercisesCompleted := st.exercisesCompleted + 1);
    if st.currentExerciseIndex < |exs| - 1 then
      Outcome(counted.(currentExerciseIndex := st.currentExerciseIndex + 1), None)
    else if st.currentRound < TotalRounds(totalRoundsSetting) then
      Outcome(counted.(currentExerciseIndex := 0, currentRound := st.currentRound + 1), None)
    else
      Outcome(counted, Some(Report(TotalRounds(totalRoundsSetting), st.exercisesCompleted + 1, sessionTime,
                                   ExerciseSplits(st, sessionTime))))
  }

  /** `handleFinish`: the round reached and the exercises completed so far. */
  function FinishReport(st: Clock, sessionTime: int): Report
  {
    Report(st.currentRound, st.exercisesCompleted, sessionTime, ExerciseSplits(st, sessionTime))
  }

  /** `getNextExercise`: the next one in the round, else the first one when a round remains, else none. */
  function NextExercise(exs: seq<Exercise>, totalRoundsSetting: Option<int>, st: Clock): (r: Option<Exercise>)
    ensures st.currentExerciseIndex + 1 < |exs| ==> r == Some(exs[st.currentExerciseIndex + 1])
    ensures st.currentExerciseIndex + 1 >= |exs| && st.currentRound < TotalRounds(totalRoundsSetting) && exs != []
      ==> r == Some(exs[0])
    ensures r.None? <==> st.currentExerciseIndex + 1 >= |exs| && (st.currentRound >= TotalRounds(totalRoundsSetting) || exs == [])
  {
    if st.currentExerciseIndex < |exs| - 1 then Some(exs[st.currentExerciseIndex + 1])
    else if st.currentRound < TotalRounds(totalRoundsSetting) && exs != [] then Some(exs[0])
    else None
  }

  /** `calculateTotalVolume`: each exercise's reps times the rounds, added up. */
  function TotalVolume(exs: seq<Exercise>, totalRoundsSetting: Option<int>): int
    requires AllRepsPresent(exs)
  {
    Lists.Sum(Lists.Scaled(RepsOf(exs), TotalRounds(totalRoundsSetting)))
  }

  // ---------------------------------------------------------------- properties

  /** The session's volume is the builder's rep total for the same workout. */
  lemma TotalVolumeIsBuilderTotal(d: WorkoutData)
    requires AllRepsPresent(d.exercises)
    ensures TotalVolume(d.exercises, d.totalRounds) == ForTimeBuilder.TotalReps(d)
  {
    Lists.SumScaled(RepsOf(d.exercises), TotalRounds(d.totalRounds));
  }

  /**
   * The bookkeeping every order of "next" and the start effect keeps: one
   * completion time per completed exercise, and at most one start beyond them.
   */
  predicate Recorded(st: Clock)
  {
    |st.exerciseCompleteTimes| == st.exercisesCompleted
    && |st.exerciseStartTimes| <= st.exercisesCompleted + 1
  }

  /** Where the runner is while the workout runs: completed = (round − 1) × n + index. */
  predicate OnTrack(exs: seq<Exercise>, totalRoundsSetting: Option<int>, st: Clock)
  {
    exs != [] && st.currentExerciseIndex < |exs|
    && 1 <= st.currentRound && (st.currentRound <= TotalRounds(totalRoundsSetting) || st.currentRound == 1)
    && st.exercisesCompleted == (st.currentRound - 1) * |exs| + st.currentExerciseIndex
  }

  lemma StartIsRecordedAndOnTrack(exs: seq<Exercise>, totalRoundsSetting: Option<int>)
    requires exs != []
    ensures Recorded(Start) && OnTrack(exs, totalRoundsSetting, Start)
  {
  }

  lemma RecordStartKeepsRecords(st: Clock, sessionTime: int)
    requires Recorded(st)
    ensures Recorded(RecordStart(st, sessionTime))
  {
  }

  lemma NextKeepsRecords(exs: seq<Exercise>, totalRoundsSetting: Option<int>, st: Clock, sessionTime: int)
    requires Recorded(st)
    ensures Recorded(Next(exs, totalRoundsSetting, st, sessionTime).after)
  {
  }

  /** Each "next" that does not complete stays on track. */
  lemma NextStaysOnTrack(exs: seq<Exercise>, totalRoundsSetting: Option<int>, st: Clock, sessionTime: int)
    requires OnTrack(exs, totalRoundsSetting, st) && Next(exs, totalRoundsSetting, st, sessionTime).report.None?
    ensures OnTrack(exs, totalRoundsSetting, Next(exs, totalRoundsSetting, st, sessionTime).after)
  {
    if st.currentExerciseIndex + 1 >= |exs| {
      Arith.Distribute(st.currentRound - 1, 1, |exs|);
    }
  }

  /** The completion comes with exactly rounds × exercises done, every round counted. */
  lemma CompletionCountsEveryExercise(exs: seq<Exercise>, totalRoundsSetting: Option<int>, st: Clock, sessionTime: int)
    requires OnTrack(exs, totalRoundsSetting, st) && TotalRounds(totalRoundsSetting) >= 1
    requires Next(exs, totalRoundsSetting, st, sessionTime).report.Some?
    ensures var rep := Next(exs, totalRoundsSetting, st, sessionTime).report.value;
      rep.roundsCompleted == TotalRounds(totalRoundsSetting)
      && rep.exercisesCompleted == TotalExercises(exs, totalRoundsSetting)
  {
    Arith.Distribute(st.currentRound - 1, 1, |exs|);
  }

  /**
   * Finishing before the workout completes reports the round on show, within
   * the rounds set, and fewer exercises than the completion report would.
   */
  lemma {:induction false} FinishReportsLessThanCompletion(exs: seq<Exercise>, totalRoundsSetting: Option<int>, st: Clock, sessionTime: int)
    requires OnTrack(exs, totalRoundsSetting, st) && TotalRounds(totalRoundsSetting) >= 1
    ensures var rep := FinishReport(st, sessionTime);
      && 1 <= rep.roundsCompleted <= TotalRounds(totalRoundsSetting)
      && rep.exercisesCompleted < TotalExercises(exs, totalRoundsSetting)
      && rep.totalTime == sessionTime && |rep.exerciseSplits| == |st.exerciseStartTimes|
  {
    var n, tr := |exs|, TotalRounds(totalRoundsSetting);
    Arith.Distribute(st.currentRound - 1, 1, n);
    assert st.exercisesCompleted < st.currentRound * n;
    Arith.Distribute(tr, st.currentRound, n);
    if tr > st.currentRound {
      Arith.MulAtLeast(tr - st.currentRound, n);
    }
    assert st.currentRound * n <= tr * n;
  }

  /**
   * Recording the completion does not change the splits at that moment: the
   * splits the completion report computes from the state before "next" are
   * the splits of the state after it.
   */
  lemma SplitsIncludeTheLastCompletion(exs: seq<Exercise>, totalRoundsSetting: Option<int>, st: Clock, sessionTime: int)
    requires Recorded(st)
    ensures ExerciseSplits(Next(exs, totalRoundsSetting, st, sessionTime).after, sessionTime) == ExerciseSplits(st, sessionTime)
  {
  }

  /** Times in the order they happened, none after `now`: each start comes before its completion. */
  predicate Chronological(st: Clock, now: int)
  {
    (forall i :: 0 <= i < |st.exerciseStartTimes| ==> st.exerciseStartTimes[i] <= now)
    && (forall i :: 0 <= i < |st.exerciseCompleteTimes| ==> st.exerciseCompleteTimes[i] <= now)
    && (forall i :: 0 <= i < |st.exerciseStartTimes| && i < |st.exerciseCompleteTimes| ==>
          st.exerciseStartTimes[i] <= st.exerciseCompleteTimes[i])
  }

  /** The start effect keeps the times in order as the clock moves on. */
  lemma RecordStartChronological(st: Clock, now: int, later: int)
    requires Recorded(st) && Chronological(st, now) && now <= later
    ensures Chronological(RecordStart(st, later), later)
  {
  }

  /** "Next" keeps the times in order as the clock moves on. */
  lemma NextChronological(exs: seq<Exercise>, totalRoundsSetting: Option<int>, st: Clock, now: int, later: int)
    requires Recorded(st) && Chronological(st, now) && now <= later
    ensures Chronological(Next(exs, totalRoundsSetting, st, later).after, later)
  {
  }

  /** With the times in order, no split is negative. */
  lemma SplitsNonNegative(st: Clock, now: int)
    requires Chronological(st, now)
    ensures forall i :: 0 <= i < |ExerciseSplits(st, now)| ==> ExerciseSplits(st, now)[i] >= 0
  {
  }

  // ---------------------------------------------------------------- the runner

  class Runner {
    const exercises: seq<Exercise>
    const totalRoundsSetting: Option<int>
    var currentRound: int
    var currentExerciseIndex: nat
    var exercisesCompleted: nat
    var exerciseStartTimes: seq<int>
    var exerciseCompleteTimes: seq<int>

    function State(): Clock
      reads this
    {
      Clock(currentRound, currentExerciseIndex, exercisesCompleted, exerciseStartTimes, exerciseCompleteTimes)
    }

    constructor(exercises: seq<Exercise>, totalRoundsSetting: Option<int>)
      ensures this.exercises == exercises && this.totalRoundsSetting == totalRoundsSetting
      ensures State() == Start
    {
      this.exercises := exercises;
      this.totalRoundsSetting := totalRoundsSetting;
      currentRound, currentExerciseIndex, exercisesCompleted := 1, 0, 0;
      exerciseStartTimes, exerciseCompleteTimes := [], [];
    }

    /** The start-time effect. */
    method TrackStart(sessionTime: int)
      modifies this
      ensures State() == RecordStart(old(State()), sessionTime)
    {
      if |exerciseStartTimes| == exercisesCompleted {
        exerciseStartTimes := exerciseStartTimes + [sessionTime];
      }
    }

    /** `handleNext`. */
    method HandleNext(sessionTime: int) returns (report: Option<Report>)
      modifies this
      ensures Outcome(State(), report) == Next(exercises, totalRoundsSetting, old(State()), sessionTime)
    {
      var splits := ExerciseSplits(State(), sessionTime);
      var done := exercisesCompleted;
      exerciseCompleteTimes := exerciseCompleteTimes + [sessionTime];
      exercisesCompleted := exercisesCompleted + 1;
      report := None;
      if currentExerciseIndex < |exercises| - 1 {
        currentExerciseIndex := currentExerciseIndex + 1;
      } else if currentRound < TotalRounds(totalRoundsSetting) {
        currentExerciseIndex := 0;
        currentRound := currentRound + 1;
      } else {
        report := Some(Report(TotalRounds(totalRoundsSetting), done + 1, sessionTime, splits));
      }
    }
  }
}
