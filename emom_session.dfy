/**
 * The EMOM session runner: one exercise per minute, `exercisesPerRound`
 * minutes to a round. "Next" moves on a minute, a timer moves the minute up
 * to the session clock, and both start a new round at a round's first minute.
 */
module EMOMSession {
  import opened Wrappers
  import opened WorkoutTypes
  import Arith

  /** The runner's state fields (the two-second "round complete" banner is left out). */
  datatype Tally = Tally(currentRound: int, currentMinute: int, currentExerciseIndex: int, roundsCompleted: int, exercisesCompleted: int)

  /** The result handed to `onComplete`. */
  datatype Report = Report(roundsCompleted: Option<int>, exercisesCompleted: int, totalMinutes: int, completionTime: int)

  datatype Outcome = Outcome(after: Tally, report: Option<Report>)

  const Start: Tally := Tally(1, 1, 0, 0, 0)

  /** The round test as written: `minute % exercisesPerRound === 1 && minute > 1`. */
  predicate StartsRoundAsWritten(minute: int, exercisesPerRound: int)
    requires exercisesPerRound >= 1
  {
    Arith.JsRem(minute, exercisesPerRound) == 1 && minute > 1
  }

  /** The round test as intended: a later minute that is the first of its round. */
  predicate StartsRound(minute: int, exercisesPerRound: int)
    requires exercisesPerRound >= 1
  {
    Arith.JsRem(minute - 1, exercisesPerRound) == 0 && minute > 1
  }

  /** Moving to `minute`: the round counters step when a round starts, and the index is the minute's place in its round. */
  function MoveTo(st: Tally, minute: int, exercisesPerRound: int, newRound: bool): (r: Tally)
    requires exercisesPerRound >= 1
    ensures r.currentMinute == minute && r.exercisesCompleted == st.exercisesCompleted
    ensures r.currentExerciseIndex == Arith.JsRem(minute - 1, exercisesPerRound)
    ensures r.currentRound == st.currentRound + (if newRound then 1 else 0)
    ensures r.roundsCompleted == st.roundsCompleted + (if newRound then 1 else 0)
  {
    var counted := if newRound then st.(currentRound := st.currentRound + 1, roundsCompleted := st.roundsCompleted + 1) else st;
    counted.(currentMinute := minute, currentExerciseIndex := Arith.JsRem(minute - 1, exercisesPerRound))
  }

  /** `handleNext` with the round test as written. */
  function NextAsWritten(totalMinutes: int, exercisesPerRound: int, roundCount: Option<int>, st: Tally, sessionTime: int): (r: Outcome)
    requires exercisesPerRound >= 1
  {
    var counted := st.(exercisesCompleted := st.exercisesCompleted + 1);
    if st.currentMinute >= totalMinutes then
      Outcome(counted, Some(Report(roundCount, st.exercisesCompleted + 1, totalMinutes, sessionTime)))
    else
      Outcome(MoveTo(counted, st.currentMinute + 1, exercisesPerRound, StartsRoundAsWritten(st.currentMinute + 1, exercisesPerRound)), None)
  }

  /**
   * `handleNext`: one more exercise done; at or past the last minute the
   * workout completes with the configured round count, otherwise the next
   * minute starts.
   */
  function Next(totalMinutes: int, exercisesPerRound: int, roundCount: Option<int>, st: Tally, sessionTime: int): (r: Outcome)
    requires exercisesPerRound >= 1
    ensures r.after.exercisesCompleted == st.exercisesCompleted + 1
    ensures r.report.Some? <==> st.currentMinute >= totalMinutes
    ensures r.report.Some? ==>
      r.after == st.(exercisesCompleted := st.exercisesCompleted + 1)
      && r.report.value == Report(roundCount, st.exercisesCompleted + 1, totalMinutes, sessionTime)
    ensures r.report.None? ==> r.after.currentMinute == st.currentMinute + 1
  {
    var counted := st.(exercisesCompleted := st.exercisesCompleted + 1);
    if st.currentMinute >= totalMinutes then
      Outcome(counted, Some(Report(roundCount, st.exercisesCompleted + 1, totalMinutes, sessionTime)))
    else
      Outcome(MoveTo(counted, st.currentMinute + 1, exercisesPerRound, StartsRound(st.currentMinute + 1, exercisesPerRound)), None)
  }

  /** The minute the session clock is in: `Math.floor(sessionTime / 60) + 1`. */
  function ClockMinute(sessionTime: int): int
  {
    Arith.FloorDiv(sessionTime, 60) + 1
  }

  /** The timer callback with the round test as written. */
  function CatchUpAsWritten(totalMinutes: int, exercisesPerRound: int, st: Tally, sessionTime: int, isPaused: bool): Tally
    requires exercisesPerRound >= 1
  {
    var minute := ClockMinute(sessionTime);
    if !isPaused && minute > st.currentMinute && minute <= totalMinutes
    then MoveTo(st, minute, exercisesPerRound, StartsRoundAsWritten(minute, exercisesPerRound))
    else st
  }

  /**
   * The timer callback: unless paused, the minute catches up with the
   * session clock, never beyond the last minute and never backwards.
   */
  function CatchUp(totalMinutes: int, exercisesPerRound: int, st: Tally, sessionTime: int, isPaused: bool): (r: Tally)
    requires exercisesPerRound >= 1
    ensures isPaused ==> r == st
    ensures r.currentMinute >= st.currentMinute
    ensures r.currentMinute != st.currentMinute ==> r.currentMinute <= totalMinutes && r.currentMinute == ClockMinute(sessionTime)
    ensures r.exercisesCompleted == st.exercisesCompleted
  {
    var minute := ClockMinute(sessionTime);
    if !isPaused && minute > st.currentMinute && minute <= totalMinutes
    then MoveTo(st, minute, exercisesPerRound, StartsRound(minute, exercisesPerRound))
    else st
  }

  /** `handleFinish`: the round the current minute is in, and the minutes reached. */
  function FinishReport(exercisesPerRound: int, st: Tally, sessionTime: int): Report
    requires exercisesPerRound >= 1
  {
    Report(Some(Arith.FloorDiv(st.currentMinute - 1, exercisesPerRound) + 1), st.exercisesCompleted, st.currentMinute, sessionTime)
  }

  /** An exercise by index, none outside the list (JavaScript's `undefined`). */
  function At(exs: seq<Exercise>, k: int): (r: Option<Exercise>)
    ensures r.Some? <==> 0 <= k < |exs|
    ensures r.Some? ==> r.value == exs[k]
  {
    if 0 <= k < |exs| then Some(exs[k]) else None
  }

  /** `getNextExercise`: the next one in the round, or the round's first after its last. */
  function NextExercise(exs: seq<Exercise>, exercisesPerRound: int, st: Tally): (r: Option<Exercise>)
    ensures st.currentExerciseIndex < exercisesPerRound - 1 ==> r == At(exs, st.currentExerciseIndex + 1)
    ensures st.currentExerciseIndex >= exercisesPerRound - 1 ==> r == At(exs, 0)
  {
    if st.currentExerciseIndex < exercisesPerRound - 1 then At(exs, st.currentExerciseIndex + 1) else At(exs, 0)
  }

  // ---------------------------------------------------------------- properties

  /**
   * The counters follow the minute: minute m is in round ⌊(m − 1) / e⌋ + 1,
   * at place (m − 1) mod e, after the rounds before it.
   */
  predicate Aligned(exercisesPerRound: int, st: Tally)
    requires exercisesPerRound >= 1
  {
    st.currentMinute >= 1
    && st.currentRound == (st.currentMinute - 1) / exercisesPerRound + 1
    && st.roundsCompleted == st.currentRound - 1
    && st.currentExerciseIndex == (st.currentMinute - 1) % exercisesPerRound
  }

  lemma StartIsAligned(exercisesPerRound: int)
    requires exercisesPerRound >= 1
    ensures Aligned(exercisesPerRound, Start)
  {
  }

  /** Moving on by exactly one minute keeps the counters aligned. */
  lemma OneMinuteOnStaysAligned(exercisesPerRound: int, st: Tally)
    requires exercisesPerRound >= 1 && Aligned(exercisesPerRound, st)
    ensures var m := st.currentMinute + 1;
      Aligned(exercisesPerRound, MoveTo(st, m, exercisesPerRound, StartsRound(m, exercisesPerRound)))
  {
    Arith.DivStep(st.currentMinute - 1, exercisesPerRound);
  }

  /** "Next" keeps the counters aligned with the minute. */
  lemma NextKeepsAligned(totalMinutes: int, exercisesPerRound: int, roundCount: Option<int>, st: Tally, sessionTime: int)
    requires exercisesPerRound >= 1 && Aligned(exercisesPerRound, st)
    ensures Aligned(exercisesPerRound, Next(totalMinutes, exercisesPerRound, roundCount, st, sessionTime).after)
  {
    OneMinuteOnStaysAligned(exercisesPerRound, st.(exercisesCompleted := st.exercisesCompleted + 1));
  }

  /** A timer callback that finds the clock at most one minute ahead keeps the counters aligned. */
  lemma CatchUpKeepsAligned(totalMinutes: int, exercisesPerRound: int, st: Tally, sessionTime: int, isPaused: bool)
    requires exercisesPerRound >= 1 && Aligned(exercisesPerRound, st)
    requires ClockMinute(sessionTime) <= st.currentMinute + 1
    ensures Aligned(exercisesPerRound, CatchUp(totalMinutes, exercisesPerRound, st, sessionTime, isPaused))
  {
    OneMinuteOnStaysAligned(exercisesPerRound, st);
  }

  /** While aligned, finishing reports exactly the round on show. */
  lemma FinishReportsCurrentRound(exercisesPerRound: int, st: Tally, sessionTime: int)
    requires exercisesPerRound >= 1 && Aligned(exercisesPerRound, st)
    ensures FinishReport(exercisesPerRound, st, sessionTime).roundsCompleted == Some(st.currentRound)
    ensures FinishReport(exercisesPerRound, st, sessionTime).totalMinutes == st.currentMinute
  {
  }

  /** With two or more exercises per round the written round test is the intended one. */
  lemma RoundTestsAgreeFromTwoPerRound(minute: int, exercisesPerRound: int)
    requires exercisesPerRound >= 2 && minute >= 1
    ensures StartsRoundAsWritten(minute, exercisesPerRound) <==> StartsRound(minute, exercisesPerRound)
  {
    Arith.DivStep(minute - 1, exercisesPerRound);
  }

  /** ... so from two exercises per round "next" and the timer behave as written. */
  lemma AsWrittenAgreesFromTwoPerRound(totalMinutes: int, exercisesPerRound: int, roundCount: Option<int>, st: Tally, sessionTime: int, isPaused: bool)
    requires exercisesPerRound >= 2 && st.currentMinute >= 1
    ensures NextAsWritten(totalMinutes, exercisesPerRound, roundCount, st, sessionTime)
         == Next(totalMinutes, exercisesPerRound, roundCount, st, sessionTime)
    ensures CatchUpAsWritten(totalMinutes, exercisesPerRound, st, sessionTime, isPaused)
         == CatchUp(totalMinutes, exercisesPerRound, st, sessionTime, isPaused)
  {
    RoundTestsAgreeFromTwoPerRound(st.currentMinute + 1, exercisesPerRound);
    if ClockMinute(sessionTime) >= 1 {
      RoundTestsAgreeFromTwoPerRound(ClockMinute(sessionTime), exercisesPerRound);
    }
  }

  /** As written, with one exercise per round neither "next" nor the timer ever starts a new round. */
  lemma OneExercisePerRoundNeverAdvancesRound(totalMinutes: int, roundCount: Option<int>, st: Tally, sessionTime: int, isPaused: bool)
    ensures NextAsWritten(totalMinutes, 1, roundCount, st, sessionTime).after.currentRound == st.currentRound
    ensures CatchUpAsWritten(totalMinutes, 1, st, sessionTime, isPaused).currentRound == st.currentRound
  {
  }

  /**
   * As written, a three-minute workout with one exercise per round, after
   * two "next"s, shows round 1 while finishing reports 3 rounds.
   */
  lemma AsWrittenRoundDisagreesWithFinish()
    ensures var once := NextAsWritten(3, 1, None, Start, 60).after;
      var twice := NextAsWritten(3, 1, None, once, 120).after;
      twice.currentMinute == 3 && twice.currentRound == 1
      && FinishReport(1, twice, 120).roundsCompleted == Some(3)
  {
  }

  // ---------------------------------------------------------------- the runner

  class Runner {
    const totalMinutes: int
    const exercisesPerRound: int
    const roundCount: Option<int>
    var currentRound: int
    var currentMinute: int
    var currentExerciseIndex: int
    var roundsCompleted: int
    var exercisesCompleted: int

    function State(): Tally
      reads this
    {
      Tally(currentRound, currentMinute, currentExerciseIndex, roundsCompleted, exercisesCompleted)
    }

    constructor(totalMinutes: int, exercisesPerRound: int, roundCount: Option<int>)
      requires exercisesPerRound >= 1
      ensures this.totalMinutes == totalMinutes && this.exercisesPerRound == exercisesPerRound
      ensures this.roundCount == roundCount
      ensures State() == Start && Aligned(exercisesPerRound, State())
    {
      this.totalMinutes, this.exercisesPerRound, this.roundCount := totalMinutes, exercisesPerRound, roundCount;
      currentRound, currentMinute, currentExerciseIndex := 1, 1, 0;
      roundsCompleted, exercisesCompleted := 0, 0;
    }

    /** `handleNext`, with the intended round test. */
    method HandleNext(sessionTime: int) returns (report: Option<Report>)
      requires exercisesPerRound >= 1
      modifies this
      ensures Outcome(State(), report) == Next(totalMinutes, exercisesPerRound, roundCount, old(State()), sessionTime)
    {
      exercisesCompleted := exercisesCompleted + 1;
      report := None;
      if currentMinute >= totalMinutes {
        report := Some(Report(roundCount, exercisesCompleted, totalMinutes, sessionTime));
      } else {
        var nextMinute := currentMinute + 1;
        currentMinute := nextMinute;
        if StartsRound(nextMinute, exercisesPerRound) {
          currentRound := currentRound + 1;
          roundsCompleted := roundsCompleted + 1;
        }
        currentExerciseIndex := Arith.JsRem(nextMinute - 1, exercisesPerRound);
      }
    }

    /** The timer callback, with the intended round test. */
    method Tick(sessionTime: int, isPaused: bool)
      requires exercisesPerRound >= 1
      modifies this
      ensures State() == CatchUp(totalMinutes, exercisesPerRound, old(State()), sessionTime, isPaused)
    {
      if isPaused {
        return;
      }
      var minute := Arith.FloorDiv(sessionTime, 60) + 1;
      if minute > currentMinute && minute <= totalMinutes {
        currentMinute := minute;
        if StartsRound(minute, exercisesPerRound) {
          currentRound := currentRound + 1;
          roundsCompleted := roundsCompleted + 1;
        }
        currentExerciseIndex := Arith.JsRem(minute - 1, exercisesPerRound);
      }
    }
  }
}
