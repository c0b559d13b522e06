/**
 * The AMRAP session runner: the round's exercises are done over and over
 * until the time cap runs out; "next" moves through the round and wraps to a
 * new round, and an effect reports the result once when the time is up.
 */
module AMRAPSession {
  import opened Wrappers
  import opened WorkoutTypes
  import Arith

  /** The runner's state fields (the two-second "round complete" banner is left out). */
  datatype Lap = Lap(currentRound: int, currentExerciseIndex: nat, roundsCompleted: nat, exercisesCompleted: nat, isTimeUp: bool)

  /** The result handed to `onComplete`. */
  datatype Report = Report(roundsCompleted: int, partialRound: int, exercisesCompleted: int, timeCapMinutes: int, completionTime: int)

  datatype Outcome = Outcome(after: Lap, report: Option<Report>)

  const Start: Lap := Lap(1, 0, 0, 0, false)

  /** `timeRemaining`: the seconds left before the cap, never below zero. */
  function TimeRemaining(timeCapMinutes: int, sessionTime: int): (r: nat)
    ensures r == 0 <==> sessionTime >= timeCapMinutes * 60
    ensures r > 0 ==> r == timeCapMinutes * 60 - sessionTime
  {
    Arith.NonNegative(timeCapMinutes * 60 - sessionTime)
  }

  /** `handleFinish`: the rounds done, the exercises done in the current round, and the count. */
  function FinishReport(timeCapMinutes: int, st: Lap, sessionTime: int): Report
  {
    Report(st.roundsCompleted, st.currentExerciseIndex, st.exercisesCompleted, timeCapMinutes, sessionTime)
  }

  /**
   * One run of the time-up effect: the first time no time remains, the
   * session is marked as timed out and reports; otherwise nothing changes.
   */
  function CheckTime(timeCapMinutes: int, st: Lap, sessionTime: int): (r: Outcome)
    ensures r.report.Some? <==> sessionTime >= timeCapMinutes * 60 && !st.isTimeUp
    ensures r.report.Some? ==> r.after == st.(isTimeUp := true)
    ensures r.report.None? ==> r.after == st
  {
    if TimeRemaining(timeCapMinutes, sessionTime) <= 0 && !st.isTimeUp then
      Outcome(st.(isTimeUp := true),
              Some(Report(st.roundsCompleted,
                          if st.currentExerciseIndex > 0 then st.currentExerciseIndex else 0,
                          st.exercisesCompleted, timeCapMinutes, sessionTime)))
    else Outcome(st, None)
  }

  /** `handleNext`: one more exercise done; the next one in the round, or a new round from the first. */
  function Next(exs: seq<Exercise>, st: Lap): (r: Lap)
    ensures r.exercisesCompleted == st.exercisesCompleted + 1 && r.isTimeUp == st.isTimeUp
    ensures st.currentExerciseIndex + 1 < |exs| ==>
      r == st.(currentExerciseIndex := st.currentExerciseIndex + 1, exercisesCompleted := st.exercisesCompleted + 1)
    ensures st.currentExerciseIndex + 1 >= |exs| ==>
      r.currentExerciseIndex == 0 && r.roundsCompleted == st.roundsCompleted + 1 && r.currentRound == st.currentRound + 1
  {
    var counted := st.(exercisesCompleted := st.exercisesCompleted + 1);
    if st.currentExerciseIndex < |exs| - 1 then
      counted.(currentExerciseIndex := st.currentExerciseIndex + 1)
    else
      counted.(currentExerciseIndex := 0, roundsCompleted := st.roundsCompleted + 1, currentRound := st.currentRound + 1)
  }

  /** `getNextExercise`: the following exercise of the round, or the first one of the next round. */
  function NextExercise(exs: seq<Exercise>, st: Lap): (r: Option<Exercise>)
    ensures r.Some? <==> exs != []
    ensures st.currentExerciseIndex + 1 < |exs| ==> r == Some(exs[st.currentExerciseIndex + 1])
    ensures st.currentExerciseIndex + 1 >= |exs| && exs != [] ==> r == Some(exs[0])
  {
    if st.currentExerciseIndex < |exs| - 1 then Some(exs[st.currentExerciseIndex + 1])
    else if exs != [] then Some(exs[0])
    else None
  }

  /** `getRoundProgress`: the position in the round, out of the round's length. */
  function RoundProgress(exs: seq<Exercise>, st: Lap): (int, int)
  {
    (st.currentExerciseIndex + 1, |exs|)
  }

  // ---------------------------------------------------------------- properties

  /** How many "next"s make a round: the round's length, or one for an empty round. */
  function RoundLength(exs: seq<Exercise>): (r: nat)
    ensures r >= 1 && (exs != [] ==> r == |exs|)
  {
    if exs == [] then 1 else |exs|
  }

  /**
   * The counters agree: the current round is the one after the rounds done,
   * the position is inside the round, and the exercises done are the full
   * rounds plus the position in the current one.
   */
  predicate Counted(exs: seq<Exercise>, st: Lap)
  {
    st.currentRound == st.roundsCompleted + 1
    && st.currentExerciseIndex < RoundLength(exs)
    && st.exercisesCompleted == st.roundsCompleted * RoundLength(exs) + st.currentExerciseIndex
  }

  /**
   * On counted state of a non-empty round, `getRoundProgress` shows a position
   * from 1 to the round's length, and "next" moves it on by one or back to 1
   * when the round is done.
   */
  lemma RoundProgressTracksNext(exs: seq<Exercise>, st: Lap)
    requires Counted(exs, st) && exs != []
    ensures var (at, all) := RoundProgress(exs, st);
      1 <= at <= all == |exs|
      && st.exercisesCompleted == st.roundsCompleted * all + at - 1
      && RoundProgress(exs, Next(exs, st)).0 == if at < all then at + 1 else 1
  {
  }

  lemma StartIsCounted(exs: seq<Exercise>)
    ensures Counted(exs, Start) && !Start.isTimeUp
  {
  }

  /** "Next" keeps the counters in agreement. */
  lemma NextStaysCounted(exs: seq<Exercise>, st: Lap)
    requires Counted(exs, st)
    ensures Counted(exs, Next(exs, st))
  {
    if st.currentExerciseIndex + 1 >= |exs| {
      Arith.Distribute(st.roundsCompleted, 1, RoundLength(exs));
    }
  }

  /** The time-up effect does not touch the counters. */
  lemma CheckTimeStaysCounted(exs: seq<Exercise>, timeCapMinutes: int, st: Lap, sessionTime: int)
    requires Counted(exs, st)
    ensures Counted(exs, CheckTime(timeCapMinutes, st, sessionTime).after)
  {
  }

  /** The time-up report is sent at most once: right after it, the effect reports nothing and changes nothing. */
  lemma TimeUpReportsOnce(timeCapMinutes: int, st: Lap, sessionTime: int, laterTime: int)
    requires CheckTime(timeCapMinutes, st, sessionTime).report.Some?
    ensures var after := CheckTime(timeCapMinutes, st, sessionTime).after;
      after.isTimeUp && CheckTime(timeCapMinutes, after, laterTime) == Outcome(after, None)
  {
  }

  /** The time-up report is what finishing at that moment would report. */
  lemma TimeUpReportIsFinishReport(timeCapMinutes: int, st: Lap, sessionTime: int)
    requires CheckTime(timeCapMinutes, st, sessionTime).report.Some?
    ensures CheckTime(timeCapMinutes, st, sessionTime).report.value == FinishReport(timeCapMinutes, st, sessionTime)
  {
  }

  /** A report from counted state splits the exercises done into full rounds and a partial round. */
  lemma ReportAddsUp(exs: seq<Exercise>, timeCapMinutes: int, st: Lap, sessionTime: int)
    requires Counted(exs, st) && exs != []
    ensures var rep := FinishReport(timeCapMinutes, st, sessionTime);
      rep.exercisesCompleted == rep.roundsCompleted * |exs| + rep.partialRound
      && 0 <= rep.partialRound < |exs|
  {
  }

  /** A full round of "next"s from the start of a round comes back to its start, one round further on. */
  lemma {:induction false} NextsAdvanceOneRound(exs: seq<Exercise>, st: Lap, k: nat)
    requires Counted(exs, st) && k <= |exs| - st.currentExerciseIndex
    ensures var r := Nexts(exs, st, k);
      Counted(exs, r) && r.exercisesCompleted == st.exercisesCompleted + k
      && (k < |exs| - st.currentExerciseIndex ==>
            r.roundsCompleted == st.roundsCompleted && r.currentExerciseIndex == st.currentExerciseIndex + k)
      && (k == |exs| - st.currentExerciseIndex && exs != [] ==>
            r.roundsCompleted == st.roundsCompleted + 1 && r.currentExerciseIndex == 0)
    decreases k
  {
    if k > 0 {
      NextsAdvanceOneRound(exs, st, k - 1);
      var p := Nexts(exs, st, k - 1);
      NextStaysCounted(exs, p);
    }
  }

  /** `k` presses of "next" in a row. */
  function Nexts(exs: seq<Exercise>, st: Lap, k: nat): Lap
  {
    if k == 0 then st else Next(exs, Nexts(exs, st, k - 1))
  }

  // ---------------------------------------------------------------- the runner

  class Runner {
    const exercises: seq<Exercise>
    const timeCapMinutes: int
    var currentRound: int
    var currentExerciseIndex: nat
    var roundsCompleted: nat
    var exercisesCompleted: nat
    var isTimeUp: bool

    function State(): Lap
      reads this
    {
      Lap(currentRound, currentExerciseIndex, roundsCompleted, exercisesCompleted, isTimeUp)
    }

    constructor(exercises: seq<Exercise>, timeCapMinutes: int)
      ensures this.exercises == exercises && this.timeCapMinutes == timeCapMinutes
      ensures State() == Start && Counted(exercises, State())
    {
      this.exercises := exercises;
      this.timeCapMinutes := timeCapMinutes;
      currentRound, currentExerciseIndex, roundsCompleted, exercisesCompleted := 1, 0, 0, 0;
      isTimeUp := false;
    }

    /** The time-up effect. */
    method CheckTimeUp(sessionTime: int) returns (report: Option<Report>)
      modifies this
      ensures Outcome(State(), report) == CheckTime(timeCapMinutes, old(State()), sessionTime)
    {
      report := None;
      var timeRemaining := Arith.NonNegative(timeCapMinutes * 60 - sessionTime);
      if timeRemaining <= 0 && !isTimeUp {
        isTimeUp := true;
        report := Some(Report(roundsCompleted, if currentExerciseIndex > 0 then currentExerciseIndex else 0,
                              exercisesCompleted, timeCapMinutes, sessionTime));
      }
    }

    /** `handleNext`. */
    method HandleNext()
      modifies this
      ensures State() == Next(exercises, old(State()))
    {
      exercisesCompleted := exercisesCompleted + 1;
      if currentExerciseIndex < |exercises| - 1 {
        currentExerciseIndex := currentExerciseIndex + 1;
      } else {
        currentExerciseIndex := 0;
        roundsCompleted := roundsCompleted + 1;
        currentRound := currentRound + 1;
      }
    }
  }
}
