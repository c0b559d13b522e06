/**
 * The Tabata session runner: each exercise alternates work and rest phases
 * for its rounds, driven by the session clock; the phase machine advances when
 * the phase time runs out, and "next" skips to the following exercise.
 */
module TabataSession {
  import opened Wrappers
  import opened WorkoutTypes
  import Arith

  /** The runner's state fields. */
  datatype Phase = Phase(currentExerciseIndex: nat, currentRound: int, isWorkPhase: bool, phaseStartTime: int)

  /** The result handed to `onComplete`. */
  datatype Report = Report(exercisesCompleted: int, totalRounds: Option<int>, workoutTime: int, intervalsCompleted: int)

  datatype Outcome = Outcome(after: Phase, report: Option<Report>)

  /** `workTime`: the current exercise's work seconds, 20 by default. */
  function WorkTime(exs: seq<Exercise>, st: Phase): int
  {
    if st.currentExerciseIndex < |exs| then OrElse(exs[st.currentExerciseIndex].workTimeSeconds, 20) else 20
  }

  /** `restTime`: the current exercise's rest seconds, 10 by default. */
  function RestTime(exs: seq<Exercise>, st: Phase): int
  {
    if st.currentExerciseIndex < |exs| then OrElse(exs[st.currentExerciseIndex].restTimeSeconds, 10) else 10
  }

  /** `totalRounds`: the current exercise's rounds, 8 by default. */
  function TotalRounds(exs: seq<Exercise>, st: Phase): int
  {
    if st.currentExerciseIndex < |exs| then OrElse(exs[st.currentExerciseIndex].rounds, 8) else 8
  }

  /** `phaseTimeRemaining`: the phase's limit less the time spent in it, never below zero. */
  function PhaseTimeRemaining(exs: seq<Exercise>, st: Phase, sessionTime: int): (r: int)
    ensures r >= 0
    ensures var limit := if st.isWorkPhase then WorkTime(exs, st) else RestTime(exs, st);
      r == 0 <==> sessionTime - st.phaseStartTime >= limit
    ensures var limit := if st.isWorkPhase then WorkTime(exs, st) else RestTime(exs, st);
      sessionTime >= st.phaseStartTime ==> r <= limit || r == 0
  {
    var limit := if st.isWorkPhase then WorkTime(exs, st) else RestTime(exs, st);
    Arith.NonNegative(limit - (sessionTime - st.phaseStartTime))
  }

  /** What both "next" and the last work phase report when the workout is done. */
  function CompletionReport(exs: seq<Exercise>, totalRoundsSetting: Option<int>, st: Phase, sessionTime: int): Report
  {
    Report(|exs|, totalRoundsSetting, sessionTime, |exs| * TotalRounds(exs, st))
  }

  /**
   * One run of the auto-advance effect. Paused, or with time left in the
   * phase, nothing changes. A finished rest phase starts the next round's
   * work. A finished work phase starts the rest, unless it was the last round:
   * then the next exercise starts at round 1 in its work phase, or, on the
   * last exercise, the workout completes.
   */
  function AutoAdvance(exs: seq<Exercise>, totalRoundsSetting: Option<int>, st: Phase, sessionTime: int, isPaused: bool): (r: Outcome)
    ensures isPaused ==> r == Outcome(st, None)
    ensures PhaseTimeRemaining(exs, st, sessionTime) > 0 ==> r == Outcome(st, None)
    ensures r.report.Some? ==> st.isWorkPhase && st.currentRound >= TotalRounds(exs, st)
                               && st.currentExerciseIndex + 1 >= |exs|
  {
    if isPaused || PhaseTimeRemaining(exs, st, sessionTime) > 0 then Outcome(st, None)
    else if st.isWorkPhase then
      if st.currentRound >= TotalRounds(exs, st) then
        if st.currentExerciseIndex < |exs| - 1 then
          Outcome(Phase(st.currentExerciseIndex + 1, 1, true, sessionTime), None)
        else
          Outcome(st.(isWorkPhase := false, phaseStartTime := sessionTime),
                  Some(CompletionReport(exs, totalRoundsSetting, st, sessionTime)))
      else
        Outcome(st.(isWorkPhase := false, phaseStartTime := sessionTime), None)
    else
      Outcome(st.(isWorkPhase := true, phaseStartTime := sessionTime, currentRound := st.currentRound + 1), None)
  }

  /** `handleNext`: skip to the next exercise's first work phase, or complete on the last one. */
  function Next(exs: seq<Exercise>, totalRoundsSetting: Option<int>, st: Phase, sessionTime: int): (r: Outcome)
    ensures r.report.Some? <==> st.currentExerciseIndex + 1 >= |exs|
    ensures r.report.Some? ==> r.after == st
    ensures r.report.None? ==> r.after == Phase(st.currentExerciseIndex + 1, 1, true, sessionTime)
  {
    if st.currentExerciseIndex < |exs| - 1 then
      Outcome(Phase(st.currentExerciseIndex + 1, 1, true, sessionTime), None)
    else
      Outcome(st, Some(CompletionReport(exs, totalRoundsSetting, st, sessionTime)))
  }

  /** `handleFinish`: the current exercise counts, and so does every round started in it. */
  function FinishReport(exs: seq<Exercise>, st: Phase, sessionTime: int): Report
  {
    Report(st.currentExerciseIndex + 1, Some(st.currentRound), sessionTime,
           st.currentExerciseIndex * TotalRounds(exs, st) + st.currentRound)
  }

  /** `getNextExercise`: the following exercise, none on the last one. */
  function NextExercise(exs: seq<Exercise>, st: Phase): (r: Option<Exercise>)
    ensures r.Some? <==> st.currentExerciseIndex + 1 < |exs|
    ensures r.Some? ==> r.value == exs[st.currentExerciseIndex + 1]
  {
    if st.currentExerciseIndex < |exs| - 1 then Some(exs[st.currentExerciseIndex + 1]) else None
  }

  /** The numerator and denominator of `getOverallProgress`: intervals finished, out of all. */
  function OverallProgress(exs: seq<Exercise>, st: Phase): (int, int)
  {
    (st.currentExerciseIndex * TotalRounds(exs, st) + (st.currentRound - 1), |exs| * TotalRounds(exs, st))
  }

  // ---------------------------------------------------------------- properties

  /**
   * The states the machine passes through before it completes: on an
   * existing exercise, at a round from 1 on; working at most the last round,
   * resting only before the last round.
   */
  predicate Running(exs: seq<Exercise>, st: Phase)
  {
    (if exs == [] then st.currentExerciseIndex == 0 else st.currentExerciseIndex < |exs|)
    && st.currentRound >= 1
    && (if st.isWorkPhase then st.currentRound <= TotalRounds(exs, st) || st.currentRound == 1
        else st.currentRound < TotalRounds(exs, st))
  }

  /** The start of a session: the first exercise, round 1, working, from time 0. */
  lemma StartIsRunning(exs: seq<Exercise>)
    ensures Running(exs, Phase(0, 1, true, 0))
  {
  }

  /** The auto-advance keeps the machine running until it reports completion. */
  lemma AutoAdvanceKeepsRunning(exs: seq<Exercise>, setting: Option<int>, st: Phase, sessionTime: int, isPaused: bool)
    requires Running(exs, st) && AutoAdvance(exs, setting, st, sessionTime, isPaused).report.None?
    ensures Running(exs, AutoAdvance(exs, setting, st, sessionTime, isPaused).after)
  {
  }

  /** "Next" keeps the machine running when it does not complete. */
  lemma NextKeepsRunning(exs: seq<Exercise>, setting: Option<int>, st: Phase, sessionTime: int)
    requires Running(exs, st) && Next(exs, setting, st, sessionTime).report.None?
    ensures Running(exs, Next(exs, setting, st, sessionTime).after)
  {
  }

  /** Where the machine is: exercise, then round, then rest after work. */
  function Rank(st: Phase): (int, int, int)
  {
    (st.currentExerciseIndex, st.currentRound, if st.isWorkPhase then 0 else 1)
  }

  predicate Later(a: (int, int, int), b: (int, int, int))
  {
    a.0 > b.0 || (a.0 == b.0 && (a.1 > b.1 || (a.1 == b.1 && a.2 > b.2)))
  }

  /** An expired phase always moves the machine forward: to the rest, the next round or the next exercise. */
  lemma ExpiredPhaseMovesForward(exs: seq<Exercise>, setting: Option<int>, st: Phase, sessionTime: int)
    requires PhaseTimeRemaining(exs, st, sessionTime) == 0
    requires AutoAdvance(exs, setting, st, sessionTime, false).report.None?
    ensures Later(Rank(AutoAdvance(exs, setting, st, sessionTime, false).after), Rank(st))
    ensures AutoAdvance(exs, setting, st, sessionTime, false).after.phaseStartTime == sessionTime
  {
  }

  /** The completion report counts every round of every exercise. */
  lemma CompletionCountsAllIntervals(exs: seq<Exercise>, setting: Option<int>, st: Phase, sessionTime: int, isPaused: bool)
    requires AutoAdvance(exs, setting, st, sessionTime, isPaused).report.Some?
    ensures var rep := AutoAdvance(exs, setting, st, sessionTime, isPaused).report.value;
      rep.exercisesCompleted == |exs| && rep.intervalsCompleted == |exs| * TotalRounds(exs, st)
  {
  }

  /**
   * Finishing in the last work round of the last exercise reports the same
   * intervals as the completion that round's end would send.
   */
  lemma FinishOnLastRoundMatchesCompletion(exs: seq<Exercise>, setting: Option<int>, st: Phase, sessionTime: int)
    requires |exs| >= 1 && st.currentExerciseIndex == |exs| - 1 && st.currentRound == TotalRounds(exs, st)
    ensures FinishReport(exs, st, sessionTime).intervalsCompleted
      == CompletionReport(exs, setting, st, sessionTime).intervalsCompleted
  {
    Arith.Distribute(|exs| - 1, 1, TotalRounds(exs, st));
  }

  /** While running with a positive round count, the finished intervals are fewer than all of them. */
  lemma OverallProgressBelowWhole(exs: seq<Exercise>, st: Phase)
    requires Running(exs, st) && exs != [] && TotalRounds(exs, st) >= 1
    ensures var (done, all) := OverallProgress(exs, st); 0 <= done < all
  {
    var R, i := TotalRounds(exs, st), st.currentExerciseIndex;
    if i >= 1 {
      Arith.MulAtLeast(i, R);
    }
    Arith.Distribute(i, 1, R);
    if |exs| - (i + 1) >= 1 {
      Arith.MulAtLeast(|exs| - (i + 1), R);
    }
    Arith.Distribute(i + 1, |exs| - (i + 1), R);
  }

  // ---------------------------------------------------------------- the runner

  class Runner {
    const exercises: seq<Exercise>
    const totalRoundsSetting: Option<int>
    var currentExerciseIndex: nat
    var currentRound: int
    var isWorkPhase: bool
    var phaseStartTime: int

    function State(): Phase
      reads this
    {
      Phase(currentExerciseIndex, currentRound, isWorkPhase, phaseStartTime)
    }

    constructor(exercises: seq<Exercise>, totalRoundsSetting: Option<int>)
      ensures this.exercises == exercises && this.totalRoundsSetting == totalRoundsSetting
      ensures State() == Phase(0, 1, true, 0) && Running(exercises, State())
    {
      this.exercises := exercises;
      this.totalRoundsSetting := totalRoundsSetting;
      currentExerciseIndex, currentRound, isWorkPhase, phaseStartTime := 0, 1, true, 0;
    }

    /** The auto-advance effect; the writes follow the source's order, the last one winning. */
    method Tick(sessionTime: int, isPaused: bool) returns (report: Option<Report>)
      modifies this
      ensures Outcome(State(), report) == AutoAdvance(exercises, totalRoundsSetting, old(State()), sessionTime, isPaused)
    {
      report := None;
      if isPaused {
        return;
      }
      var totalRounds := TotalRounds(exercises, State());
      if PhaseTimeRemaining(exercises, State(), sessionTime) <= 0 {
        if isWorkPhase {
          isWorkPhase := false;
          phaseStartTime := sessionTime;
          if currentRound >= totalRounds {
            if currentExerciseIndex < |exercises| - 1 {
              currentExerciseIndex := currentExerciseIndex + 1;
              currentRound := 1;
              isWorkPhase := true;
              phaseStartTime := sessionTime;
            } else {
              report := Some(Report(|exercises|, totalRoundsSetting, sessionTime, |exercises| * totalRounds));
            }
          }
        } else {
          isWorkPhase := true;
          phaseStartTime := sessionTime;
          currentRound := currentRound + 1;
        }
      }
    }

    /** `handleNext`. */
    method HandleNext(sessionTime: int) returns (report: Option<Report>)
      modifies this
      ensures Outcome(State(), report) == Next(exercises, totalRoundsSetting, old(State()), sessionTime)
    {
      report := None;
      if currentExerciseIndex < |exercises| - 1 {
        currentExerciseIndex := currentExerciseIndex + 1;
        currentRound := 1;
        isWorkPhase := true;
        phaseStartTime := sessionTime;
      } else {
        report := Some(Report(|exercises|, totalRoundsSetting, sessionTime, |exercises| * TotalRounds(exercises, State())));
      }
    }
  }
}
