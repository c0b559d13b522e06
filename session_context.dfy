/**
 * The client-side workout session store: the progress record built when a
 * session starts, the statistics recomputed after every change, the progress
 * counters of each workout type, and the reducer that applies one action to
 * the store. Clock readings are whole seconds passed in as `now`.
 */
module SessionContext {
  import opened Wrappers
  import WorkoutTypes
  import Lists

  /** The status of one exercise or one set. */
  datatype Progress = NotStarted | InProgress | Completed | Skipped

  datatype SessionStatus = SessionNotStarted | SessionActive | SessionPaused | SessionCompleted | SessionAbandoned

  /** One set as it is done; the `actual*` values are filled in when it completes. */
  datatype SetProgress = SetProgress(
    setNumber: int,
    status: Progress,
    startTime: Option<int>,
    endTime: Option<int>,
    restStartTime: Option<int>,
    restEndTime: Option<int>,
    actualReps: Option<int>,
    actualWeightKg: Option<int>,
    actualDistanceMeters: Option<int>,
    actualDurationSeconds: Option<int>,
    actualRestSeconds: Option<int>,
    notes: Option<string>,
    rpe: Option<int>)

  /** One exercise of a running session, with the planned values it was started from. */
  datatype ExerciseProgress = ExerciseProgress(
    exerciseId: int,
    orderInWorkout: int,
    status: Progress,
    startTime: Option<int>,
    endTime: Option<int>,
    totalTime: int,
    sets: seq<SetProgress>,
    plannedSets: Option<int>,
    plannedReps: Option<int>,
    plannedWeightKg: Option<int>,
    plannedDistanceMeters: Option<int>,
    plannedDurationSeconds: Option<int>,
    plannedRestSeconds: Option<int>)

  /** A workout's exercise as a session is started from it. */
  datatype PlannedExercise = PlannedExercise(
    exerciseId: int,
    orderInWorkout: int,
    sets: Option<int>,
    reps: Option<int>,
    weightKg: Option<int>,
    distanceMeters: Option<int>,
    durationSeconds: Option<int>,
    restSeconds: Option<int>)

  /** The per-type counters of a session; an absent key is `None`. */
  datatype TypeProgress = TypeProgress(
    currentRound: Option<int>,
    roundsCompleted: Option<int>,
    currentMinute: Option<int>,
    minutesCompleted: Option<int>,
    currentRoundInProgress: Option<int>,
    partialRoundProgress: Option<int>,
    timeRemaining: Option<int>,
    sequentialProgress: Option<int>,
    splitTimes: Option<seq<int>>,
    currentInterval: Option<int>,
    currentPhase: Option<string>,
    phaseTimeRemaining: Option<int>,
    intervalsCompleted: Option<int>,
    currentStep: Option<int>,
    currentStepReps: Option<int>,
    stepsCompleted: Option<int>,
    ladderDirection: Option<string>,
    totalVolume: Option<int>,
    estimatedCompletion: Option<int>)

  const NoProgress: TypeProgress :=
    TypeProgress(None, None, None, None, None, None, None, None, None, None,
                 None, None, None, None, None, None, None, None, None)

  datatype Session = Session(
    id: string,
    workoutId: int,
    startTime: Option<int>,
    endTime: Option<int>,
    currentExerciseIndex: int,
    sessionStatus: SessionStatus,
    totalElapsedTime: int,
    exerciseProgress: seq<ExerciseProgress>,
    workoutTypeId: Option<int>,
    workoutTypeData: Option<WorkoutTypes.WorkoutData>,
    workoutTypeProgress: TypeProgress,
    createdAt: int,
    updatedAt: int)

  datatype TimerKind = ExerciseTimer | RestTimer | TotalTimer

  datatype TimerMode = Stopwatch | Countdown

  datatype Timer = Timer(
    kind: TimerKind,
    mode: TimerMode,
    isRunning: bool,
    isPaused: bool,
    startTime: Option<int>,
    pausedAt: Option<int>,
    totalPausedTime: int,
    currentTime: int,
    targetDuration: Option<int>)

  /** The whole-number part of the statistics (the averages and the percentage are left out). */
  datatype Stats = Stats(
    totalExercises: int,
    completedExercises: int,
    skippedExercises: int,
    totalSets: int,
    completedSets: int,
    totalVolume: int)

  /** The store's state; the persisted copy is left out. */
  datatype State = State(currentSession: Option<Session>, isSessionActive: bool, timer: Timer, stats: Option<Stats>)

  const InitialTimer: Timer := Timer(TotalTimer, Stopwatch, false, false, None, None, 0, 0, None)

  const Initial: State := State(None, false, InitialTimer, None)

  // ---------------------------------------------------------------- progress records

  /**
   * `workoutExercise.sets || 1` as an array length: a missing or zero plan
   * gives one set, and a negative length makes an empty array.
   */
  function SetCount(plannedSets: Option<int>): (k: nat)
    ensures plannedSets.None? || plannedSets.value == 0 ==> k == 1
    ensures plannedSets.Some? && plannedSets.value > 0 ==> k == plannedSets.value
    ensures plannedSets.Some? && plannedSets.value < 0 ==> k == 0
  {
    var wanted := WorkoutTypes.OrElse(plannedSets, 1);
    if wanted < 0 then 0 else wanted
  }

  function NewSet(setNumber: int): SetProgress
  {
    SetProgress(setNumber, NotStarted, None, None, None, None, None, None, None, None, None, None, None)
  }

  function NewExerciseProgress(w: PlannedExercise): ExerciseProgress
  {
    ExerciseProgress(w.exerciseId, w.orderInWorkout, NotStarted, None, None, 0,
                     seq(SetCount(w.sets), j requires 0 <= j => NewSet(j + 1)),
                     w.sets, w.reps, w.weightKg, w.distanceMeters, w.durationSeconds, w.restSeconds)
  }

  /**
   * `createExerciseProgress`: one entry per planned exercise, in order, not
   * started, with sets numbered 1..k that are not started either.
   */
  function CreateExerciseProgress(exercises: seq<PlannedExercise>): (r: seq<ExerciseProgress>)
    ensures |r| == |exercises|
    ensures forall i :: 0 <= i < |r| ==>
      r[i].exerciseId == exercises[i].exerciseId && r[i].orderInWorkout == exercises[i].orderInWorkout
      && r[i].status == NotStarted && r[i].startTime.None? && r[i].endTime.None? && r[i].totalTime == 0
      && r[i].plannedSets == exercises[i].sets && r[i].plannedReps == exercises[i].reps
      && r[i].plannedWeightKg == exercises[i].weightKg && r[i].plannedRestSeconds == exercises[i].restSeconds
      && |r[i].sets| == SetCount(exercises[i].sets)
    ensures forall i, j :: 0 <= i < |r| && 0 <= j < |r[i].sets| ==>
      r[i].sets[j].setNumber == j + 1 && r[i].sets[j].status == NotStarted
      && r[i].sets[j].startTime.None? && r[i].sets[j].endTime.None?
  {
    seq(|exercises|, i requires 0 <= i < |exercises| => NewExerciseProgress(exercises[i]))
  }

  // ---------------------------------------------------------------- statistics

  function ExerciseHas(status: Progress): ExerciseProgress -> bool
  {
    (e: ExerciseProgress) => e.status == status
  }

  function SetHas(status: Progress): SetProgress -> bool
  {
    (s: SetProgress) => s.status == status
  }

  /** Each exercise's number of sets. */
  function SetCounts(ps: seq<ExerciseProgress>): (r: seq<int>)
    ensures |r| == |ps| && forall i :: 0 <= i < |ps| ==> r[i] == |ps[i].sets|
  {
    seq(|ps|, i requires 0 <= i < |ps| => |ps[i].sets|)
  }

  /** Each exercise's number of completed sets. */
  function CompletedSetCounts(ps: seq<ExerciseProgress>): (r: seq<int>)
    ensures |r| == |ps| && forall i :: 0 <= i < |ps| ==> r[i] == |Lists.Filter(ps[i].sets, SetHas(Completed))|
  {
    seq(|ps|, i requires 0 <= i < |ps| => |Lists.Filter(ps[i].sets, SetHas(Completed))|)
  }

  /**
   * A set's weight × reps: counted only when the set is completed and both
   * values are present and non-zero (a `0` is falsy).
   */
  function SetVolume(s: SetProgress): (v: int)
    ensures v != 0 ==>
      s.status == Completed && s.actualWeightKg.Some? && s.actualReps.Some?
      && v == s.actualWeightKg.value * s.actualReps.value
    ensures s.status != Completed ==> v == 0
    ensures s.status == Completed && s.actualWeightKg.Some? && s.actualReps.Some? ==>
      v == s.actualWeightKg.value * s.actualReps.value
  {
    if s.status == Completed && s.actualWeightKg.Some? && s.actualWeightKg.value != 0
       && s.actualReps.Some? && s.actualReps.value != 0
    then s.actualWeightKg.value * s.actualReps.value
    else 0
  }

  function SetVolumes(sets: seq<SetProgress>): (r: seq<int>)
    ensures |r| == |sets| && forall j :: 0 <= j < |sets| ==> r[j] == SetVolume(sets[j])
  {
    seq(|sets|, j requires 0 <= j < |sets| => SetVolume(sets[j]))
  }

  function ExerciseVolumes(ps: seq<ExerciseProgress>): (r: seq<int>)
    ensures |r| == |ps| && forall i :: 0 <= i < |ps| ==> r[i] == Lists.Sum(SetVolumes(ps[i].sets))
  {
    seq(|ps|, i requires 0 <= i < |ps| => Lists.Sum(SetVolumes(ps[i].sets)))
  }

  /** `calculateStats` (whole-number part). */
  function CalculateStats(session: Session): Stats
  {
    var ps := session.exerciseProgress;
    Stats(|ps|,
          |Lists.Filter(ps, ExerciseHas(Completed))|,
          |Lists.Filter(ps, ExerciseHas(Skipped))|,
          Lists.Sum(SetCounts(ps)),
          Lists.Sum(CompletedSetCounts(ps)),
          Lists.Sum(ExerciseVolumes(ps)))
  }

  /**
   * The counts agree: no exercise is both completed and skipped, so together
   * they are at most all exercises; completed sets are at most all sets.
   */
  lemma StatsBounds(session: Session)
    ensures var st := CalculateStats(session);
      0 <= st.completedExercises && 0 <= st.skippedExercises
      && st.completedExercises + st.skippedExercises <= st.totalExercises
      && 0 <= st.completedSets <= st.totalSets
  {
    var ps := session.exerciseProgress;
    Lists.FilterDisjointCounts(ps, ExerciseHas(Completed), ExerciseHas(Skipped));
    Lists.SumMonotone(CompletedSetCounts(ps), SetCounts(ps));
    Lists.SumNonNegative(CompletedSetCounts(ps));
  }

  /** Until some set is completed, the session has lifted no volume. */
  lemma NoCompletedSetNoVolume(session: Session)
    requires forall i, j :: 0 <= i < |session.exerciseProgress| && 0 <= j < |session.exerciseProgress[i].sets| ==>
      session.exerciseProgress[i].sets[j].status != Completed
    ensures CalculateStats(session).totalVolume == 0 && CalculateStats(session).completedSets == 0
  {
    var ps := session.exerciseProgress;
    forall i | 0 <= i < |ps|
      ensures Lists.Sum(SetVolumes(ps[i].sets)) == 0
      ensures |Lists.Filter(ps[i].sets, SetHas(Completed))| == 0
    {
      Lists.SumConstant(SetVolumes(ps[i].sets), 0);
      Lists.FilterNone(ps[i].sets, SetHas(Completed));
    }
    Lists.SumConstant(ExerciseVolumes(ps), 0);
    Lists.SumConstant(CompletedSetCounts(ps), 0);
  }

  // ---------------------------------------------------------------- per-type counters

  /** `ladderType || 'ascending'`. */
  function LadderDirection(ladderType: Option<string>): (r: string)
    ensures ladderType.Some? && ladderType.value != "" ==> r == ladderType.value
    ensures ladderType.None? || ladderType.value == "" ==> r == "ascending"
  {
    if ladderType.Some? && ladderType.value != "" then ladderType.value else "ascending"
  }

  /** The first exercise's field `||` a default, or the default when there is no exercise. */
  function FirstOr(exercises: seq<WorkoutTypes.Exercise>, field: WorkoutTypes.Exercise -> Option<int>, fallback: int): (r: int)
    ensures exercises == [] ==> r == fallback
    ensures exercises != [] ==> r == WorkoutTypes.OrElse(field(exercises[0]), fallback)
  {
    if exercises == [] then fallback else WorkoutTypes.OrElse(field(exercises[0]), fallback)
  }

  /**
   * What `initializeWorkoutTypeProgress` promises: nothing without a type id
   * (or with id 0) or without type data; otherwise each type's starting
   * counters, and always a volume and an estimated completion of zero.
   */
  function InitialTypeProgress(workoutTypeId: Option<int>, data: Option<WorkoutTypes.WorkoutData>): (p: TypeProgress)
    ensures workoutTypeId.None? || workoutTypeId.value == 0 || data.None? ==> p == NoProgress
    ensures workoutTypeId.Some? && workoutTypeId.value != 0 && data.Some? ==>
      p.totalVolume == Some(0) && p.estimatedCompletion == Some(0)
      && (workoutTypeId.value == WorkoutTypes.EMOM <==> p.currentMinute.Some?)
      && (workoutTypeId.value == WorkoutTypes.LADDER <==> p.ladderDirection.Some?)
    ensures workoutTypeId == Some(WorkoutTypes.EMOM) && data.Some? ==>
      p == NoProgress.(currentRound := Some(1), roundsCompleted := Some(0), currentMinute := Some(1),
                       minutesCompleted := Some(0), totalVolume := Some(0), estimatedCompletion := Some(0))
    ensures workoutTypeId == Some(WorkoutTypes.AMRAP) && data.Some? ==>
      p.currentRoundInProgress == Some(1) && p.partialRoundProgress == Some(0)
      && (data.value.timeCapMinutes.Some? ==> p.timeRemaining == Some(data.value.timeCapMinutes.value * 60))
    ensures workoutTypeId == Some(WorkoutTypes.FOR_TIME) && data.Some? ==>
      p.sequentialProgress == Some(0) && p.splitTimes == Some([])
    ensures workoutTypeId == Some(WorkoutTypes.TABATA) && data.Some? ==>
      p.currentInterval == Some(1) && p.currentPhase == Some("work") && p.intervalsCompleted == Some(0)
      && p.phaseTimeRemaining == Some(FirstOr(data.value.exercises, (e: WorkoutTypes.Exercise) => e.workTimeSeconds, 20))
    ensures workoutTypeId == Some(WorkoutTypes.LADDER) && data.Some? ==>
      p.currentStep == Some(0) && p.stepsCompleted == Some(0)
      && p.currentStepReps == Some(FirstOr(data.value.exercises, (e: WorkoutTypes.Exercise) => e.startReps, 0))
      && p.ladderDirection == Some(LadderDirection(data.value.ladderType))
  {
    if workoutTypeId.None? || workoutTypeId.value == 0 || data.None? then NoProgress
    else
      var d, id := data.value, workoutTypeId.value;
      var counters :=
        if id == WorkoutTypes.EMOM then
          NoProgress.(currentRound := Some(1), roundsCompleted := Some(0), currentMinute := Some(1), minutesCompleted := Some(0))
        else if id == WorkoutTypes.AMRAP then
          NoProgress.(currentRoundInProgress := Some(1), partialRoundProgress := Some(0),
                      timeRemaining := if d.timeCapMinutes.Some? then Some(d.timeCapMinutes.value * 60) else None)
        else if id == WorkoutTypes.FOR_TIME then
          NoProgress.(sequentialProgress := Some(0), splitTimes := Some([]))
        else if id == WorkoutTypes.TABATA then
          NoProgress.(currentInterval := Some(1), currentPhase := Some("work"), intervalsCompleted := Some(0),
                      phaseTimeRemaining := Some(FirstOr(d.exercises, (e: WorkoutTypes.Exercise) => e.workTimeSeconds, 20)))
        else if id == WorkoutTypes.LADDER then
          NoProgress.(currentStep := Some(0), stepsCompleted := Some(0),
                      currentStepReps := Some(FirstOr(d.exercises, (e: WorkoutTypes.Exercise) => e.startReps, 0)),
                      ladderDirection := Some(LadderDirection(d.ladderType)))
        else NoProgress;
      counters.(totalVolume := Some(0), estimatedCompletion := Some(0))
  }

  /** `initializeWorkoutTypeProgress`: an empty record filled in key by key. */
  method InitializeWorkoutTypeProgress(workoutTypeId: Option<int>, data: Option<WorkoutTypes.WorkoutData>)
    returns (progress: TypeProgress)
    ensures progress == InitialTypeProgress(workoutTypeId, data)
  {
    progress := NoProgress;
    if workoutTypeId.None? || workoutTypeId.value == 0 || data.None? {
      return;
    }
    var d := data.value;
    match workoutTypeId.value {
      case 1 =>
        progress := progress.(currentRound := Some(1));
        progress := progress.(roundsCompleted := Some(0));
        progress := progress.(currentMinute := Some(1));
        progress := progress.(minutesCompleted := Some(0));
      case 2 =>
        progress := progress.(currentRoundInProgress := Some(1));
        progress := progress.(partialRoundProgress := Some(0));
        if d.timeCapMinutes.Some? {
          progress := progress.(timeRemaining := Some(d.timeCapMinutes.value * 60));
        }
      case 3 =>
        progress := progress.(sequentialProgress := Some(0));
        progress := progress.(splitTimes := Some([]));
      case 4 =>
        progress := progress.(currentInterval := Some(1));
        progress := progress.(currentPhase := Some("work"));
        var work := if d.exercises != [] then d.exercises[0].workTimeSeconds else None;
        progress := progress.(phaseTimeRemaining := Some(WorkoutTypes.OrElse(work, 20)));
        progress := progress.(intervalsCompleted := Some(0));
      case 5 =>
        progress := progress.(currentStep := Some(0));
        var start := if d.exercises != [] then d.exercises[0].startReps else None;
        progress := progress.(currentStepReps := Some(WorkoutTypes.OrElse(start, 0)));
        progress := progress.(stepsCompleted := Some(0));
        progress := progress.(ladderDirection := Some(if d.ladderType.Some? && d.ladderType.value != "" then d.ladderType.value else "ascending"));
      case _ =>
    }
    progress := progress.(totalVolume := Some(0));
    progress := progress.(estimatedCompletion := Some(0));
  }

  /** `{ ...old, ...update }` on one key: a present key wins. */
  function Over<T>(base: Option<T>, update: Option<T>): (r: Option<T>)
    ensures update.Some? ==> r == update
    ensures update.None? ==> r == base
  {
    if update.Some? then update else base
  }

  /** `{ ...progress, ...update }` on the per-type counters. */
  function MergeProgress(p: TypeProgress, u: TypeProgress): TypeProgress
  {
    TypeProgress(
      Over(p.currentRound, u.currentRound), Over(p.roundsCompleted, u.roundsCompleted),
      Over(p.currentMinute, u.currentMinute), Over(p.minutesCompleted, u.minutesCompleted),
      Over(p.currentRoundInProgress, u.currentRoundInProgress), Over(p.partialRoundProgress, u.partialRoundProgress),
      Over(p.timeRemaining, u.timeRemaining), Over(p.sequentialProgress, u.sequentialProgress),
      Over(p.splitTimes, u.splitTimes), Over(p.currentInterval, u.currentInterval),
      Over(p.currentPhase, u.currentPhase), Over(p.phaseTimeRemaining, u.phaseTimeRemaining),
      Over(p.intervalsCompleted, u.intervalsCompleted), Over(p.currentStep, u.currentStep),
      Over(p.currentStepReps, u.currentStepReps), Over(p.stepsCompleted, u.stepsCompleted),
      Over(p.ladderDirection, u.ladderDirection), Over(p.totalVolume, u.totalVolume),
      Over(p.estimatedCompletion, u.estimatedCompletion))
  }

  /** Merging an empty update changes nothing, merging twice is merging once, and later updates win. */
  lemma MergeLaws(p: TypeProgress, u: TypeProgress, v: TypeProgress)
    ensures MergeProgress(p, NoProgress) == p
    ensures MergeProgress(NoProgress, u) == u
    ensures MergeProgress(MergeProgress(p, u), u) == MergeProgress(p, u)
    ensures MergeProgress(MergeProgress(p, u), v) == MergeProgress(p, MergeProgress(u, v))
  {
  }

  // ---------------------------------------------------------------- the reducer

  /** A `Partial<SetProgress>` as `completeSet` receives it; an absent key is `None`. */
  datatype SetData = SetData(
    actualReps: Option<int>,
    actualWeightKg: Option<int>,
    actualDistanceMeters: Option<int>,
    actualDurationSeconds: Option<int>,
    actualRestSeconds: Option<int>,
    notes: Option<string>,
    rpe: Option<int>)

  /** A `Partial<SessionTimer>` as `UPDATE_TIMER` receives it; an absent key is `None`. */
  datatype TimerPatch = TimerPatch(
    kind: Option<TimerKind>,
    mode: Option<TimerMode>,
    isRunning: Option<bool>,
    isPaused: Option<bool>,
    totalPausedTime: Option<int>,
    currentTime: Option<int>)

  datatype Action =
    | StartSession(sessionId: string, workoutId: int, workoutTypeId: Option<int>,
                   exercises: seq<PlannedExercise>, workoutTypeData: Option<WorkoutTypes.WorkoutData>)
    | PauseSession
    | ResumeSession
    | EndSession
    | AbandonSession
    | StartExercise(exerciseIndex: int)
    | CompleteExercise(exerciseIndex: int)
    | SkipExercise(exerciseIndex: int)
    | StartSet(exerciseIndex: int, setNumber: int)
    | CompleteSet(exerciseIndex: int, setNumber: int, setData: SetData)
    | UpdateTimer(patch: TimerPatch)
    | UpdateWorkoutTypeProgress(progress: TypeProgress)
    | LoadSession(session: Session)
    | ClearSession

  /** The actions that do nothing unless a session is loaded. */
  predicate NeedsSession(a: Action)
  {
    !(a.StartSession? || a.UpdateTimer? || a.LoadSession? || a.ClearSession?)
  }

  /** The session `START_SESSION` builds: active, at the first exercise, nothing done yet. */
  function NewSession(a: Action, now: int): (s: Session)
    requires a.StartSession?
    ensures s.sessionStatus == SessionActive && s.currentExerciseIndex == 0 && s.totalElapsedTime == 0
    ensures s.startTime == Some(now) && s.endTime.None? && s.createdAt == now && s.updatedAt == now
    ensures s.exerciseProgress == CreateExerciseProgress(a.exercises)
    ensures s.workoutTypeProgress == InitialTypeProgress(a.workoutTypeId, a.workoutTypeData)
  {
    Session(a.sessionId, a.workoutId, Some(now), None, 0, SessionActive, 0,
            CreateExerciseProgress(a.exercises), a.workoutTypeId, a.workoutTypeData,
            InitialTypeProgress(a.workoutTypeId, a.workoutTypeData), now, now)
  }

  /** `{ ...set, ...setData }`: the present keys overwrite. */
  function ApplySetData(s: SetProgress, d: SetData): SetProgress
  {
    s.(actualReps := Over(s.actualReps, d.actualReps),
       actualWeightKg := Over(s.actualWeightKg, d.actualWeightKg),
       actualDistanceMeters := Over(s.actualDistanceMeters, d.actualDistanceMeters),
       actualDurationSeconds := Over(s.actualDurationSeconds, d.actualDurationSeconds),
       actualRestSeconds := Over(s.actualRestSeconds, d.actualRestSeconds),
       notes := Over(s.notes, d.notes),
       rpe := Over(s.rpe, d.rpe))
  }

  function PatchTimer(t: Timer, p: TimerPatch): Timer
  {
    t.(kind := Over(Some(t.kind), p.kind).value,
       mode := Over(Some(t.mode), p.mode).value,
       isRunning := Over(Some(t.isRunning), p.isRunning).value,
       isPaused := Over(Some(t.isPaused), p.isPaused).value,
       totalPausedTime := Over(Some(t.totalPausedTime), p.totalPausedTime).value,
       currentTime := Over(Some(t.currentTime), p.currentTime).value)
  }

  /** An exercise once started: in progress from `now`. */
  function Started(e: ExerciseProgress, now: int): ExerciseProgress
  {
    e.(status := InProgress, startTime := Some(now))
  }

  /** An exercise once completed: its time runs from its start, or is 0 if it never started. */
  function Finished(e: ExerciseProgress, now: int): ExerciseProgress
  {
    e.(status := Completed, endTime := Some(now),
       totalTime := if e.startTime.Some? then now - e.startTime.value else 0)
  }

  function Skip(e: ExerciseProgress, now: int): ExerciseProgress
  {
    e.(status := Skipped, endTime := Some(now))
  }

  function SetStarted(s: SetProgress, now: int): SetProgress
  {
    s.(status := InProgress, startTime := Some(now))
  }

  function SetFinished(s: SetProgress, d: SetData, now: int): SetProgress
  {
    ApplySetData(s, d).(status := Completed, endTime := Some(now))
  }

  /** Set `setNumber` of an exercise rewritten by `f`, if the exercise has it. */
  function OnSet(e: ExerciseProgress, setNumber: int, f: SetProgress -> SetProgress): ExerciseProgress
  {
    e.(sets := Lists.UpdateAt(e.sets, setNumber - 1, f))
  }

  /** START/COMPLETE/SKIP_EXERCISE on a copy of the progress: slot `i` rewritten, if it exists. */
  function StartExerciseIn(ps: seq<ExerciseProgress>, i: int, now: int): seq<ExerciseProgress>
  {
    Lists.UpdateAt(ps, i, e => Started(e, now))
  }

  function CompleteExerciseIn(ps: seq<ExerciseProgress>, i: int, now: int): seq<ExerciseProgress>
  {
    Lists.UpdateAt(ps, i, e => Finished(e, now))
  }

  function SkipExerciseIn(ps: seq<ExerciseProgress>, i: int, now: int): seq<ExerciseProgress>
  {
    Lists.UpdateAt(ps, i, e => Skip(e, now))
  }

  /** START/COMPLETE_SET on a copy of the progress: set `setNumber` of exercise `i` rewritten, if both exist. */
  function StartSetIn(ps: seq<ExerciseProgress>, i: int, setNumber: int, now: int): seq<ExerciseProgress>
  {
    Lists.UpdateAt(ps, i, e => OnSet(e, setNumber, x => SetStarted(x, now)))
  }

  function CompleteSetIn(ps: seq<ExerciseProgress>, i: int, setNumber: int, d: SetData, now: int): seq<ExerciseProgress>
  {
    Lists.UpdateAt(ps, i, e => OnSet(e, setNumber, x => SetFinished(x, d, now)))
  }

  /** The session with new progress, stamped at `now`. */
  function Touch(s: Session, progress: seq<ExerciseProgress>, now: int): Session
  {
    s.(exerciseProgress := progress, updatedAt := now)
  }

  /** The store holding `s` as its session, with the statistics recomputed. */
  function Holding(st: State, s: Session): State
  {
    st.(currentSession := Some(s), stats := Some(CalculateStats(s)))
  }

  /** The paused span `RESUME_SESSION` adds: since the pause mark, or nothing without one. */
  function PausedDuration(t: Timer, now: int): int
  {
    if t.pausedAt.Some? then now - t.pausedAt.value else 0
  }

  /** `sessionReducer`: one action applied to the store at time `now`. */
  function Reduce(st: State, a: Action, now: int): State
  {
    var s := st.currentSession;
    match a
    case StartSession(_, _, _, _, _) =>
      Holding(st, NewSession(a, now)).(
        isSessionActive := true,
        timer := st.timer.(kind := TotalTimer, mode := Stopwatch, isRunning := true, isPaused := false,
                           startTime := Some(now), currentTime := 0))
    case PauseSession =>
      if s.None? then st
      else Holding(st, s.value.(sessionStatus := SessionPaused, updatedAt := now)).(
             timer := st.timer.(isRunning := false, isPaused := true, pausedAt := Some(now)))
    case ResumeSession =>
      if s.None? then st
      else Holding(st, s.value.(sessionStatus := SessionActive, updatedAt := now)).(
             timer := st.timer.(isRunning := true, isPaused := false, pausedAt := None,
                                totalPausedTime := st.timer.totalPausedTime + PausedDuration(st.timer, now)))
    case EndSession =>
      if s.None? then st
      else Holding(st, s.value.(sessionStatus := SessionCompleted, endTime := Some(now), updatedAt := now)).(
             isSessionActive := false, timer := st.timer.(isRunning := false, isPaused := false))
    case AbandonSession =>
      if s.None? then st
      else Holding(st, s.value.(sessionStatus := SessionAbandoned, endTime := Some(now), updatedAt := now)).(
             isSessionActive := false, timer := InitialTimer)
    case StartExercise(i) =>
      if s.None? then st
      else Holding(st, Touch(s.value, StartExerciseIn(s.value.exerciseProgress, i, now), now).(currentExerciseIndex := i))
    case CompleteExercise(i) =>
      if s.None? then st
      else Holding(st, Touch(s.value, CompleteExerciseIn(s.value.exerciseProgress, i, now), now))
    case SkipExercise(i) =>
      if s.None? then st
      else Holding(st, Touch(s.value, SkipExerciseIn(s.value.exerciseProgress, i, now), now))
    case StartSet(i, n) =>
      if s.None? then st
      else Holding(st, Touch(s.value, StartSetIn(s.value.exerciseProgress, i, n, now), now))
    case CompleteSet(i, n, d) =>
      if s.None? then st
      else Holding(st, Touch(s.value, CompleteSetIn(s.value.exerciseProgress, i, n, d, now), now))
    case UpdateTimer(p) => st.(timer := PatchTimer(st.timer, p))
    case UpdateWorkoutTypeProgress(u) =>
      if s.None? then st
      else Holding(st, s.value.(workoutTypeProgress := MergeProgress(s.value.workoutTypeProgress, u), updatedAt := now))
    case LoadSession(loaded) => Holding(st, loaded).(isSessionActive := loaded.sessionStatus == SessionActive)
    case ClearSession => st.(currentSession := None, isSessionActive := false, timer := InitialTimer, stats := None)
  }

  /** The provider's once-a-second tick: the running time since the start, paused time taken off. */
  function Tick(t: Timer, now: int): (r: Option<TimerPatch>)
    ensures r.Some? <==> t.isRunning && t.startTime.Some?
    ensures r.Some? ==> PatchTimer(t, r.value) == t.(currentTime := now - t.startTime.value - t.totalPausedTime)
  {
    if t.isRunning && t.startTime.Some? then
      Some(TimerPatch(None, None, None, None, None, Some(now - t.startTime.value - t.totalPausedTime)))
    else None
  }

  // ---------------------------------------------------------------- properties

  /** Without a session, every action that needs one leaves the store as it is. */
  lemma NoSessionNoChange(st: State, a: Action, now: int)
    requires st.currentSession.None? && NeedsSession(a)
    ensures Reduce(st, a, now) == st
  {
  }

  /**
   * The store stays consistent: the statistics are always those of the
   * current session (none without one), and an active store has a session.
   */
  predicate Consistent(st: State)
  {
    (st.currentSession.Some? ==> st.stats == Some(CalculateStats(st.currentSession.value)))
    && (st.currentSession.None? ==> st.stats.None?)
    && (st.isSessionActive ==> st.currentSession.Some?)
  }

  lemma ReduceKeepsConsistent(st: State, a: Action, now: int)
    requires Consistent(st)
    ensures Consistent(Reduce(st, a, now))
  {
  }

  lemma InitialIsConsistent()
    ensures Consistent(Initial) && !Initial.isSessionActive && !Initial.timer.isRunning
  {
  }

  /** A new session's statistics: all its exercises and sets, none of them done. */
  lemma NewSessionStats(a: Action, now: int)
    requires a.StartSession?
    ensures var ps := NewSession(a, now).exerciseProgress;
      CalculateStats(NewSession(a, now)) == Stats(|a.exercises|, 0, 0, Lists.Sum(SetCounts(ps)), 0, 0)
  {
    var s := NewSession(a, now);
    NoCompletedSetNoVolume(s);
    Lists.FilterNone(s.exerciseProgress, ExerciseHas(Completed));
    Lists.FilterNone(s.exerciseProgress, ExerciseHas(Skipped));
  }

  /** A started session is active, running its timer from `now`, with nothing done yet. */
  lemma StartSessionStarts(st: State, a: Action, now: int)
    requires a.StartSession?
    ensures var r := Reduce(st, a, now);
      r.isSessionActive && r.currentSession == Some(NewSession(a, now))
      && r.timer.isRunning && !r.timer.isPaused && r.timer.startTime == Some(now) && r.timer.currentTime == 0
      && r.stats.Some? && r.stats.value.completedExercises == 0 && r.stats.value.skippedExercises == 0
      && r.stats.value.completedSets == 0 && r.stats.value.totalVolume == 0
      && r.stats.value.totalExercises == |a.exercises|
  {
    NewSessionStats(a, now);
  }

  /**
   * A new session keeps the timer's paused time and pause mark from before:
   * only the start, the running flags and the current time are reset.
   */
  lemma StartKeepsEarlierPausedTime(st: State, a: Action, now: int)
    requires a.StartSession?
    ensures var t := Reduce(st, a, now).timer;
      t.totalPausedTime == st.timer.totalPausedTime && t.pausedAt == st.timer.pausedAt
      && t.targetDuration == st.timer.targetDuration
  {
  }

  /** Pausing marks the session paused and stops the timer at `now`; the progress is kept. */
  lemma PauseEffect(st: State, now: int)
    requires st.currentSession.Some?
    ensures var r := Reduce(st, PauseSession, now);
      r.currentSession == Some(st.currentSession.value.(sessionStatus := SessionPaused, updatedAt := now))
      && !r.timer.isRunning && r.timer.isPaused && r.timer.pausedAt == Some(now)
      && r.timer.totalPausedTime == st.timer.totalPausedTime && r.isSessionActive == st.isSessionActive
  {
  }

  /** Resuming makes the session active and adds the time since the pause mark to the paused time. */
  lemma ResumeEffect(st: State, now: int)
    requires st.currentSession.Some?
    ensures var r := Reduce(st, ResumeSession, now);
      r.currentSession == Some(st.currentSession.value.(sessionStatus := SessionActive, updatedAt := now))
      && r.timer.isRunning && !r.timer.isPaused && r.timer.pausedAt.None?
      && (st.timer.pausedAt.Some? ==> r.timer.totalPausedTime == st.timer.totalPausedTime + now - st.timer.pausedAt.value)
      && (st.timer.pausedAt.None? ==> r.timer.totalPausedTime == st.timer.totalPausedTime)
  {
  }

  /**
   * A pause from `p` to `q` takes exactly `q − p` off the running time: the
   * next tick reports the time since the start less that span.
   */
  lemma PauseResumeTick(st: State, p: int, q: int, now: int)
    requires st.currentSession.Some? && st.timer.startTime.Some?
    ensures var r := Reduce(Reduce(st, PauseSession, p), ResumeSession, q);
      r.currentSession.value.sessionStatus == SessionActive
      && r.currentSession.value.exerciseProgress == st.currentSession.value.exerciseProgress
      && Tick(r.timer, now).Some?
      && PatchTimer(r.timer, Tick(r.timer, now).value).currentTime
         == now - st.timer.startTime.value - st.timer.totalPausedTime - (q - p)
  {
  }

  /** Ending completes the session at `now`; abandoning marks it abandoned and resets the timer. Both leave no session active. */
  lemma EndAndAbandonEffects(st: State, now: int)
    requires st.currentSession.Some?
    ensures var r := Reduce(st, EndSession, now);
      !r.isSessionActive && r.currentSession.value.sessionStatus == SessionCompleted
      && r.currentSession.value.endTime == Some(now) && !r.timer.isRunning && !r.timer.isPaused
      && r.currentSession.value.exerciseProgress == st.currentSession.value.exerciseProgress
    ensures var r := Reduce(st, AbandonSession, now);
      !r.isSessionActive && r.currentSession.value.sessionStatus == SessionAbandoned
      && r.currentSession.value.endTime == Some(now) && r.timer == InitialTimer
      && r.currentSession.value.exerciseProgress == st.currentSession.value.exerciseProgress
  {
    var s := st.currentSession.value;
    assert Reduce(st, EndSession, now)
      == Holding(st, s.(sessionStatus := SessionCompleted, endTime := Some(now), updatedAt := now)).(
           isSessionActive := false, timer := st.timer.(isRunning := false, isPaused := false));
    assert Reduce(st, AbandonSession, now)
      == Holding(st, s.(sessionStatus := SessionAbandoned, endTime := Some(now), updatedAt := now)).(
           isSessionActive := false, timer := InitialTimer);
  }

  /** The exercise actions, each with the change it makes to its exercise. */
  predicate ExerciseAction(a: Action)
  {
    a.StartExercise? || a.CompleteExercise? || a.SkipExercise?
  }

  /**
   * An exercise action touches only the addressed exercise: the others are
   * unchanged, and an index outside the list changes no progress at all
   * (though starting still moves `currentExerciseIndex` there).
   */
  lemma ExerciseActionsTouchOnlyTheirExercise(st: State, a: Action, now: int)
    requires st.currentSession.Some? && ExerciseAction(a)
    ensures var before, after := st.currentSession.value, Reduce(st, a, now).currentSession.value;
      var i := a.exerciseIndex;
      |after.exerciseProgress| == |before.exerciseProgress|
      && (forall j :: 0 <= j < |before.exerciseProgress| && j != i ==>
            after.exerciseProgress[j] == before.exerciseProgress[j])
      && (0 <= i < |before.exerciseProgress| ==>
            after.exerciseProgress[i] ==
              if a.StartExercise? then Started(before.exerciseProgress[i], now)
              else if a.CompleteExercise? then Finished(before.exerciseProgress[i], now)
              else Skip(before.exerciseProgress[i], now))
      && (!(0 <= i < |before.exerciseProgress|) ==> after.exerciseProgress == before.exerciseProgress)
      && (a.StartExercise? ==> after.currentExerciseIndex == i)
      && (!a.StartExercise? ==> after.currentExerciseIndex == before.currentExerciseIndex)
  {
    var s := st.currentSession.value;
    match a
    case StartExercise(i) =>
      assert Reduce(st, a, now).currentSession.value
        == Touch(s, StartExerciseIn(s.exerciseProgress, i, now), now).(currentExerciseIndex := i);
    case CompleteExercise(i) =>
      assert Reduce(st, a, now).currentSession.value == Touch(s, CompleteExerciseIn(s.exerciseProgress, i, now), now);
    case SkipExercise(i) =>
      assert Reduce(st, a, now).currentSession.value == Touch(s, SkipExerciseIn(s.exerciseProgress, i, now), now);
  }

  /** A completed exercise's time is the span from its start, or 0 if it was never started. */
  lemma CompletedExerciseTime(e: ExerciseProgress, now: int)
    ensures Finished(e, now).status == Completed && Finished(e, now).endTime == Some(now)
    ensures e.startTime.Some? ==> Finished(e, now).totalTime == now - e.startTime.value
    ensures e.startTime.None? ==> Finished(e, now).totalTime == 0
  {
  }

  /** What a set action promises about set `setNumber` of exercise `i`, given what it does to that set. */
  ghost predicate OnlyThatSet(before: seq<ExerciseProgress>, after: seq<ExerciseProgress>, i: int, setNumber: int,
                              f: SetProgress -> SetProgress)
  {
    var k := setNumber - 1;
    |after| == |before|
    && (forall j :: 0 <= j < |before| && j != i ==> after[j] == before[j])
    && (0 <= i < |before| ==>
          after[i].(sets := before[i].sets) == before[i] && |after[i].sets| == |before[i].sets|
          && (forall j :: 0 <= j < |before[i].sets| && j != k ==> after[i].sets[j] == before[i].sets[j])
          && (0 <= k < |before[i].sets| ==> after[i].sets[k] == f(before[i].sets[k]))
          && (!(0 <= k < |before[i].sets|) ==> after[i] == before[i]))
    && (!(0 <= i < |before|) ==> after == before)
  }

  /**
   * START_SET touches only set `setNumber` (index `setNumber − 1`) of the
   * addressed exercise; any other exercise, any other set and every other
   * field are kept, and a set or exercise that does not exist changes nothing.
   */
  lemma StartSetTouchesOnlyItsSet(ps: seq<ExerciseProgress>, i: int, setNumber: int, now: int)
    ensures OnlyThatSet(ps, StartSetIn(ps, i, setNumber, now), i, setNumber, x => SetStarted(x, now))
  {
    var after := StartSetIn(ps, i, setNumber, now);
    if 0 <= i < |ps| && !(0 <= setNumber - 1 < |ps[i].sets|) {
      assert after[i].sets == ps[i].sets;
    }
  }

  /** COMPLETE_SET likewise: only set `setNumber` of exercise `i`, merged with the given values and completed. */
  lemma CompleteSetTouchesOnlyItsSet(ps: seq<ExerciseProgress>, i: int, setNumber: int, d: SetData, now: int)
    ensures OnlyThatSet(ps, CompleteSetIn(ps, i, setNumber, d, now), i, setNumber, x => SetFinished(x, d, now))
  {
    var after := CompleteSetIn(ps, i, setNumber, d, now);
    if 0 <= i < |ps| && !(0 <= setNumber - 1 < |ps[i].sets|) {
      assert after[i].sets == ps[i].sets;
    }
  }

  /** The reducer's set actions are those updates of the current session's progress. */
  lemma SetActionsUpdateProgress(st: State, a: Action, now: int)
    requires st.currentSession.Some? && (a.StartSet? || a.CompleteSet?)
    ensures var ps := st.currentSession.value.exerciseProgress;
      var r := Reduce(st, a, now).currentSession.value;
      r == st.currentSession.value.(exerciseProgress := r.exerciseProgress, updatedAt := now)
      && r.exerciseProgress ==
           if a.StartSet? then StartSetIn(ps, a.exerciseIndex, a.setNumber, now)
           else CompleteSetIn(ps, a.exerciseIndex, a.setNumber, a.setData, now)
  {
  }

  /** Completing a set keeps the values it is not given and marks it completed at `now`. */
  lemma CompletedSetKeepsMissingValues(s: SetProgress, d: SetData, now: int)
    ensures var r := SetFinished(s, d, now);
      r.status == Completed && r.endTime == Some(now) && r.setNumber == s.setNumber && r.startTime == s.startTime
      && r.actualReps == (if d.actualReps.Some? then d.actualReps else s.actualReps)
      && r.actualWeightKg == (if d.actualWeightKg.Some? then d.actualWeightKg else s.actualWeightKg)
      && (d == SetData(None, None, None, None, None, None, None) ==> r == s.(status := Completed, endTime := Some(now)))
  {
  }

  /** Loading a session makes the store active exactly when that session is. */
  lemma LoadSessionActiveIff(st: State, s: Session, now: int)
    ensures var r := Reduce(st, LoadSession(s), now);
      r.currentSession == Some(s) && (r.isSessionActive <==> s.sessionStatus == SessionActive)
      && r.timer == st.timer
  {
  }

  /** Clearing goes back to the initial store. */
  lemma ClearSessionResets(st: State, now: int)
    ensures Reduce(st, ClearSession, now) == Initial
  {
  }
}
