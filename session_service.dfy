/**
 * The server's workout session service: sessions stored with their exercise
 * and set progress rows, the guarded session, exercise and set transitions,
 * paused-time accounting, the result created on completion, and the cleanup
 * of stale sessions. The database is a sequence of session records kept in
 * insertion order; the clock is a whole number of seconds passed in as `now`.
 */
module SessionService {
  import opened Wrappers
  import Lists
  import Text
  import SessionContext

  datatype SessionStatus = SessionNotStarted | Active | Paused | SessionCompleted | Abandoned

  /** The status of an exercise row or a set row. */
  datatype Status = NotStarted | InProgress | Completed | Skipped

  datatype SetRow = SetRow(
    setNumber: int,
    status: Status,
    startTime: Option<int>,
    endTime: Option<int>,
    actualReps: Option<int>,
    actualWeightKg: Option<int>,
    actualDistanceMeters: Option<int>,
    actualDurationSeconds: Option<int>,
    restStartTime: Option<int>,
    restEndTime: Option<int>,
    actualRestSeconds: Option<int>,
    notes: Option<string>,
    rpe: Option<int>)

  datatype ExerciseRow = ExerciseRow(
    exerciseId: int,
    orderInWorkout: int,
    status: Status,
    startTime: Option<int>,
    endTime: Option<int>,
    totalTimeSeconds: int,
    notes: Option<string>,
    plannedSets: Option<int>,
    plannedReps: Option<int>,
    plannedWeightKg: Option<int>,
    plannedDistanceMeters: Option<int>,
    plannedDurationSeconds: Option<int>,
    plannedRestSeconds: Option<int>,
    sets: seq<SetRow>)

  datatype Session = Session(
    id: string,
    workoutId: int,
    memberId: int,
    status: SessionStatus,
    startTime: Option<int>,
    endTime: Option<int>,
    pausedAt: Option<int>,
    totalPausedTimeSeconds: int,
    currentExerciseIndex: int,
    createdDate: int,
    modifiedDate: Option<int>,
    exerciseProgress: seq<ExerciseRow>)

  /** One planned exercise of a `CreateWorkoutSessionDto`. */
  datatype PlannedDto = PlannedDto(
    exerciseId: int,
    orderInWorkout: int,
    plannedSets: Option<int>,
    plannedReps: Option<int>,
    plannedWeightKg: Option<int>,
    plannedDistanceMeters: Option<int>,
    plannedDurationSeconds: Option<int>,
    plannedRestSeconds: Option<int>)

  datatype StartDto = StartDto(id: string, workoutId: int, exerciseProgress: seq<PlannedDto>)

  /** `UpdateSessionSetProgressDto`: the status always maps; a `null` value leaves its field alone. */
  datatype SetDto = SetDto(
    status: Status,
    startTime: Option<int>,
    endTime: Option<int>,
    actualReps: Option<int>,
    actualWeightKg: Option<int>,
    actualDistanceMeters: Option<int>,
    actualDurationSeconds: Option<int>,
    restStartTime: Option<int>,
    restEndTime: Option<int>,
    actualRestSeconds: Option<int>,
    notes: Option<string>,
    rpe: Option<int>)

  /** `UpdateSessionExerciseProgressDto`, mapped the same way. */
  datatype ProgressDto = ProgressDto(status: Status, startTime: Option<int>, endTime: Option<int>, notes: Option<string>)

  /** The workout result handed to the workout service when a session completes. */
  datatype NewResult = NewResult(workoutId: int, result: string, duration: int)

  datatype StartError = NotAuthenticated | AlreadyActive | WorkoutNotFound | DuplicateId

  datatype CompleteError = SessionNotFound | NotOwner | NoStartTime

  /** The store after an operation, and what the operation answers. */
  datatype Step<T> = Step(store: seq<Session>, answer: T)

  // ---------------------------------------------------------------- the store's rules

  /** Active or paused: the session is still under way. */
  predicate Live(s: Session)
  {
    s.status == Active || s.status == Paused
  }

  predicate HasLive(store: seq<Session>, memberId: int)
  {
    exists j :: 0 <= j < |store| && store[j].memberId == memberId && Live(store[j])
  }

  /** No two sessions share an id, and no member has two sessions under way. */
  predicate Valid(store: seq<Session>)
  {
    (forall i, j :: 0 <= i < j < |store| ==> store[i].id != store[j].id)
    && (forall i, j :: 0 <= i < j < |store| && Live(store[i]) && Live(store[j]) ==> store[i].memberId != store[j].memberId)
  }

  function WithId(id: string): Session -> bool
  {
    (s: Session) => s.id == id
  }

  /** The session with that id, if stored. */
  function Find(store: seq<Session>, id: string): (r: Option<nat>)
    ensures r.Some? ==> r.value < |store| && store[r.value].id == id
    ensures r.None? ==> forall j :: 0 <= j < |store| ==> store[j].id != id
  {
    Lists.FirstIndex(store, WithId(id))
  }

  /** Replacing a session by one with the same id and owner that is under way only if it was keeps the store valid. */
  lemma ReplaceKeepsValid(store: seq<Session>, i: nat, s: Session)
    requires Valid(store) && i < |store|
    requires s.id == store[i].id && s.memberId == store[i].memberId && (Live(s) ==> Live(store[i]))
    ensures Valid(store[i := s])
  {
  }

  // ---------------------------------------------------------------- starting

  /** `PlannedSets ?? 1` as the bound of `for (i = 1; i <= setCount; i++)`: zero or a negative count makes no sets. */
  function ServerSetCount(plannedSets: Option<int>): (k: nat)
    ensures plannedSets.None? ==> k == 1
    ensures plannedSets.Some? && plannedSets.value >= 0 ==> k == plannedSets.value
    ensures plannedSets.Some? && plannedSets.value < 0 ==> k == 0
  {
    var wanted := if plannedSets.Some? then plannedSets.value else 1;
    if wanted < 0 then 0 else wanted
  }

  /**
   * The server and the client build the same number of sets except for a
   * planned count of 0, where the server makes none and the client one.
   */
  lemma SetCountsAgreeExceptZero(plannedSets: Option<int>)
    ensures ServerSetCount(plannedSets) == SessionContext.SetCount(plannedSets) <==> plannedSets != Some(0)
  {
  }

  function NewSetRow(setNumber: int): SetRow
  {
    SetRow(setNumber, NotStarted, None, None, None, None, None, None, None, None, None, None, None)
  }

  /** The progress row of one planned exercise, not started, with sets numbered 1..k. */
  function NewExerciseRow(d: PlannedDto): (r: ExerciseRow)
    ensures r.exerciseId == d.exerciseId && r.orderInWorkout == d.orderInWorkout && r.status == NotStarted
    ensures r.plannedSets == d.plannedSets && |r.sets| == ServerSetCount(d.plannedSets)
    ensures forall j :: 0 <= j < |r.sets| ==> r.sets[j] == NewSetRow(j + 1)
  {
    ExerciseRow(d.exerciseId, d.orderInWorkout, NotStarted, None, None, 0, None,
                d.plannedSets, d.plannedReps, d.plannedWeightKg, d.plannedDistanceMeters,
                d.plannedDurationSeconds, d.plannedRestSeconds,
                seq(ServerSetCount(d.plannedSets), j requires 0 <= j => NewSetRow(j + 1)))
  }

  function NewRows(dtos: seq<PlannedDto>): (r: seq<ExerciseRow>)
    ensures |r| == |dtos| && forall j :: 0 <= j < |dtos| ==> r[j] == NewExerciseRow(dtos[j])
  {
    seq(|dtos|, j requires 0 <= j < |dtos| => NewExerciseRow(dtos[j]))
  }

  function NewSession(dto: StartDto, memberId: int, now: int): Session
  {
    Session(dto.id, dto.workoutId, memberId, Active, Some(now), None, None, 0, 0, now, None, NewRows(dto.exerciseProgress))
  }

  /**
   * `StartSession`: refused for an anonymous caller, for a member with a
   * session under way, for an unknown workout, and (by the store's key) for
   * an id already stored; otherwise a new active session is added.
   */
  function StartSession(store: seq<Session>, workouts: set<int>, memberId: int, dto: StartDto, now: int)
    : (r: Step<Result<string, StartError>>)
    ensures r.answer.Err? ==> r.store == store
    ensures r.answer == Err(NotAuthenticated) <==> memberId == 0
    ensures r.answer == Err(AlreadyActive) <==> memberId != 0 && HasLive(store, memberId)
    ensures r.answer.Ok? <==>
      memberId != 0 && !HasLive(store, memberId) && dto.workoutId in workouts && Find(store, dto.id).None?
    ensures r.answer.Ok? ==> r.answer.value == dto.id && r.store == store + [NewSession(dto, memberId, now)]
  {
    if memberId == 0 then Step(store, Err(NotAuthenticated))
    else if HasLive(store, memberId) then Step(store, Err(AlreadyActive))
    else if dto.workoutId !in workouts then Step(store, Err(WorkoutNotFound))
    else if Find(store, dto.id).Some? then Step(store, Err(DuplicateId))
    else Step(store + [NewSession(dto, memberId, now)], Ok(dto.id))
  }

  /** Starting keeps the store valid, and leaves the member exactly one session under way. */
  lemma StartKeepsValid(store: seq<Session>, workouts: set<int>, memberId: int, dto: StartDto, now: int)
    requires Valid(store)
    ensures var r := StartSession(store, workouts, memberId, dto, now);
      Valid(r.store) && (r.answer.Ok? ==> HasLive(r.store, memberId))
  {
    var r := StartSession(store, workouts, memberId, dto, now);
    if r.answer.Ok? {
      var s := NewSession(dto, memberId, now);
      assert r.store[|store|] == s && Live(s);
    }
  }

  /** Right after a successful start, a second start by the same member is refused. */
  lemma SecondStartRefused(store: seq<Session>, workouts: set<int>, memberId: int, dto: StartDto, dto2: StartDto, now: int, later: int)
    requires StartSession(store, workouts, memberId, dto, now).answer.Ok?
    ensures var after := StartSession(store, workouts, memberId, dto, now).store;
      StartSession(after, workouts, memberId, dto2, later) == Step(after, Err(AlreadyActive))
  {
    var after := StartSession(store, workouts, memberId, dto, now).store;
    assert after[|store|].memberId == memberId && Live(after[|store|]);
  }

  // ---------------------------------------------------------------- pause, resume, abandon

  /** `PauseSession`: only an active session pauses, marked at `now`. */
  function PauseSession(store: seq<Session>, id: string, now: int): (r: Step<bool>)
    ensures r.answer <==> Find(store, id).Some? && store[Find(store, id).value].status == Active
    ensures !r.answer ==> r.store == store
    ensures r.answer ==>
      var i := Find(store, id).value;
      r.store == store[i := store[i].(status := Paused, pausedAt := Some(now), modifiedDate := Some(now))]
  {
    var i := Find(store, id);
    if i.None? || store[i.value].status != Active then Step(store, false)
    else Step(store[i.value := store[i.value].(status := Paused, pausedAt := Some(now), modifiedDate := Some(now))], true)
  }

  /** The seconds a resume adds: since the pause mark, or none without one. */
  function PausedSeconds(s: Session, now: int): int
  {
    if s.pausedAt.Some? then now - s.pausedAt.value else 0
  }

  /** `ResumeSession`: only a paused session resumes; the time since the pause mark joins the paused total. */
  function ResumeSession(store: seq<Session>, id: string, now: int): (r: Step<bool>)
    ensures r.answer <==> Find(store, id).Some? && store[Find(store, id).value].status == Paused
    ensures !r.answer ==> r.store == store
    ensures r.answer ==>
      var i := Find(store, id).value;
      r.store == store[i := store[i].(status := Active, pausedAt := None, modifiedDate := Some(now),
                                      totalPausedTimeSeconds := store[i].totalPausedTimeSeconds + PausedSeconds(store[i], now))]
  {
    var i := Find(store, id);
    if i.None? || store[i.value].status != Paused then Step(store, false)
    else
      var s := store[i.value];
      Step(store[i.value := s.(status := Active, pausedAt := None, modifiedDate := Some(now),
                               totalPausedTimeSeconds := s.totalPausedTimeSeconds + PausedSeconds(s, now))], true)
  }

  /** `AbandonSession`: any stored session, whatever its status, is abandoned at `now`. */
  function AbandonSession(store: seq<Session>, id: string, now: int): (r: Step<bool>)
    ensures r.answer <==> Find(store, id).Some?
    ensures !r.answer ==> r.store == store
    ensures r.answer ==>
      var i := Find(store, id).value;
      r.store == store[i := Ended(store[i], Abandoned, now)]
  {
    var i := Find(store, id);
    if i.None? then Step(store, false)
    else Step(store[i.value := Ended(store[i.value], Abandoned, now)], true)
  }

  /** A session closed with `status` at `now`. */
  function Ended(s: Session, status: SessionStatus, now: int): Session
  {
    s.(status := status, endTime := Some(now), modifiedDate := Some(now))
  }

  lemma PauseResumeAbandonKeepValid(store: seq<Session>, id: string, now: int)
    requires Valid(store)
    ensures Valid(PauseSession(store, id, now).store)
    ensures Valid(ResumeSession(store, id, now).store)
    ensures Valid(AbandonSession(store, id, now).store)
  {
    var i := Find(store, id);
    if i.Some? {
      var s := store[i.value];
      if s.status == Active {
        ReplaceKeepsValid(store, i.value, s.(status := Paused, pausedAt := Some(now), modifiedDate := Some(now)));
      }
      if s.status == Paused {
        ReplaceKeepsValid(store, i.value, s.(status := Active, pausedAt := None, modifiedDate := Some(now),
                                             totalPausedTimeSeconds := s.totalPausedTimeSeconds + PausedSeconds(s, now)));
      }
      ReplaceKeepsValid(store, i.value, Ended(s, Abandoned, now));
    }
  }

  /**
   * Pausing an active session at `p` and resuming it at `q` adds exactly
   * `q − p` to its paused total and leaves it active again, unmarked.
   */
  lemma PauseThenResume(store: seq<Session>, id: string, p: int, q: int)
    requires Find(store, id).Some? && store[Find(store, id).value].status == Active
    ensures var paused := PauseSession(store, id, p);
      var resumed := ResumeSession(paused.store, id, q);
      var i := Find(store, id).value;
      paused.answer && resumed.answer && |resumed.store| == |store|
      && resumed.store[i].status == Active && resumed.store[i].pausedAt.None?
      && resumed.store[i].totalPausedTimeSeconds == store[i].totalPausedTimeSeconds + (q - p)
      && resumed.store[i].exerciseProgress == store[i].exerciseProgress
  {
    var i := Find(store, id).value;
    var paused := PauseSession(store, id, p);
    assert Find(paused.store, id) == Find(store, id) by {
      assert forall j :: 0 <= j < |store| ==> paused.store[j].id == store[j].id;
      FindSameIds(store, paused.store, id);
    }
  }

  /** Stores whose sessions have the same ids, in the same order, find the same session. */
  lemma FindSameIds(a: seq<Session>, b: seq<Session>, id: string)
    requires |a| == |b| && forall j :: 0 <= j < |a| ==> a[j].id == b[j].id
    ensures Find(a, id) == Find(b, id)
  {
    var fa, fb := Find(a, id), Find(b, id);
    if fa.Some? && fb.Some? {
      FirstIsFirst(a, id, fa.value, fb.value);
      FirstIsFirst(b, id, fb.value, fa.value);
    }
  }

  lemma FirstIsFirst(s: seq<Session>, id: string, i: nat, j: nat)
    requires Find(s, id) == Some(i) && j < |s| && s[j].id == id
    ensures i <= j
  {
  }

  // ---------------------------------------------------------------- completing

  /** `CalculateWorkoutResult`: completed exercises (skipped ones do not count) out of all of them. */
  function CompletedCount(rows: seq<ExerciseRow>): (n: nat)
    ensures n <= |rows|
  {
    |Lists.Filter(rows, RowHas(Completed))|
  }

  function RowHas(status: Status): ExerciseRow -> bool
  {
    (e: ExerciseRow) => e.status == status
  }

  /**
   * `CalculateWorkoutResult`: "c/n exercises completed". Both numbers read
   * back from the text, and the first never exceeds the second.
   */
  function CalculateWorkoutResult(s: Session): (r: string)
    ensures var a, b := |Text.NatToString(CompletedCount(s.exerciseProgress))|, |Text.NatToString(|s.exerciseProgress|)|;
      && |r| == a + b + 21 && r[a] == '/' && r[a + b + 1..] == " exercises completed"
      && Text.AllDigits(r[..a]) && Text.AllDigits(r[a + 1..a + b + 1])
      && Text.ParseNat(r[..a]) == CompletedCount(s.exerciseProgress)
      && Text.ParseNat(r[a + 1..a + b + 1]) == |s.exerciseProgress|
      && Text.ParseNat(r[..a]) <= Text.ParseNat(r[a + 1..a + b + 1])
  {
    var done, all := Text.NatToString(CompletedCount(s.exerciseProgress)), Text.NatToString(|s.exerciseProgress|);
    var r := done + "/" + all + " exercises completed";
    assert r[..|done|] == done;
    assert r[|done| + 1..|done| + |all| + 1] == all;
    Text.ParseNatToString(CompletedCount(s.exerciseProgress));
    Text.ParseNatToString(|s.exerciseProgress|);
    r
  }

  /**
   * `CompleteSession`: refused for an unknown session or another member's;
   * otherwise it is completed at `now` and its result records the time from
   * its start less the paused seconds.
   */
  function CompleteSession(store: seq<Session>, id: string, memberId: int, now: int): (r: Step<Result<NewResult, CompleteError>>)
    ensures r.answer.Err? ==> r.store == store
    ensures r.answer == Err(SessionNotFound) <==> Find(store, id).None?
    ensures r.answer == Err(NotOwner) <==> Find(store, id).Some? && store[Find(store, id).value].memberId != memberId
    ensures r.answer.Ok? ==>
      var i := Find(store, id).value;
      store[i].memberId == memberId && store[i].startTime.Some?
      && r.store == store[i := Ended(store[i], SessionCompleted, now)]
      && r.answer.value == NewResult(store[i].workoutId, CalculateWorkoutResult(store[i]),
                                     (now - store[i].startTime.value) - store[i].totalPausedTimeSeconds)
  {
    var i := Find(store, id);
    if i.None? then Step(store, Err(SessionNotFound))
    else
      var s := store[i.value];
      if s.memberId != memberId then Step(store, Err(NotOwner))
      else if s.startTime.None? then Step(store, Err(NoStartTime))
      else
        var done := Ended(s, SessionCompleted, now);
        Step(store[i.value := done],
             Ok(NewResult(s.workoutId, CalculateWorkoutResult(done), (now - s.startTime.value) - s.totalPausedTimeSeconds)))
  }

  lemma CompleteKeepsValid(store: seq<Session>, id: string, memberId: int, now: int)
    requires Valid(store)
    ensures Valid(CompleteSession(store, id, memberId, now).store)
  {
    var i := Find(store, id);
    if i.Some? {
      ReplaceKeepsValid(store, i.value, Ended(store[i.value], SessionCompleted, now));
    }
  }

  /**
   * Completion does not look at the status: a session already completed or
   * abandoned completes again, and hands on one more result.
   */
  lemma CompleteIgnoresStatus(store: seq<Session>, id: string, memberId: int, now: int, later: int)
    requires Find(store, id).Some? && store[Find(store, id).value].memberId == memberId
    requires store[Find(store, id).value].startTime.Some?
    ensures var first := CompleteSession(store, id, memberId, now);
      first.answer.Ok? && CompleteSession(first.store, id, memberId, later).answer.Ok?
  {
    var first := CompleteSession(store, id, memberId, now);
    FindSameIds(store, first.store, id);
  }

  /** A just-started session is the last one stored, and is found there. */
  lemma FindStarted(store: seq<Session>, workouts: set<int>, memberId: int, dto: StartDto, now: int)
    requires StartSession(store, workouts, memberId, dto, now).answer.Ok?
    ensures Find(StartSession(store, workouts, memberId, dto, now).store, dto.id) == Some(|store|)
  {
    var after := StartSession(store, workouts, memberId, dto, now).store;
    assert after[|store|].id == dto.id;
  }

  /**
   * A session started at `t0`, paused at `p`, resumed at `q` and completed at
   * `c` records `(c − t0) − (q − p)` seconds: the paused stretch is not counted.
   */
  lemma PausedTimeLeftOutOfDuration(store: seq<Session>, workouts: set<int>, memberId: int, dto: StartDto,
                                    t0: int, p: int, q: int, c: int)
    requires StartSession(store, workouts, memberId, dto, t0).answer.Ok?
    ensures var started := StartSession(store, workouts, memberId, dto, t0).store;
      var paused := PauseSession(started, dto.id, p);
      var resumed := ResumeSession(paused.store, dto.id, q);
      var done := CompleteSession(resumed.store, dto.id, memberId, c);
      paused.answer && resumed.answer && done.answer.Ok? && done.answer.value.duration == (c - t0) - (q - p)
  {
    var started := StartSession(store, workouts, memberId, dto, t0).store;
    FindStarted(store, workouts, memberId, dto, t0);
    PauseThenResume(started, dto.id, p, q);
    var resumed := ResumeSession(PauseSession(started, dto.id, p).store, dto.id, q);
    FindSameIds(started, resumed.store, dto.id);
  }

  // ---------------------------------------------------------------- exercise rows

  /** Where an exercise row lives: the session's position and the row's position in it. */
  datatype Slot = Slot(session: nat, row: nat)

  function ForExercise(exerciseId: int): ExerciseRow -> bool
  {
    (e: ExerciseRow) => e.exerciseId == exerciseId
  }

  /** `GetExerciseProgress`: the first row for that exercise in that session. */
  function FindRow(store: seq<Session>, id: string, exerciseId: int): (r: Option<Slot>)
    ensures r.Some? ==>
      r.value.session < |store| && store[r.value.session].id == id
      && r.value.row < |store[r.value.session].exerciseProgress|
      && store[r.value.session].exerciseProgress[r.value.row].exerciseId == exerciseId
  {
    var i := Find(store, id);
    if i.None? then None
    else
      var k := Lists.FirstIndex(store[i.value].exerciseProgress, ForExercise(exerciseId));
      if k.None? then None else Some(Slot(i.value, k.value))
  }

  function RowAt(store: seq<Session>, at: Slot): ExerciseRow
    requires at.session < |store| && at.row < |store[at.session].exerciseProgress|
  {
    store[at.session].exerciseProgress[at.row]
  }

  /** The store with one exercise row replaced. */
  function PutRow(store: seq<Session>, at: Slot, row: ExerciseRow): (r: seq<Session>)
    requires at.session < |store| && at.row < |store[at.session].exerciseProgress|
    ensures |r| == |store| && forall j :: 0 <= j < |store| && j != at.session ==> r[j] == store[j]
    ensures r[at.session] == store[at.session].(exerciseProgress := store[at.session].exerciseProgress[at.row := row])
  {
    var s := store[at.session];
    store[at.session := s.(exerciseProgress := s.exerciseProgress[at.row := row])]
  }

  /** Rewriting rows never changes a session's id, owner or status. */
  lemma PutRowKeepsValid(store: seq<Session>, at: Slot, row: ExerciseRow)
    requires Valid(store) && at.session < |store| && at.row < |store[at.session].exerciseProgress|
    ensures Valid(PutRow(store, at, row))
  {
    var s := store[at.session];
    ReplaceKeepsValid(store, at.session, s.(exerciseProgress := s.exerciseProgress[at.row := row]));
  }

  /** `StartExercise`: only a row that has not started yet starts. */
  function StartExercise(store: seq<Session>, id: string, exerciseId: int, now: int): (r: Step<bool>)
    ensures r.answer <==> FindRow(store, id, exerciseId).Some? && RowAt(store, FindRow(store, id, exerciseId).value).status == NotStarted
    ensures !r.answer ==> r.store == store
    ensures r.answer ==>
      var at := FindRow(store, id, exerciseId).value;
      r.store == PutRow(store, at, RowAt(store, at).(status := InProgress, startTime := Some(now)))
  {
    var at := FindRow(store, id, exerciseId);
    if at.None? || RowAt(store, at.value).status != NotStarted then Step(store, false)
    else Step(PutRow(store, at.value, RowAt(store, at.value).(status := InProgress, startTime := Some(now))), true)
  }

  /** A row once completed; its time is set only if it had started, and is otherwise left as it was. */
  function FinishedRow(e: ExerciseRow, now: int): ExerciseRow
  {
    e.(status := Completed, endTime := Some(now),
       totalTimeSeconds := if e.startTime.Some? then now - e.startTime.value else e.totalTimeSeconds)
  }

  /** `CompleteExercise`: any existing row, whatever its status, is completed. */
  function CompleteExercise(store: seq<Session>, id: string, exerciseId: int, now: int): (r: Step<bool>)
    ensures r.answer <==> FindRow(store, id, exerciseId).Some?
    ensures !r.answer ==> r.store == store
    ensures r.answer ==>
      var at := FindRow(store, id, exerciseId).value;
      r.store == PutRow(store, at, FinishedRow(RowAt(store, at), now))
  {
    var at := FindRow(store, id, exerciseId);
    if at.None? then Step(store, false)
    else Step(PutRow(store, at.value, FinishedRow(RowAt(store, at.value), now)), true)
  }

  /** `SkipExercise`: any existing row, whatever its status, is skipped. */
  function SkipExercise(store: seq<Session>, id: string, exerciseId: int, now: int): (r: Step<bool>)
    ensures r.answer <==> FindRow(store, id, exerciseId).Some?
    ensures !r.answer ==> r.store == store
    ensures r.answer ==>
      var at := FindRow(store, id, exerciseId).value;
      r.store == PutRow(store, at, RowAt(store, at).(status := Skipped, endTime := Some(now)))
  {
    var at := FindRow(store, id, exerciseId);
    if at.None? then Step(store, false)
    else Step(PutRow(store, at.value, RowAt(store, at.value).(status := Skipped, endTime := Some(now))), true)
  }

  /** `_mapper.Map(progressDto, exerciseProgress)`: the status always, the others when given. */
  function MapProgressDto(e: ExerciseRow, d: ProgressDto): (r: ExerciseRow)
    ensures r.exerciseId == e.exerciseId && r.orderInWorkout == e.orderInWorkout && r.sets == e.sets
    ensures r.status == d.status
    ensures d.startTime.Some? ==> r.startTime == d.startTime
    ensures d.endTime.Some? ==> r.endTime == d.endTime
    ensures d.notes.Some? ==> r.notes == d.notes
    ensures d.startTime.None? && d.endTime.None? && d.notes.None? ==> r == e.(status := d.status)
  {
    e.(status := d.status,
       startTime := SessionContext.Over(e.startTime, d.startTime),
       endTime := SessionContext.Over(e.endTime, d.endTime),
       notes := SessionContext.Over(e.notes, d.notes))
  }

  /** `UpdateExerciseProgress`: any existing row takes the update. */
  function UpdateExerciseProgress(store: seq<Session>, id: string, exerciseId: int, d: ProgressDto): (r: Step<bool>)
    ensures r.answer <==> FindRow(store, id, exerciseId).Some?
    ensures !r.answer ==> r.store == store
    ensures r.answer ==>
      var at := FindRow(store, id, exerciseId).value;
      r.store == PutRow(store, at, MapProgressDto(RowAt(store, at), d))
  {
    var at := FindRow(store, id, exerciseId);
    if at.None? then Step(store, false)
    else Step(PutRow(store, at.value, MapProgressDto(RowAt(store, at.value), d)), true)
  }

  /**
   * The result's count moves as the source promises: completing a row that
   * was not completed adds one; skipping a row that was not completed, or
   * starting one, changes nothing.
   */
  lemma RowChangesMoveCompletedCount(rows: seq<ExerciseRow>, k: nat, now: int)
    requires k < |rows|
    ensures rows[k].status != Completed ==>
      CompletedCount(rows[k := FinishedRow(rows[k], now)]) == CompletedCount(rows) + 1
    ensures rows[k].status != Completed ==>
      CompletedCount(rows[k := rows[k].(status := Skipped, endTime := Some(now))]) == CompletedCount(rows)
    ensures rows[k].status == NotStarted ==>
      CompletedCount(rows[k := rows[k].(status := InProgress, startTime := Some(now))]) == CompletedCount(rows)
  {
    Lists.FilterCountUpdate(rows, k, FinishedRow(rows[k], now), RowHas(Completed));
    Lists.FilterCountUpdate(rows, k, rows[k].(status := Skipped, endTime := Some(now)), RowHas(Completed));
    Lists.FilterCountUpdate(rows, k, rows[k].(status := InProgress, startTime := Some(now)), RowHas(Completed));
  }

  // ---------------------------------------------------------------- set rows

  /** Where a set row lives. */
  datatype SetSlot = SetSlot(session: nat, row: nat, setIndex: nat)

  function Numbered(setNumber: int): SetRow -> bool
  {
    (s: SetRow) => s.setNumber == setNumber
  }

  /** The exercise row's first set with that number, if any. */
  function FindSetIn(e: ExerciseRow, setNumber: int): (r: Option<nat>)
    ensures r.Some? ==> r.value < |e.sets| && e.sets[r.value].setNumber == setNumber
    ensures r.None? ==> forall j :: 0 <= j < |e.sets| ==> e.sets[j].setNumber != setNumber
  {
    Lists.FirstIndex(e.sets, Numbered(setNumber))
  }

  function HasSet(exerciseId: int, setNumber: int): ExerciseRow -> bool
  {
    (e: ExerciseRow) => e.exerciseId == exerciseId && FindSetIn(e, setNumber).Some?
  }

  /** `GetSetProgress`: the first set with that number among the session's rows for that exercise. */
  function FindSet(store: seq<Session>, id: string, exerciseId: int, setNumber: int): (r: Option<SetSlot>)
    ensures r.Some? ==>
      r.value.session < |store| && store[r.value.session].id == id
      && r.value.row < |store[r.value.session].exerciseProgress|
      && store[r.value.session].exerciseProgress[r.value.row].exerciseId == exerciseId
      && r.value.setIndex < |store[r.value.session].exerciseProgress[r.value.row].sets|
      && store[r.value.session].exerciseProgress[r.value.row].sets[r.value.setIndex].setNumber == setNumber
  {
    var i := Find(store, id);
    if i.None? then None
    else
      var k := Lists.FirstIndex(store[i.value].exerciseProgress, HasSet(exerciseId, setNumber));
      if k.None? then None
      else Some(SetSlot(i.value, k.value, FindSetIn(store[i.value].exerciseProgress[k.value], setNumber).value))
  }

  predicate SetSlotIn(store: seq<Session>, at: SetSlot)
  {
    at.session < |store| && at.row < |store[at.session].exerciseProgress|
    && at.setIndex < |store[at.session].exerciseProgress[at.row].sets|
  }

  function SetAt(store: seq<Session>, at: SetSlot): SetRow
    requires SetSlotIn(store, at)
  {
    store[at.session].exerciseProgress[at.row].sets[at.setIndex]
  }

  /** The store with one set row replaced. */
  function PutSet(store: seq<Session>, at: SetSlot, row: SetRow): (r: seq<Session>)
    requires SetSlotIn(store, at)
    ensures SetSlotIn(r, at) && SetAt(r, at) == row
  {
    var e := store[at.session].exerciseProgress[at.row];
    PutRow(store, Slot(at.session, at.row), e.(sets := e.sets[at.setIndex := row]))
  }

  /** A set update that carries nothing but a status. */
  predicate NoSetValues(d: SetDto)
  {
    d.startTime.None? && d.endTime.None? && d.actualReps.None? && d.actualWeightKg.None?
    && d.actualDistanceMeters.None? && d.actualDurationSeconds.None? && d.restStartTime.None?
    && d.restEndTime.None? && d.actualRestSeconds.None? && d.notes.None? && d.rpe.None?
  }

  /** `_mapper.Map(setDto, setProgress)`: the status always, the others when given. */
  function MapSetDto(s: SetRow, d: SetDto): (r: SetRow)
    ensures r.setNumber == s.setNumber && r.status == d.status
    ensures d.actualReps.Some? ==> r.actualReps == d.actualReps
    ensures d.actualWeightKg.Some? ==> r.actualWeightKg == d.actualWeightKg
    ensures d.rpe.Some? ==> r.rpe == d.rpe
    ensures d.notes.Some? ==> r.notes == d.notes
    ensures NoSetValues(d) ==> r == s.(status := d.status)
  {
    s.(status := d.status,
       startTime := SessionContext.Over(s.startTime, d.startTime),
       endTime := SessionContext.Over(s.endTime, d.endTime),
       actualReps := SessionContext.Over(s.actualReps, d.actualReps),
       actualWeightKg := SessionContext.Over(s.actualWeightKg, d.actualWeightKg),
       actualDistanceMeters := SessionContext.Over(s.actualDistanceMeters, d.actualDistanceMeters),
       actualDurationSeconds := SessionContext.Over(s.actualDurationSeconds, d.actualDurationSeconds),
       restStartTime := SessionContext.Over(s.restStartTime, d.restStartTime),
       restEndTime := SessionContext.Over(s.restEndTime, d.restEndTime),
       actualRestSeconds := SessionContext.Over(s.actualRestSeconds, d.actualRestSeconds),
       notes := SessionContext.Over(s.notes, d.notes),
       rpe := SessionContext.Over(s.rpe, d.rpe))
  }

  /** `StartSet`: only a set that has not started yet starts. */
  function StartSet(store: seq<Session>, id: string, exerciseId: int, setNumber: int, now: int): (r: Step<bool>)
    ensures r.answer <==>
      FindSet(store, id, exerciseId, setNumber).Some? && SetAt(store, FindSet(store, id, exerciseId, setNumber).value).status == NotStarted
    ensures !r.answer ==> r.store == store
    ensures r.answer ==>
      var at := FindSet(store, id, exerciseId, setNumber).value;
      r.store == PutSet(store, at, SetAt(store, at).(status := InProgress, startTime := Some(now)))
  {
    var at := FindSet(store, id, exerciseId, setNumber);
    if at.None? || SetAt(store, at.value).status != NotStarted then Step(store, false)
    else Step(PutSet(store, at.value, SetAt(store, at.value).(status := InProgress, startTime := Some(now))), true)
  }

  /** `CompleteSet`: any existing set takes the values given and is completed at `now`, whatever the status sent. */
  function CompleteSet(store: seq<Session>, id: string, exerciseId: int, setNumber: int, d: SetDto, now: int): (r: Step<bool>)
    ensures r.answer <==> FindSet(store, id, exerciseId, setNumber).Some?
    ensures !r.answer ==> r.store == store
    ensures r.answer ==>
      var at := FindSet(store, id, exerciseId, setNumber).value;
      r.store == PutSet(store, at, MapSetDto(SetAt(store, at), d).(status := Completed, endTime := Some(now)))
      && SetAt(r.store, at).status == Completed && SetAt(r.store, at).endTime == Some(now)
  {
    var at := FindSet(store, id, exerciseId, setNumber);
    if at.None? then Step(store, false)
    else Step(PutSet(store, at.value, MapSetDto(SetAt(store, at.value), d).(status := Completed, endTime := Some(now))), true)
  }

  /** `UpdateSetProgress`: any existing set takes the update, status included. */
  function UpdateSetProgress(store: seq<Session>, id: string, exerciseId: int, setNumber: int, d: SetDto): (r: Step<bool>)
    ensures r.answer <==> FindSet(store, id, exerciseId, setNumber).Some?
    ensures !r.answer ==> r.store == store
    ensures r.answer ==>
      var at := FindSet(store, id, exerciseId, setNumber).value;
      r.store == PutSet(store, at, MapSetDto(SetAt(store, at), d)) && SetAt(r.store, at).status == d.status
  {
    var at := FindSet(store, id, exerciseId, setNumber);
    if at.None? then Step(store, false)
    else Step(PutSet(store, at.value, MapSetDto(SetAt(store, at.value), d)), true)
  }

  lemma PutSetKeepsValid(store: seq<Session>, at: SetSlot, row: SetRow)
    requires Valid(store) && SetSlotIn(store, at)
    ensures Valid(PutSet(store, at, row))
  {
    var e := store[at.session].exerciseProgress[at.row];
    PutRowKeepsValid(store, Slot(at.session, at.row), e.(sets := e.sets[at.setIndex := row]));
  }

  // ---------------------------------------------------------------- queries

  function SessionExists(store: seq<Session>, id: string): (r: bool)
    ensures r <==> exists j :: 0 <= j < |store| && store[j].id == id
  {
    Find(store, id).Some?
  }

  /** `IsSessionActive`: the session exists and is under way (a paused session counts). */
  function IsSessionActive(store: seq<Session>, id: string): (r: bool)
    ensures r <==> exists j :: 0 <= j < |store| && store[j].id == id && Live(store[j]) && forall k :: 0 <= k < j ==> store[k].id != id
    ensures Valid(store) ==> (r <==> exists j :: 0 <= j < |store| && store[j].id == id && Live(store[j]))
  {
    var i := Find(store, id);
    i.Some? && Live(store[i.value])
  }

  /** `IsSessionOwnedByMember`: the session exists and belongs to the member. */
  function IsSessionOwnedByMember(store: seq<Session>, id: string, memberId: int): (r: bool)
    ensures Valid(store) ==> (r <==> exists j :: 0 <= j < |store| && store[j].id == id && store[j].memberId == memberId)
  {
    var i := Find(store, id);
    i.Some? && store[i.value].memberId == memberId
  }

  function LiveFor(memberId: int): Session -> bool
  {
    (s: Session) => s.memberId == memberId && Live(s)
  }

  /** `GetActiveMemberSession`: the member's session under way, if any. */
  function ActiveMemberSession(store: seq<Session>, memberId: int): (r: Option<Session>)
    ensures r.Some? <==> HasLive(store, memberId)
    ensures r.Some? ==> r.value in store && r.value.memberId == memberId && Live(r.value)
  {
    var i := Lists.FirstIndex(store, LiveFor(memberId));
    if i.Some? then Some(store[i.value]) else None
  }

  /** In a valid store, the member's session under way is the only one: any other is not under way. */
  lemma ActiveMemberSessionIsTheOne(store: seq<Session>, memberId: int, j: nat)
    requires Valid(store) && j < |store| && store[j].memberId == memberId && Live(store[j])
    ensures ActiveMemberSession(store, memberId) == Some(store[j])
  {
    var i := Lists.FirstIndex(store, LiveFor(memberId));
    assert LiveFor(memberId)(store[j]);
  }

  function OfMember(memberId: int, workoutId: Option<int>): Session -> bool
  {
    (s: Session) => s.memberId == memberId && (workoutId.None? || s.workoutId == workoutId.value)
  }

  /** `GetMemberSessions`: the member's sessions, of one workout when it is given. */
  function MemberSessions(store: seq<Session>, memberId: int, workoutId: Option<int>): (r: seq<Session>)
    ensures forall s :: s in r <==> s in store && s.memberId == memberId && (workoutId.None? || s.workoutId == workoutId.value)
  {
    Lists.Filter(store, OfMember(memberId, workoutId))
  }

  // ---------------------------------------------------------------- cleanup

  /** Under way and created before the cutoff. */
  function Stale(cutoff: int): Session -> bool
  {
    (s: Session) => Live(s) && s.createdDate < cutoff
  }

  /** One session after the cleanup: abandoned at `now` if it was stale, untouched otherwise. */
  function Swept(s: Session, cutoff: int, now: int): Session
  {
    if Stale(cutoff)(s) then Ended(s, Abandoned, now) else s
  }

  function Sweep(store: seq<Session>, cutoff: int, now: int): (r: seq<Session>)
    ensures |r| == |store| && forall j :: 0 <= j < |store| ==> r[j] == Swept(store[j], cutoff, now)
  {
    seq(|store|, j requires 0 <= j < |store| => Swept(store[j], cutoff, now))
  }

  /** `CleanupAbandonedSessions`: every stale session abandoned at `now`; the count of them. */
  function Cleanup(store: seq<Session>, cutoff: int, now: int): (r: Step<nat>)
    ensures |r.store| == |store| && r.answer <= |store|
    ensures forall j :: 0 <= j < |store| ==>
      if Stale(cutoff)(store[j]) then r.store[j].status == Abandoned && r.store[j].endTime == Some(now)
      else r.store[j] == store[j]
    ensures r.answer == 0 <==> forall j :: 0 <= j < |store| ==> !Stale(cutoff)(store[j])
  {
    var stale := Lists.Filter(store, Stale(cutoff));
    assert |stale| > 0 ==> stale[0] in stale;
    assert forall j :: 0 <= j < |store| && Stale(cutoff)(store[j]) ==> store[j] in stale;
    Step(Sweep(store, cutoff, now), |stale|)
  }

  lemma StaleCountStep(store: seq<Session>, k: nat, cutoff: int)
    requires k < |store|
    ensures |Lists.Filter(store[..k + 1], Stale(cutoff))|
      == |Lists.Filter(store[..k], Stale(cutoff))| + (if Stale(cutoff)(store[k]) then 1 else 0)
  {
    assert store[..k + 1][..k] == store[..k];
  }

  /** Sweeping position `k` of a store swept up to `k` gives one swept up to `k + 1`. */
  lemma SweepStep(store: seq<Session>, swept: seq<Session>, k: nat, session: Session, cutoff: int, now: int)
    requires k < |swept| == |store| && session == Swept(store[k], cutoff, now)
    requires forall j :: 0 <= j < k ==> swept[j] == Swept(store[j], cutoff, now)
    requires forall j :: k <= j < |swept| ==> swept[j] == store[j]
    ensures forall j :: 0 <= j < k + 1 ==> swept[k := session][j] == Swept(store[j], cutoff, now)
    ensures forall j :: k + 1 <= j < |swept| ==> swept[k := session][j] == store[j]
  {
  }

  lemma SweptPointwise(store: seq<Session>, after: seq<Session>, cutoff: int, now: int)
    requires |after| == |store| && forall j :: 0 <= j < |store| ==> after[j] == Swept(store[j], cutoff, now)
    ensures after == Cleanup(store, cutoff, now).store
  {
  }

  /** The cleanup's loop: each stale session marked abandoned in place and counted. */
  method SweepStale(store: seq<Session>, cutoff: int, now: int) returns (swept: seq<Session>, count: nat)
    ensures Step(swept, count) == Cleanup(store, cutoff, now)
  {
    swept := store;
    count := 0;
    var k := 0;
    while k < |swept|
      invariant 0 <= k <= |swept| == |store|
      invariant forall j :: 0 <= j < k ==> swept[j] == Swept(store[j], cutoff, now)
      invariant forall j :: k <= j < |swept| ==> swept[j] == store[j]
      invariant count == |Lists.Filter(store[..k], Stale(cutoff))|
    {
      StaleCountStep(store, k, cutoff);
      var session := swept[k];
      if Stale(cutoff)(session) {
        session := Ended(session, Abandoned, now);
        count := count + 1;
      }
      SweepStep(store, swept, k, session, cutoff, now);
      swept := swept[k := session];
      k := k + 1;
    }
    assert store[..k] == store;
    SweptPointwise(store, swept, cutoff, now);
  }

  /** After a cleanup no stale session is left, and the store is still valid. */
  lemma CleanupLeavesNoStale(store: seq<Session>, cutoff: int, now: int)
    requires Valid(store)
    ensures var r := Cleanup(store, cutoff, now).store;
      Valid(r) && forall j :: 0 <= j < |r| ==> !Stale(cutoff)(r[j])
  {
  }

  /** A second cleanup with the same cutoff finds nothing and changes nothing. */
  lemma CleanupTwiceFindsNothing(store: seq<Session>, cutoff: int, now: int, later: int)
    ensures var once := Cleanup(store, cutoff, now).store;
      Cleanup(once, cutoff, later) == Step(once, 0)
  {
    var once := Cleanup(store, cutoff, now).store;
    Lists.FilterNone(once, Stale(cutoff));
    assert Cleanup(once, cutoff, later).store == once;
  }

  // ---------------------------------------------------------------- the service

  /** The service over its store; `results` are the results it has handed to the workout service. */
  class Service {
    const workouts: set<int>
    var sessions: seq<Session>
    var results: seq<NewResult>

    constructor(workouts: set<int>)
      ensures this.workouts == workouts && sessions == [] && results == [] && Valid(sessions)
    {
      this.workouts := workouts;
      sessions := [];
      results := [];
    }

    /** The progress rows of a new session: one per planned exercise, each with its sets, built one by one. */
    static method CreateRows(dtos: seq<PlannedDto>) returns (rows: seq<ExerciseRow>)
      ensures rows == NewRows(dtos)
    {
      rows := [];
      for k := 0 to |dtos|
        invariant |rows| == k && forall j :: 0 <= j < k ==> rows[j] == NewExerciseRow(dtos[j])
      {
        var d := dtos[k];
        var setCount := if d.plannedSets.Some? then d.plannedSets.value else 1;
        var sets: seq<SetRow> := [];
        var i := 1;
        while i <= setCount
          invariant 1 <= i && i - 1 <= ServerSetCount(d.plannedSets)
          invariant |sets| == i - 1 && forall j :: 0 <= j < |sets| ==> sets[j] == NewSetRow(j + 1)
        {
          sets := sets + [NewSetRow(i)];
          i := i + 1;
        }
        var row := ExerciseRow(d.exerciseId, d.orderInWorkout, NotStarted, None, None, 0, None,
                               d.plannedSets, d.plannedReps, d.plannedWeightKg, d.plannedDistanceMeters,
                               d.plannedDurationSeconds, d.plannedRestSeconds, sets);
        assert row == NewExerciseRow(d);
        rows := rows + [row];
      }
    }

    method Start(memberId: int, dto: StartDto, now: int) returns (r: Result<string, StartError>)
      requires Valid(sessions)
      modifies this
      ensures Step(sessions, r) == StartSession(old(sessions), workouts, memberId, dto, now)
      ensures results == old(results) && Valid(sessions)
    {
      StartKeepsValid(sessions, workouts, memberId, dto, now);
      if memberId == 0 {
        return Err(NotAuthenticated);
      }
      if HasLive(sessions, memberId) {
        return Err(AlreadyActive);
      }
      if dto.workoutId !in workouts {
        return Err(WorkoutNotFound);
      }
      if Find(sessions, dto.id).Some? {
        return Err(DuplicateId);
      }
      var rows := CreateRows(dto.exerciseProgress);
      var session := Session(dto.id, dto.workoutId, memberId, Active, Some(now), None, None, 0, 0, now, None, rows);
      sessions := sessions + [session];
      r := Ok(dto.id);
    }

    method Pause(id: string, now: int) returns (ok: bool)
      requires Valid(sessions)
      modifies this
      ensures Step(sessions, ok) == PauseSession(old(sessions), id, now)
      ensures results == old(results) && Valid(sessions)
    {
      PauseResumeAbandonKeepValid(sessions, id, now);
      var i := Find(sessions, id);
      if i.None? || sessions[i.value].status != Active {
        return false;
      }
      var s := sessions[i.value];
      sessions := sessions[i.value := s.(status := Paused, pausedAt := Some(now), modifiedDate := Some(now))];
      ok := true;
    }

    method Resume(id: string, now: int) returns (ok: bool)
      requires Valid(sessions)
      modifies this
      ensures Step(sessions, ok) == ResumeSession(old(sessions), id, now)
      ensures results == old(results) && Valid(sessions)
    {
      PauseResumeAbandonKeepValid(sessions, id, now);
      var i := Find(sessions, id);
      if i.None? || sessions[i.value].status != Paused {
        return false;
      }
      var s := sessions[i.value];
      if s.pausedAt.Some? {
        s := s.(totalPausedTimeSeconds := s.totalPausedTimeSeconds + (now - s.pausedAt.value));
      }
      s := s.(status := Active, pausedAt := None, modifiedDate := Some(now));
      sessions := sessions[i.value := s];
      ok := true;
    }

    method Abandon(id: string, now: int) returns (ok: bool)
      requires Valid(sessions)
      modifies this
      ensures Step(sessions, ok) == AbandonSession(old(sessions), id, now)
      ensures results == old(results) && Valid(sessions)
    {
      PauseResumeAbandonKeepValid(sessions, id, now);
      var i := Find(sessions, id);
      if i.None? {
        return false;
      }
      sessions := sessions[i.value := Ended(sessions[i.value], Abandoned, now)];
      ok := true;
    }

    /**
     * `CompleteSession`: on success the new result is handed on and its id
     * comes back; the id of a result is its position in `results`.
     */
    method Complete(id: string, memberId: int, now: int) returns (r: Result<int, CompleteError>)
      requires Valid(sessions)
      modifies this
      ensures r.Ok? ==> r.value == |old(results)| && |results| == |old(results)| + 1
      ensures r.Ok? ==> results == old(results) + [results[r.value]]
      ensures r.Ok? ==> Step(sessions, Ok(results[r.value])) == CompleteSession(old(sessions), id, memberId, now)
      ensures r.Err? ==> Step(sessions, Err(r.error)) == CompleteSession(old(sessions), id, memberId, now)
      ensures r.Err? ==> results == old(results)
      ensures Valid(sessions)
    {
      CompleteKeepsValid(sessions, id, memberId, now);
      var i := Find(sessions, id);
      if i.None? {
        return Err(SessionNotFound);
      }
      if sessions[i.value].memberId != memberId {
        return Err(NotOwner);
      }
      if sessions[i.value].startTime.None? {
        return Err(NoStartTime);
      }
      var s := Ended(sessions[i.value], SessionCompleted, now);
      sessions := sessions[i.value := s];
      var duration := (now - s.startTime.value) - s.totalPausedTimeSeconds;
      var result := NewResult(s.workoutId, CalculateWorkoutResult(s), duration);
      results := results + [result];
      r := Ok(|results| - 1);
    }

    /** `StartExercise`. */
    method StartExerciseOf(id: string, exerciseId: int, now: int) returns (ok: bool)
      requires Valid(sessions)
      modifies this
      ensures Step(sessions, ok) == StartExercise(old(sessions), id, exerciseId, now)
      ensures results == old(results) && Valid(sessions)
    {
      var at := FindRow(sessions, id, exerciseId);
      if at.None? || RowAt(sessions, at.value).status != NotStarted {
        return false;
      }
      var row := RowAt(sessions, at.value).(status := InProgress, startTime := Some(now));
      PutRowKeepsValid(sessions, at.value, row);
      sessions := PutRow(sessions, at.value, row);
      ok := true;
    }

    /** `CompleteExercise`: the time is measured only when the exercise had started. */
    method CompleteExerciseOf(id: string, exerciseId: int, now: int) returns (ok: bool)
      requires Valid(sessions)
      modifies this
      ensures Step(sessions, ok) == CompleteExercise(old(sessions), id, exerciseId, now)
      ensures results == old(results) && Valid(sessions)
    {
      var at := FindRow(sessions, id, exerciseId);
      if at.None? {
        return false;
      }
      var row := RowAt(sessions, at.value).(status := Completed, endTime := Some(now));
      if row.startTime.Some? {
        row := row.(totalTimeSeconds := now - row.startTime.value);
      }
      PutRowKeepsValid(sessions, at.value, row);
      sessions := PutRow(sessions, at.value, row);
      ok := true;
    }

    /** `SkipExercise`. */
    method SkipExerciseOf(id: string, exerciseId: int, now: int) returns (ok: bool)
      requires Valid(sessions)
      modifies this
      ensures Step(sessions, ok) == SkipExercise(old(sessions), id, exerciseId, now)
      ensures results == old(results) && Valid(sessions)
    {
      var at := FindRow(sessions, id, exerciseId);
      if at.None? {
        return false;
      }
      var row := RowAt(sessions, at.value).(status := Skipped, endTime := Some(now));
      PutRowKeepsValid(sessions, at.value, row);
      sessions := PutRow(sessions, at.value, row);
      ok := true;
    }

    /** `UpdateExerciseProgress`. */
    method UpdateExerciseProgressOf(id: string, exerciseId: int, d: ProgressDto) returns (ok: bool)
      requires Valid(sessions)
      modifies this
      ensures Step(sessions, ok) == UpdateExerciseProgress(old(sessions), id, exerciseId, d)
      ensures results == old(results) && Valid(sessions)
    {
      var at := FindRow(sessions, id, exerciseId);
      if at.None? {
        return false;
      }
      var row := MapProgressDto(RowAt(sessions, at.value), d);
      PutRowKeepsValid(sessions, at.value, row);
      sessions := PutRow(sessions, at.value, row);
      ok := true;
    }

    /** `StartSet`. */
    method StartSetOf(id: string, exerciseId: int, setNumber: int, now: int) returns (ok: bool)
      requires Valid(sessions)
      modifies this
      ensures Step(sessions, ok) == StartSet(old(sessions), id, exerciseId, setNumber, now)
      ensures results == old(results) && Valid(sessions)
    {
      var at := FindSet(sessions, id, exerciseId, setNumber);
      if at.None? || SetAt(sessions, at.value).status != NotStarted {
        return false;
      }
      var row := SetAt(sessions, at.value).(status := InProgress, startTime := Some(now));
      PutSetKeepsValid(sessions, at.value, row);
      sessions := PutSet(sessions, at.value, row);
      ok := true;
    }

    /** `CompleteSet`: the values sent are mapped first, then the set is marked completed now. */
    method CompleteSetOf(id: string, exerciseId: int, setNumber: int, d: SetDto, now: int) returns (ok: bool)
      requires Valid(sessions)
      modifies this
      ensures Step(sessions, ok) == CompleteSet(old(sessions), id, exerciseId, setNumber, d, now)
      ensures results == old(results) && Valid(sessions)
    {
      var at := FindSet(sessions, id, exerciseId, setNumber);
      if at.None? {
        return false;
      }
      var row := MapSetDto(SetAt(sessions, at.value), d);
      row := row.(status := Completed, endTime := Some(now));
      PutSetKeepsValid(sessions, at.value, row);
      sessions := PutSet(sessions, at.value, row);
      ok := true;
    }

    /** `UpdateSetProgress`. */
    method UpdateSetProgressOf(id: string, exerciseId: int, setNumber: int, d: SetDto) returns (ok: bool)
      requires Valid(sessions)
      modifies this
      ensures Step(sessions, ok) == UpdateSetProgress(old(sessions), id, exerciseId, setNumber, d)
      ensures results == old(results) && Valid(sessions)
    {
      var at := FindSet(sessions, id, exerciseId, setNumber);
      if at.None? {
        return false;
      }
      var row := MapSetDto(SetAt(sessions, at.value), d);
      PutSetKeepsValid(sessions, at.value, row);
      sessions := PutSet(sessions, at.value, row);
      ok := true;
    }

    /** `CleanupAbandonedSessions(olderThan)`: the stale sessions are marked one by one and counted. */
    method CleanupAbandoned(olderThan: int, now: int) returns (count: nat)
      requires Valid(sessions)
      modifies this
      ensures Step(sessions, count) == Cleanup(old(sessions), now - olderThan, now)
      ensures results == old(results) && Valid(sessions)
    {
      var cutoff := now - olderThan;
      var swept;
      swept, count := SweepStale(sessions, cutoff, now);
      CleanupLeavesNoStale(sessions, cutoff, now);
      sessions := swept;
    }
  }
}
