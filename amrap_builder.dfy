/**
 * The AMRAP workout builder: the time cap, the exercises of one round with
 * their 10-rep default, and the round-time and round-count estimates.
 */
module AMRAPBuilder {
  import opened Wrappers
  import opened WorkoutTypes
  import Lists
  import opened Arith

  const MaxTimeCap: int := 120

  /** `updateTimeCapMinutes`: the time cap input, kept within 1..120 minutes; nothing else changes. */
  function UpdateTimeCapMinutes(d: WorkoutData, minutes: int): (r: WorkoutData)
    ensures r.(timeCapMinutes := d.timeCapMinutes) == d
    ensures r.timeCapMinutes.Some? && 1 <= r.timeCapMinutes.value <= MaxTimeCap
    ensures 1 <= minutes <= MaxTimeCap ==> r.timeCapMinutes == Some(minutes)
    ensures minutes < 1 ==> r.timeCapMinutes == Some(1)
    ensures minutes > MaxTimeCap ==> r.timeCapMinutes == Some(MaxTimeCap)
  {
    d.(timeCapMinutes := Some(Clamp(minutes, 1, MaxTimeCap)))
  }

  /** The exercise `addExerciseToRound` appends: 10 reps, bodyweight, last in the round. */
  function NewAmrapExercise(d: WorkoutData, exerciseId: int, name: string): (e: Exercise)
    ensures e.exerciseId == exerciseId && e.name == Some(name)
    ensures e.orderInWorkout == |d.exercises| + 1 && e.roundPosition == Some(|d.exercises| + 1)
    ensures e.reps == Some(10) && e.weightDescription == Some("bodyweight")
    ensures IsAMRAPExercise(e)
  {
    BaseExercise(exerciseId, |d.exercises| + 1, Some(name)).(
      roundPosition := Some(|d.exercises| + 1), reps := Some(10),
      weightDescription := Some("bodyweight"))
  }

  /** `addExerciseToRound`: the new exercise goes last; the rest of the workout is kept. */
  function AddExerciseToRound(d: WorkoutData, exerciseId: int, name: string): (r: WorkoutData)
    ensures r.(exercises := d.exercises) == d
    ensures |r.exercises| == |d.exercises| + 1 && r.exercises[..|d.exercises|] == d.exercises
    ensures r.exercises[|d.exercises|] == NewAmrapExercise(d, exerciseId, name)
  {
    d.(exercises := d.exercises + [NewAmrapExercise(d, exerciseId, name)])
  }

  /** The AMRAP builder's renumbering: `roundPosition` and `orderInWorkout` both set to the 1-based index. */
  function AmrapStamp(e: Exercise, k: nat): Exercise
  {
    e.(roundPosition := Some(k), orderInWorkout := k)
  }

  predicate RoundPositionsFromOne(s: seq<Exercise>)
  {
    OrdersFromOne(s) && forall j :: 0 <= j < |s| ==> s[j].roundPosition == Some(j + 1)
  }

  lemma AmrapStampStamps()
    ensures Stamps(AmrapStamp)
  {
  }

  /** `removeExercise`: drop slot `i`, then renumber. */
  function RemoveExercise(d: WorkoutData, i: int): (r: WorkoutData)
    ensures r.(exercises := d.exercises) == d
    ensures |r.exercises| == if 0 <= i < |d.exercises| then |d.exercises| - 1 else |d.exercises|
  {
    d.(exercises := Lists.Renumber(Lists.RemoveAt(d.exercises, i), AmrapStamp))
  }

  /** `moveExercise`: the splice move on a copy, then renumber. */
  method MoveExercise(d: WorkoutData, from: nat, to: nat) returns (r: WorkoutData)
    requires from < |d.exercises| && to < |d.exercises|
    ensures r == d.(exercises := Lists.Renumber(Lists.Moved(d.exercises, from, to), AmrapStamp))
  {
    var exercises := Lists.SpliceMove(d.exercises, from, to);
    r := d.(exercises := Lists.Renumber(exercises, AmrapStamp));
  }

  /** Removing keeps the others in order, otherwise untouched, and numbers both positions 1..n−1. */
  lemma RemoveKeepsOrderAndRenumbers(d: WorkoutData, i: nat)
    requires i < |d.exercises|
    ensures var r := RemoveExercise(d, i).exercises;
      |r| == |d.exercises| - 1 && RoundPositionsFromOne(r)
      && UnnumberedAll(r) == Lists.RemoveAt(UnnumberedAll(d.exercises), i)
  {
    AmrapStampStamps();
    RemoveRenumbered(d.exercises, i, AmrapStamp);
  }

  /** Moving is a permutation, positions aside, that keeps the others in order and numbers both positions 1..n. */
  lemma MoveKeepsOrderAndRenumbers(d: WorkoutData, from: nat, to: nat)
    requires from < |d.exercises| && to < |d.exercises|
    ensures var r := Lists.Renumber(Lists.Moved(d.exercises, from, to), AmrapStamp);
      RoundPositionsFromOne(r)
      && Unnumbered(r[to]) == Unnumbered(d.exercises[from])
      && Lists.RemoveAt(UnnumberedAll(r), to) == Lists.RemoveAt(UnnumberedAll(d.exercises), from)
      && multiset(UnnumberedAll(r)) == multiset(UnnumberedAll(d.exercises))
  {
    AmrapStampStamps();
    MoveRenumbered(d.exercises, from, to, AmrapStamp);
  }

  // ---------------------------------------------------------------- estimates

  /**
   * `calculateEstimatedRoundTime`: ⌈(2.5 s × the round's reps + 30 s) / 60⌉
   * minutes, computed in halves of a second so that it stays whole.
   */
  function EstimatedRoundTime(d: WorkoutData): (r: int)
    requires AllRepsPresent(d.exercises)
    ensures 120 * r - 120 < 5 * Lists.Sum(RepsOf(d.exercises)) + 60 <= 120 * r
  {
    CeilDiv(5 * Lists.Sum(RepsOf(d.exercises)) + 60, 120)
  }

  /**
   * `estimatedRounds`: none without exercises; otherwise the time cap divided
   * by the round time, rounded down. Defined where the round time is not zero.
   */
  function EstimatedRounds(d: WorkoutData): (r: int)
    requires AllRepsPresent(d.exercises) && d.timeCapMinutes.Some?
    requires d.exercises != [] ==> EstimatedRoundTime(d) != 0
    ensures d.exercises == [] ==> r == 0
  {
    if |d.exercises| > 0 then FloorDiv(d.timeCapMinutes.value, EstimatedRoundTime(d)) else 0
  }

  predicate RepsNonNegative(s: seq<Exercise>)
  {
    forall i :: 0 <= i < |s| ==> s[i].reps.Some? && s[i].reps.value >= 0
  }

  /** A round is estimated at one minute or more exactly when its reps add up to more than −12. */
  lemma RoundTimeAtLeastOneIff(d: WorkoutData)
    requires AllRepsPresent(d.exercises)
    ensures EstimatedRoundTime(d) >= 1 <==> Lists.Sum(RepsOf(d.exercises)) > -12
  {
  }

  /** With no negative reps the round time is at least a minute, and each 24 reps add at most one minute to it. */
  lemma RoundTimeBounds(d: WorkoutData)
    requires RepsNonNegative(d.exercises)
    ensures var t, reps := EstimatedRoundTime(d), Lists.Sum(RepsOf(d.exercises));
      1 <= t && 24 * t - 24 < reps + 12 <= 24 * t
  {
    Lists.SumNonNegative(RepsOf(d.exercises));
  }

  /**
   * With no negative reps and a time cap of zero or more, the estimate is the
   * largest number of whole rounds that fit in the cap, and never more rounds
   * than minutes.
   */
  lemma EstimatedRoundsFitTheCap(d: WorkoutData)
    requires RepsNonNegative(d.exercises) && d.timeCapMinutes.Some? && d.timeCapMinutes.value >= 0
    requires d.exercises != []
    ensures EstimatedRoundTime(d) >= 1
    ensures var n, t, cap := EstimatedRounds(d), EstimatedRoundTime(d), d.timeCapMinutes.value;
      0 <= n <= cap && n * t <= cap < n * t + t
  {
    RoundTimeBounds(d);
    var n, t := EstimatedRounds(d), EstimatedRoundTime(d);
    if n > 0 {
      MulAtLeast(t, n);
    }
  }

  /** Once the time cap comes from the input, the estimate is at most 120 rounds. */
  lemma EstimatedRoundsAfterUpdateAtMostMaxTimeCap(d: WorkoutData, minutes: int)
    requires RepsNonNegative(d.exercises)
    ensures var r := UpdateTimeCapMinutes(d, minutes);
      AllRepsPresent(r.exercises) && (r.exercises != [] ==> EstimatedRoundTime(r) >= 1)
      && 0 <= EstimatedRounds(r) <= MaxTimeCap
  {
    var r := UpdateTimeCapMinutes(d, minutes);
    if r.exercises != [] {
      EstimatedRoundsFitTheCap(r);
    }
  }
}
