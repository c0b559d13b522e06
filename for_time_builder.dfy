/**
 * The For Time workout builder: the round setting, the exercise list with its
 * 21-rep default, the rep total over all rounds and the time estimate.
 */
module ForTimeBuilder {
  import opened Wrappers
  import opened WorkoutTypes
  import Lists
  import opened Arith
  import WorkoutValidation

  const MaxRounds: int := 50

  /** `updateTotalRounds`: the rounds input, kept within 1..50; nothing else changes. */
  function UpdateTotalRounds(d: WorkoutData, rounds: int): (r: WorkoutData)
    ensures r.(totalRounds := d.totalRounds) == d
    ensures r.totalRounds.Some? && 1 <= r.totalRounds.value <= MaxRounds
    ensures 1 <= rounds <= MaxRounds ==> r.totalRounds == Some(rounds)
    ensures rounds < 1 ==> r.totalRounds == Some(1)
    ensures rounds > MaxRounds ==> r.totalRounds == Some(MaxRounds)
  {
    d.(totalRounds := Some(Clamp(rounds, 1, MaxRounds)))
  }

  /** The exercise `addExercise` appends: 21 reps, bodyweight, numbered after the last one. */
  function NewForTimeExercise(d: WorkoutData, exerciseId: int, name: string): (e: Exercise)
    ensures e.exerciseId == exerciseId && e.name == Some(name)
    ensures e.orderInWorkout == |d.exercises| + 1 && e.reps == Some(21)
    ensures e.weightDescription == Some("bodyweight")
    ensures IsForTimeExercise(e)
  {
    BaseExercise(exerciseId, |d.exercises| + 1, Some(name)).(reps := Some(21), weightDescription := Some("bodyweight"))
  }

  /** `addExercise`: the new exercise goes last; the rest of the workout is kept. */
  function AddExercise(d: WorkoutData, exerciseId: int, name: string): (r: WorkoutData)
    ensures r.(exercises := d.exercises) == d
    ensures |r.exercises| == |d.exercises| + 1 && r.exercises[..|d.exercises|] == d.exercises
    ensures r.exercises[|d.exercises|] == NewForTimeExercise(d, exerciseId, name)
  {
    d.(exercises := d.exercises + [NewForTimeExercise(d, exerciseId, name)])
  }

  /** `removeExercise`: drop slot `i`, then renumber `orderInWorkout`. */
  function RemoveExercise(d: WorkoutData, i: int): (r: WorkoutData)
    ensures r.(exercises := d.exercises) == d
    ensures |r.exercises| == if 0 <= i < |d.exercises| then |d.exercises| - 1 else |d.exercises|
  {
    d.(exercises := Lists.Renumber(Lists.RemoveAt(d.exercises, i), OrderStamp))
  }

  /** `moveExercise`: the splice move on a copy, then renumber `orderInWorkout`. */
  method MoveExercise(d: WorkoutData, from: nat, to: nat) returns (r: WorkoutData)
    requires from < |d.exercises| && to < |d.exercises|
    ensures r == d.(exercises := Lists.Renumber(Lists.Moved(d.exercises, from, to), OrderStamp))
  {
    var exercises := Lists.SpliceMove(d.exercises, from, to);
    r := d.(exercises := Lists.Renumber(exercises, OrderStamp));
  }

  /** Removing keeps the others in order, otherwise untouched, and numbers them 1..n−1. */
  lemma RemoveKeepsOrderAndRenumbers(d: WorkoutData, i: nat)
    requires i < |d.exercises|
    ensures var r := RemoveExercise(d, i).exercises;
      |r| == |d.exercises| - 1 && OrdersFromOne(r)
      && UnnumberedAll(r) == Lists.RemoveAt(UnnumberedAll(d.exercises), i)
  {
    OrderStampStamps();
    RemoveRenumbered(d.exercises, i, OrderStamp);
  }

  /** Moving is a permutation, order aside, that keeps the others in order and numbers all 1..n. */
  lemma MoveKeepsOrderAndRenumbers(d: WorkoutData, from: nat, to: nat)
    requires from < |d.exercises| && to < |d.exercises|
    ensures var r := Lists.Renumber(Lists.Moved(d.exercises, from, to), OrderStamp);
      OrdersFromOne(r)
      && Unnumbered(r[to]) == Unnumbered(d.exercises[from])
      && Lists.RemoveAt(UnnumberedAll(r), to) == Lists.RemoveAt(UnnumberedAll(d.exercises), from)
      && multiset(UnnumberedAll(r)) == multiset(UnnumberedAll(d.exercises))
  {
    OrderStampStamps();
    MoveRenumbered(d.exercises, from, to, OrderStamp);
  }

  // ---------------------------------------------------------------- totals

  /** `totalRounds || 1`. */
  function Rounds(d: WorkoutData): (r: int)
    ensures r != 0
  {
    OrElse(d.totalRounds, 1)
  }

  /** `calculateTotalReps`: the reps of one round, times the rounds. */
  function TotalReps(d: WorkoutData): int
    requires AllRepsPresent(d.exercises)
  {
    Lists.Sum(RepsOf(d.exercises)) * Rounds(d)
  }

  /**
   * `getEstimatedTime`: ⌈(2.5 s × reps + 5 s × exercises × rounds) / 60⌉
   * minutes, computed in halves of a second so that it stays whole.
   */
  function EstimatedMinutes(d: WorkoutData): (r: int)
    requires AllRepsPresent(d.exercises)
    ensures 120 * r - 120 < 5 * TotalReps(d) + 10 * |d.exercises| * Rounds(d) <= 120 * r
  {
    CeilDiv(5 * TotalReps(d) + 10 * |d.exercises| * Rounds(d), 120)
  }

  /** `isMultipleRounds`. */
  predicate IsMultipleRounds(d: WorkoutData)
  {
    Rounds(d) > 1
  }

  /** After the rounds input is set, the workout has several rounds exactly when the input asked for more than one. */
  lemma MultipleRoundsAfterUpdate(d: WorkoutData, rounds: int)
    ensures IsMultipleRounds(UpdateTotalRounds(d, rounds)) <==> rounds > 1
  {
  }

  /** Adding an exercise adds its 21 reps once per round. */
  lemma AddExerciseAddsARoundOfReps(d: WorkoutData, exerciseId: int, name: string)
    requires AllRepsPresent(d.exercises)
    ensures var r := AddExercise(d, exerciseId, name);
      AllRepsPresent(r.exercises) && TotalReps(r) == TotalReps(d) + 21 * Rounds(d)
  {
    var r := AddExercise(d, exerciseId, name);
    assert RepsOf(r.exercises) == RepsOf(d.exercises) + [21];
    Lists.SumAppend(RepsOf(d.exercises), [21]);
    assert Lists.Sum([21]) == 21 by {
      assert [21][..0] == [];
    }
    Distribute(Lists.Sum(RepsOf(d.exercises)), 21, Rounds(d));
  }

  /** The validator's volume warning fires exactly when the builder's rep total passes 1000. */
  lemma VolumeWarningMatchesBuilderTotal(d: WorkoutData)
    requires AllRepsPresent(d.exercises)
    ensures WorkoutValidation.ForTimeVolumeEntries(d) != [] <==> TotalReps(d) > 1000
  {
  }
}
