/**
 * The workout-type schema shared by the builders, the validator and the session
 * runners: the five type ids, the exercise record and the structural type guards.
 *
 * An exercise is one record whose type-specific fields are all optional: a
 * field is `Some` exactly when the key is present on the object (the guards test
 * key presence with `in`), whatever its value.
 */
module WorkoutTypes {
  import opened Wrappers
  import Lists

  const EMOM: int := 1
  const AMRAP: int := 2
  const FOR_TIME: int := 3
  const TABATA: int := 4
  const LADDER: int := 5

  /** `WORKOUT_TYPES`, in declaration order. */
  const WorkoutTypeIds: seq<int> := [EMOM, AMRAP, FOR_TIME, TABATA, LADDER]

  /**
   * `Enum.IsDefined` on the server's `WorkoutTypes` enum, which is not part of
   * this model: its members are taken to carry the five ids above.
   */
  predicate IsDefinedType(id: int)
  {
    id == EMOM || id == AMRAP || id == FOR_TIME || id == TABATA || id == LADDER
  }

  datatype Exercise = Exercise(
    exerciseId: int,
    orderInWorkout: int,
    name: Option<string>,
    weightDescription: Option<string>,
    notes: Option<string>,
    reps: Option<int>,
    minute: Option<int>,
    roundPosition: Option<int>,
    restBetweenExercises: Option<int>,
    rounds: Option<int>,
    workTimeSeconds: Option<int>,
    restTimeSeconds: Option<int>,
    exercisePosition: Option<int>,
    ladderType: Option<string>,
    startReps: Option<int>,
    endReps: Option<int>,
    increment: Option<int>,
    ladderPosition: Option<int>)

  /**
   * The partial updates the builders' number and text inputs pass to `updateExercise`:
   * one key each (`Number("")` is 0, so a cleared number input sends 0).
   */
  datatype Edit =
    | SetReps(reps: int)
    | SetWeightDescription(text: string)
    | SetNotes(text: string)
    | SetStartReps(startReps: int)
    | SetEndReps(endReps: int)
    | SetIncrement(increment: int)
    | SetWorkTime(seconds: int)
    | SetRestTime(seconds: int)
    | SetRounds(rounds: int)

  /** `{ ...ex, ...updates }` for a one-key update. */
  function ApplyEdit(e: Exercise, edit: Edit): Exercise
  {
    match edit
    case SetReps(v) => e.(reps := Some(v))
    case SetWeightDescription(t) => e.(weightDescription := Some(t))
    case SetNotes(t) => e.(notes := Some(t))
    case SetStartReps(v) => e.(startReps := Some(v))
    case SetEndReps(v) => e.(endReps := Some(v))
    case SetIncrement(v) => e.(increment := Some(v))
    case SetWorkTime(v) => e.(workTimeSeconds := Some(v))
    case SetRestTime(v) => e.(restTimeSeconds := Some(v))
    case SetRounds(v) => e.(rounds := Some(v))
  }

  /** Every builder's `updateExercise`: the one-key update merged into slot `i`, nothing else changed. */
  function UpdateExercise(d: WorkoutData, i: int, edit: Edit): (r: WorkoutData)
    ensures r.(exercises := d.exercises) == d && |r.exercises| == |d.exercises|
    ensures forall j :: 0 <= j < |d.exercises| ==> r.exercises[j] == if j == i then ApplyEdit(d.exercises[j], edit) else d.exercises[j]
  {
    d.(exercises := Lists.UpdateAt(d.exercises, i, e => ApplyEdit(e, edit)))
  }

  /** JavaScript's `value || fallback` on a number: a missing or zero value falls back. */
  function OrElse(o: Option<int>, fallback: int): (r: int)
    ensures o.Some? && o.value != 0 ==> r == o.value
    ensures o.None? || o.value == 0 ==> r == fallback
  {
    if o.None? || o.value == 0 then fallback else o.value
  }

  /** Every exercise has a rep count. */
  predicate AllRepsPresent(exercises: seq<Exercise>)
  {
    forall i :: 0 <= i < |exercises| ==> exercises[i].reps.Some?
  }

  function RepsOf(exercises: seq<Exercise>): (r: seq<int>)
    requires AllRepsPresent(exercises)
    ensures |r| == |exercises| && forall i :: 0 <= i < |r| ==> r[i] == exercises[i].reps.value
  {
    seq(|exercises|, i requires 0 <= i < |exercises| => exercises[i].reps.value)
  }

  /** An exercise with its position fields cleared: what renumbering must leave alone. */
  function Unnumbered(e: Exercise): Exercise
  {
    e.(orderInWorkout := 0, roundPosition := None, exercisePosition := None, ladderPosition := None)
  }

  function UnnumberedAll(s: seq<Exercise>): (r: seq<Exercise>)
    ensures |r| == |s| && forall j :: 0 <= j < |s| ==> r[j] == Unnumbered(s[j])
  {
    seq(|s|, j requires 0 <= j < |s| => Unnumbered(s[j]))
  }

  /** `orderInWorkout` runs 1..n in list order. */
  predicate OrdersFromOne(s: seq<Exercise>)
  {
    forall j :: 0 <= j < |s| ==> s[j].orderInWorkout == j + 1
  }

  /**
   * A builder's renumbering stamp: it writes only position fields and sets
   * `orderInWorkout` to the number it is given.
   */
  ghost predicate Stamps(stamp: (Exercise, nat) -> Exercise)
  {
    forall e, k :: Unnumbered(stamp(e, k)) == Unnumbered(e) && stamp(e, k).orderInWorkout == k
  }

  /** The renumbering of the builders that number only `orderInWorkout`. */
  function OrderStamp(e: Exercise, k: nat): Exercise
  {
    e.(orderInWorkout := k)
  }

  lemma OrderStampStamps()
    ensures Stamps(OrderStamp)
  {
  }

  /** Renumbering changes only positions, and numbers the list 1..n. */
  lemma RenumberKeepsContents(s: seq<Exercise>, stamp: (Exercise, nat) -> Exercise)
    requires Stamps(stamp)
    ensures UnnumberedAll(Lists.Renumber(s, stamp)) == UnnumberedAll(s)
    ensures OrdersFromOne(Lists.Renumber(s, stamp))
  {
    var r := Lists.Renumber(s, stamp);
    forall j | 0 <= j < |s|
      ensures Unnumbered(r[j]) == Unnumbered(s[j]) && r[j].orderInWorkout == j + 1
    {
      assert r[j] == stamp(s[j], j + 1);
    }
  }

  lemma RemoveCommutesWithUnnumbered(s: seq<Exercise>, i: nat)
    requires i < |s|
    ensures UnnumberedAll(Lists.RemoveAt(s, i)) == Lists.RemoveAt(UnnumberedAll(s), i)
  {
  }

  lemma MovedCommutesWithUnnumbered(s: seq<Exercise>, from: nat, to: nat)
    requires from < |s| && to < |s|
    ensures UnnumberedAll(Lists.Moved(s, from, to)) == Lists.Moved(UnnumberedAll(s), from, to)
  {
    var a, b := UnnumberedAll(Lists.Moved(s, from, to)), Lists.Moved(UnnumberedAll(s), from, to);
    forall j | 0 <= j < |s|
      ensures a[j] == b[j]
    {
      Lists.MovedAt(s, from, to, j);
      Lists.MovedAt(UnnumberedAll(s), from, to, j);
    }
  }

  /**
   * Removing slot `i` and renumbering keeps the other exercises, in their
   * order and otherwise untouched, and numbers them 1..n−1.
   */
  lemma RemoveRenumbered(s: seq<Exercise>, i: nat, stamp: (Exercise, nat) -> Exercise)
    requires i < |s| && Stamps(stamp)
    ensures var r := Lists.Renumber(Lists.RemoveAt(s, i), stamp);
      |r| == |s| - 1 && OrdersFromOne(r) && UnnumberedAll(r) == Lists.RemoveAt(UnnumberedAll(s), i)
  {
    RenumberKeepsContents(Lists.RemoveAt(s, i), stamp);
    RemoveCommutesWithUnnumbered(s, i);
  }

  /**
   * Moving `from` to `to` and renumbering is a permutation of the exercises,
   * positions aside: the moved one lands at `to`, the others keep their order,
   * and all are numbered 1..n.
   */
  lemma MoveRenumbered(s: seq<Exercise>, from: nat, to: nat, stamp: (Exercise, nat) -> Exercise)
    requires from < |s| && to < |s| && Stamps(stamp)
    ensures var r := Lists.Renumber(Lists.Moved(s, from, to), stamp);
      OrdersFromOne(r)
      && Unnumbered(r[to]) == Unnumbered(s[from])
      && Lists.RemoveAt(UnnumberedAll(r), to) == Lists.RemoveAt(UnnumberedAll(s), from)
      && multiset(UnnumberedAll(r)) == multiset(UnnumberedAll(s))
  {
    RenumberKeepsContents(Lists.Moved(s, from, to), stamp);
    MovedCommutesWithUnnumbered(s, from, to);
    Lists.MovedKeepsOthersInOrder(UnnumberedAll(s), from, to);
    Lists.MovedIsPermutation(UnnumberedAll(s), from, to);
  }

  /** An exercise that carries only the base fields. */
  function BaseExercise(exerciseId: int, orderInWorkout: int, name: Option<string>): (e: Exercise)
    ensures e.exerciseId == exerciseId && e.orderInWorkout == orderInWorkout && e.name == name
    ensures e.reps.None? && e.minute.None? && e.roundPosition.None? && e.workTimeSeconds.None?
    ensures e.restTimeSeconds.None? && e.ladderType.None? && e.startReps.None? && e.endReps.None?
  {
    Exercise(exerciseId, orderInWorkout, name, None, None, None, None, None, None, None,
             None, None, None, None, None, None, None, None)
  }

  /**
   * The per-type settings of a workout. The TypeScript union `WorkoutTypeData`
   * is one record here, since every consumer reads it through a cast.
   */
  datatype WorkoutData = WorkoutData(
    roundCount: Option<int>,
    exercisesPerRound: Option<int>,
    totalMinutes: Option<int>,
    timeCapMinutes: Option<int>,
    totalRounds: Option<int>,
    ladderType: Option<string>,
    exercises: seq<Exercise>)

  function EmptyData(): (d: WorkoutData)
    ensures d.exercises == [] && d.totalMinutes.None? && d.timeCapMinutes.None?
    ensures d.totalRounds.None? && d.ladderType.None?
  {
    WorkoutData(None, None, None, None, None, None, [])
  }

  /** The EMOM duration the data comment promises: totalMinutes = exercisesPerRound × roundCount. */
  predicate EmomDurationConsistent(d: WorkoutData)
  {
    d.roundCount.Some? && d.exercisesPerRound.Some? && d.totalMinutes.Some?
    && d.totalMinutes.value == d.exercisesPerRound.value * d.roundCount.value
  }

  predicate IsEMOMExercise(e: Exercise)
  {
    e.roundPosition.Some?
  }

  predicate IsAMRAPExercise(e: Exercise)
  {
    e.roundPosition.Some?
  }

  predicate IsForTimeExercise(e: Exercise)
  {
    e.reps.Some? && e.roundPosition.None? && e.workTimeSeconds.None? && e.ladderType.None?
  }

  predicate IsTabataExercise(e: Exercise)
  {
    e.workTimeSeconds.Some? && e.restTimeSeconds.Some?
  }

  predicate IsLadderExercise(e: Exercise)
  {
    e.ladderType.Some? && e.startReps.Some? && e.endReps.Some?
  }

  /** The five ids are 1..5, pairwise distinct. */
  lemma WorkoutTypeIdsDistinct()
    ensures |WorkoutTypeIds| == 5
    ensures forall i :: 0 <= i < 5 ==> WorkoutTypeIds[i] == i + 1
    ensures forall id :: IsDefinedType(id) <==> id in WorkoutTypeIds
  {
  }

  /** The EMOM and AMRAP guards are one predicate: both test only `roundPosition`. */
  lemma EmomGuardIsAmrapGuard(e: Exercise)
    ensures IsEMOMExercise(e) <==> IsAMRAPExercise(e)
  {
  }

  /** A For Time exercise is never also read as EMOM/AMRAP, Ladder or Tabata. */
  lemma ForTimeGuardExclusive(e: Exercise)
    requires IsForTimeExercise(e)
    ensures !IsEMOMExercise(e) && !IsAMRAPExercise(e) && !IsLadderExercise(e) && !IsTabataExercise(e)
  {
  }
}
