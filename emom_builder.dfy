/**
 * The EMOM workout builder: the minute count, and exercises attached to a
 * minute through a picker that remembers which minute it was opened for.
 */
module EMOMBuilder {
  import opened Wrappers
  import opened WorkoutTypes
  import Lists
  import opened Arith

  const MaxMinutes: int := 60

  /** `ex.minute <= limit`: an exercise without a minute never passes. */
  function Within(limit: int): Exercise -> bool
  {
    (e: Exercise) => e.minute.Some? && e.minute.value <= limit
  }

  /** `ex.minute === minute`. */
  function AtMinute(minute: int): Exercise -> bool
  {
    (e: Exercise) => e.minute == Some(minute)
  }

  /**
   * `updateTotalMinutes`: the minutes input, kept within 1..60, and only the
   * exercises whose minute still exists kept, in their order.
   */
  function UpdateTotalMinutes(d: WorkoutData, minutes: int): (r: WorkoutData)
    ensures r.(totalMinutes := d.totalMinutes, exercises := d.exercises) == d
    ensures r.totalMinutes.Some? && 1 <= r.totalMinutes.value <= MaxMinutes
    ensures 1 <= minutes <= MaxMinutes ==> r.totalMinutes == Some(minutes)
    ensures minutes < 1 ==> r.totalMinutes == Some(1)
    ensures minutes > MaxMinutes ==> r.totalMinutes == Some(MaxMinutes)
    ensures forall j :: 0 <= j < |r.exercises| ==>
      r.exercises[j].minute.Some? && r.exercises[j].minute.value <= r.totalMinutes.value
    ensures forall e :: e in r.exercises <==> e in d.exercises && e.minute.Some? && e.minute.value <= r.totalMinutes.value
  {
    var valid := Clamp(minutes, 1, MaxMinutes);
    d.(totalMinutes := Some(valid), exercises := Lists.Filter(d.exercises, Within(valid)))
  }

  /** Setting the same minute count again changes nothing more. */
  lemma UpdateTotalMinutesIdempotent(d: WorkoutData, minutes: int)
    ensures UpdateTotalMinutes(UpdateTotalMinutes(d, minutes), minutes) == UpdateTotalMinutes(d, minutes)
  {
    var once := UpdateTotalMinutes(d, minutes);
    Lists.FilterAll(once.exercises, Within(once.totalMinutes.value));
  }

  /** When every exercise already fits the new minute count, none is dropped. */
  lemma UpdateTotalMinutesKeepsFittingWorkout(d: WorkoutData, minutes: int)
    requires forall j :: 0 <= j < |d.exercises| ==>
      d.exercises[j].minute.Some? && d.exercises[j].minute.value <= Clamp(minutes, 1, MaxMinutes)
    ensures UpdateTotalMinutes(d, minutes).exercises == d.exercises
  {
    Lists.FilterAll(d.exercises, Within(Clamp(minutes, 1, MaxMinutes)));
  }

  /** The exercise `addExerciseToMinute` appends: at that minute, 10 reps, bodyweight, numbered after the last one. */
  function NewEmomExercise(d: WorkoutData, minute: int, exerciseId: int, name: string): (e: Exercise)
    ensures e.exerciseId == exerciseId && e.name == Some(name) && e.minute == Some(minute)
    ensures e.orderInWorkout == |d.exercises| + 1 && e.reps == Some(10)
    ensures e.weightDescription == Some("bodyweight")
  {
    BaseExercise(exerciseId, |d.exercises| + 1, Some(name)).(
      minute := Some(minute), reps := Some(10), weightDescription := Some("bodyweight"))
  }

  /** `addExerciseToMinute`: the new exercise goes last; the rest of the workout is kept. */
  function AddExerciseToMinute(d: WorkoutData, minute: int, exerciseId: int, name: string): (r: WorkoutData)
    ensures r.(exercises := d.exercises) == d
    ensures |r.exercises| == |d.exercises| + 1 && r.exercises[..|d.exercises|] == d.exercises
    ensures r.exercises[|d.exercises|] == NewEmomExercise(d, minute, exerciseId, name)
  {
    d.(exercises := d.exercises + [NewEmomExercise(d, minute, exerciseId, name)])
  }

  /** `removeExercise`: drop slot `i`; the others keep their `orderInWorkout`. */
  function RemoveExercise(d: WorkoutData, i: int): (r: WorkoutData)
    ensures r.(exercises := d.exercises) == d
    ensures |r.exercises| == if 0 <= i < |d.exercises| then |d.exercises| - 1 else |d.exercises|
    ensures forall e :: e in r.exercises ==> e in d.exercises
    ensures 0 <= i < |d.exercises| ==> r.exercises == d.exercises[..i] + d.exercises[i + 1..]
    ensures !(0 <= i < |d.exercises|) ==> r == d
  {
    d.(exercises := Lists.RemoveAt(d.exercises, i))
  }

  /**
   * Since removal does not renumber, removing any but the last of a workout
   * numbered 1..n and then adding an exercise leaves two exercises numbered n.
   */
  lemma RemoveThenAddRepeatsLastOrder(d: WorkoutData, i: nat, minute: int, exerciseId: int, name: string)
    requires OrdersFromOne(d.exercises) && i + 1 < |d.exercises|
    ensures var r := AddExerciseToMinute(RemoveExercise(d, i), minute, exerciseId, name).exercises;
      |r| == |d.exercises| && r[|r| - 2].orderInWorkout == r[|r| - 1].orderInWorkout == |d.exercises|
  {
  }

  /** `getExercisesForMinute`: the exercises at that minute, in workout order. */
  function ExercisesForMinute(d: WorkoutData, minute: int): (r: seq<Exercise>)
    ensures forall j :: 0 <= j < |r| ==> r[j].minute == Some(minute)
    ensures forall e :: e in r <==> e in d.exercises && e.minute == Some(minute)
  {
    Lists.Filter(d.exercises, AtMinute(minute))
  }

  /** Adding at one minute appends to that minute's list and leaves every other minute's list as it was. */
  lemma AddShowsAtItsMinuteOnly(d: WorkoutData, minute: int, exerciseId: int, name: string, other: int)
    ensures var r := AddExerciseToMinute(d, minute, exerciseId, name);
      ExercisesForMinute(r, minute) == ExercisesForMinute(d, minute) + [NewEmomExercise(d, minute, exerciseId, name)]
      && (other != minute ==> ExercisesForMinute(r, other) == ExercisesForMinute(d, other))
  {
    var e := NewEmomExercise(d, minute, exerciseId, name);
    Lists.FilterAppend(d.exercises, [e], AtMinute(minute));
    Lists.FilterAppend(d.exercises, [e], AtMinute(other));
    assert [e][..0] == [];
  }

  /** JavaScript truthiness of the selected minute: set and not zero. */
  predicate Selected(selectedMinute: Option<int>)
  {
    selectedMinute.Some? && selectedMinute.value != 0
  }

  /** The builder with its picker state; `data` is the workout its `onChange` hands back. */
  class Builder {
    var data: WorkoutData
    var showExercisePicker: bool
    var selectedMinute: Option<int>

    constructor(data: WorkoutData)
      ensures this.data == data && !showExercisePicker && selectedMinute.None?
    {
      this.data := data;
      showExercisePicker := false;
      selectedMinute := None;
    }

    /** `handleAddExercise`: open the picker for a minute. */
    method HandleAddExercise(minute: int)
      modifies this
      ensures data == old(data) && showExercisePicker && selectedMinute == Some(minute)
    {
      selectedMinute := Some(minute);
      showExercisePicker := true;
    }

    /**
     * `handleExerciseSelect`: the exercise is added at the selected minute
     * when there is one; the picker closes and forgets the minute either way.
     */
    method HandleExerciseSelect(exerciseId: int, name: string)
      modifies this
      ensures Selected(old(selectedMinute)) ==>
        data == AddExerciseToMinute(old(data), old(selectedMinute).value, exerciseId, name)
      ensures !Selected(old(selectedMinute)) ==> data == old(data)
      ensures !showExercisePicker && selectedMinute.None?
    {
      if Selected(selectedMinute) {
        data := AddExerciseToMinute(data, selectedMinute.value, exerciseId, name);
      }
      showExercisePicker := false;
      selectedMinute := None;
    }
  }
}
