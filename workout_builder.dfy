/**
 * The general workout builder: the plain exercise plan (sets, reps, time,
 * rest) with its add, remove, update and move edits, the starting data of
 * each workout type, and the exercise search box.
 */
module WorkoutBuilder {
  import opened Wrappers
  import opened WorkoutTypes
  import Lists
  import Text

  /** A planned exercise of a workout (`CreateWorkoutExercise`); `weightDescription` arrives through updates. */
  datatype PlanExercise = PlanExercise(
    exerciseId: int,
    orderInWorkout: int,
    sets: Option<int>,
    reps: Option<int>,
    timeSeconds: Option<int>,
    restSeconds: Option<int>,
    weightDescription: Option<string>,
    notes: Option<string>,
    name: Option<string>)

  /**
   * The starting type data: 12 minutes for EMOM, a 20-minute cap for AMRAP,
   * one round for For Time and Tabata, ascending for Ladder; no exercises.
   */
  function InitialTypeData(workoutTypeId: Option<int>): (d: WorkoutData)
    ensures d.exercises == []
    ensures workoutTypeId == Some(EMOM) ==> d == EmptyData().(totalMinutes := Some(12))
    ensures workoutTypeId == Some(AMRAP) ==> d == EmptyData().(timeCapMinutes := Some(20))
    ensures workoutTypeId == Some(FOR_TIME) || workoutTypeId == Some(TABATA) ==> d == EmptyData().(totalRounds := Some(1))
    ensures workoutTypeId == Some(LADDER) ==> d == EmptyData().(ladderType := Some("ascending"))
    ensures workoutTypeId.None? || !IsDefinedType(workoutTypeId.value) ==> d == EmptyData()
  {
    if workoutTypeId == Some(EMOM) then EmptyData().(totalMinutes := Some(12))
    else if workoutTypeId == Some(AMRAP) then EmptyData().(timeCapMinutes := Some(20))
    else if workoutTypeId == Some(FOR_TIME) then EmptyData().(totalRounds := Some(1))
    else if workoutTypeId == Some(TABATA) then EmptyData().(totalRounds := Some(1))
    else if workoutTypeId == Some(LADDER) then EmptyData().(ladderType := Some("ascending"))
    else EmptyData()
  }

  /** `getExerciseDefaults`: 1 set of 10 reps with 60 s rest, numbered after the last exercise; no name. */
  function ExerciseDefaults(exercises: seq<PlanExercise>, exerciseId: int): (e: PlanExercise)
    ensures e.exerciseId == exerciseId && e.orderInWorkout == |exercises| + 1
    ensures e.sets == Some(1) && e.reps == Some(10) && e.restSeconds == Some(60)
    ensures e.timeSeconds.None? && e.weightDescription.None? && e.notes.None? && e.name.None?
  {
    PlanExercise(exerciseId, |exercises| + 1, Some(1), Some(10), None, Some(60), None, None, None)
  }

  /** `orderInWorkout` runs 1..n in list order. */
  predicate NumberedFromOne(s: seq<PlanExercise>)
  {
    forall j :: 0 <= j < |s| ==> s[j].orderInWorkout == j + 1
  }

  /** Adding to a list numbered 1..n keeps it numbered 1..n+1. */
  lemma AddKeepsNumbering(exercises: seq<PlanExercise>, exerciseId: int)
    requires NumberedFromOne(exercises)
    ensures NumberedFromOne(exercises + [ExerciseDefaults(exercises, exerciseId)])
  {
  }

  /** An exercise with its position blanked out: what moves and removals must keep. */
  function Unordered(e: PlanExercise): PlanExercise
  {
    e.(orderInWorkout := 0)
  }

  function UnorderedAll(s: seq<PlanExercise>): (r: seq<PlanExercise>)
    ensures |r| == |s| && forall j :: 0 <= j < |s| ==> r[j] == Unordered(s[j])
  {
    seq(|s|, j requires 0 <= j < |s| => Unordered(s[j]))
  }

  function PlanStamp(e: PlanExercise, k: nat): PlanExercise
  {
    e.(orderInWorkout := k)
  }

  /** Renumbering touches only positions and numbers the list 1..n. */
  lemma RenumberKeepsPlan(s: seq<PlanExercise>)
    ensures var r := Lists.Renumber(s, PlanStamp);
      NumberedFromOne(r) && UnorderedAll(r) == UnorderedAll(s)
  {
  }

  /** `removeExercise`: drop slot `i`, then renumber `orderInWorkout`. */
  function RemoveExercise(exercises: seq<PlanExercise>, i: int): (r: seq<PlanExercise>)
    ensures |r| == if 0 <= i < |exercises| then |exercises| - 1 else |exercises|
  {
    Lists.Renumber(Lists.RemoveAt(exercises, i), PlanStamp)
  }

  /** Removing keeps the other exercises, in order and otherwise untouched, and numbers them 1..n−1. */
  lemma RemoveKeepsOrderAndRenumbers(exercises: seq<PlanExercise>, i: nat)
    requires i < |exercises|
    ensures var r := RemoveExercise(exercises, i);
      |r| == |exercises| - 1 && NumberedFromOne(r)
      && UnorderedAll(r) == Lists.RemoveAt(UnorderedAll(exercises), i)
  {
    RenumberKeepsPlan(Lists.RemoveAt(exercises, i));
  }

  /** A one-field update from the plan's inputs; an emptied input sends `undefined`. */
  datatype PlanEdit =
    | SetSets(sets: Option<int>)
    | SetReps(reps: Option<int>)
    | SetTimeSeconds(seconds: Option<int>)
    | SetRestSeconds(seconds: Option<int>)
    | SetWeightDescription(text: Option<string>)
    | SetNotes(text: Option<string>)

  function ApplyPlanEdit(e: PlanExercise, edit: PlanEdit): PlanExercise
  {
    match edit
    case SetSets(v) => e.(sets := v)
    case SetReps(v) => e.(reps := v)
    case SetTimeSeconds(v) => e.(timeSeconds := v)
    case SetRestSeconds(v) => e.(restSeconds := v)
    case SetWeightDescription(t) => e.(weightDescription := t)
    case SetNotes(t) => e.(notes := t)
  }

  /** `e.target.value || undefined` on a text input: an empty text is no value. */
  function TextInput(value: string): (r: Option<string>)
    ensures r.None? <==> value == ""
    ensures r.Some? ==> r.value == value
  {
    if value == "" then None else Some(value)
  }

  /** `updateExercise`: the update merged into slot `i` only. */
  function UpdateExercise(exercises: seq<PlanExercise>, i: int, edit: PlanEdit): (r: seq<PlanExercise>)
    ensures |r| == |exercises|
    ensures forall j :: 0 <= j < |exercises| ==> r[j] == if j == i then ApplyPlanEdit(exercises[j], edit) else exercises[j]
  {
    Lists.UpdateAt(exercises, i, e => ApplyPlanEdit(e, edit))
  }

  /** No input of the plan touches `orderInWorkout`, so an update keeps the numbering. */
  lemma UpdateKeepsNumbering(exercises: seq<PlanExercise>, i: int, edit: PlanEdit)
    requires NumberedFromOne(exercises)
    ensures NumberedFromOne(UpdateExercise(exercises, i, edit))
  {
    var r := UpdateExercise(exercises, i, edit);
    forall j | 0 <= j < |r|
      ensures r[j].orderInWorkout == j + 1
    {
      if j == i {
        match edit
        case SetSets(_) =>
        case SetReps(_) =>
        case SetTimeSeconds(_) =>
        case SetRestSeconds(_) =>
        case SetWeightDescription(_) =>
        case SetNotes(_) =>
      }
    }
  }

  /** `moveExercise`: the splice move on a copy, then renumber. */
  method MoveExercise(exercises: seq<PlanExercise>, from: nat, to: nat) returns (r: seq<PlanExercise>)
    requires from < |exercises| && to < |exercises|
    ensures r == Lists.Renumber(Lists.Moved(exercises, from, to), PlanStamp)
  {
    var moved := Lists.SpliceMove(exercises, from, to);
    r := Lists.Renumber(moved, PlanStamp);
  }

  lemma MovedCommutesWithUnordered(s: seq<PlanExercise>, from: nat, to: nat)
    requires from < |s| && to < |s|
    ensures UnorderedAll(Lists.Moved(s, from, to)) == Lists.Moved(UnorderedAll(s), from, to)
  {
    var a, b := UnorderedAll(Lists.Moved(s, from, to)), Lists.Moved(UnorderedAll(s), from, to);
    forall j | 0 <= j < |s|
      ensures a[j] == b[j]
    {
      Lists.MovedAt(s, from, to, j);
      Lists.MovedAt(UnorderedAll(s), from, to, j);
    }
  }

  /**
   * Moving is a permutation of the plan, positions aside: the moved exercise
   * lands at `to`, the others keep their order, and all are numbered 1..n.
   */
  lemma MoveKeepsOrderAndRenumbers(exercises: seq<PlanExercise>, from: nat, to: nat)
    requires from < |exercises| && to < |exercises|
    ensures var r := Lists.Renumber(Lists.Moved(exercises, from, to), PlanStamp);
      NumberedFromOne(r)
      && Unordered(r[to]) == Unordered(exercises[from])
      && Lists.RemoveAt(UnorderedAll(r), to) == Lists.RemoveAt(UnorderedAll(exercises), from)
      && multiset(UnorderedAll(r)) == multiset(UnorderedAll(exercises))
  {
    RenumberKeepsPlan(Lists.Moved(exercises, from, to));
    MovedCommutesWithUnordered(exercises, from, to);
    Lists.MovedKeepsOthersInOrder(UnorderedAll(exercises), from, to);
    Lists.MovedIsPermutation(UnorderedAll(exercises), from, to);
  }

  /**
   * The search runs, and its results replace the full list, from two UTF-16
   * code units on (JavaScript's `length`).
   */
  predicate SearchEnabled(searchTerm: string)
  {
    Text.Utf16Length(searchTerm) >= 2
  }

  /** `availableExercises`: the search results while the search runs, all exercises otherwise. */
  function AvailableExercises<T>(searchTerm: string, searchResults: seq<T>, allExercises: seq<T>): (r: seq<T>)
    ensures Text.Utf16Length(searchTerm) >= 2 ==> r == searchResults
    ensures Text.Utf16Length(searchTerm) < 2 ==> r == allExercises
  {
    if SearchEnabled(searchTerm) then searchResults else allExercises
  }

  /** A single emoji beyond U+FFFF is two code units long, so it already starts the search. */
  lemma OneAstralCharacterSearches<T>(searchResults: seq<T>, allExercises: seq<T>)
    ensures AvailableExercises("\U{1F525}", searchResults, allExercises) == searchResults
  {
    Text.AstralCharacterIsTwoUnits();
  }

  /** The builder's own state; `exercises` is the plan its `onExercisesChange` hands back. */
  class Builder {
    var exercises: seq<PlanExercise>
    var searchTerm: string
    var showExercisePicker: bool
    var workoutTypeData: WorkoutData

    constructor(exercises: seq<PlanExercise>, workoutTypeId: Option<int>)
      ensures this.exercises == exercises && workoutTypeData == InitialTypeData(workoutTypeId)
      ensures searchTerm == "" && !showExercisePicker
    {
      this.exercises := exercises;
      searchTerm := "";
      showExercisePicker := false;
      workoutTypeData := InitialTypeData(workoutTypeId);
    }

    /** `addExercise`: the defaults go last, the picker closes and the search is cleared. */
    method AddExercise(exerciseId: int)
      modifies this
      ensures exercises == old(exercises) + [ExerciseDefaults(old(exercises), exerciseId)]
      ensures !showExercisePicker && searchTerm == "" && !SearchEnabled(searchTerm)
      ensures workoutTypeData == old(workoutTypeData)
    {
      exercises := exercises + [ExerciseDefaults(exercises, exerciseId)];
      showExercisePicker := false;
      searchTerm := "";
    }

    /** The search box's `onChange`. */
    method SetSearchTerm(term: string)
      modifies this
      ensures searchTerm == term
      ensures exercises == old(exercises) && showExercisePicker == old(showExercisePicker)
      ensures workoutTypeData == old(workoutTypeData)
    {
      searchTerm := term;
    }

    /** `handleWorkoutTypeDataChange`: the type builder's new data is kept (and passed up). */
    method HandleWorkoutTypeDataChange(data: WorkoutData)
      modifies this
      ensures workoutTypeData == data
      ensures exercises == old(exercises) && searchTerm == old(searchTerm) && showExercisePicker == old(showExercisePicker)
    {
      workoutTypeData := data;
    }
  }
}
