/**
 * The Tabata workout builder: the round setting, the exercise list with its
 * classic 20 s / 10 s / 8-round defaults, the duration and interval totals,
 * and the timing presets.
 */
module TabataBuilder {
  import opened Wrappers
  import opened WorkoutTypes
  import Lists
  import opened Arith

  const MaxRounds: int := 32

  /** `updateTotalRounds`: the rounds input, kept within 1..32; nothing else changes. */
  function UpdateTotalRounds(d: WorkoutData, rounds: int): (r: WorkoutData)
    ensures r.(totalRounds := d.totalRounds) == d
    ensures r.totalRounds.Some? && 1 <= r.totalRounds.value <= MaxRounds
    ensures 1 <= rounds <= MaxRounds ==> r.totalRounds == Some(rounds)
    ensures rounds < 1 ==> r.totalRounds == Some(1)
    ensures rounds > MaxRounds ==> r.totalRounds == Some(MaxRounds)
  {
    d.(totalRounds := Some(Clamp(rounds, 1, MaxRounds)))
  }

  /** The exercise `addExercise` appends: classic timing, bodyweight, numbered after the last one. */
  function NewTabataExercise(d: WorkoutData, exerciseId: int, name: string): (e: Exercise)
    ensures e.exerciseId == exerciseId && e.name == Some(name)
    ensures e.orderInWorkout == |d.exercises| + 1 && e.exercisePosition == Some(|d.exercises| + 1)
    ensures IsClassic(e)
    ensures e.weightDescription == Some("bodyweight")
  {
    BaseExercise(exerciseId, |d.exercises| + 1, Some(name)).(
      exercisePosition := Some(|d.exercises| + 1),
      workTimeSeconds := Some(20), restTimeSeconds := Some(10), rounds := Some(8),
      weightDescription := Some("bodyweight"))
  }

  /** `addExercise`: the new exercise goes last; the rest of the workout is kept. */
  function AddExercise(d: WorkoutData, exerciseId: int, name: string): (r: WorkoutData)
    ensures r.(exercises := d.exercises) == d
    ensures |r.exercises| == |d.exercises| + 1 && r.exercises[..|d.exercises|] == d.exercises
    ensures r.exercises[|d.exercises|] == NewTabataExercise(d, exerciseId, name)
  {
    d.(exercises := d.exercises + [NewTabataExercise(d, exerciseId, name)])
  }

  /** The Tabata builder's renumbering: `exercisePosition` and `orderInWorkout` both set to the 1-based index. */
  function TabataStamp(e: Exercise, k: nat): Exercise
  {
    e.(exercisePosition := Some(k), orderInWorkout := k)
  }

  predicate PositionsFromOne(s: seq<Exercise>)
  {
    OrdersFromOne(s) && forall j :: 0 <= j < |s| ==> s[j].exercisePosition == Some(j + 1)
  }

  lemma TabataStampStamps()
    ensures Stamps(TabataStamp)
  {
  }

  /** `removeExercise`: drop slot `i`, then renumber. */
  function RemoveExercise(d: WorkoutData, i: int): (r: WorkoutData)
    ensures r.(exercises := d.exercises) == d
    ensures |r.exercises| == if 0 <= i < |d.exercises| then |d.exercises| - 1 else |d.exercises|
  {
    d.(exercises := Lists.Renumber(Lists.RemoveAt(d.exercises, i), TabataStamp))
  }

  /** `moveExercise`: the splice move on a copy, then renumber. */
  method MoveExercise(d: WorkoutData, from: nat, to: nat) returns (r: WorkoutData)
    requires from < |d.exercises| && to < |d.exercises|
    ensures r == d.(exercises := Lists.Renumber(Lists.Moved(d.exercises, from, to), TabataStamp))
  {
    var exercises := Lists.SpliceMove(d.exercises, from, to);
    r := d.(exercises := Lists.Renumber(exercises, TabataStamp));
  }

  /** Removing keeps the others in order, otherwise untouched, and numbers both positions 1..n−1. */
  lemma RemoveKeepsOrderAndRenumbers(d: WorkoutData, i: nat)
    requires i < |d.exercises|
    ensures var r := RemoveExercise(d, i).exercises;
      |r| == |d.exercises| - 1 && PositionsFromOne(r)
      && UnnumberedAll(r) == Lists.RemoveAt(UnnumberedAll(d.exercises), i)
  {
    TabataStampStamps();
    RemoveRenumbered(d.exercises, i, TabataStamp);
  }

  /** Moving is a permutation, positions aside, that keeps the others in order and numbers both positions 1..n. */
  lemma MoveKeepsOrderAndRenumbers(d: WorkoutData, from: nat, to: nat)
    requires from < |d.exercises| && to < |d.exercises|
    ensures var r := Lists.Renumber(Lists.Moved(d.exercises, from, to), TabataStamp);
      PositionsFromOne(r)
      && Unnumbered(r[to]) == Unnumbered(d.exercises[from])
      && Lists.RemoveAt(UnnumberedAll(r), to) == Lists.RemoveAt(UnnumberedAll(d.exercises), from)
      && multiset(UnnumberedAll(r)) == multiset(UnnumberedAll(d.exercises))
  {
    TabataStampStamps();
    MoveRenumbered(d.exercises, from, to, TabataStamp);
  }

  // ---------------------------------------------------------------- totals

  /** An exercise whose work, rest and rounds are all set. */
  predicate HasTimings(e: Exercise)
  {
    e.workTimeSeconds.Some? && e.restTimeSeconds.Some? && e.rounds.Some?
  }

  predicate AllTimed(s: seq<Exercise>)
  {
    forall i :: 0 <= i < |s| ==> HasTimings(s[i])
  }

  /** The classic Tabata timing: 20 s work, 10 s rest, 8 rounds. */
  predicate IsClassic(e: Exercise)
  {
    e.workTimeSeconds == Some(20) && e.restTimeSeconds == Some(10) && e.rounds == Some(8)
  }

  /** One exercise's cycle: (work + rest) × rounds seconds. */
  function CycleTime(e: Exercise): int
    requires HasTimings(e)
  {
    (e.workTimeSeconds.value + e.restTimeSeconds.value) * e.rounds.value
  }

  function CycleTimes(s: seq<Exercise>): (r: seq<int>)
    requires AllTimed(s)
    ensures |r| == |s| && forall i :: 0 <= i < |s| ==> r[i] == CycleTime(s[i])
  {
    seq(|s|, i requires 0 <= i < |s| => CycleTime(s[i]))
  }

  function RoundsOf(s: seq<Exercise>): (r: seq<int>)
    requires AllTimed(s)
    ensures |r| == |s| && forall i :: 0 <= i < |s| ==> r[i] == s[i].rounds.value
  {
    seq(|s|, i requires 0 <= i < |s| => s[i].rounds.value)
  }

  /**
   * `calculateTotalDuration`: no exercises take no time; otherwise the cycle
   * times added up, rounded up to whole minutes.
   */
  function TotalDuration(s: seq<Exercise>): (r: int)
    requires AllTimed(s)
    ensures s == [] ==> r == 0
    ensures s != [] ==> 60 * r - 60 < Lists.Sum(CycleTimes(s)) <= 60 * r
  {
    if |s| == 0 then 0 else CeilDiv(Lists.Sum(CycleTimes(s)), 60)
  }

  /** `getTotalIntervals`: the rounds of all exercises added up. */
  function TotalIntervals(s: seq<Exercise>): int
    requires AllTimed(s)
  {
    Lists.Sum(RoundsOf(s))
  }

  /** A timing preset offered to apply to every exercise. */
  datatype TimingPreset = TimingPreset(title: string, work: int, rest: int, rounds: int)

  const PresetTimings: seq<TimingPreset> := [
    TimingPreset("Classic Tabata", 20, 10, 8),
    TimingPreset("Modified Tabata", 30, 15, 6),
    TimingPreset("HIIT Protocol", 45, 15, 4),
    TimingPreset("Sprint Intervals", 15, 45, 6)
  ]

  /** `applyPresetToAll`: work, rest and rounds overwritten on every exercise, nothing else. */
  function ApplyPresetToAll(d: WorkoutData, p: TimingPreset): (r: WorkoutData)
    ensures r.(exercises := d.exercises) == d && |r.exercises| == |d.exercises|
    ensures forall i :: 0 <= i < |d.exercises| ==>
      r.exercises[i] == d.exercises[i].(workTimeSeconds := Some(p.work), restTimeSeconds := Some(p.rest), rounds := Some(p.rounds))
  {
    d.(exercises := seq(|d.exercises|, i requires 0 <= i < |d.exercises| =>
      d.exercises[i].(workTimeSeconds := Some(p.work), restTimeSeconds := Some(p.rest), rounds := Some(p.rounds))))
  }

  /**
   * After a preset, every exercise runs the same cycle: the intervals are
   * rounds × n and the cycle times add up to n × (work + rest) × rounds.
   */
  lemma PresetTotals(d: WorkoutData, p: TimingPreset)
    ensures var s := ApplyPresetToAll(d, p).exercises;
      AllTimed(s)
      && TotalIntervals(s) == |s| * p.rounds
      && Lists.Sum(CycleTimes(s)) == |s| * ((p.work + p.rest) * p.rounds)
  {
    var s := ApplyPresetToAll(d, p).exercises;
    Lists.SumConstant(RoundsOf(s), p.rounds);
    Lists.SumConstant(CycleTimes(s), (p.work + p.rest) * p.rounds);
  }

  /** A classic exercise is exactly four minutes and eight intervals, so n of them are 4n minutes and 8n intervals. */
  lemma ClassicTabataIsFourMinutesEach(s: seq<Exercise>)
    requires forall i :: 0 <= i < |s| ==> IsClassic(s[i])
    ensures AllTimed(s) && TotalIntervals(s) == 8 * |s| && TotalDuration(s) == 4 * |s|
  {
    Lists.SumConstant(RoundsOf(s), 8);
    Lists.SumConstant(CycleTimes(s), 240);
    if s != [] {
      DivUnique(-240 * |s|, 60, -4 * |s|, 0);
    }
  }
}
