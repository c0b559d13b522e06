/**
 * The ladder workout builder: the rep sequence of one ladder exercise
 * (ascending, descending or pyramid), the totals and time estimate shown in
 * the builder, and the edits of the exercise list.
 */
module LadderBuilder {
  import opened Wrappers
  import opened WorkoutTypes
  import Lists
  import opened Arith

  // ---------------------------------------------------------------- the rep sequence

  /** `for (i = start; i <= end; i += inc) push(i)`, for a positive step. */
  function Ascending(start: int, end: int, inc: int): (r: seq<int>)
    requires inc >= 1
    ensures |r| == if start <= end then (end - start) / inc + 1 else 0
    ensures forall k :: 0 <= k < |r| ==> r[k] == start + k * inc && r[k] <= end
    decreases end - start
  {
    if start > end then []
    else
      StepCount(end - start, inc);
      [start] + Ascending(start + inc, end, inc)
  }

  /** `for (i = start; i >= end; i -= inc) push(i)`, for a positive step. */
  function Descending(start: int, end: int, inc: int): (r: seq<int>)
    requires inc >= 1
    ensures |r| == if start >= end then (start - end) / inc + 1 else 0
    ensures forall k :: 0 <= k < |r| ==> r[k] == start - k * inc && r[k] >= end
    decreases start - end
  {
    if start < end then []
    else
      StepCount(start - end, inc);
      [start] + Descending(start - inc, end, inc)
  }

  /** One more step fits exactly when the remaining range is at least the step. */
  lemma StepCount(range: int, inc: int)
    requires range >= 0 && inc >= 1
    ensures range - inc >= 0 ==> (range - inc) / inc + 1 == range / inc
    ensures range - inc < 0 ==> range / inc == 0
  {
    if range - inc >= 0 {
      var q, m := (range - inc) / inc, (range - inc) % inc;
      assert range == (q + 1) * inc + m;
      DivUnique(range, inc, q + 1, m);
    } else {
      DivUnique(range, inc, 0, range);
    }
  }

  /**
   * `generateLadderSequence` with the step guarded: a step below 1 yields no
   * sets, as the validator's "Increment must be at least 1" rule requires; an
   * unknown ladder type yields no sets.
   */
  function LadderSequence(kind: string, start: int, end: int, inc: int): (r: seq<int>)
    ensures kind != "ascending" && kind != "descending" && kind != "pyramid" ==> r == []
    ensures inc < 1 ==> r == []
  {
    if inc < 1 then []
    else if kind == "ascending" then Ascending(start, end, inc)
    else if kind == "descending" then Descending(start, end, inc)
    else if kind == "pyramid" then Ascending(start, end, inc) + Descending(end - inc, start, inc)
    else []
  }

  /** The ascending run stops at the last value not above `end`: one more step would pass it. */
  lemma AscendingStopsBeforeEnd(start: int, end: int, inc: int)
    requires inc >= 1 && start <= end
    ensures var r := Ascending(start, end, inc); |r| > 0 && r[0] == start && r[|r| - 1] + inc > end
  {
    var r := Ascending(start, end, inc);
    var q := (end - start) / inc;
    assert r[|r| - 1] == start + q * inc;
    assert end - start < q * inc + inc;
  }

  /** The descending run stops at the last value not below `end`: one more step would pass it. */
  lemma DescendingStopsAboveEnd(start: int, end: int, inc: int)
    requires inc >= 1 && start >= end
    ensures var r := Descending(start, end, inc); |r| > 0 && r[0] == start && r[|r| - 1] - inc < end
  {
    var r := Descending(start, end, inc);
    var q := (start - end) / inc;
    assert r[|r| - 1] == start - q * inc;
    assert start - end < q * inc + inc;
  }

  /** The pyramid's way down, when the step divides the range: one value fewer than the way up. */
  lemma PyramidDownLength(start: int, end: int, inc: int, q: nat)
    requires inc >= 1 && end == start + q * inc
    ensures |Descending(end - inc, start, inc)| == q
  {
    if q > 0 {
      assert end - inc - start == (q - 1) * inc;
      DivUnique(end - inc - start, inc, q - 1, 0);
    }
  }

  /** Position `j` of a divisible pyramid is `k` steps above `start`, where `k` climbs to `q` and back. */
  lemma PyramidAt(start: int, end: int, inc: int, q: nat, j: nat)
    requires inc >= 1 && end == start + q * inc && j <= 2 * q
    ensures |LadderSequence("pyramid", start, end, inc)| == 2 * q + 1
    ensures LadderSequence("pyramid", start, end, inc)[j] == start + (if j <= q then j else 2 * q - j) * inc
  {
    DivUnique(end - start, inc, q, 0);
    PyramidDownLength(start, end, inc, q);
    var up, down := Ascending(start, end, inc), Descending(end - inc, start, inc);
    assert |up| == q + 1;
    if j > q {
      var k := j - q - 1;
      assert (up + down)[j] == down[k];
      assert down[k] == end - inc - k * inc;
      Distribute(k, 1, inc);
      Distribute(q, j - q, inc);
    } else {
      assert (up + down)[j] == up[j];
    }
  }

  /**
   * When the step divides the range, the pyramid climbs to `end` and comes back
   * down through the same values: a palindrome whose single peak is `end`.
   */
  lemma PyramidPalindrome(start: int, end: int, inc: int)
    requires inc >= 1 && start <= end && (end - start) % inc == 0
    ensures var r := LadderSequence("pyramid", start, end, inc);
      |r| % 2 == 1 && r[|r| / 2] == end
      && (forall j :: 0 <= j < |r| ==> r[j] == r[|r| - 1 - j])
      && (forall j :: 0 <= j < |r| && j != |r| / 2 ==> r[j] < end)
  {
    var q := (end - start) / inc;
    assert end == start + q * inc;
    PyramidAt(start, end, inc, q, q);
    PyramidMirror(start, end, inc, q);
    PyramidBelowPeak(start, end, inc, q);
  }

  lemma PyramidMirror(start: int, end: int, inc: int, q: nat)
    requires inc >= 1 && end == start + q * inc
    ensures var r := LadderSequence("pyramid", start, end, inc);
      forall j :: 0 <= j < |r| ==> r[j] == r[|r| - 1 - j]
  {
    var r := LadderSequence("pyramid", start, end, inc);
    PyramidAt(start, end, inc, q, 0);
    forall j | 0 <= j < |r|
      ensures r[j] == r[|r| - 1 - j]
    {
      PyramidAt(start, end, inc, q, j);
      PyramidAt(start, end, inc, q, 2 * q - j);
    }
  }

  lemma PyramidBelowPeak(start: int, end: int, inc: int, q: nat)
    requires inc >= 1 && end == start + q * inc
    ensures var r := LadderSequence("pyramid", start, end, inc);
      forall j :: 0 <= j < |r| && j != q ==> r[j] < end
  {
    var r := LadderSequence("pyramid", start, end, inc);
    PyramidAt(start, end, inc, q, 0);
    forall j | 0 <= j < |r| && j != q
      ensures r[j] < end
    {
      PyramidAt(start, end, inc, q, j);
      var k := if j <= q then j else 2 * q - j;
      MulAtLeast(q - k, inc);
      Distribute(q, k, inc);
    }
  }

  /** When the step does not divide the range, the pyramid ends above `start`: it is not a palindrome. */
  lemma PyramidLopsided(start: int, end: int, inc: int)
    requires inc >= 1 && end - start >= inc && (end - start) % inc != 0
    ensures var r := LadderSequence("pyramid", start, end, inc); |r| > 1 && r[0] == start && r[|r| - 1] > start
  {
    var up, down := Ascending(start, end, inc), Descending(end - inc, start, inc);
    var q, m := (end - start) / inc, (end - start) % inc;
    assert end - start == q * inc + m && 0 < m < inc && q >= 1;
    assert end - inc - start == (q - 1) * inc + m;
    assert (end - inc - start) / inc == q - 1;
    assert |down| == q;
    assert down[q - 1] == end - inc - (q - 1) * inc == start + m;
  }

  /** `generateLadderSequence`: the loops of the source, over the fields of a ladder exercise. */
  method GenerateLadderSequence(kind: string, start: int, end: int, inc: int) returns (sequence: seq<int>)
    ensures sequence == LadderSequence(kind, start, end, inc)
  {
    sequence := [];
    if inc < 1 {
      return;
    }
    if kind == "ascending" {
      sequence := PushUp(sequence, start, end, inc);
      assert sequence == Ascending(start, end, inc);
    } else if kind == "descending" {
      sequence := PushDown(sequence, start, end, inc);
      assert sequence == Descending(start, end, inc);
    } else if kind == "pyramid" {
      sequence := PushUp(sequence, start, end, inc);
      assert sequence == Ascending(start, end, inc);
      sequence := PushDown(sequence, end - inc, start, inc);
    }
  }

  /** One ascending `for` loop, pushing onto `before`. */
  method PushUp(before: seq<int>, start: int, end: int, inc: int) returns (sequence: seq<int>)
    requires inc >= 1
    ensures sequence == before + Ascending(start, end, inc)
  {
    sequence := before;
    var i := start;
    while i <= end
      invariant sequence + Ascending(i, end, inc) == before + Ascending(start, end, inc)
      decreases end - i
    {
      Lists.AppendAssoc(sequence, [i], Ascending(i + inc, end, inc));
      sequence := sequence + [i];
      i := i + inc;
    }
  }

  /** One descending `for` loop, pushing onto `before`. */
  method PushDown(before: seq<int>, start: int, end: int, inc: int) returns (sequence: seq<int>)
    requires inc >= 1
    ensures sequence == before + Descending(start, end, inc)
  {
    sequence := before;
    var i := start;
    while i >= end
      invariant sequence + Descending(i, end, inc) == before + Descending(start, end, inc)
      decreases i - end
    {
      Lists.AppendAssoc(sequence, [i], Descending(i - inc, end, inc));
      sequence := sequence + [i];
      i := i - inc;
    }
  }

  // ---------------------------------------------------------------- the loops as written

  /** The loop variable of the ascending `for` after `k` rounds, as written (no guard on the step). */
  function AscendingCursor(start: int, inc: int, k: nat): int
  {
    start + k * inc
  }

  /**
   * As written, a step of 0 or less never leaves the ascending loop: from any
   * `start <= end`, the guard `i <= end` holds after every number of rounds, so
   * the loop pushes without end. Clearing the increment input sends
   * `Number("") = 0`, and the builder renders the sequence on every change.
   */
  lemma AscendingNeverStopsWithoutStep(start: int, end: int, inc: int, k: nat)
    requires start <= end && inc <= 0
    ensures AscendingCursor(start, inc, k) <= end
  {
    assert k * inc <= 0;
  }

  /** The concrete case: a ladder from 1 to 10 whose increment input was cleared. */
  lemma ClearedIncrementHangs(k: nat)
    ensures AscendingCursor(1, 0, k) == 1 <= 10
    ensures LadderSequence("ascending", 1, 10, 0) == []
  {
  }

  // ---------------------------------------------------------------- per exercise

  /** A ladder exercise whose numbers and type are all filled in. */
  predicate HasLadderNumbers(e: Exercise)
  {
    e.ladderType.Some? && e.startReps.Some? && e.endReps.Some? && e.increment.Some?
  }

  /**
   * The sequence of a ladder exercise. The source also accepts an exercise
   * with a missing field; every comparison with `undefined` is false there, so
   * it yields no sets. Callers typed as `LadderExercise` always have the fields.
   */
  function ExerciseSequence(e: Exercise): seq<int>
    requires HasLadderNumbers(e)
  {
    LadderSequence(e.ladderType.value, e.startReps.value, e.endReps.value, e.increment.value)
  }

  predicate AllHaveLadderNumbers(s: seq<Exercise>)
  {
    forall i :: 0 <= i < |s| ==> HasLadderNumbers(s[i])
  }

  /** `calculateTotalReps`: the sum of the exercise's sequence. */
  function TotalReps(e: Exercise): int
    requires HasLadderNumbers(e)
  {
    Lists.Sum(ExerciseSequence(e))
  }

  /** `calculateWorkoutTotalReps`: the exercise totals added up. */
  function WorkoutTotalReps(s: seq<Exercise>): int
    requires AllHaveLadderNumbers(s)
  {
    if s == [] then 0 else WorkoutTotalReps(s[..|s| - 1]) + TotalReps(s[|s| - 1])
  }

  /** The number of sets: the sequence lengths added up. */
  function WorkoutTotalSets(s: seq<Exercise>): (r: nat)
    requires AllHaveLadderNumbers(s)
  {
    if s == [] then 0 else WorkoutTotalSets(s[..|s| - 1]) + |ExerciseSequence(s[|s| - 1])|
  }

  /** Every set of a ladder lies between its start and end reps, whichever way it runs. */
  lemma SetsWithinRange(e: Exercise)
    requires HasLadderNumbers(e)
    ensures var s, a, b := ExerciseSequence(e), e.startReps.value, e.endReps.value;
      forall k :: 0 <= k < |s| ==> (if a <= b then a else b) <= s[k] <= (if a <= b then b else a)
  {
    var s, a, b, inc := ExerciseSequence(e), e.startReps.value, e.endReps.value, e.increment.value;
    if inc >= 1 {
      var up, down := Ascending(a, b, inc), Descending(b - inc, a, inc);
      forall k | 0 <= k < |up| ensures a <= up[k] {
        if k > 0 { MulAtLeast(k, inc); }
      }
      forall k | 0 <= k < |down| ensures down[k] <= b - inc {
        if k > 0 { MulAtLeast(k, inc); }
      }
      forall k | 0 <= k < |Descending(a, b, inc)| ensures Descending(a, b, inc)[k] <= a {
        if k > 0 { MulAtLeast(k, inc); }
      }
    }
  }

  /** A ladder's rep total lies between its set count times the smaller and times the larger end. */
  lemma TotalRepsWithinRange(e: Exercise)
    requires HasLadderNumbers(e)
    ensures var n, a, b := |ExerciseSequence(e)|, e.startReps.value, e.endReps.value;
      n * (if a <= b then a else b) <= TotalReps(e) <= n * (if a <= b then b else a)
  {
    var s, a, b := ExerciseSequence(e), e.startReps.value, e.endReps.value;
    var least, most := if a <= b then a else b, if a <= b then b else a;
    SetsWithinRange(e);
    var lo, hi := seq(|s|, _ => least), seq(|s|, _ => most);
    Lists.SumMonotone(lo, s);
    Lists.SumMonotone(s, hi);
    Lists.SumConstant(lo, least);
    Lists.SumConstant(hi, most);
  }

  /** The workout total is the sum of the sequence of every exercise, one after the other. */
  lemma {:induction false} WorkoutTotalIsSumOfAllSets(s: seq<Exercise>)
    requires AllHaveLadderNumbers(s)
    ensures WorkoutTotalReps(s) == Lists.Sum(Lists.Flatten(SequencesOf(s)))
    ensures WorkoutTotalSets(s) == |Lists.Flatten(SequencesOf(s))|
  {
    if s != [] {
      var init := s[..|s| - 1];
      WorkoutTotalIsSumOfAllSets(init);
      assert SequencesOf(s)[..|s| - 1] == SequencesOf(init);
      Lists.FlattenSnoc(SequencesOf(s), |s| - 1);
      assert SequencesOf(s)[..|s|] == SequencesOf(s);
      Lists.SumAppend(Lists.Flatten(SequencesOf(init)), ExerciseSequence(s[|s| - 1]));
    }
  }

  function SequencesOf(s: seq<Exercise>): (r: seq<seq<int>>)
    requires AllHaveLadderNumbers(s)
    ensures |r| == |s| && forall i :: 0 <= i < |s| ==> r[i] == ExerciseSequence(s[i])
  {
    seq(|s|, i requires 0 <= i < |s| => ExerciseSequence(s[i]))
  }

  /**
   * `getEstimatedTime`: ⌈(2.5 s × reps + 10 s × sets) / 60⌉ minutes, computed
   * in halves of a second so that it stays whole.
   */
  function EstimatedMinutes(s: seq<Exercise>): (r: int)
    requires AllHaveLadderNumbers(s)
    ensures 120 * r - 120 < 5 * WorkoutTotalReps(s) + 20 * WorkoutTotalSets(s) <= 120 * r
  {
    CeilDiv(5 * WorkoutTotalReps(s) + 20 * WorkoutTotalSets(s), 120)
  }

  // ---------------------------------------------------------------- list edits

  /** `updateLadderType`: the workout's type, copied onto every exercise. */
  function UpdateLadderType(d: WorkoutData, kind: string): (r: WorkoutData)
    ensures r.ladderType == Some(kind) && |r.exercises| == |d.exercises|
    ensures forall i :: 0 <= i < |d.exercises| ==> r.exercises[i] == d.exercises[i].(ladderType := Some(kind))
    ensures r.(ladderType := d.ladderType, exercises := d.exercises) == d
  {
    d.(ladderType := Some(kind),
       exercises := seq(|d.exercises|, i requires 0 <= i < |d.exercises| => d.exercises[i].(ladderType := Some(kind))))
  }

  /** Setting the same type twice is setting it once, and afterwards every exercise follows the workout's type. */
  lemma UpdateLadderTypeIdempotent(d: WorkoutData, kind: string)
    ensures UpdateLadderType(UpdateLadderType(d, kind), kind) == UpdateLadderType(d, kind)
    ensures forall i :: 0 <= i < |d.exercises| ==> UpdateLadderType(d, kind).exercises[i].ladderType == Some(kind)
  {
    var once := UpdateLadderType(d, kind);
    assert UpdateLadderType(once, kind).exercises == once.exercises;
  }

  /** The exercise `addExercise` appends: 1 to 10 by 1, bodyweight, numbered after the last one. */
  function NewLadderExercise(d: WorkoutData, exerciseId: int, name: string): (e: Exercise)
    ensures e.exerciseId == exerciseId && e.name == Some(name)
    ensures e.orderInWorkout == |d.exercises| + 1 && e.ladderPosition == Some(|d.exercises| + 1)
    ensures e.ladderType == d.ladderType
    ensures e.startReps == Some(1) && e.endReps == Some(10) && e.increment == Some(1)
    ensures e.weightDescription == Some("bodyweight")
  {
    BaseExercise(exerciseId, |d.exercises| + 1, Some(name)).(
      ladderPosition := Some(|d.exercises| + 1), ladderType := d.ladderType,
      startReps := Some(1), endReps := Some(10), increment := Some(1),
      weightDescription := Some("bodyweight"))
  }

  function AddExercise(d: WorkoutData, exerciseId: int, name: string): (r: WorkoutData)
    ensures r == d.(exercises := d.exercises + [NewLadderExercise(d, exerciseId, name)])
  {
    d.(exercises := d.exercises + [NewLadderExercise(d, exerciseId, name)])
  }

  /**
   * The defaults make a full 1..10 ladder when ascending, and a 1..10..1
   * pyramid, but a descending ladder from 1 down to 10 has no sets at all
   * until edited.
   */
  lemma NewExerciseSequences(d: WorkoutData, exerciseId: int, name: string)
    requires d.ladderType.Some?
    ensures var e := NewLadderExercise(d, exerciseId, name);
      (d.ladderType.value == "ascending" ==> ExerciseSequence(e) == [1, 2, 3, 4, 5, 6, 7, 8, 9, 10])
      && (d.ladderType.value == "pyramid"
          ==> ExerciseSequence(e) == [1, 2, 3, 4, 5, 6, 7, 8, 9, 10, 9, 8, 7, 6, 5, 4, 3, 2, 1])
      && (d.ladderType.value == "descending" ==> ExerciseSequence(e) == [])
  {
    if d.ladderType.value == "ascending" {
      var r := Ascending(1, 10, 1);
      assert |r| == 10;
      assert r == [1, 2, 3, 4, 5, 6, 7, 8, 9, 10];
    } else if d.ladderType.value == "pyramid" {
      DefaultPyramid();
    }
  }

  /** The default numbers climb from 1 to 10 and back down to 1 as a pyramid. */
  lemma DefaultPyramid()
    ensures LadderSequence("pyramid", 1, 10, 1) == [1, 2, 3, 4, 5, 6, 7, 8, 9, 10, 9, 8, 7, 6, 5, 4, 3, 2, 1]
  {
    var r := LadderSequence("pyramid", 1, 10, 1);
    var want: seq<int> := [1, 2, 3, 4, 5, 6, 7, 8, 9, 10, 9, 8, 7, 6, 5, 4, 3, 2, 1];
    PyramidAt(1, 10, 1, 9, 0);
    forall j | 0 <= j < 19 ensures r[j] == want[j] {
      PyramidAt(1, 10, 1, 9, j);
    }
  }

  /** The ladder builder's renumbering: `ladderPosition` and `orderInWorkout` both set to the 1-based index. */
  function LadderStamp(e: Exercise, k: nat): Exercise
  {
    e.(ladderPosition := Some(k), orderInWorkout := k)
  }

  predicate LaddersFromOne(s: seq<Exercise>)
  {
    OrdersFromOne(s) && forall j :: 0 <= j < |s| ==> s[j].ladderPosition == Some(j + 1)
  }

  /** `removeExercise`: drop slot `i`, then renumber. */
  function RemoveExercise(d: WorkoutData, i: int): (r: WorkoutData)
    ensures r.(exercises := d.exercises) == d
    ensures |r.exercises| == if 0 <= i < |d.exercises| then |d.exercises| - 1 else |d.exercises|
  {
    d.(exercises := Lists.Renumber(Lists.RemoveAt(d.exercises, i), LadderStamp))
  }

  /** `moveExercise`: the splice move on a copy, then renumber. */
  method MoveExercise(d: WorkoutData, from: nat, to: nat) returns (r: WorkoutData)
    requires from < |d.exercises| && to < |d.exercises|
    ensures r == d.(exercises := Lists.Renumber(Lists.Moved(d.exercises, from, to), LadderStamp))
  {
    var exercises := Lists.SpliceMove(d.exercises, from, to);
    r := d.(exercises := Lists.Renumber(exercises, LadderStamp));
  }

  lemma LadderStampStamps()
    ensures Stamps(LadderStamp)
  {
  }

  /**
   * Removing keeps the other exercises, in their order and otherwise untouched,
   * and numbers both positions 1..n−1.
   */
  lemma RemoveKeepsOrderAndRenumbers(d: WorkoutData, i: nat)
    requires i < |d.exercises|
    ensures var r := RemoveExercise(d, i).exercises;
      |r| == |d.exercises| - 1 && LaddersFromOne(r)
      && UnnumberedAll(r) == Lists.RemoveAt(UnnumberedAll(d.exercises), i)
  {
    LadderStampStamps();
    RemoveRenumbered(d.exercises, i, LadderStamp);
  }

  /**
   * Moving is a permutation of the exercises, positions aside: the moved one
   * lands at `to`, the others keep their order, and both positions run 1..n.
   */
  lemma MoveKeepsOrderAndRenumbers(d: WorkoutData, from: nat, to: nat)
    requires from < |d.exercises| && to < |d.exercises|
    ensures var r := Lists.Renumber(Lists.Moved(d.exercises, from, to), LadderStamp);
      LaddersFromOne(r)
      && Unnumbered(r[to]) == Unnumbered(d.exercises[from])
      && Lists.RemoveAt(UnnumberedAll(r), to) == Lists.RemoveAt(UnnumberedAll(d.exercises), from)
      && multiset(UnnumberedAll(r)) == multiset(UnnumberedAll(d.exercises))
  {
    LadderStampStamps();
    MoveRenumbered(d.exercises, from, to, LadderStamp);
  }

  /** The presets offered to apply to every exercise. */
  datatype Preset = Preset(title: string, startReps: int, endReps: int, increment: int)

  const LadderPresets: seq<Preset> := [
    Preset("Classic 1-10", 1, 10, 1),
    Preset("Death by 1-21", 1, 21, 1),
    Preset("Even Numbers 2-20", 2, 20, 2),
    Preset("High Volume 5-50", 5, 50, 5)
  ]

  /** `applyPresetToAll`: start, end and increment overwritten on every exercise, nothing else. */
  function ApplyPresetToAll(d: WorkoutData, p: Preset): (r: WorkoutData)
    ensures r.(exercises := d.exercises) == d && |r.exercises| == |d.exercises|
    ensures forall i :: 0 <= i < |d.exercises| ==>
      r.exercises[i] == d.exercises[i].(startReps := Some(p.startReps), endReps := Some(p.endReps), increment := Some(p.increment))
  {
    d.(exercises := seq(|d.exercises|, i requires 0 <= i < |d.exercises| =>
      d.exercises[i].(startReps := Some(p.startReps), endReps := Some(p.endReps), increment := Some(p.increment))))
  }

  /** Every preset climbs in whole steps from start to end: its ascending ladder ends exactly at `endReps`. */
  lemma PresetsReachTheirEnd(i: nat)
    requires i < |LadderPresets|
    ensures var p := LadderPresets[i]; var r := LadderSequence("ascending", p.startReps, p.endReps, p.increment);
      |r| > 0 && r[|r| - 1] == p.endReps
  {
    var p := LadderPresets[i];
    var r := Ascending(p.startReps, p.endReps, p.increment);
    assert (p.endReps - p.startReps) % p.increment == 0;
    var q := (p.endReps - p.startReps) / p.increment;
    assert p.endReps - p.startReps == q * p.increment;
    assert r[q] == p.startReps + q * p.increment;
  }
}
