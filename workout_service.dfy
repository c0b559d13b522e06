/**
 * The workout service over its two tables, workouts and workout results:
 * listing (search, newest first, one page), lookup, create, update and delete
 * of workouts, and create, lookup and update of results.
 *
 * The database assigns ids; here each table keeps the next id to hand out.
 */
module WorkoutService {
  import opened Wrappers
  import Lists
  import WorkoutTypes
  import NameSpecs
  import Paginate

  datatype Workout = Workout(
    id: int,
    name: string,
    description: Option<string>,
    workoutTypeId: int,
    scoreTypeId: int,
    createdDate: Option<int>,
    modifiedDate: Option<int>)

  datatype WorkoutResult = WorkoutResult(
    id: int,
    workoutId: int,
    createdById: int,
    result: Option<string>,
    createdDate: Option<int>,
    modifiedDate: Option<int>)

  /**
   * How saving a workout fails: the unique index `workouts_name_key` refuses a
   * second row with a name another row already holds, and the save throws.
   */
  datatype SaveError = NameTaken

  datatype CreateWorkoutDto = CreateWorkoutDto(name: string, typeId: int, scoreTypeId: Option<int>)
  datatype UpdateWorkoutDto = UpdateWorkoutDto(name: string, description: Option<string>, typeId: int)
  datatype CreateResultDto = CreateResultDto(workoutId: int, result: Option<string>)
  datatype UpdateResultDto = UpdateResultDto(result: Option<string>)

  /**
   * The score type a new workout gets from its type: 1 (lowest time wins) for
   * For Time and Ladder, 2 for every other type, an unknown type included.
   */
  function ScoreTypeFor(typeId: int): (r: int)
    ensures r == 1 <==> typeId == WorkoutTypes.FOR_TIME || typeId == WorkoutTypes.LADDER
    ensures r == 1 || r == 2
  {
    if typeId == WorkoutTypes.FOR_TIME || typeId == WorkoutTypes.LADDER then 1 else 2
  }

  // ---------------------------------------------------------------- the workouts table

  function WorkoutId(id: int): Workout -> bool
  {
    (w: Workout) => w.id == id
  }

  /** `FirstOrDefault(new WorkoutByIdSpec(id))`. */
  function FindWorkout(workouts: seq<Workout>, id: int): (r: Option<nat>)
    ensures r.Some? ==> r.value < |workouts| && workouts[r.value].id == id
    ensures r.None? <==> forall j :: 0 <= j < |workouts| ==> workouts[j].id != id
  {
    Lists.FirstIndex(workouts, WorkoutId(id))
  }

  /** Ids are distinct and all below the next one to be handed out. */
  predicate WorkoutIdsValid(workouts: seq<Workout>, nextId: int)
  {
    (forall i, j :: 0 <= i < j < |workouts| ==> workouts[i].id != workouts[j].id)
    && forall j :: 0 <= j < |workouts| ==> workouts[j].id < nextId
  }

  /** No two workouts share a name, as the unique index on `name` keeps them. */
  predicate NamesDistinct(workouts: seq<Workout>)
  {
    forall i, j :: 0 <= i < j < |workouts| ==> workouts[i].name != workouts[j].name
  }

  /** Some workout holds `name`. */
  predicate NameHeld(workouts: seq<Workout>, name: string)
  {
    exists j :: 0 <= j < |workouts| && workouts[j].name == name
  }

  /** Some workout other than the one at position `k` holds `name`. */
  predicate NameTakenBesides(workouts: seq<Workout>, k: int, name: string)
  {
    exists j :: 0 <= j < |workouts| && j != k && workouts[j].name == name
  }

  /** `RetrieveWorkout`: the workout with that id, if there is one. */
  function RetrieveWorkout(workouts: seq<Workout>, id: int): (r: Option<Workout>)
    ensures r.Some? ==> r.value in workouts && r.value.id == id
    ensures r.None? <==> forall w :: w in workouts ==> w.id != id
  {
    var i := FindWorkout(workouts, id);
    if i.Some? then Some(workouts[i.value]) else None
  }

  /** The row `CreateWorkout` adds: mapped from the request, dated `now`, its score type set by its type. */
  function NewWorkout(id: int, dto: CreateWorkoutDto, now: int): (w: Workout)
    ensures w.id == id && w.name == dto.name && w.workoutTypeId == dto.typeId
    ensures w.scoreTypeId == ScoreTypeFor(dto.typeId)
  {
    Workout(id, dto.name, None, dto.typeId, ScoreTypeFor(dto.typeId), Some(now), None)
  }

  /**
   * `CreateWorkout`: the new row with the next id, or `NameTaken` and no change
   * when a workout already has that name.
   */
  function CreateWorkout(workouts: seq<Workout>, nextId: int, dto: CreateWorkoutDto, now: int): (r: (seq<Workout>, Result<int, SaveError>))
    ensures r.1.Err? <==> exists j :: 0 <= j < |workouts| && workouts[j].name == dto.name
    ensures r.1.Err? ==> r.0 == workouts
    ensures r.1.Ok? ==> r.1.value == nextId && r.0 == workouts + [NewWorkout(nextId, dto, now)]
  {
    if NameHeld(workouts, dto.name) then (workouts, Err(NameTaken))
    else (workouts + [NewWorkout(nextId, dto, now)], Ok(nextId))
  }

  /** What the update mapping writes over a workout: name, description, type and modification date. */
  function Updated(w: Workout, dto: UpdateWorkoutDto, now: int): (r: Workout)
    ensures r.id == w.id && r.scoreTypeId == w.scoreTypeId && r.createdDate == w.createdDate
    ensures r.name == dto.name && r.description == dto.description && r.workoutTypeId == dto.typeId
  {
    w.(name := dto.name, description := dto.description, workoutTypeId := dto.typeId, modifiedDate := Some(now))
  }

  /**
   * `UpdateWorkout`: false and no change for a missing id; `NameTaken` and no
   * change when another workout holds the new name; otherwise that row is
   * mapped over.
   */
  function UpdateWorkout(workouts: seq<Workout>, id: int, dto: UpdateWorkoutDto, now: int): (r: (seq<Workout>, Result<bool, SaveError>))
    ensures r.1 == Ok(false) <==> forall j :: 0 <= j < |workouts| ==> workouts[j].id != id
    ensures r.1.Err? <==> FindWorkout(workouts, id).Some? && NameTakenBesides(workouts, FindWorkout(workouts, id).value, dto.name)
    ensures r.1 != Ok(true) ==> r.0 == workouts
    ensures r.1 == Ok(true) ==> (|r.0| == |workouts|
      && (forall j :: 0 <= j < |workouts| ==> r.0[j].id == workouts[j].id)
      && (forall j :: 0 <= j < |workouts| && j != FindWorkout(workouts, id).value ==> r.0[j] == workouts[j])
      && RetrieveWorkout(r.0, id) == Some(Updated(RetrieveWorkout(workouts, id).value, dto, now)))
  {
    var i := FindWorkout(workouts, id);
    if i.None? then (workouts, Ok(false))
    else if NameTakenBesides(workouts, i.value, dto.name) then (workouts, Err(NameTaken))
    else
      var after := workouts[i.value := Updated(workouts[i.value], dto, now)];
      assert after[i.value].id == id;
      assert forall j :: 0 <= j < i.value ==> after[j].id != id;
      (after, Ok(true))
  }

  /** `DeleteWorkout`: false and no change for a missing id; otherwise that row is removed. */
  function DeleteWorkout(workouts: seq<Workout>, id: int): (r: (seq<Workout>, bool))
    ensures r.1 <==> exists j :: 0 <= j < |workouts| && workouts[j].id == id
    ensures !r.1 ==> r.0 == workouts
    ensures r.1 ==> |r.0| == |workouts| - 1
    ensures forall w :: w in workouts && w.id != id ==> w in r.0
    ensures forall w :: w in r.0 ==> w in workouts
  {
    var i := FindWorkout(workouts, id);
    if i.None? then (workouts, false)
    else
      var k := i.value;
      var after := Lists.RemoveAt(workouts, k);
      assert forall j :: 0 <= j < |workouts| && j != k ==> workouts[j] in after by {
        forall j | 0 <= j < |workouts| && j != k
          ensures workouts[j] in after
        {
          if j < k {
            assert after[j] == workouts[j];
          } else {
            assert after[j - 1] == workouts[j];
          }
        }
      }
      (after, true)
  }

  /** Deleting a workout keeps the ids distinct and below the next id, and the names distinct. */
  lemma DeleteKeepsIdsValid(workouts: seq<Workout>, nextId: int, id: int)
    requires WorkoutIdsValid(workouts, nextId)
    ensures WorkoutIdsValid(DeleteWorkout(workouts, id).0, nextId)
    ensures NamesDistinct(workouts) ==> NamesDistinct(DeleteWorkout(workouts, id).0)
  {
    var i := FindWorkout(workouts, id);
    if i.Some? {
      var after := Lists.RemoveAt(workouts, i.value);
      assert forall j :: 0 <= j < |after| ==> after[j] == workouts[Kept(i.value, j)];
    }
  }

  /** The position in the old list of what sits at `j` once position `k` is removed. */
  function Kept(k: int, j: int): int
  {
    if j < k then j else j + 1
  }

  /** With distinct ids, a deleted workout is gone, and deleting it again reports false. */
  lemma DeleteRemovesExactlyThat(workouts: seq<Workout>, id: int)
    requires forall i, j :: 0 <= i < j < |workouts| ==> workouts[i].id != workouts[j].id
    ensures var (after, _) := DeleteWorkout(workouts, id);
      RetrieveWorkout(after, id).None? && !DeleteWorkout(after, id).1
  {
    var i := FindWorkout(workouts, id);
    if i.Some? {
      var k := i.value;
      var after := Lists.RemoveAt(workouts, k);
      forall j | 0 <= j < |after|
        ensures after[j].id != id
      {
        if j < k {
          assert after[j] == workouts[j];
        } else {
          assert after[j] == workouts[j + 1];
        }
      }
    }
  }

  /** A create that succeeds keeps the ids valid and the names distinct. */
  lemma CreateKeepsStoreValid(workouts: seq<Workout>, nextId: int, dto: CreateWorkoutDto, now: int)
    requires WorkoutIdsValid(workouts, nextId) && NamesDistinct(workouts)
    ensures var (after, r) := CreateWorkout(workouts, nextId, dto, now);
      WorkoutIdsValid(after, if r.Ok? then nextId + 1 else nextId) && NamesDistinct(after)
  {
  }

  /** An update keeps the ids valid and the names distinct, whatever it answers. */
  lemma UpdateKeepsStoreValid(workouts: seq<Workout>, nextId: int, id: int, dto: UpdateWorkoutDto, now: int)
    requires WorkoutIdsValid(workouts, nextId) && NamesDistinct(workouts)
    ensures var after := UpdateWorkout(workouts, id, dto, now).0;
      WorkoutIdsValid(after, nextId) && NamesDistinct(after)
  {
    var i := FindWorkout(workouts, id);
    if i.Some? && !NameTakenBesides(workouts, i.value, dto.name) {
      var after := UpdateWorkout(workouts, id, dto, now).0;
      assert after == workouts[i.value := Updated(workouts[i.value], dto, now)];
      forall a, b | 0 <= a < b < |after|
        ensures after[a].name != after[b].name
      {
        if a == i.value {
          assert after[b] == workouts[b];
        } else if b == i.value {
          assert after[a] == workouts[a];
        } else {
          assert after[a] == workouts[a] && after[b] == workouts[b];
        }
      }
    }
  }

  /** Creating a workout twice under one name: the second create is refused and changes nothing. */
  lemma SecondCreateRefused(workouts: seq<Workout>, nextId: int, dto: CreateWorkoutDto, now: int, later: int)
    ensures var (after, r) := CreateWorkout(workouts, nextId, dto, now);
      CreateWorkout(after, if r.Ok? then nextId + 1 else nextId, dto, later) == (after, Err(NameTaken))
  {
    var (after, r) := CreateWorkout(workouts, nextId, dto, now);
    if r.Ok? {
      assert after[|workouts|].name == dto.name;
    }
  }

  /** Renaming a workout to a name another workout holds is refused; renaming it to its own name is not. */
  lemma RenameOntoTakenNameRefused(now: int)
    ensures var fran := Workout(1, "Fran", None, WorkoutTypes.FOR_TIME, 1, None, None);
      var cindy := Workout(2, "Cindy", None, WorkoutTypes.AMRAP, 2, None, None);
      UpdateWorkout([fran, cindy], 2, UpdateWorkoutDto("Fran", None, WorkoutTypes.AMRAP), now) == ([fran, cindy], Err(NameTaken))
      && UpdateWorkout([fran, cindy], 2, UpdateWorkoutDto("Cindy", None, WorkoutTypes.AMRAP), now).1 == Ok(true)
  {
    var fran := Workout(1, "Fran", None, WorkoutTypes.FOR_TIME, 1, None, None);
    var cindy := Workout(2, "Cindy", None, WorkoutTypes.AMRAP, 2, None, None);
    assert [fran, cindy][0].id == 1 && [fran, cindy][1].id == 2;
    assert FindWorkout([fran, cindy], 2) == Some(1);
    assert [fran, cindy][0].name == "Fran";
    assert "Fran" != "Cindy" by {
      assert "Fran"[0] != "Cindy"[0];
    }
  }

  /**
   * Updating a workout never touches its score type: a workout moved from For
   * Time to AMRAP keeps the score type it was created with.
   */
  lemma UpdateKeepsScoreType(workouts: seq<Workout>, id: int, dto: UpdateWorkoutDto, now: int)
    requires RetrieveWorkout(workouts, id).Some?
    ensures RetrieveWorkout(UpdateWorkout(workouts, id, dto, now).0, id).value.scoreTypeId
      == RetrieveWorkout(workouts, id).value.scoreTypeId
  {
  }

  /** A For Time workout moved to AMRAP keeps score type 1, which no longer matches its type. */
  lemma ScoreTypeCanGoStale(now: int)
    ensures var created := NewWorkout(1, CreateWorkoutDto("Fran", WorkoutTypes.FOR_TIME, None), now);
      var moved := UpdateWorkout([created], 1, UpdateWorkoutDto("Fran", None, WorkoutTypes.AMRAP), now).0;
      moved[0].scoreTypeId != ScoreTypeFor(moved[0].workoutTypeId)
  {
    var created := NewWorkout(1, CreateWorkoutDto("Fran", WorkoutTypes.FOR_TIME, None), now);
    assert FindWorkout([created], 1) == Some(0);
    assert !NameTakenBesides([created], 0, "Fran");
  }

  // ---------------------------------------------------------------- listing

  /** `a` may come before `b` newest first: a missing date counts as newest, as SQL sorts nulls first descending. */
  predicate NewerOrSame(a: Option<int>, b: Option<int>)
  {
    a.None? || (b.Some? && a.value >= b.value)
  }

  predicate NewestFirstOrder(workouts: seq<Workout>)
  {
    forall i, j :: 0 <= i < j < |workouts| ==> NewerOrSame(workouts[i].createdDate, workouts[j].createdDate)
  }

  /** A workout at least as new as every element of a newest-first list may go in front of it. */
  lemma PrependKeepsOrder(h: Workout, rest: seq<Workout>)
    requires NewestFirstOrder(rest)
    requires forall x :: x in multiset(rest) ==> NewerOrSame(h.createdDate, x.createdDate)
    ensures NewestFirstOrder([h] + rest)
  {
    forall j | 0 <= j < |rest|
      ensures NewerOrSame(h.createdDate, rest[j].createdDate)
    {
      assert rest[j] in multiset(rest);
    }
  }

  /** Puts `w` in place among workouts already newest first, before the first one it is newer than or as new as. */
  function Insert(w: Workout, sorted: seq<Workout>): (r: seq<Workout>)
    requires NewestFirstOrder(sorted)
    ensures NewestFirstOrder(r)
    ensures multiset(r) == multiset(sorted) + multiset{w}
  {
    if sorted == [] then [w]
    else if NewerOrSame(w.createdDate, sorted[0].createdDate) then
      PrependKeepsOrder(w, sorted);
      [w] + sorted
    else
      var head, tail := sorted[0], sorted[1..];
      assert sorted == [head] + tail;
      var rest := Insert(w, tail);
      assert forall x :: x in multiset(tail) ==> NewerOrSame(head.createdDate, x.createdDate) by {
        forall x | x in multiset(tail)
          ensures NewerOrSame(head.createdDate, x.createdDate)
        {
          var j :| 0 <= j < |tail| && tail[j] == x;
          assert sorted[j + 1] == x;
        }
      }
      PrependKeepsOrder(head, rest);
      [head] + rest
  }

  /** `OrderByDescending(x => x.CreatedDate)`: the same workouts, newest first. */
  function NewestFirst(workouts: seq<Workout>): (r: seq<Workout>)
    ensures NewestFirstOrder(r)
    ensures multiset(r) == multiset(workouts)
    decreases |workouts|
  {
    if workouts == [] then []
    else
      var front := workouts[..|workouts| - 1];
      assert workouts == front + [workouts[|workouts| - 1]];
      Insert(workouts[|workouts| - 1], NewestFirst(front))
  }

  /** `RetrieveWorkouts`: the workouts the search keeps, newest first, one page of them. */
  function RetrieveWorkouts(workouts: seq<Workout>, pageSize: int, pageNumber: int, search: Option<string>): (r: Paginate.Page<Workout>)
    ensures var listed := NewestFirst(Filtered(workouts, search));
      r == Paginate.Paginate(listed, pageSize, pageNumber)
      && NewestFirstOrder(listed)
      && forall w :: w in listed <==> w in workouts && NameSpecs.NameMatches(search, w.name)
  {
    var listed := NewestFirst(Filtered(workouts, search));
    assert forall w :: w in listed <==> w in multiset(listed);
    Paginate.Paginate(listed, pageSize, pageNumber)
  }

  /** `Where(new WorkoutBySearchSpec(search))` on the full rows. */
  function Filtered(workouts: seq<Workout>, search: Option<string>): (r: seq<Workout>)
    ensures forall w :: w in r <==> w in workouts && NameSpecs.NameMatches(search, w.name)
  {
    Lists.Filter(workouts, (w: Workout) => NameSpecs.NameMatches(search, w.name))
  }

  // ---------------------------------------------------------------- the results table

  function ResultId(id: int): WorkoutResult -> bool
  {
    (r: WorkoutResult) => r.id == id
  }

  function ForWorkout(workoutId: int): WorkoutResult -> bool
  {
    (r: WorkoutResult) => r.workoutId == workoutId
  }

  predicate ResultIdsValid(results: seq<WorkoutResult>, nextId: int)
  {
    (forall i, j :: 0 <= i < j < |results| ==> results[i].id != results[j].id)
    && forall j :: 0 <= j < |results| ==> results[j].id < nextId
  }

  /** `ResultExists`: the current user has logged a result for that workout. */
  function ResultExists(results: seq<WorkoutResult>, workoutId: int, currentUserId: int): (r: bool)
    ensures r <==> exists j :: 0 <= j < |results| && results[j].workoutId == workoutId && results[j].createdById == currentUserId
  {
    Lists.FirstIndex(results, (x: WorkoutResult) => x.workoutId == workoutId && x.createdById == currentUserId).Some?
  }

  /** `RetrieveWorkoutResults`: one page of the workout's results, in stored order. */
  function RetrieveWorkoutResults(results: seq<WorkoutResult>, pageSize: int, pageNumber: int, workoutId: int): (r: Paginate.Page<WorkoutResult>)
    ensures r.totalCount == |Lists.Filter(results, ForWorkout(workoutId))|
    ensures forall x :: x in r.items ==> x in results && x.workoutId == workoutId
    ensures r == Paginate.Paginate(Lists.Filter(results, ForWorkout(workoutId)), pageSize, pageNumber)
  {
    var mine := Lists.Filter(results, ForWorkout(workoutId));
    var page := Paginate.Paginate(mine, pageSize, pageNumber);
    assert forall x :: x in page.items ==> x in mine by {
      var start := Paginate.Offset(pageSize, pageNumber);
      if start < |mine| {
        forall x | x in page.items
          ensures x in mine
        {
          var e := PageEnd(start, pageSize, |mine|);
          assert page.items == mine[start..e];
        }
      }
    }
    page
  }

  /** The end of a page that starts inside a list of length `n`. */
  function PageEnd(start: int, pageSize: int, n: int): int
  {
    if start + Paginate.PageSize(pageSize) < n then start + Paginate.PageSize(pageSize) else n
  }

  /** `UpdateWorkoutResult`: false and no change for a missing id; otherwise the result text is mapped over. */
  function UpdateResult(results: seq<WorkoutResult>, id: int, dto: UpdateResultDto, now: int): (r: (seq<WorkoutResult>, bool))
    ensures r.1 <==> exists j :: 0 <= j < |results| && results[j].id == id
    ensures !r.1 ==> r.0 == results
    ensures r.1 ==> (|r.0| == |results|
      && forall j :: 0 <= j < |results| ==>
           r.0[j] == if j == Lists.FirstIndex(results, ResultId(id)).value
                     then results[j].(result := dto.result, modifiedDate := Some(now)) else results[j])
  {
    var i := Lists.FirstIndex(results, ResultId(id));
    if i.None? then (results, false)
    else (results[i.value := results[i.value].(result := dto.result, modifiedDate := Some(now))], true)
  }

  /** Logging a result makes `ResultExists` true for its workout and author. */
  lemma CreatedResultExists(results: seq<WorkoutResult>, id: int, memberId: int, dto: CreateResultDto, now: int)
    ensures ResultExists(results + [WorkoutResult(id, dto.workoutId, memberId, dto.result, Some(now), None)], dto.workoutId, memberId)
  {
    var after := results + [WorkoutResult(id, dto.workoutId, memberId, dto.result, Some(now), None)];
    assert after[|results|].workoutId == dto.workoutId;
  }

  // ---------------------------------------------------------------- the service

  class Service {
    var workouts: seq<Workout>
    var results: seq<WorkoutResult>
    var nextWorkoutId: int
    var nextResultId: int

    predicate Valid()
      reads this
    {
      WorkoutIdsValid(workouts, nextWorkoutId) && NamesDistinct(workouts) && ResultIdsValid(results, nextResultId)
    }

    constructor()
      ensures Valid() && workouts == [] && results == []
    {
      workouts, results := [], [];
      nextWorkoutId, nextResultId := 1, 1;
    }

    /**
     * `CreateWorkout`: the new workout's id, not used by any workout before, or
     * `NameTaken` with nothing saved when the name is already held.
     */
    method CreateWorkoutOf(dto: CreateWorkoutDto, now: int) returns (r: Result<int, SaveError>)
      requires Valid()
      modifies this
      ensures Valid()
      ensures (workouts, r) == CreateWorkout(old(workouts), old(nextWorkoutId), dto, now)
      ensures r.Ok? ==> forall w :: w in old(workouts) ==> w.id != r.value
      ensures results == old(results)
    {
      CreateKeepsStoreValid(workouts, nextWorkoutId, dto, now);
      if NameHeld(workouts, dto.name) {
        return Err(NameTaken);
      }
      r := Ok(nextWorkoutId);
      workouts := workouts + [NewWorkout(nextWorkoutId, dto, now)];
      nextWorkoutId := nextWorkoutId + 1;
    }

    method UpdateWorkoutOf(id: int, dto: UpdateWorkoutDto, now: int) returns (updated: Result<bool, SaveError>)
      requires Valid()
      modifies this
      ensures Valid()
      ensures (workouts, updated) == UpdateWorkout(old(workouts), id, dto, now)
      ensures results == old(results) && nextWorkoutId == old(nextWorkoutId)
    {
      UpdateKeepsStoreValid(workouts, nextWorkoutId, id, dto, now);
      var i := FindWorkout(workouts, id);
      if i.None? {
        return Ok(false);
      }
      if NameTakenBesides(workouts, i.value, dto.name) {
        return Err(NameTaken);
      }
      workouts := workouts[i.value := Updated(workouts[i.value], dto, now)];
      updated := Ok(true);
    }

    method DeleteWorkoutOf(id: int) returns (deleted: bool)
      requires Valid()
      modifies this
      ensures Valid()
      ensures (workouts, deleted) == DeleteWorkout(old(workouts), id)
      ensures RetrieveWorkout(workouts, id).None?
      ensures results == old(results) && nextWorkoutId == old(nextWorkoutId)
    {
      DeleteRemovesExactlyThat(workouts, id);
      DeleteKeepsIdsValid(workouts, nextWorkoutId, id);
      var i := FindWorkout(workouts, id);
      if i.None? {
        return false;
      }
      workouts := Lists.RemoveAt(workouts, i.value);
      deleted := true;
    }

    /** `CreateWorkoutResult` for the signed-in member. */
    method CreateWorkoutResult(memberId: int, dto: CreateResultDto, now: int) returns (id: int)
      requires Valid()
      modifies this
      ensures Valid()
      ensures forall x :: x in old(results) ==> x.id != id
      ensures results == old(results) + [WorkoutResult(id, dto.workoutId, memberId, dto.result, Some(now), None)]
      ensures ResultExists(results, dto.workoutId, memberId)
      ensures workouts == old(workouts)
    {
      id := nextResultId;
      CreatedResultExists(results, id, memberId, dto, now);
      results := results + [WorkoutResult(id, dto.workoutId, memberId, dto.result, Some(now), None)];
      nextResultId := nextResultId + 1;
    }

    method UpdateWorkoutResult(id: int, dto: UpdateResultDto, now: int) returns (updated: bool)
      requires Valid()
      modifies this
      ensures Valid()
      ensures (results, updated) == UpdateResult(old(results), id, dto, now)
      ensures workouts == old(workouts) && nextResultId == old(nextResultId)
    {
      var i := Lists.FirstIndex(results, ResultId(id));
      if i.None? {
        return false;
      }
      results := results[i.value := results[i.value].(result := dto.result, modifiedDate := Some(now))];
      updated := true;
    }
  }
}
