/**
 * The member dashboard: how many results the member logged today, this week
 * and in all, their comments, the workout type they log most, their best
 * placing on any workout's leaderboard, and a zero-filled count per day over
 * the last seven days.
 *
 * Dates are day numbers counted from 0001-01-01 (a Monday), so that weekdays
 * follow .NET's `DayOfWeek` with Sunday as 0.
 */
module Dashboard {
  import opened Wrappers
  import Lists

  /** `DateTime.DayOfWeek` as a number, Sunday = 0 … Saturday = 6. */
  function DayOfWeek(day: int): (r: int)
    ensures 0 <= r < 7
  {
    (day + 1) % 7
  }

  /** `today.AddDays(-(int)today.DayOfWeek)`: the Sunday that starts today's week. */
  function WeekStart(today: int): (r: int)
    ensures r <= today < r + 7
    ensures DayOfWeek(r) == 0
  {
    var q := (today + 1) / 7;
    assert today + 1 == 7 * q + DayOfWeek(today);
    assert today - DayOfWeek(today) + 1 == 7 * q;
    today - DayOfWeek(today)
  }

  /** No later Sunday lies on or before today. */
  lemma WeekStartIsLatestSunday(today: int, d: int)
    requires d <= today && DayOfWeek(d) == 0
    ensures d <= WeekStart(today)
  {
    var a, q := (d + 1) / 7, (today + 1) / 7;
    assert d + 1 == 7 * a;
    assert today + 1 == 7 * q + DayOfWeek(today);
    assert WeekStart(today) + 1 == 7 * q;
  }

  /** A logged workout result joined with its workout; `None` stands for a null column. */
  datatype ResultRow = ResultRow(
    createdById: int,
    workoutId: int,
    workoutName: string,
    typeName: string,
    scoreTypeId: Option<int>,
    result: Option<string>,
    day: Option<int>)

  function ByMember(memberId: int): ResultRow -> bool
  {
    (r: ResultRow) => r.createdById == memberId
  }

  /** The member's results, the query every figure but the best result starts from. */
  function MemberRows(rows: seq<ResultRow>, memberId: int): seq<ResultRow>
  {
    Lists.Filter(rows, ByMember(memberId))
  }

  // ---------------------------------------------------------------- counts

  function OnDay(d: int): ResultRow -> bool
  {
    (r: ResultRow) => r.day == Some(d)
  }

  /** A null date never compares, so rows without one are only counted in the all-time total. */
  function FromDay(d: int): ResultRow -> bool
  {
    (r: ResultRow) => r.day.Some? && r.day.value >= d
  }

  datatype Counts = Counts(today: nat, thisWeek: nat, allTime: nat)

  /** `GetWorkoutCounts`: results dated today, dated on or after the week's start, and all of them. */
  function WorkoutCounts(rows: seq<ResultRow>, today: int): Counts
  {
    Counts(|Lists.Filter(rows, OnDay(today))|, |Lists.Filter(rows, FromDay(WeekStart(today)))|, |rows|)
  }

  /** Today's results are among this week's, and this week's among all. */
  lemma CountsAreNested(rows: seq<ResultRow>, today: int)
    ensures var c := WorkoutCounts(rows, today);
      c.today <= c.thisWeek <= c.allTime
  {
    Lists.FilterCountMonotone(rows, OnDay(today), FromDay(WeekStart(today)));
  }

  /** `GetCommentCount`: the comments the member wrote, given as their authors' ids. */
  function CommentCount(commentAuthors: seq<int>, memberId: int): (r: nat)
    ensures r <= |commentAuthors|
    ensures r == 0 <==> memberId !in commentAuthors
  {
    var mine := Lists.Filter(commentAuthors, (a: int) => a == memberId);
    assert memberId in commentAuthors ==> memberId in mine;
    assert |mine| > 0 ==> mine[0] in mine;
    |mine|
  }

  // ---------------------------------------------------------------- favourite type

  function OfType(name: string): ResultRow -> bool
  {
    (r: ResultRow) => r.typeName == name
  }

  function TypeCount(rows: seq<ResultRow>, name: string): nat
  {
    |Lists.Filter(rows, OfType(name))|
  }

  /** The type with the highest `count` among the first `k` rows' types; the earliest one wins a tie. */
  function FavoriteAmong(rows: seq<ResultRow>, count: string -> nat, k: nat): (r: Option<string>)
    requires k <= |rows|
    ensures r.None? <==> k == 0
    ensures r.Some? ==> exists j :: 0 <= j < k && rows[j].typeName == r.value
    ensures r.Some? ==> forall j :: 0 <= j < k ==> count(rows[j].typeName) <= count(r.value)
  {
    if k == 0 then None
    else
      var best := FavoriteAmong(rows, count, k - 1);
      var name := rows[k - 1].typeName;
      if best.None? || count(name) > count(best.value) then Some(name) else best
  }

  /**
   * `GetFavoriteWorkoutType`: the type name with the most results, none when
   * there are no results.
   */
  function FavoriteWorkoutType(rows: seq<ResultRow>): (r: Option<string>)
    ensures r.None? <==> rows == []
    ensures r.Some? ==> exists j :: 0 <= j < |rows| && rows[j].typeName == r.value
    ensures r.Some? ==> forall j :: 0 <= j < |rows| ==> TypeCount(rows, rows[j].typeName) <= TypeCount(rows, r.value)
  {
    FavoriteAmong(rows, name => TypeCount(rows, name), |rows|)
  }

  /** The favourite is logged at least as often as any other name, logged or not. */
  lemma FavoriteIsMostLogged(rows: seq<ResultRow>, name: string)
    requires FavoriteWorkoutType(rows).Some?
    ensures TypeCount(rows, name) <= TypeCount(rows, FavoriteWorkoutType(rows).value)
  {
    var f := FavoriteWorkoutType(rows).value;
    if TypeCount(rows, name) > 0 {
      var x := Lists.Filter(rows, OfType(name))[0];
      assert x in rows;
      var j :| 0 <= j < |rows| && rows[j] == x;
      assert rows[j].typeName == name;
    }
  }

  // ---------------------------------------------------------------- weekly counts

  function CountOn(rows: seq<ResultRow>, d: int): nat
  {
    |Lists.Filter(rows, OnDay(d))|
  }

  /** The dates on or after `from` that have a result, once each, in order of first appearance. */
  function DaysFrom(rows: seq<ResultRow>, from: int): (r: seq<int>)
    ensures forall d :: d in r <==> d >= from && exists j :: 0 <= j < |rows| && rows[j].day == Some(d)
    decreases |rows|
  {
    if rows == [] then []
    else
      var front, last := rows[..|rows| - 1], rows[|rows| - 1];
      var days := DaysFrom(front, from);
      assert forall j :: 0 <= j < |front| ==> front[j] == rows[j];
      if last.day.None? || last.day.value < from || last.day.value in days then days else days + [last.day.value]
  }

  datatype DailyCount = DailyCount(date: int, count: nat)

  /** The grouped query: a count for each date from six days ago that has a result. */
  function RawCounts(rows: seq<ResultRow>, today: int): (r: seq<DailyCount>)
    ensures forall c :: c in r ==> c.count == CountOn(rows, c.date)
    ensures var days := DaysFrom(rows, today - 6);
      |r| == |days| && forall j :: 0 <= j < |r| ==> r[j].date == days[j]
  {
    var days := DaysFrom(rows, today - 6);
    seq(|days|, j requires 0 <= j < |days| => DailyCount(days[j], CountOn(rows, days[j])))
  }

  function OnDate(date: int): DailyCount -> bool
  {
    (c: DailyCount) => c.date == date
  }

  /** `GetWeeklyWorkoutCounts`: the seven days ending today, oldest first, a missing day counting 0. */
  function WeeklyWorkoutCounts(rows: seq<ResultRow>, today: int): (r: seq<DailyCount>)
    ensures |r| == 7
    ensures forall d :: 0 <= d < 7 ==> r[d].date == today - 6 + d
  {
    Week(RawCounts(rows, today), today)
  }

  /** The seven days ending `today`, each looked up in the grouped counts. */
  function Week(raw: seq<DailyCount>, today: int): (r: seq<DailyCount>)
    ensures |r| == 7
    ensures forall d :: 0 <= d < 7 ==> r[d] == CountFor(raw, today - 6 + d)
  {
    seq(7, d requires 0 <= d < 7 => CountFor(raw, today - 6 + d))
  }

  /** `rawCounts.FirstOrDefault(wc => wc.Date == date) ?? new … { Date = date, Count = 0 }`. */
  function CountFor(raw: seq<DailyCount>, date: int): (r: DailyCount)
    ensures r.date == date
  {
    var found := Lists.FirstIndex(raw, OnDate(date));
    if found.Some? then raw[found.value] else DailyCount(date, 0)
  }

  /** A date in the window reads, from the grouped counts, the number of results dated that day. */
  lemma CountForIsCountOn(rows: seq<ResultRow>, today: int, date: int)
    requires today - 6 <= date
    ensures CountFor(RawCounts(rows, today), date).count == CountOn(rows, date)
  {
    var raw := RawCounts(rows, today);
    var found := Lists.FirstIndex(raw, OnDate(date));
    if found.Some? {
      assert raw[found.value] in raw;
    } else {
      var days := DaysFrom(rows, today - 6);
      forall j | 0 <= j < |days|
        ensures days[j] != date
      {
        assert !OnDate(date)(raw[j]);
      }
      assert date !in days;
      Lists.FilterNone(rows, OnDay(date));
    }
  }

  /** Each day's entry is the number of results dated that day, whether the grouped query had it or not. */
  lemma WeeklyCountsAreDayCounts(rows: seq<ResultRow>, today: int, d: int)
    requires 0 <= d < 7
    ensures WeeklyWorkoutCounts(rows, today)[d].count == CountOn(rows, today - 6 + d)
  {
    CountForIsCountOn(rows, today, today - 6 + d);
  }

  /** The counts added up. */
  function Total(counts: seq<DailyCount>): int
  {
    TotalOfFirst(counts, |counts|)
  }

  /** The first `k` counts added up. */
  function TotalOfFirst(counts: seq<DailyCount>, k: nat): int
    requires k <= |counts|
  {
    if k == 0 then 0 else TotalOfFirst(counts, k - 1) + counts[k - 1].count
  }

  /** A row dated on one of the `n` days from `from` on. */
  function Window(from: int, n: int): ResultRow -> bool
  {
    (r: ResultRow) => r.day.Some? && from <= r.day.value < from + n
  }

  /** A window of `n` days is the window of its first `n - 1` days, plus its last day. */
  lemma WindowSplits(from: int, n: int, r: ResultRow)
    requires n > 0
    ensures Window(from, n)(r) <==> Window(from, n - 1)(r) || OnDay(from + n - 1)(r)
    ensures !(Window(from, n - 1)(r) && OnDay(from + n - 1)(r))
  {
  }

  /** How many results are dated within the `n` days from `from`. */
  function WindowCount(rows: seq<ResultRow>, from: int, n: int): nat
  {
    |Lists.Filter(rows, Window(from, n))|
  }

  /** Widening a window by one day adds that day's results. */
  lemma WindowCountStep(rows: seq<ResultRow>, from: int, n: int)
    requires n > 0
    ensures WindowCount(rows, from, n) == WindowCount(rows, from, n - 1) + CountOn(rows, from + n - 1)
  {
    forall j | 0 <= j < |rows|
      ensures Window(from, n)(rows[j]) <==> Window(from, n - 1)(rows[j]) || OnDay(from + n - 1)(rows[j])
      ensures !(Window(from, n - 1)(rows[j]) && OnDay(from + n - 1)(rows[j]))
    {
      WindowSplits(from, n, rows[j]);
    }
    Lists.FilterCountSplit(rows, Window(from, n), Window(from, n - 1), OnDay(from + n - 1));
  }

  /** The results dated on each of the `n` days from `from`, added up day by day. */
  function DayByDay(rows: seq<ResultRow>, from: int, n: nat): nat
  {
    if n == 0 then 0 else DayByDay(rows, from, n - 1) + CountOn(rows, from + n - 1)
  }

  lemma DayByDayUnfolds(rows: seq<ResultRow>, from: int, n: nat)
    requires n > 0
    ensures DayByDay(rows, from, n) == DayByDay(rows, from, n - 1) + CountOn(rows, from + (n - 1))
  {
    assert from + n - 1 == from + (n - 1);
  }

  /** A window of no days holds no results. */
  lemma EmptyWindow(rows: seq<ResultRow>, from: int)
    ensures WindowCount(rows, from, 0) == 0
  {
    Lists.FilterNone(rows, Window(from, 0));
  }

  /** The `n` days from `from`, added up one at a time, count the results dated within them. */
  lemma {:induction false} WindowOfDays(rows: seq<ResultRow>, from: int, n: nat)
    ensures DayByDay(rows, from, n) == WindowCount(rows, from, n)
  {
    if n > 0 {
      WindowOfDays(rows, from, n - 1);
      WindowCountStep(rows, from, n);
    } else {
      EmptyWindow(rows, from);
    }
  }

  /** The first `k` days of the week add up to their results counted day by day. */
  lemma {:induction false} WeekPrefixTotal(rows: seq<ResultRow>, today: int, k: nat)
    requires k <= 7
    ensures TotalOfFirst(WeeklyWorkoutCounts(rows, today), k) == DayByDay(rows, today - 6, k)
  {
    if k > 0 {
      WeekPrefixTotal(rows, today, k - 1);
      WeeklyCountsAreDayCounts(rows, today, k - 1);
      DayByDayUnfolds(rows, today - 6, k);
    }
  }

  /** The seven daily counts add up to the results dated within the last seven days. */
  lemma WeeklyTotalIsWindowCount(rows: seq<ResultRow>, today: int)
    ensures Total(WeeklyWorkoutCounts(rows, today)) == WindowCount(rows, today - 6, 7)
  {
    WeekPrefixTotal(rows, today, 7);
    WindowOfDays(rows, today - 6, 7);
  }

  // ---------------------------------------------------------------- best result

  /**
   * Ordinal string order by Unicode scalar value: the first differing character
   * decides, and a proper prefix comes first. It stands in for .NET's
   * culture-sensitive default comparison, which is not modelled.
   */
  predicate OrdinalLess(a: string, b: string)
    decreases |a|
  {
    if a == [] then b != []
    else if b == [] then false
    else if a[0] != b[0] then a[0] < b[0]
    else OrdinalLess(a[1..], b[1..])
  }

  lemma {:induction false} OrdinalLessIrreflexive(a: string)
    ensures !OrdinalLess(a, a)
    decreases |a|
  {
    if a != [] {
      OrdinalLessIrreflexive(a[1..]);
    }
  }

  function ResultText(r: ResultRow): string
  {
    if r.result.Some? then r.result.value else ""
  }

  /** The first sort key: the result for score type 1 (lower is better), otherwise blank. */
  function FirstKey(r: ResultRow): string
  {
    if r.scoreTypeId == Some(1) then ResultText(r) else ""
  }

  /** The second, descending, sort key: the result for every other score type, otherwise blank. */
  function SecondKey(r: ResultRow): string
  {
    if r.scoreTypeId != Some(1) then ResultText(r) else ""
  }

  /** `a` sorts strictly before `b` by the two keys. */
  predicate SortsBefore(a: ResultRow, b: ResultRow)
  {
    OrdinalLess(FirstKey(a), FirstKey(b))
    || (FirstKey(a) == FirstKey(b) && OrdinalLess(SecondKey(b), SecondKey(a)))
  }

  /** In the stable sort of `g`, row `j` is placed before row `i`. */
  predicate Ahead(g: seq<ResultRow>, j: nat, i: nat)
    requires j < |g| && i < |g|
  {
    SortsBefore(g[j], g[i])
    || (FirstKey(g[j]) == FirstKey(g[i]) && SecondKey(g[j]) == SecondKey(g[i]) && j < i)
  }

  /** How many of the first `k` rows the stable sort places before row `i`. */
  function AheadCount(g: seq<ResultRow>, i: nat, k: nat): (r: nat)
    requires i < |g| && k <= |g|
    ensures r <= k && (i < k ==> r < k)
  {
    if k == 0 then 0
    else
      OrdinalLessIrreflexive(FirstKey(g[i]));
      OrdinalLessIrreflexive(SecondKey(g[i]));
      AheadCount(g, i, k - 1) + (if Ahead(g, k - 1, i) then 1 else 0)
  }

  /** `RankedResults.IndexOf(row) + 1`: one more than the rows sorted before it. */
  function Rank(g: seq<ResultRow>, i: nat): (r: nat)
    requires i < |g|
    ensures 1 <= r <= |g|
  {
    1 + AheadCount(g, i, |g|)
  }

  lemma {:induction false} AheadCountZero(g: seq<ResultRow>, i: nat, k: nat)
    requires i < |g| && k <= |g|
    ensures AheadCount(g, i, k) == 0 <==> forall j :: 0 <= j < k ==> !Ahead(g, j, i)
  {
    if k > 0 {
      AheadCountZero(g, i, k - 1);
    }
  }

  /** A row ranks first exactly when no row of its workout is sorted before it. */
  lemma RankOneIsTop(g: seq<ResultRow>, i: nat)
    requires i < |g|
    ensures Rank(g, i) == 1 <==> forall j :: 0 <= j < |g| ==> !Ahead(g, j, i)
  {
    AheadCountZero(g, i, |g|);
  }

  /** The grouping key of the leaderboard: the workout, its name and its score type. */
  datatype Key = Key(workoutId: int, name: string, scoreTypeId: Option<int>)

  function KeyOf(r: ResultRow): Key
  {
    Key(r.workoutId, r.workoutName, r.scoreTypeId)
  }

  function WithKey(k: Key): ResultRow -> bool
  {
    (r: ResultRow) => r.result.Some? && KeyOf(r) == k
  }

  /** A group of the results that have a value, in their original order. */
  function Group(rows: seq<ResultRow>, k: Key): seq<ResultRow>
  {
    Lists.Filter(rows, WithKey(k))
  }

  /** The keys of the rows with a result, once each, in order of first appearance. */
  function Keys(rows: seq<ResultRow>): (r: seq<Key>)
    ensures forall k :: k in r <==> exists j :: 0 <= j < |rows| && rows[j].result.Some? && KeyOf(rows[j]) == k
    decreases |rows|
  {
    if rows == [] then []
    else
      var front, last := rows[..|rows| - 1], rows[|rows| - 1];
      var keys := Keys(front);
      assert forall j :: 0 <= j < |front| ==> front[j] == rows[j];
      if last.result.None? || KeyOf(last) in keys then keys else keys + [KeyOf(last)]
  }

  datatype Best = Best(workoutId: int, workoutName: string, result: string, rank: nat)

  /** A group's entry: the member's first result in it and that result's rank, if the member has one. */
  function Entry(rows: seq<ResultRow>, k: Key, memberId: int): (r: Option<Best>)
    ensures r.Some? <==> exists j :: 0 <= j < |rows| && rows[j].createdById == memberId && WithKey(k)(rows[j])
  {
    var g := Group(rows, k);
    var i := Lists.FirstIndex(g, ByMember(memberId));
    if i.None? then
      assert forall j :: 0 <= j < |rows| && WithKey(k)(rows[j]) ==> rows[j] in g;
      None
    else
      assert g[i.value] in rows;
      Some(Best(k.workoutId, k.name, ResultText(g[i.value]), Rank(g, i.value)))
  }

  /** The entries of the given groups, in their order, leaving out the groups without a member result. */
  function Entries(rows: seq<ResultRow>, keys: seq<Key>, memberId: int): (r: seq<Best>)
    ensures forall e :: e in r ==> exists k :: k in keys && Entry(rows, k, memberId) == Some(e)
    ensures forall k :: k in keys && Entry(rows, k, memberId).Some? ==> Entry(rows, k, memberId).value in r
  {
    if keys == [] then []
    else
      var e := Entry(rows, keys[0], memberId);
      (if e.Some? then [e.value] else []) + Entries(rows, keys[1..], memberId)
  }

  /** `MinBy(x => x.Rank)`: the first entry of least rank, none for no entries. */
  function MinByRank(entries: seq<Best>): (r: Option<Best>)
    ensures r.None? <==> entries == []
    ensures r.Some? ==> r.value in entries && forall e :: e in entries ==> r.value.rank <= e.rank
  {
    if entries == [] then None
    else
      var rest := MinByRank(entries[1..]);
      assert forall e :: e in entries ==> e == entries[0] || e in entries[1..];
      if rest.None? || entries[0].rank <= rest.value.rank then Some(entries[0]) else rest
  }

  /** `GetBestWorkoutResult`: over every member's results that have a value. */
  function BestWorkoutResult(rows: seq<ResultRow>, memberId: int): Option<Best>
  {
    MinByRank(Entries(rows, Keys(rows), memberId))
  }

  /** There is a best result exactly when the member has logged some result with a value. */
  lemma BestExistsIffMemberHasResult(rows: seq<ResultRow>, memberId: int)
    ensures BestWorkoutResult(rows, memberId).Some? <==>
      exists j :: 0 <= j < |rows| && rows[j].createdById == memberId && rows[j].result.Some?
  {
    if j :| 0 <= j < |rows| && rows[j].createdById == memberId && rows[j].result.Some? {
      var k := KeyOf(rows[j]);
      assert k in Keys(rows);
      assert Entry(rows, k, memberId).Some?;
    }
  }

  /** A group's entry is the member's own result in that group, ranked within the group. */
  lemma EntryIsMemberResult(rows: seq<ResultRow>, k: Key, memberId: int)
    requires Entry(rows, k, memberId).Some?
    ensures var e := Entry(rows, k, memberId).value;
      && e.workoutId == k.workoutId && 1 <= e.rank <= |Group(rows, k)|
      && exists j :: 0 <= j < |rows| && rows[j].createdById == memberId
           && rows[j].result == Some(e.result) && rows[j].workoutId == e.workoutId
  {
    var g := Group(rows, k);
    var i := Lists.FirstIndex(g, ByMember(memberId)).value;
    assert g[i] in rows;
    var j :| 0 <= j < |rows| && rows[j] == g[i];
  }

  /**
   * The best result is the member's own result on that workout, ranked within
   * the workout's results, and no other workout ranks the member higher.
   */
  lemma BestIsMemberResultOfLeastRank(rows: seq<ResultRow>, memberId: int)
    requires BestWorkoutResult(rows, memberId).Some?
    ensures var b := BestWorkoutResult(rows, memberId).value;
      && (exists j :: 0 <= j < |rows| && rows[j].createdById == memberId
            && rows[j].result == Some(b.result) && rows[j].workoutId == b.workoutId)
      && (exists k :: k in Keys(rows) && k.workoutId == b.workoutId && 1 <= b.rank <= |Group(rows, k)|)
      && forall k :: k in Keys(rows) && Entry(rows, k, memberId).Some? ==> b.rank <= Entry(rows, k, memberId).value.rank
  {
    var b := BestWorkoutResult(rows, memberId).value;
    var k :| k in Keys(rows) && Entry(rows, k, memberId) == Some(b);
    EntryIsMemberResult(rows, k, memberId);
  }

  // ---------------------------------------------------------------- the dashboard

  datatype DashboardView = DashboardView(
    workoutsToday: nat,
    workoutsThisWeek: nat,
    workoutsAllTime: nat,
    totalComments: nat,
    favoriteWorkoutType: Option<string>,
    bestWorkoutResult: Option<Best>,
    weeklyWorkoutCounts: seq<DailyCount>)

  /** `GetMemberDashboardAsync` for the signed-in member on day `today`. */
  function MemberDashboard(rows: seq<ResultRow>, commentAuthors: seq<int>, memberId: int, today: int): DashboardView
  {
    var mine := MemberRows(rows, memberId);
    var c := WorkoutCounts(mine, today);
    DashboardView(c.today, c.thisWeek, c.allTime, CommentCount(commentAuthors, memberId),
      FavoriteWorkoutType(mine), BestWorkoutResult(rows, memberId), WeeklyWorkoutCounts(mine, today))
  }

  /** A member without results has no best result. */
  lemma NoResultsNoBest(rows: seq<ResultRow>, memberId: int)
    requires MemberRows(rows, memberId) == []
    ensures BestWorkoutResult(rows, memberId).None?
  {
    BestExistsIffMemberHasResult(rows, memberId);
    assert forall j :: 0 <= j < |rows| && rows[j].createdById == memberId ==> rows[j] in MemberRows(rows, memberId);
  }

  /**
   * The figures agree with each other: today's count is within the week's and
   * the week's within all time; a favourite type and a best result exist only
   * for a member with results; the last seven days hold no more than all time.
   */
  lemma DashboardIsConsistent(rows: seq<ResultRow>, commentAuthors: seq<int>, memberId: int, today: int)
    ensures var v := MemberDashboard(rows, commentAuthors, memberId, today);
      && v.workoutsToday <= v.workoutsThisWeek <= v.workoutsAllTime
      && (v.favoriteWorkoutType.None? <==> v.workoutsAllTime == 0)
      && (v.workoutsAllTime == 0 ==> v.bestWorkoutResult.None?)
      && Total(v.weeklyWorkoutCounts) <= v.workoutsAllTime
  {
    var mine := MemberRows(rows, memberId);
    CountsAreNested(mine, today);
    WeeklyTotalIsWindowCount(mine, today);
    if mine == [] {
      NoResultsNoBest(rows, memberId);
    }
  }
}
