/**
 * Workout favourites: a member marks a workout as a favourite or unmarks it
 * with one toggle, and the counts per workout and per member.
 */
module Favorites {
  import opened Wrappers
  import Lists

  datatype Favorite = Favorite(memberId: int, workoutId: int, createdDate: int)

  function Pair(memberId: int, workoutId: int): Favorite -> bool
  {
    (f: Favorite) => f.memberId == memberId && f.workoutId == workoutId
  }

  function ForWorkout(workoutId: int): Favorite -> bool
  {
    (f: Favorite) => f.workoutId == workoutId
  }

  function ForMember(memberId: int): Favorite -> bool
  {
    (f: Favorite) => f.memberId == memberId
  }

  /** `IsFavoriteAsync`: some row for the pair. */
  function IsFavorite(favorites: seq<Favorite>, memberId: int, workoutId: int): (r: bool)
    ensures r <==> exists j :: 0 <= j < |favorites| && favorites[j].memberId == memberId && favorites[j].workoutId == workoutId
  {
    Lists.FirstIndex(favorites, Pair(memberId, workoutId)).Some?
  }

  /** `GetFavoriteCountAsync`: the rows for that workout. */
  function FavoriteCount(favorites: seq<Favorite>, workoutId: int): (n: nat)
    ensures n <= |favorites|
    ensures n == 0 <==> forall j :: 0 <= j < |favorites| ==> favorites[j].workoutId != workoutId
  {
    var rows := Lists.Filter(favorites, ForWorkout(workoutId));
    assert |rows| > 0 ==> rows[0] in rows;
    assert |rows| == 0 ==> forall j :: 0 <= j < |favorites| ==> favorites[j].workoutId != workoutId by {
      if |rows| == 0 {
        forall j | 0 <= j < |favorites|
          ensures favorites[j].workoutId != workoutId
        {
          assert favorites[j] in favorites;
        }
      }
    }
    |rows|
  }

  /** `GetMemberFavoriteCountAsync`: the rows of that member. */
  function MemberFavoriteCount(favorites: seq<Favorite>, memberId: int): (n: nat)
    ensures n <= |favorites|
    ensures n == 0 <==> forall j :: 0 <= j < |favorites| ==> favorites[j].memberId != memberId
  {
    var rows := Lists.Filter(favorites, ForMember(memberId));
    assert |rows| > 0 ==> rows[0] in rows;
    assert |rows| == 0 ==> forall j :: 0 <= j < |favorites| ==> favorites[j].memberId != memberId by {
      if |rows| == 0 {
        forall j | 0 <= j < |favorites|
          ensures favorites[j].memberId != memberId
        {
          assert favorites[j] in favorites;
        }
      }
    }
    |rows|
  }

  /** No pair is stored twice. */
  predicate Unique(favorites: seq<Favorite>)
  {
    forall i, j :: 0 <= i < j < |favorites| ==>
      !(favorites[i].memberId == favorites[j].memberId && favorites[i].workoutId == favorites[j].workoutId)
  }

  datatype ToggleResult = ToggleResult(isFavorited: bool, totalFavorites: nat)

  /**
   * `ToggleFavoriteAsync`: the pair's first row is deleted if there is one,
   * otherwise a row dated `now` is added; the answer reports which, and the
   * workout's count afterwards.
   */
  function Toggle(favorites: seq<Favorite>, memberId: int, workoutId: int, now: int): (r: (seq<Favorite>, ToggleResult))
    ensures r.1.totalFavorites == FavoriteCount(r.0, workoutId)
    ensures r.1.isFavorited <==> !IsFavorite(favorites, memberId, workoutId)
  {
    var i := Lists.FirstIndex(favorites, Pair(memberId, workoutId));
    var after := if i.Some? then Lists.RemoveAt(favorites, i.value) else favorites + [Favorite(memberId, workoutId, now)];
    (after, ToggleResult(i.None?, FavoriteCount(after, workoutId)))
  }

  /** In a store without repeated pairs, the pair is a favourite afterwards exactly when the toggle says so. */
  lemma ToggleReportsNewState(favorites: seq<Favorite>, memberId: int, workoutId: int, now: int)
    requires Unique(favorites)
    ensures var (after, result) := Toggle(favorites, memberId, workoutId, now);
      Unique(after) && IsFavorite(after, memberId, workoutId) == result.isFavorited
  {
    var i := Lists.FirstIndex(favorites, Pair(memberId, workoutId));
    var after := Toggle(favorites, memberId, workoutId, now).0;
    if i.Some? {
      var k := i.value;
      assert after == Lists.RemoveAt(favorites, k);
      forall a, b | 0 <= a < b < |after|
        ensures !(after[a].memberId == after[b].memberId && after[a].workoutId == after[b].workoutId)
      {
        assert after[a] == favorites[if a < k then a else a + 1];
        assert after[b] == favorites[if b < k then b else b + 1];
      }
      forall j | 0 <= j < |after|
        ensures !(after[j].memberId == memberId && after[j].workoutId == workoutId)
      {
        assert after[j] == favorites[if j < k then j else j + 1];
      }
    } else {
      assert after == favorites + [Favorite(memberId, workoutId, now)];
      assert after[|favorites|] == Favorite(memberId, workoutId, now);
    }
  }

  /** Every other pair keeps its favourite status. */
  lemma ToggleLeavesOtherPairs(favorites: seq<Favorite>, memberId: int, workoutId: int, now: int, m: int, w: int)
    requires m != memberId || w != workoutId
    ensures IsFavorite(Toggle(favorites, memberId, workoutId, now).0, m, w) == IsFavorite(favorites, m, w)
  {
    var i := Lists.FirstIndex(favorites, Pair(memberId, workoutId));
    var after := Toggle(favorites, memberId, workoutId, now).0;
    if i.Some? {
      var k := i.value;
      assert forall j :: 0 <= j < |after| ==> after[j] == if j < k then favorites[j] else favorites[j + 1];
      if IsFavorite(favorites, m, w) {
        var j :| 0 <= j < |favorites| && favorites[j].memberId == m && favorites[j].workoutId == w;
        assert j != k;
        if j < k {
          assert after[j] == favorites[j];
        } else {
          assert after[j - 1] == favorites[j];
        }
      }
    } else {
      if IsFavorite(favorites, m, w) {
        var j :| 0 <= j < |favorites| && favorites[j].memberId == m && favorites[j].workoutId == w;
        assert after[j] == favorites[j];
      }
    }
  }

  /** The pairs a store holds. */
  function Pairs(favorites: seq<Favorite>): set<(int, int)>
  {
    set j | 0 <= j < |favorites| :: (favorites[j].memberId, favorites[j].workoutId)
  }

  lemma PairsAreFavorites(favorites: seq<Favorite>, m: int, w: int)
    ensures (m, w) in Pairs(favorites) <==> IsFavorite(favorites, m, w)
  {
    if IsFavorite(favorites, m, w) {
      var j :| 0 <= j < |favorites| && favorites[j].memberId == m && favorites[j].workoutId == w;
      assert (favorites[j].memberId, favorites[j].workoutId) in Pairs(favorites);
    }
  }

  /** Toggling the same pair twice restores which pairs are favourites. */
  lemma ToggleTwiceRestoresPairs(favorites: seq<Favorite>, memberId: int, workoutId: int, now: int, later: int)
    requires Unique(favorites)
    ensures var once := Toggle(favorites, memberId, workoutId, now).0;
      Pairs(Toggle(once, memberId, workoutId, later).0) == Pairs(favorites)
  {
    var once := Toggle(favorites, memberId, workoutId, now).0;
    var twice := Toggle(once, memberId, workoutId, later).0;
    ToggleReportsNewState(favorites, memberId, workoutId, now);
    ToggleReportsNewState(once, memberId, workoutId, later);
    forall p: (int, int)
      ensures p in Pairs(twice) <==> p in Pairs(favorites)
    {
      PairsAreFavorites(twice, p.0, p.1);
      PairsAreFavorites(favorites, p.0, p.1);
      if p.0 != memberId || p.1 != workoutId {
        ToggleLeavesOtherPairs(favorites, memberId, workoutId, now, p.0, p.1);
        ToggleLeavesOtherPairs(once, memberId, workoutId, later, p.0, p.1);
      }
    }
  }

  /**
   * A toggle moves the number of rows satisfying `p` by one, when `p` holds of
   * every row for the toggled pair: up when it adds, down when it removes.
   */
  lemma ToggleMovesFilterByOne(favorites: seq<Favorite>, memberId: int, workoutId: int, now: int, p: Favorite -> bool)
    requires forall f: Favorite :: f.memberId == memberId && f.workoutId == workoutId ==> p(f)
    ensures var (after, result) := Toggle(favorites, memberId, workoutId, now);
      |Lists.Filter(after, p)| == if result.isFavorited then |Lists.Filter(favorites, p)| + 1
                                  else |Lists.Filter(favorites, p)| - 1
  {
    var i := Lists.FirstIndex(favorites, Pair(memberId, workoutId));
    if i.Some? {
      var k := i.value;
      assert favorites == favorites[..k] + [favorites[k]] + favorites[k + 1..];
      Lists.FilterAppend(favorites[..k] + [favorites[k]], favorites[k + 1..], p);
      Lists.FilterAppend(favorites[..k], [favorites[k]], p);
      Lists.FilterAppend(favorites[..k], favorites[k + 1..], p);
      assert Lists.Filter([favorites[k]], p) == [favorites[k]] by {
        assert [favorites[k]][..0] == [];
      }
    } else {
      var f := Favorite(memberId, workoutId, now);
      Lists.FilterAppend(favorites, [f], p);
      assert Lists.Filter([f], p) == [f] by {
        assert [f][..0] == [];
      }
    }
  }

  /** Adding raises the workout's count by one, and removing lowers it by one. */
  lemma ToggleMovesCountByOne(favorites: seq<Favorite>, memberId: int, workoutId: int, now: int)
    ensures var (after, result) := Toggle(favorites, memberId, workoutId, now);
      result.totalFavorites == if result.isFavorited then FavoriteCount(favorites, workoutId) + 1
                               else FavoriteCount(favorites, workoutId) - 1
  {
    ToggleMovesFilterByOne(favorites, memberId, workoutId, now, ForWorkout(workoutId));
  }

  /** The same for the member's count: one more after an add, one fewer after a removal. */
  lemma ToggleMovesMemberCountByOne(favorites: seq<Favorite>, memberId: int, workoutId: int, now: int)
    ensures var (after, result) := Toggle(favorites, memberId, workoutId, now);
      MemberFavoriteCount(after, memberId) == if result.isFavorited then MemberFavoriteCount(favorites, memberId) + 1
                                              else MemberFavoriteCount(favorites, memberId) - 1
  {
    ToggleMovesFilterByOne(favorites, memberId, workoutId, now, ForMember(memberId));
  }

  /** The service over its store of favourites. */
  class Service {
    var favorites: seq<Favorite>

    constructor()
      ensures favorites == []
    {
      favorites := [];
    }

    /** `ToggleFavoriteAsync`. */
    method ToggleFavorite(memberId: int, workoutId: int, now: int) returns (result: ToggleResult)
      requires Unique(favorites)
      modifies this
      ensures (favorites, result) == Toggle(old(favorites), memberId, workoutId, now)
      ensures Unique(favorites) && IsFavorite(favorites, memberId, workoutId) == result.isFavorited
    {
      ToggleReportsNewState(favorites, memberId, workoutId, now);
      var existing := Lists.FirstIndex(favorites, Pair(memberId, workoutId));
      var isFavorited: bool;
      if existing.Some? {
        favorites := Lists.RemoveAt(favorites, existing.value);
        isFavorited := false;
      } else {
        favorites := favorites + [Favorite(memberId, workoutId, now)];
        isFavorited := true;
      }
      result := ToggleResult(isFavorited, FavoriteCount(favorites, workoutId));
    }
  }
}
