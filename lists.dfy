/**
 * List edits the builders share: totals (`reduce` with `+`), removal by index
 * (`filter` on the index) and the splice move (`splice(from, 1)` then
 * `splice(to, 0, item)`).
 */
module Lists {
  import opened Wrappers

  /** `reduce((sum, x) => sum + x, 0)`, folding from the left. */
  function Sum(s: seq<int>): int
  {
    if s == [] then 0 else Sum(s[..|s| - 1]) + s[|s| - 1]
  }

  lemma {:induction false} SumAppend(a: seq<int>, b: seq<int>)
    ensures Sum(a + b) == Sum(a) + Sum(b)
    decreases |b|
  {
    if b == [] {
      assert a + b == a;
    } else {
      assert (a + b)[..|a + b| - 1] == a + b[..|b| - 1];
      SumAppend(a, b[..|b| - 1]);
    }
  }

  lemma {:induction false} SumNonNegative(s: seq<int>)
    requires forall i :: 0 <= i < |s| ==> s[i] >= 0
    ensures Sum(s) >= 0
    decreases |s|
  {
    if s != [] {
      SumNonNegative(s[..|s| - 1]);
    }
  }

  lemma AppendAssoc<T>(a: seq<T>, b: seq<T>, c: seq<T>)
    ensures (a + b) + c == a + (b + c)
  {
  }

  /** Concatenation of a list of lists, in order. */
  function Flatten<T>(s: seq<seq<T>>): seq<T>
  {
    if s == [] then [] else Flatten(s[..|s| - 1]) + s[|s| - 1]
  }

  lemma FlattenSnoc<T>(s: seq<seq<T>>, i: nat)
    requires i < |s|
    ensures Flatten(s[..i + 1]) == Flatten(s[..i]) + s[i]
  {
    assert s[..i + 1][..i] == s[..i];
  }

  lemma {:induction false} FlattenContains<T>(s: seq<seq<T>>, i: nat, x: T)
    requires i < |s| && x in s[i]
    ensures x in Flatten(s)
    decreases |s|
  {
    if i < |s| - 1 {
      FlattenContains(s[..|s| - 1], i, x);
    }
  }

  lemma {:induction false} FlattenOnly<T>(s: seq<seq<T>>, x: T)
    requires x in Flatten(s)
    ensures exists i :: 0 <= i < |s| && x in s[i]
    decreases |s|
  {
    if x !in s[|s| - 1] {
      FlattenOnly(s[..|s| - 1], x);
      var i :| 0 <= i < |s| - 1 && x in s[..|s| - 1][i];
      assert x in s[i];
    }
  }

  /** `filter((_, idx) => idx !== i)`: drops index `i`; an index outside the list drops nothing. */
  function RemoveAt<T>(s: seq<T>, i: int): (r: seq<T>)
    ensures 0 <= i < |s| ==>
      (|r| == |s| - 1
       && (forall k :: 0 <= k < i ==> r[k] == s[k])
       && (forall k :: i <= k < |r| ==> r[k] == s[k + 1]))
    ensures !(0 <= i < |s|) ==> r == s
  {
    if 0 <= i < |s| then s[..i] + s[i + 1..] else s
  }

  lemma RemoveAtMultiset<T>(s: seq<T>, i: nat)
    requires i < |s|
    ensures multiset(RemoveAt(s, i)) + multiset{s[i]} == multiset(s)
  {
    assert s == s[..i] + [s[i]] + s[i + 1..];
  }

  /** `splice(from, 1)` followed by `splice(to, 0, item)` on a copy of the list. */
  function Moved<T>(s: seq<T>, from: nat, to: nat): (r: seq<T>)
    requires from < |s| && to < |s|
    ensures |r| == |s| && r[to] == s[from]
  {
    var rest := RemoveAt(s, from);
    rest[..to] + [s[from]] + rest[to..]
  }

  /** Where the splice move puts each element: the moved one lands at `to`, the ones in between shift by one. */
  lemma MovedAt<T>(s: seq<T>, from: nat, to: nat, j: nat)
    requires from < |s| && to < |s| && j < |s|
    ensures Moved(s, from, to)[j] ==
      if j == to then s[from]
      else if from < to && from <= j < to then s[j + 1]
      else if to < from && to < j <= from then s[j - 1]
      else s[j]
  {
  }

  /** The move is a permutation: nothing is lost or duplicated. */
  lemma MovedIsPermutation<T>(s: seq<T>, from: nat, to: nat)
    requires from < |s| && to < |s|
    ensures multiset(Moved(s, from, to)) == multiset(s)
  {
    var rest := RemoveAt(s, from);
    assert rest == rest[..to] + rest[to..];
    RemoveAtMultiset(s, from);
  }

  /** The other elements keep their relative order. */
  lemma MovedKeepsOthersInOrder<T>(s: seq<T>, from: nat, to: nat)
    requires from < |s| && to < |s|
    ensures RemoveAt(Moved(s, from, to), to) == RemoveAt(s, from)
  {
    var rest := RemoveAt(s, from);
    var r := Moved(s, from, to);
    assert RemoveAt(r, to) == r[..to] + r[to + 1..];
    assert r[..to] == rest[..to];
    assert r[to + 1..] == rest[to..];
    assert rest == rest[..to] + rest[to..];
  }

  /** Shifts `a[from+1..to+1]` one place towards the front. */
  method ShiftDown<T>(a: array<T>, from: nat, to: nat)
    requires from <= to < a.Length
    modifies a
    ensures forall j :: 0 <= j < a.Length && (j < from || to <= j) ==> a[j] == old(a[j])
    ensures forall j :: from <= j < to ==> a[j] == old(a[j + 1])
  {
    var k := from;
    while k < to
      invariant from <= k <= to
      invariant forall j :: 0 <= j < from ==> a[j] == old(a[j])
      invariant forall j :: from <= j < k ==> a[j] == old(a[j + 1])
      invariant forall j :: k <= j < a.Length ==> a[j] == old(a[j])
    {
      a[k] := a[k + 1];
      k := k + 1;
    }
  }

  /** Shifts `a[to..from]` one place towards the back. */
  method ShiftUp<T>(a: array<T>, to: nat, from: nat)
    requires to <= from < a.Length
    modifies a
    ensures forall j :: 0 <= j < a.Length && (j <= to || from < j) ==> a[j] == old(a[j])
    ensures forall j :: to < j <= from ==> a[j] == old(a[j - 1])
  {
    var k := from;
    while k > to
      invariant to <= k <= from
      invariant forall j :: 0 <= j <= k ==> a[j] == old(a[j])
      invariant forall j :: k < j <= from ==> a[j] == old(a[j - 1])
      invariant forall j :: from < j < a.Length ==> a[j] == old(a[j])
    {
      a[k] := a[k - 1];
      k := k - 1;
    }
  }

  /** The in-place splice: shifts the elements between `from` and `to` by one and drops the moved one at `to`. */
  method MoveInPlace<T>(a: array<T>, from: nat, to: nat)
    requires from < a.Length && to < a.Length
    modifies a
    ensures a[..] == Moved(old(a[..]), from, to)
  {
    ghost var was := a[..];
    var x := a[from];
    if from < to {
      ShiftDown(a, from, to);
    } else {
      ShiftUp(a, to, from);
    }
    ghost var mid := a[..];
    a[to] := x;
    ghost var m := Moved(was, from, to);
    forall j | 0 <= j < a.Length
      ensures a[j] == m[j]
    {
      MovedAt(was, from, to, j);
      if j != to {
        assert a[j] == mid[j];
      }
    }
    assert a[..] == m;
  }

  /** Copies a list into a fresh array, as `[...list]` does. */
  method ToArray<T>(s: seq<T>) returns (a: array<T>)
    ensures fresh(a) && a[..] == s
  {
    a := new T[|s|](i requires 0 <= i < |s| => s[i]);
  }

  /**
   * The builders' `moveExercise`: `[...list]`, then the two splices on the copy,
   * then the copy read back as a list.
   */
  method SpliceMove<T>(s: seq<T>, from: nat, to: nat) returns (r: seq<T>)
    requires from < |s| && to < |s|
    ensures r == Moved(s, from, to)
  {
    var a := ToArray(s);
    MoveInPlace(a, from, to);
    r := a[..];
  }

  /** `map((x, idx) => idx === i ? f(x) : x)`: only slot `i` changes; an index outside the list changes nothing. */
  function UpdateAt<T>(s: seq<T>, i: int, f: T -> T): (r: seq<T>)
    ensures |r| == |s|
    ensures forall j :: 0 <= j < |s| && j != i ==> r[j] == s[j]
    ensures 0 <= i < |s| ==> r[i] == f(s[i])
  {
    seq(|s|, j requires 0 <= j < |s| => if j == i then f(s[j]) else s[j])
  }

  /** `map((x, idx) => stamp(x, idx + 1))`: each element gets its 1-based position. */
  function Renumber<T>(s: seq<T>, stamp: (T, nat) -> T): (r: seq<T>)
    ensures |r| == |s|
    ensures forall j :: 0 <= j < |s| ==> r[j] == stamp(s[j], j + 1)
  {
    seq(|s|, j requires 0 <= j < |s| => stamp(s[j], j + 1))
  }

  /** A sum of equal terms is the count times the term. */
  lemma {:induction false} SumConstant(s: seq<int>, c: int)
    requires forall i :: 0 <= i < |s| ==> s[i] == c
    ensures Sum(s) == |s| * c
    decreases |s|
  {
    if s != [] {
      SumConstant(s[..|s| - 1], c);
    }
  }

  /** Every element times `c`. */
  function Scaled(s: seq<int>, c: int): (r: seq<int>)
    ensures |r| == |s| && forall i :: 0 <= i < |s| ==> r[i] == s[i] * c
  {
    seq(|s|, i requires 0 <= i < |s| => s[i] * c)
  }

  /** Scaling every term scales the sum. */
  lemma {:induction false} SumScaled(s: seq<int>, c: int)
    ensures Sum(Scaled(s, c)) == Sum(s) * c
    decreases |s|
  {
    if s != [] {
      assert Scaled(s, c)[..|s| - 1] == Scaled(s[..|s| - 1], c);
      SumScaled(s[..|s| - 1], c);
    }
  }
  /** `filter(p)`: the elements that satisfy `p`, in their original order. */
  function Filter<T(!new)>(s: seq<T>, p: T -> bool): (r: seq<T>)
    ensures |r| <= |s|
    ensures forall j :: 0 <= j < |r| ==> p(r[j])
    ensures forall x :: x in r <==> x in s && p(x)
    decreases |s|
  {
    if s == [] then [] else Filter(s[..|s| - 1], p) + (if p(s[|s| - 1]) then [s[|s| - 1]] else [])
  }

  /** Filtering a concatenation filters each part: the kept elements keep their order. */
  lemma {:induction false} FilterAppend<T(!new)>(a: seq<T>, b: seq<T>, p: T -> bool)
    ensures Filter(a + b, p) == Filter(a, p) + Filter(b, p)
    decreases |b|
  {
    if b == [] {
      assert a + b == a;
    } else {
      var front, last := b[..|b| - 1], b[|b| - 1];
      assert (a + b)[..|a + b| - 1] == a + front && (a + b)[|a + b| - 1] == last;
      FilterAppend(a, front, p);
      AppendAssoc(Filter(a, p), Filter(front, p), if p(last) then [last] else []);
    }
  }

  /** A list whose every element passes is kept whole. */
  lemma {:induction false} FilterAll<T(!new)>(s: seq<T>, p: T -> bool)
    requires forall j :: 0 <= j < |s| ==> p(s[j])
    ensures Filter(s, p) == s
    decreases |s|
  {
    if s != [] {
      FilterAll(s[..|s| - 1], p);
    }
  }
  /** Two tests that no element passes together select at most the whole list between them. */
  lemma {:induction false} FilterDisjointCounts<T(!new)>(s: seq<T>, p: T -> bool, q: T -> bool)
    requires forall j :: 0 <= j < |s| ==> !(p(s[j]) && q(s[j]))
    ensures |Filter(s, p)| + |Filter(s, q)| <= |s|
    decreases |s|
  {
    if s != [] {
      FilterDisjointCounts(s[..|s| - 1], p, q);
    }
  }

  /** A test implied by another selects at least as many elements. */
  lemma {:induction false} FilterCountMonotone<T(!new)>(s: seq<T>, p: T -> bool, q: T -> bool)
    requires forall j :: 0 <= j < |s| && p(s[j]) ==> q(s[j])
    ensures |Filter(s, p)| <= |Filter(s, q)|
    decreases |s|
  {
    if s != [] {
      FilterCountMonotone(s[..|s| - 1], p, q);
    }
  }

  /** A test that is met exactly when one of two exclusive tests is met selects as many as both together. */
  lemma {:induction false} FilterCountSplit<T(!new)>(s: seq<T>, p: T -> bool, q: T -> bool, r: T -> bool)
    requires forall j :: 0 <= j < |s| ==> (p(s[j]) <==> q(s[j]) || r(s[j])) && !(q(s[j]) && r(s[j]))
    ensures |Filter(s, p)| == |Filter(s, q)| + |Filter(s, r)|
    decreases |s|
  {
    if s != [] {
      FilterCountSplit(s[..|s| - 1], p, q, r);
    }
  }

  /** Termwise smaller terms have a smaller sum. */
  lemma {:induction false} SumMonotone(a: seq<int>, b: seq<int>)
    requires |a| == |b| && forall j :: 0 <= j < |a| ==> a[j] <= b[j]
    ensures Sum(a) <= Sum(b)
    decreases |a|
  {
    if a != [] {
      SumMonotone(a[..|a| - 1], b[..|b| - 1]);
    }
  }
  lemma {:induction false} FilterNone<T(!new)>(s: seq<T>, p: T -> bool)
    requires forall j :: 0 <= j < |s| ==> !p(s[j])
    ensures Filter(s, p) == []
    decreases |s|
  {
    if s != [] {
      FilterNone(s[..|s| - 1], p);
    }
  }
  /** Replacing one element moves the count of a test by what the old and new elements contribute. */
  lemma {:induction false} FilterCountUpdate<T(!new)>(s: seq<T>, i: nat, x: T, p: T -> bool)
    requires i < |s|
    ensures |Filter(s[i := x], p)| == |Filter(s, p)| - (if p(s[i]) then 1 else 0) + (if p(x) then 1 else 0)
    decreases |s|
  {
    var t := s[i := x];
    var front, last := s[..|s| - 1], s[|s| - 1];
    assert Filter(s, p) == Filter(front, p) + (if p(last) then [last] else []);
    if i == |s| - 1 {
      assert t[..|t| - 1] == front;
      assert Filter(t, p) == Filter(front, p) + (if p(x) then [x] else []);
    } else {
      assert t[..|t| - 1] == front[i := x] && t[|t| - 1] == last;
      assert Filter(t, p) == Filter(front[i := x], p) + (if p(last) then [last] else []);
      FilterCountUpdate(front, i, x, p);
    }
  }

  /** `FirstOrDefault`: the position of the first element that passes, if any does. */
  function FirstIndex<T>(s: seq<T>, p: T -> bool): (r: Option<nat>)
    ensures r.Some? ==> r.value < |s| && p(s[r.value]) && forall j :: 0 <= j < r.value ==> !p(s[j])
    ensures r.None? ==> forall j :: 0 <= j < |s| ==> !p(s[j])
    decreases |s|
  {
    if s == [] then None
    else if p(s[0]) then Some(0)
    else
      var rest := FirstIndex(s[1..], p);
      if rest.Some? then Some(rest.value + 1) else None
  }
}
