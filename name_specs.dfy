/**
 * The name searches: a workout matches a search when its name, and a member
 * when their username, starts with the search text, letter case ignored; a
 * missing or empty search matches everything.
 */
module NameSpecs {
  import opened Wrappers
  import Text
  import Lists

  /** The search text as the specifications keep it: lower-cased on construction, `None` for `null`. */
  function Folded(search: Option<string>): (r: Option<string>)
    ensures r.Some? <==> search.Some?
    ensures search.Some? ==> |r.value| == |search.value|
  {
    if search.Some? then Some(Text.ToLower(search.value)) else None
  }

  /**
   * `BuildExpression` applied to one name: show all when the folded search is
   * null or empty, otherwise the lower-cased name must start with it.
   */
  function NameMatches(search: Option<string>, name: string): (r: bool)
    ensures search.None? || search.value == "" ==> r
    ensures r && search.Some? ==> |search.value| <= |name|
  {
    var folded := Folded(search);
    folded.None? || folded.value == "" || Text.IsPrefix(folded.value, Text.ToLower(name))
  }

  /** A non-empty search matches exactly the names that, lower-cased, extend its lower-cased text. */
  lemma MatchesIffExtends(search: string, name: string)
    requires search != ""
    ensures NameMatches(Some(search), name) <==> exists rest :: Text.ToLower(name) == Text.ToLower(search) + rest
  {
    var lowered := Text.ToLower(name);
    var prefix := Text.ToLower(search);
    if NameMatches(Some(search), name) {
      assert lowered == prefix + lowered[|prefix|..];
    }
  }

  /** Two searches with the same lower-case form match the same names. */
  lemma CaseOfSearchIrrelevant(a: string, b: string, name: string)
    requires Text.ToLower(a) == Text.ToLower(b)
    ensures NameMatches(Some(a), name) == NameMatches(Some(b), name)
  {
  }

  /** In particular, upper- and lower-casing the search changes nothing. */
  lemma LowerCasedSearchMatchesAlike(search: string, name: string)
    ensures NameMatches(Some(Text.ToLower(search)), name) == NameMatches(Some(search), name)
  {
    Text.ToLowerIdempotent(search);
  }

  /** Typing more of the search can only drop matches. */
  lemma LongerSearchMatchesFewer(search: string, more: string, name: string)
    requires NameMatches(Some(search + more), name)
    ensures NameMatches(Some(search), name)
  {
    Text.ToLowerConcat(search, more);
    var lowered := Text.ToLower(name);
    var whole := Text.ToLower(search + more);
    if search != "" && search + more != "" {
      assert lowered[..|whole|] == whole;
      assert lowered[..|search|] == whole[..|search|];
    }
  }

  /** A name always matches a search for itself, and for any of its leading parts. */
  lemma OwnNameMatches(name: string, k: nat)
    requires k <= |name|
    ensures NameMatches(Some(name), name)
    ensures NameMatches(Some(name[..k]), name)
  {
    Text.ToLowerKeepsPrefix(name[..k], name);
  }

  datatype Workout = Workout(id: int, name: string)

  datatype Member = Member(id: int, username: string)

  /** `WorkoutByNameSpec(search)`, also what `WorkoutBySearchSpec` delegates to. */
  function WorkoutByName(search: Option<string>): Workout -> bool
  {
    (w: Workout) => NameMatches(search, w.name)
  }

  /** `MemberByNameSpec(name)`, on the username. */
  function MemberByName(search: Option<string>): Member -> bool
  {
    (m: Member) => NameMatches(search, m.username)
  }

  /** The workouts a search keeps, in their order; a missing or empty search keeps all. */
  function SearchWorkouts(workouts: seq<Workout>, search: Option<string>): (r: seq<Workout>)
    ensures forall w :: w in r <==> w in workouts && NameMatches(search, w.name)
    ensures search.None? || search.value == "" ==> r == workouts
  {
    if search.None? || search.value == "" then
      Lists.FilterAll(workouts, WorkoutByName(search));
      Lists.Filter(workouts, WorkoutByName(search))
    else
      Lists.Filter(workouts, WorkoutByName(search))
  }

  /** The members a search keeps, in their order; a missing or empty search keeps all. */
  function SearchMembers(members: seq<Member>, search: Option<string>): (r: seq<Member>)
    ensures forall m :: m in r <==> m in members && NameMatches(search, m.username)
    ensures search.None? || search.value == "" ==> r == members
  {
    if search.None? || search.value == "" then
      Lists.FilterAll(members, MemberByName(search));
      Lists.Filter(members, MemberByName(search))
    else
      Lists.Filter(members, MemberByName(search))
  }
}
