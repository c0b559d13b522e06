/**
 * The header above the workout list: whether any filter is active, the
 * count badge on the Filters button, the difficulty chip, the totals line
 * and the names shown on the category chips.
 */
module ListHeader {
  import opened Wrappers
  import Text
  import Lists
  import FilterPanel

  /** `activeFilters`: the panel's filters plus the creator filter. */
  datatype ActiveFilters = ActiveFilters(filters: FilterPanel.Filters, creator: string)

  /** Range `inner` lies within `outer`. */
  predicate Within(inner: (int, int), outer: (int, int))
  {
    outer.0 <= inner.0 && inner.1 <= outer.1
  }

  /** Range `a` leaves out part of the range `full`. */
  predicate Narrows(a: (int, int), full: (int, int))
  {
    a.0 > full.0 || a.1 < full.1
  }

  /**
   * `hasActiveFilters`: a filter is active when a list is non-empty, a range
   * is narrower than the cleared one or a creator is chosen; so nothing is
   * active exactly when every list is empty, the creator is blank and both
   * ranges still cover the cleared ranges.
   */
  function HasActiveFilters(a: ActiveFilters): (r: bool)
    ensures !r <==>
      (a.filters.categories == [] && a.filters.subTypes == [] && a.filters.equipment == [] && a.creator == ""
       && Within(FilterPanel.Cleared.difficulty, a.filters.difficulty)
       && Within(FilterPanel.Cleared.duration, a.filters.duration))
  {
    var f := a.filters;
    |f.categories| > 0 || |f.subTypes| > 0
    || Narrows(f.difficulty, (1, 5))
    || Narrows(f.duration, (0, 120))
    || |f.equipment| > 0
    || a.creator != ""
  }

  /** Cleared filters with no creator are not active; one toggled category or one quick select makes them active. */
  lemma ClearedIsInactive(categoryId: int, level: int)
    ensures !HasActiveFilters(ActiveFilters(FilterPanel.Cleared, ""))
    ensures HasActiveFilters(ActiveFilters(FilterPanel.ToggleCategory(FilterPanel.Cleared, categoryId), ""))
    ensures HasActiveFilters(ActiveFilters(FilterPanel.QuickSelectDifficulty(FilterPanel.Cleared, level), ""))
  {
  }

  /** Toggling the same category twice from inactive filters leaves them inactive. */
  lemma ToggleTwiceStaysInactive(a: ActiveFilters, categoryId: int)
    requires !HasActiveFilters(a)
    ensures !HasActiveFilters(a.(filters := FilterPanel.ToggleCategory(FilterPanel.ToggleCategory(a.filters, categoryId), categoryId)))
  {
    FilterPanel.ToggleTwiceRestores(a.filters.categories, categoryId);
  }

  /** The number on the Filters button: selected categories plus selected equipment. */
  function BadgeCount(a: ActiveFilters): (r: nat)
    ensures r == 0 <==> a.filters.categories == [] && a.filters.equipment == []
  {
    |a.filters.categories| + |a.filters.equipment|
  }

  /** The badge rises by one for each category newly toggled on and falls when one is toggled off. */
  lemma BadgeFollowsCategoryToggle(a: ActiveFilters, categoryId: int)
    ensures var b := a.(filters := FilterPanel.ToggleCategory(a.filters, categoryId));
      (categoryId !in a.filters.categories ==> BadgeCount(b) == BadgeCount(a) + 1)
      && (categoryId in a.filters.categories ==> BadgeCount(b) < BadgeCount(a))
  {
  }

  /**
   * The badge shows whenever a filter is active, yet counts only categories
   * and equipment: a creator, difficulty or duration filter alone shows a
   * badge reading 0.
   */
  lemma BadgeCanReadZeroWhileActive(creator: string, level: int)
    requires creator != ""
    ensures var a := ActiveFilters(FilterPanel.Cleared, creator);
      HasActiveFilters(a) && BadgeCount(a) == 0
    ensures var a := ActiveFilters(FilterPanel.QuickSelectDifficulty(FilterPanel.Cleared, level), "");
      HasActiveFilters(a) && BadgeCount(a) == 0
  {
  }

  /** The difficulty chip shows when the difficulty range is narrower than one to five. */
  function DifficultyChipShown(a: ActiveFilters): (r: bool)
    ensures r <==> !Within(FilterPanel.Cleared.difficulty, a.filters.difficulty)
  {
    Narrows(a.filters.difficulty, (1, 5))
  }

  /** The chip never shows outside the active-filters panel, and every quick select shows it. */
  lemma DifficultyChipOnlyWhenActive(a: ActiveFilters, level: int)
    ensures DifficultyChipShown(a) ==> HasActiveFilters(a)
    ensures DifficultyChipShown(a.(filters := FilterPanel.QuickSelectDifficulty(a.filters, level)))
  {
  }

  /** The line under the title: `<n> workout[s] available[ (filtered)]`. */
  function TotalsLabel(total: nat, active: bool): (r: string)
    ensures var n := |Text.NatToString(total)|;
      n + 18 <= |r| && Text.AllDigits(r[..n]) && r[n..n + 8] == " workout"
      && (r[n + 8] == 's' <==> total != 1)
  {
    Text.NatToString(total) + " workout" + (if total != 1 then "s" else "") + " available"
    + (if active then " (filtered)" else "")
  }

  /** The label starts with the total itself and ends in "(filtered)" exactly when a filter is active. */
  lemma TotalsLabelReadsBack(total: nat, active: bool)
    ensures var r, n := TotalsLabel(total, active), |Text.NatToString(total)|;
      Text.ParseNat(r[..n]) == total
      && (|r| >= 11 && r[|r| - 11..] == " (filtered)" <==> active)
  {
    var digits := Text.NatToString(total);
    var r := TotalsLabel(total, active);
    assert r[..|digits|] == digits;
    Text.ParseNatToString(total);
    if !active {
      assert r[|r| - 1] == 'e';
    }
  }

  /** An entry of `WORKOUT_CATEGORIES`. */
  datatype Category = Category(id: int, name: string)

  const CrossFitCategoryId: int := 2

  /** `WORKOUT_CATEGORIES`: an array holding the one CrossFit category. */
  const WorkoutCategories: seq<Category> := [Category(CrossFitCategoryId, "CrossFit WOD")]

  /** A property key as an object literal stores it: `undefined`, or a number's own key. */
  datatype PropertyKey = UndefinedKey | NumberKey(n: int)

  /**
   * The literal `getCategoryName` builds. Its computed keys read named members
   * (`WEIGHT_SESSION`, `CROSSFIT_WOD`, ...) of `WORKOUT_CATEGORIES`, which is an
   * array with no such members, so every key is `undefined`.
   */
  const NamesAsWritten: seq<(PropertyKey, string)> := [
    (UndefinedKey, "Weight Session"),
    (UndefinedKey, "CrossFit WOD"),
    (UndefinedKey, "Running Intervals"),
    (UndefinedKey, "Swimming"),
    (UndefinedKey, "Hyrox"),
    (UndefinedKey, "Stretching")]

  /** Reading a key of an object literal: the last entry with that key wins. */
  function Lookup(entries: seq<(PropertyKey, string)>, key: PropertyKey): (r: Option<string>)
    ensures r.Some? <==> exists i :: 0 <= i < |entries| && entries[i].0 == key
    ensures r.Some? ==> exists i :: (0 <= i < |entries| && entries[i] == (key, r.value)
                                     && forall j :: i < j < |entries| ==> entries[j].0 != key)
    decreases |entries|
  {
    if entries == [] then None
    else if entries[|entries| - 1].0 == key then Some(entries[|entries| - 1].1)
    else
      var rest := Lookup(entries[..|entries| - 1], key);
      assert forall i :: 0 <= i < |entries| - 1 ==> entries[..|entries| - 1][i] == entries[i];
      rest
  }

  /** `getCategoryName` as written: the looked-up name, or "Unknown" when it is missing or empty. */
  function CategoryNameAsWritten(categoryId: int): string
  {
    var found := Lookup(NamesAsWritten, NumberKey(categoryId));
    if found.Some? && found.value != "" then found.value else "Unknown"
  }

  /** As written, every category chip reads "Unknown", the CrossFit category's included. */
  lemma CategoryNameAsWrittenIsAlwaysUnknown(categoryId: int)
    ensures CategoryNameAsWritten(categoryId) == "Unknown"
    ensures CategoryNameAsWritten(CrossFitCategoryId) != CategoryName(CrossFitCategoryId)
  {
  }

  /** The name of the first category in `categories` with that id, or "Unknown" when none has it. */
  function CategoryNameIn(categories: seq<Category>, categoryId: int): (r: string)
    ensures forall i :: (0 <= i < |categories| && categories[i].id == categoryId
      && (forall j :: 0 <= j < i ==> categories[j].id != categoryId)) ==> r == categories[i].name
    ensures (forall i :: 0 <= i < |categories| ==> categories[i].id != categoryId) ==> r == "Unknown"
  {
    var found := Lists.FirstIndex(categories, (c: Category) => c.id == categoryId);
    if found.Some? then categories[found.value].name else "Unknown"
  }

  /** `getCategoryName` as evidently intended: the name `WORKOUT_CATEGORIES` gives the id. */
  function CategoryName(categoryId: int): string
  {
    CategoryNameIn(WorkoutCategories, categoryId)
  }

  /** The CrossFit chip reads "CrossFit WOD"; any other id reads "Unknown". */
  lemma CategoryNameNamesListedCategories(categoryId: int)
    ensures CategoryName(CrossFitCategoryId) == "CrossFit WOD"
    ensures categoryId != CrossFitCategoryId ==> CategoryName(categoryId) == "Unknown"
  {
  }
}
