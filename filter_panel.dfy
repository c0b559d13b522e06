/**
 * The workout filter panel: the filter record, the toggles that add or remove
 * a category, an equipment item or an expanded section, the single-field
 * update, the difficulty quick selects and "Clear All Filters".
 */
module FilterPanel {
  import Lists

  datatype Filters = Filters(
    categories: seq<int>,
    subTypes: seq<int>,
    difficulty: (int, int),
    duration: (int, int),
    equipment: seq<string>)

  /**
   * `includes(x) ? filter(y => y !== x) : [...list, x]`: a present item is
   * removed wherever it occurs, an absent one is appended.
   */
  function Toggle<T(==,!new)>(list: seq<T>, x: T): (r: seq<T>)
    ensures x in r <==> x !in list
    ensures forall y :: y != x ==> (y in r <==> y in list)
    ensures x !in list ==> r == list + [x]
    ensures x in list ==> |r| < |list|
  {
    if x in list then
      var r := Lists.Filter(list, (y: T) => y != x);
      assert x !in r;
      Lists.FilterDisjointCounts(list, (y: T) => y != x, (y: T) => y == x);
      var i :| 0 <= i < |list| && list[i] == x;
      assert |Lists.Filter(list, (y: T) => y == x)| >= 1 by {
        assert list[i] in Lists.Filter(list, (y: T) => y == x);
      }
      r
    else list + [x]
  }

  /** Toggling an absent item on and off again gives back the very same list. */
  lemma ToggleTwiceRestores<T(!new)>(list: seq<T>, x: T)
    requires x !in list
    ensures Toggle(Toggle(list, x), x) == list
  {
    var keep := (y: T) => y != x;
    Lists.FilterAppend(list, [x], keep);
    Lists.FilterAll(list, keep);
    assert Lists.Filter([x], keep) == [] by {
      assert [x][..0] == [];
    }
  }

  /** Toggling a present item twice keeps the same items, though it moves that one to the end. */
  lemma ToggleTwiceKeepsItems<T(!new)>(list: seq<T>, x: T)
    ensures forall y :: y in Toggle(Toggle(list, x), x) <==> y in list
  {
  }

  /** One field of the filters, with its new value. */
  datatype FilterUpdate =
    | SetCategories(categories: seq<int>)
    | SetSubTypes(subTypes: seq<int>)
    | SetDifficulty(difficulty: (int, int))
    | SetDuration(duration: (int, int))
    | SetEquipment(equipment: seq<string>)

  /** `updateFilter(key, value)`: `{...filters, [key]: value}`. */
  function UpdateFilter(f: Filters, u: FilterUpdate): (r: Filters)
    ensures r.categories == (if u.SetCategories? then u.categories else f.categories)
    ensures r.subTypes == (if u.SetSubTypes? then u.subTypes else f.subTypes)
    ensures r.difficulty == (if u.SetDifficulty? then u.difficulty else f.difficulty)
    ensures r.duration == (if u.SetDuration? then u.duration else f.duration)
    ensures r.equipment == (if u.SetEquipment? then u.equipment else f.equipment)
  {
    match u
    case SetCategories(c) => f.(categories := c)
    case SetSubTypes(s) => f.(subTypes := s)
    case SetDifficulty(d) => f.(difficulty := d)
    case SetDuration(d) => f.(duration := d)
    case SetEquipment(e) => f.(equipment := e)
  }

  /** Setting a field to the value it already has changes nothing. */
  lemma UpdateWithSameValueIsIdentity(f: Filters)
    ensures UpdateFilter(f, SetCategories(f.categories)) == f
    ensures UpdateFilter(f, SetDifficulty(f.difficulty)) == f
    ensures UpdateFilter(f, SetEquipment(f.equipment)) == f
  {
  }

  /** `toggleCategory`. */
  function ToggleCategory(f: Filters, categoryId: int): (r: Filters)
    ensures r == f.(categories := Toggle(f.categories, categoryId))
  {
    UpdateFilter(f, SetCategories(Toggle(f.categories, categoryId)))
  }

  /** `toggleEquipment`. */
  function ToggleEquipment(f: Filters, item: string): (r: Filters)
    ensures r == f.(equipment := Toggle(f.equipment, item))
  {
    UpdateFilter(f, SetEquipment(Toggle(f.equipment, item)))
  }

  /** The sections open when the panel first shows. */
  const InitialSections: seq<string> := ["categories", "difficulty"]

  /** `toggleSection`: the same toggle on the list of expanded sections. */
  function ToggleSection(expanded: seq<string>, section: string): (r: seq<string>)
    ensures section in r <==> section !in expanded
    ensures forall s :: s != section ==> (s in r <==> s in expanded)
  {
    Toggle(expanded, section)
  }

  /** A difficulty quick select: both ends of the range set to the chosen level. */
  function QuickSelectDifficulty(f: Filters, level: int): (r: Filters)
    ensures r == f.(difficulty := (level, level))
  {
    UpdateFilter(f, SetDifficulty((level, level)))
  }

  /** The quick-select button of a level shows selected exactly when the range is that one level. */
  predicate QuickSelectShown(f: Filters, level: int)
  {
    f.difficulty.0 == level && f.difficulty.1 == level
  }

  /** Choosing a level selects its button and no other. */
  lemma QuickSelectSelectsOnlyThatLevel(f: Filters, level: int, other: int)
    requires other != level
    ensures QuickSelectShown(QuickSelectDifficulty(f, level), level)
    ensures !QuickSelectShown(QuickSelectDifficulty(f, level), other)
  {
  }

  /** What "Clear All Filters" sends. */
  const Cleared: Filters := Filters([], [], (1, 5), (0, 120), [])

  /** From cleared filters, one category toggle selects just that category, and an equipment toggle done twice clears again. */
  lemma ClearForgetsToggles(categoryId: int, item: string)
    ensures ToggleCategory(Cleared, categoryId).categories == [categoryId]
    ensures ToggleEquipment(ToggleEquipment(Cleared, item), item) == Cleared
  {
    var once := ToggleEquipment(Cleared, item);
    assert once == Cleared.(equipment := Toggle([], item));
    ToggleTwiceRestores([], item);
    assert ToggleEquipment(once, item) == Cleared.(equipment := Toggle(Toggle([], item), item));
  }
}
