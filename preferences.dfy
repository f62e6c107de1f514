/** The persisted preference store of store.tsx: the chosen difficulty, one enable flag per
    (main category, subcategory) pair, and whether defaults were set up. */
module Preferences {
  import opened Wrappers
  import opened TriviaTypes
  import opened BankTypes

  datatype CategoryPreference = CategoryPreference(mainCategory: string, subcategory: string, enabled: bool)

  predicate Matches(p: CategoryPreference, mainCategory: string, subcategory: string)
  {
    p.mainCategory == mainCategory && p.subcategory == subcategory
  }

  predicate HasPair(prefs: seq<CategoryPreference>, mainCategory: string, subcategory: string)
  {
    exists p :: p in prefs && Matches(p, mainCategory, subcategory)
  }

  /** The `map` branch: every entry of the pair has its flag flipped. */
  function FlipPair(prefs: seq<CategoryPreference>, mainCategory: string, subcategory: string): (r: seq<CategoryPreference>)
    ensures |r| == |prefs|
    ensures forall i :: 0 <= i < |prefs| && !Matches(prefs[i], mainCategory, subcategory) ==> r[i] == prefs[i]
    ensures forall i :: 0 <= i < |prefs| && Matches(prefs[i], mainCategory, subcategory) ==>
      r[i] == prefs[i].(enabled := !prefs[i].enabled)
  {
    if prefs == [] then []
    else
      var p := prefs[0];
      [if Matches(p, mainCategory, subcategory) then p.(enabled := !p.enabled) else p]
        + FlipPair(prefs[1..], mainCategory, subcategory)
  }

  /** `toggleCategory(mainCategory, subcategory)`: flip an existing pair, append a missing one enabled. */
  function TogglePreference(prefs: seq<CategoryPreference>, mainCategory: string, subcategory: string): (r: seq<CategoryPreference>)
    ensures HasPair(prefs, mainCategory, subcategory) ==> |r| == |prefs|
    ensures !HasPair(prefs, mainCategory, subcategory) ==>
      r == prefs + [CategoryPreference(mainCategory, subcategory, true)]
    ensures forall i :: 0 <= i < |prefs| && !Matches(prefs[i], mainCategory, subcategory) ==> r[i] == prefs[i]
    ensures forall i :: 0 <= i < |prefs| && Matches(prefs[i], mainCategory, subcategory) ==>
      r[i].enabled == !prefs[i].enabled && Matches(r[i], mainCategory, subcategory)
  {
    if HasPair(prefs, mainCategory, subcategory) then FlipPair(prefs, mainCategory, subcategory)
    else prefs + [CategoryPreference(mainCategory, subcategory, true)]
  }

  /** Toggling an existing pair twice gives back the original list. */
  lemma ToggleTwiceRestores(prefs: seq<CategoryPreference>, mainCategory: string, subcategory: string)
    requires HasPair(prefs, mainCategory, subcategory)
    ensures TogglePreference(TogglePreference(prefs, mainCategory, subcategory), mainCategory, subcategory) == prefs
  {
    var once := TogglePreference(prefs, mainCategory, subcategory);
    var p :| p in prefs && Matches(p, mainCategory, subcategory);
    var k :| 0 <= k < |prefs| && prefs[k] == p;
    assert Matches(once[k], mainCategory, subcategory);
    assert HasPair(once, mainCategory, subcategory);
    var twice := TogglePreference(once, mainCategory, subcategory);
    assert |twice| == |prefs|;
    forall i | 0 <= i < |prefs| ensures twice[i] == prefs[i] {
      if Matches(prefs[i], mainCategory, subcategory) {
        assert Matches(once[i], mainCategory, subcategory);
      } else {
        assert once[i] == prefs[i];
      }
    }
  }

  /** Defaults built by `initialize`: one enabled entry per category, in catalogue order. */
  function DefaultPreferences(categories: seq<Category>): (prefs: seq<CategoryPreference>)
    ensures |prefs| == |categories|
    ensures forall i :: 0 <= i < |categories| ==>
      prefs[i] == CategoryPreference(categories[i].mainCategory, categories[i].subcategory, true)
  {
    if categories == [] then []
    else [CategoryPreference(categories[0].mainCategory, categories[0].subcategory, true)]
         + DefaultPreferences(categories[1..])
  }

  class PreferenceStore {
    var difficulty: Difficulty
    var categoryPreferences: seq<CategoryPreference>
    var initialized: bool

    constructor ()
      ensures difficulty == Easy && categoryPreferences == [] && !initialized
    {
      difficulty := Easy;
      categoryPreferences := [];
      initialized := false;
    }

    method SetDifficulty(d: Difficulty)
      modifies this
      ensures difficulty == d
      ensures categoryPreferences == old(categoryPreferences) && initialized == old(initialized)
    {
      difficulty := d;
    }

    method SetCategoryPreferences(preferences: seq<CategoryPreference>)
      modifies this
      ensures categoryPreferences == preferences
      ensures difficulty == old(difficulty) && initialized == old(initialized)
    {
      categoryPreferences := preferences;
    }

    method ToggleCategory(mainCategory: string, subcategory: string)
      modifies this
      ensures categoryPreferences == TogglePreference(old(categoryPreferences), mainCategory, subcategory)
      ensures difficulty == old(difficulty) && initialized == old(initialized)
    {
      categoryPreferences := TogglePreference(categoryPreferences, mainCategory, subcategory);
    }

    /** `initialize`: `loaded` is what the database returned, None when it threw (the error
        propagates, `ok` is false and nothing changes). */
    method Initialize(loaded: Option<seq<Category>>) returns (ok: bool)
      modifies this
      ensures ok <==> loaded.Some?
      ensures !ok ==> categoryPreferences == old(categoryPreferences) && initialized == old(initialized)
      ensures ok ==> initialized
      ensures ok && old(categoryPreferences) == [] ==> categoryPreferences == DefaultPreferences(loaded.value)
      ensures old(categoryPreferences) != [] ==> categoryPreferences == old(categoryPreferences)
      ensures difficulty == old(difficulty)
    {
      if loaded.None? {
        return false;
      }
      if |categoryPreferences| == 0 {
        categoryPreferences := DefaultPreferences(loaded.value);
      }
      initialized := true;
      ok := true;
    }
  }

}
