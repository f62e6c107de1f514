/** Category selection on the settings screen (app/settings.tsx): each operation computes a
    new id list and hands it to `setSelectedCategoryIds`, or issues no update at all. */
module Settings {
  import opened Wrappers
  import opened TriviaTypes
  import opened Ordering

  predicate NoDuplicates(xs: seq<int>)
  {
    forall i, j :: 0 <= i < j < |xs| ==> xs[i] != xs[j]
  }

  /** `Array.from(new Set(xs))`: each value once, at its first occurrence. */
  function Dedup(xs: seq<int>): (r: seq<int>)
    ensures forall x :: x in r <==> x in xs
    ensures NoDuplicates(r)
    ensures |r| <= |xs|
  {
    if xs == [] then []
    else
      var r := Dedup(xs[..|xs| - 1]);
      var last := xs[|xs| - 1];
      assert xs == xs[..|xs| - 1] + [last];
      if last in r then r else r + [last]
  }

  /** A list without duplicates is its own de-duplication. */
  lemma {:induction false} DedupOfDistinct(xs: seq<int>)
    requires NoDuplicates(xs)
    ensures Dedup(xs) == xs
  {
    if xs != [] {
      var init := xs[..|xs| - 1];
      DedupOfDistinct(init);
      forall k | 0 <= k < |init| ensures init[k] != xs[|xs| - 1] {
        assert init[k] == xs[k];
      }
      assert xs == init + [xs[|xs| - 1]];
    }
  }

  /** `selectedCategoryIds.filter(id => id !== categoryId)`. */
  function Without(xs: seq<int>, id: int): (r: seq<int>)
    ensures forall x :: x in r <==> x in xs && x != id
    ensures |r| <= |xs|
  {
    if xs == [] then []
    else (if xs[0] == id then [] else [xs[0]]) + Without(xs[1..], id)
  }

  /** Removal works part by part on a concatenation, so the other ids keep their order. */
  lemma {:induction false} WithoutAppend(a: seq<int>, b: seq<int>, id: int)
    ensures Without(a + b, id) == Without(a, id) + Without(b, id)
  {
    if a == [] {
      assert a + b == b;
    } else {
      assert (a + b)[1..] == a[1..] + b;
      WithoutAppend(a[1..], b, id);
    }
  }

  /** `toggleCategory(categoryId, nextValue)`: the new selection, or None when no update is issued. */
  function ToggleCategory(selected: seq<int>, categoryId: int, nextValue: Option<bool>): (update: Option<seq<int>>)
    ensures update.Some? ==> (categoryId in update.value <==> categoryId !in selected)
    ensures update.Some? ==> forall x :: x != categoryId ==> (x in update.value <==> x in selected)
    ensures update.None? <==> nextValue == Some(categoryId in selected)
  {
    var isSelected := categoryId in selected;
    var shouldSelect := if nextValue.Some? then nextValue.value else !isSelected;
    if shouldSelect then
      if !isSelected then Some(Dedup(selected + [categoryId])) else None
    else if isSelected then Some(Without(selected, categoryId))
    else None
  }

  /** The selection after a toggle: the update if one was issued, else the old list. */
  function Applied(selected: seq<int>, update: Option<seq<int>>): seq<int>
  {
    if update.Some? then update.value else selected
  }

  /** Without an explicit value a toggle flips the id's membership and nothing else. */
  lemma ToggleFlips(selected: seq<int>, categoryId: int)
    ensures var after := Applied(selected, ToggleCategory(selected, categoryId, None));
      && (categoryId in after <==> categoryId !in selected)
      && forall x :: x != categoryId ==> (x in after <==> x in selected)
  {
  }

  /** Selecting a new id on a duplicate-free selection appends it at the end. */
  lemma SelectAppends(selected: seq<int>, categoryId: int, nextValue: Option<bool>)
    requires NoDuplicates(selected) && categoryId !in selected
    requires nextValue != Some(false)
    ensures ToggleCategory(selected, categoryId, nextValue) == Some(selected + [categoryId])
  {
    var xs := selected + [categoryId];
    assert NoDuplicates(xs) by {
      forall i, j | 0 <= i < j < |xs| ensures xs[i] != xs[j] {
        if j == |xs| - 1 {
          assert xs[i] == selected[i];
        }
      }
    }
    DedupOfDistinct(xs);
  }

  /** Deselecting removes every occurrence and keeps the rest in order. */
  lemma DeselectRemoves(selected: seq<int>, categoryId: int, nextValue: Option<bool>)
    requires categoryId in selected && nextValue != Some(true)
    ensures ToggleCategory(selected, categoryId, nextValue) == Some(Without(selected, categoryId))
    ensures categoryId !in Without(selected, categoryId)
  {
  }

  /** `selectAll`: exactly the catalogue ids, in catalogue order. */
  function SelectAll(categories: seq<OtdbCategory>): (ids: seq<int>)
    ensures |ids| == |categories|
    ensures forall i :: 0 <= i < |categories| ==> ids[i] == categories[i].id
  {
    if categories == [] then [] else [categories[0].id] + SelectAll(categories[1..])
  }

  /** `clearAll`. */
  function ClearAll(): (ids: seq<int>)
    ensures |ids| == 0
  {
    []
  }

  /** The catalogue comparator `(a, b) => a.name.localeCompare(b.name)`, as "at most". */
  function ByName(leq: (string, string) -> bool): (OtdbCategory, OtdbCategory) -> bool
  {
    (a: OtdbCategory, b: OtdbCategory) => leq(a.name, b.name)
  }

  /** The fetched catalogue sorted by name. */
  function SortCatalogue(categories: seq<OtdbCategory>, leq: (string, string) -> bool): (sorted: seq<OtdbCategory>)
    ensures multiset(sorted) == multiset(categories)
  {
    SortBy(categories, ByName(leq))
  }

  /** With a total-preorder `localeCompare`, the catalogue comes out ordered by name. */
  lemma CatalogueSortedByName(categories: seq<OtdbCategory>, leq: (string, string) -> bool)
    requires TotalPreorder(leq)
    ensures var sorted := SortCatalogue(categories, leq);
      forall i, j :: 0 <= i < j < |sorted| ==> leq(sorted[i].name, sorted[j].name)
  {
    var byName := ByName(leq);
    assert TotalPreorder(byName) by {
      forall a: OtdbCategory, b: OtdbCategory ensures byName(a, b) || byName(b, a) {
        assert leq(a.name, b.name) || leq(b.name, a.name);
      }
      forall a: OtdbCategory, b: OtdbCategory, c: OtdbCategory | byName(a, b) && byName(b, c) ensures byName(a, c) {
        assert leq(a.name, b.name) && leq(b.name, c.name);
        assert leq(a.name, c.name);
      }
    }
    SortByIsSorted(categories, byName);
  }

}
