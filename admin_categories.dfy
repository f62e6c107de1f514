/** The admin category page (app/admin/categories.web.tsx): grouping the catalogue by main
    category, sorting for display, and the add and delete handlers with their validation. */
module AdminCategories {
  import opened Wrappers
  import opened Ordering
  import opened BankTypes

  /** The categories of one main category, in catalogue order. */
  function InMain(categories: seq<Category>, mainCategory: string): (group: seq<Category>)
    ensures forall c :: c in group <==> c in categories && c.mainCategory == mainCategory
    ensures |group| <= |categories|
  {
    if categories == [] then []
    else
      var init := categories[..|categories| - 1];
      var last := categories[|categories| - 1];
      assert categories == init + [last];
      InMain(init, mainCategory) + (if last.mainCategory == mainCategory then [last] else [])
  }

  /** Selecting a main category distributes over concatenation; with `InMainSingle` this
      says the group lists its members in catalogue order, each as often as it occurs. */
  lemma {:induction false} InMainAppend(a: seq<Category>, b: seq<Category>, mainCategory: string)
    ensures InMain(a + b, mainCategory) == InMain(a, mainCategory) + InMain(b, mainCategory)
  {
    if b == [] {
      assert a + b == a;
    } else {
      var init := b[..|b| - 1];
      var last := b[|b| - 1];
      var tail := if last.mainCategory == mainCategory then [last] else [];
      InMainAppend(a, init, mainCategory);
      assert (a + b)[..|a + b| - 1] == a + init;
      assert (a + b)[|a + b| - 1] == last;
      assert InMain(a + b, mainCategory) == InMain(a + init, mainCategory) + tail;
      assert InMain(b, mainCategory) == InMain(init, mainCategory) + tail;
    }
  }

  /** A single category is kept iff it belongs to the main category. */
  lemma InMainSingle(c: Category, mainCategory: string)
    ensures InMain([c], mainCategory) == if c.mainCategory == mainCategory then [c] else []
  {
    assert [c][..0] == [];
  }

  lemma {:induction false} InMainOfAbsent(categories: seq<Category>, mainCategory: string)
    requires forall c :: c in categories ==> c.mainCategory != mainCategory
    ensures InMain(categories, mainCategory) == []
  {
    if categories != [] {
      var init := categories[..|categories| - 1];
      assert categories == init + [categories[|categories| - 1]];
      InMainOfAbsent(init, mainCategory);
    }
  }

  /** The accumulator after `reduce` has pushed every category onto the array of its main category. */
  function Grouped(categories: seq<Category>): (grouped: map<string, seq<Category>>)
  {
    if categories == [] then map[]
    else
      var g := Grouped(categories[..|categories| - 1]);
      var c := categories[|categories| - 1];
      g[c.mainCategory := (if c.mainCategory in g then g[c.mainCategory] else []) + [c]]
  }

  /** The names a plain object `{}` inherits from `Object.prototype`. Read from the
      accumulator, each is a truthy value without `push`. */
  predicate InheritedKey(k: string)
  {
    k in ["constructor", "__proto__", "toString", "toLocaleString", "valueOf", "hasOwnProperty",
      "isPrototypeOf", "propertyIsEnumerable", "__defineGetter__", "__defineSetter__",
      "__lookupGetter__", "__lookupSetter__"]
  }

  /** The grouping effect's `reduce`, written as the loop it performs. For a main category
      named like an inherited property the initialisation is skipped and `push` throws a
      TypeError, so the effect ends without a grouping (None). */
  method GroupCategories(categories: seq<Category>) returns (grouped: Option<map<string, seq<Category>>>)
    ensures grouped.None? <==> exists c :: c in categories && InheritedKey(c.mainCategory)
    ensures grouped.Some? ==> grouped.value == Grouped(categories)
    ensures grouped.Some? ==> forall k :: k in grouped.value <==> k in DistinctMains(categories)
    ensures grouped.Some? ==> forall k :: k in grouped.value ==> grouped.value[k] == InMain(categories, k) && grouped.value[k] != []
    ensures grouped.Some? ==> SumSizes(DistinctMains(categories), grouped.value) == |categories|
  {
    var acc := map[];
    var i := 0;
    while i < |categories|
      invariant 0 <= i <= |categories|
      invariant acc == Grouped(categories[..i])
      invariant forall c :: c in categories[..i] ==> !InheritedKey(c.mainCategory)
    {
      var c := categories[i];
      if InheritedKey(c.mainCategory) {
        assert c in categories;
        return None;
      }
      if c.mainCategory !in acc {
        acc := acc[c.mainCategory := []];
      }
      acc := acc[c.mainCategory := acc[c.mainCategory] + [c]];
      assert categories[..i + 1] == categories[..i] + [c];
      i := i + 1;
    }
    assert categories[..i] == categories;
    GroupedIsPartition(categories);
    GroupSizesSum(categories);
    grouped := Some(acc);
  }

  lemma {:induction false} GroupedKeys(categories: seq<Category>)
    ensures forall k :: k in Grouped(categories) <==> k in DistinctMains(categories)
  {
    if categories != [] {
      var init := categories[..|categories| - 1];
      GroupedKeys(init);
      assert categories == init + [categories[|categories| - 1]];
    }
  }

  /** Each group holds exactly the categories of its main category, in catalogue order;
      the keys are exactly the main categories that occur, so no group is empty. */
  lemma {:induction false} GroupedIsPartition(categories: seq<Category>)
    ensures forall k :: k in Grouped(categories) <==> k in DistinctMains(categories)
    ensures forall k :: k in Grouped(categories) ==> Grouped(categories)[k] == InMain(categories, k)
    ensures forall k :: k in Grouped(categories) ==> Grouped(categories)[k] != []
  {
    if categories != [] {
      var init := categories[..|categories| - 1];
      var c := categories[|categories| - 1];
      GroupedIsPartition(init);
      assert categories == init + [c];
      var g0 := Grouped(init);
      var g := Grouped(categories);
      forall k | k in g ensures g[k] == InMain(categories, k) && g[k] != [] {
        assert InMain(categories, k) == InMain(init, k) + (if c.mainCategory == k then [c] else []);
        if k !in g0 {
          InMainOfAbsent(init, k);
        }
      }
    }
  }

  /** Total size of the groups named in `keys`. */
  function SumSizes(keys: seq<string>, grouped: map<string, seq<Category>>): nat
  {
    if keys == [] then 0
    else
      var k := keys[|keys| - 1];
      SumSizes(keys[..|keys| - 1], grouped) + (if k in grouped then |grouped[k]| else 0)
  }

  lemma {:induction false} SumSizesFrame(keys: seq<string>, g: map<string, seq<Category>>, h: map<string, seq<Category>>)
    requires forall k :: k in keys ==> k in g && k in h && |g[k]| == |h[k]|
    ensures SumSizes(keys, g) == SumSizes(keys, h)
  {
    if keys != [] {
      SumSizesFrame(keys[..|keys| - 1], g, h);
    }
  }

  /** Growing one group (named once in `keys`) by one element grows the total by one. */
  lemma {:induction false} SumSizesBump(keys: seq<string>, g: map<string, seq<Category>>, m: string, v: seq<Category>)
    requires Distinct(keys) && m in keys
    requires forall k :: k in keys ==> k in g
    requires |v| == |g[m]| + 1
    ensures SumSizes(keys, g[m := v]) == SumSizes(keys, g) + 1
  {
    var init := keys[..|keys| - 1];
    var last := keys[|keys| - 1];
    assert keys == init + [last];
    if last == m {
      forall j | 0 <= j < |init| ensures init[j] != m {
        assert keys[j] != keys[|keys| - 1];
      }
      SumSizesFrame(init, g, g[m := v]);
    } else {
      SumSizesBump(init, g, m, v);
    }
  }

  lemma DistinctMainsSnoc(init: seq<Category>, c: Category)
    ensures DistinctMains(init + [c]) ==
      if c.mainCategory in DistinctMains(init) then DistinctMains(init) else DistinctMains(init) + [c.mainCategory]
  {
    assert (init + [c])[..|init|] == init;
  }

  lemma GroupedSnoc(init: seq<Category>, c: Category)
    ensures var g := Grouped(init); var m := c.mainCategory;
      Grouped(init + [c]) == g[m := (if m in g then g[m] else []) + [c]]
  {
    assert (init + [c])[..|init|] == init;
  }

  /** Group sizes add up to the number of categories: the grouping loses and repeats nothing. */
  lemma {:induction false} GroupSizesSum(categories: seq<Category>)
    ensures SumSizes(DistinctMains(categories), Grouped(categories)) == |categories|
  {
    if categories != [] {
      var init := categories[..|categories| - 1];
      var c := categories[|categories| - 1];
      assert categories == init + [c];
      GroupSizesSum(init);
      GroupedKeys(init);
      DistinctMainsSnoc(init, c);
      GroupedSnoc(init, c);
      var d := DistinctMains(init);
      var g := Grouped(init);
      var m := c.mainCategory;
      if m in d {
        SumSizesBump(d, g, m, g[m] + [c]);
      } else {
        assert m !in g;
        assert [] + [c] == [c];
        assert Grouped(categories) == g[m := [c]];
        assert DistinctMains(categories) == d + [m];
        GroupSizesNewKey(d, g, m, c);
      }
    }
  }

  lemma GroupSizesNewKey(d: seq<string>, g: map<string, seq<Category>>, m: string, c: Category)
    requires m !in d
    requires forall k :: k in d ==> k in g
    ensures SumSizes(d + [m], g[m := [c]]) == SumSizes(d, g) + 1
  {
    var d2 := d + [m];
    SumSizesFrame(d, g, g[m := [c]]);
    assert d2[..|d2| - 1] == d;
  }

  function BySubcategory(leq: (string, string) -> bool): (Category, Category) -> bool
  {
    (a: Category, b: Category) => leq(a.subcategory, b.subcategory)
  }

  /** The `forEach` that sorts every group by subcategory. */
  function SortGroups(grouped: map<string, seq<Category>>, leq: (string, string) -> bool): (sorted: map<string, seq<Category>>)
    ensures sorted.Keys == grouped.Keys
    ensures forall k :: k in grouped ==> multiset(sorted[k]) == multiset(grouped[k])
  {
    map k | k in grouped :: SortBy(grouped[k], BySubcategory(leq))
  }

  /** After the effect, every group lists its subcategories in ascending order. */
  lemma SortedGroupsAscend(grouped: map<string, seq<Category>>, leq: (string, string) -> bool, k: string)
    requires TotalPreorder(leq)
    requires k in grouped
    ensures var s := SortGroups(grouped, leq)[k];
      forall i, j :: 0 <= i < j < |s| ==> leq(s[i].subcategory, s[j].subcategory)
  {
    var bySub := BySubcategory(leq);
    forall a: Category, b: Category ensures bySub(a, b) || bySub(b, a) {
      assert leq(a.subcategory, b.subcategory) || leq(b.subcategory, a.subcategory);
    }
    forall a: Category, b: Category, c: Category | bySub(a, b) && bySub(b, c) ensures bySub(a, c) {
      assert leq(a.subcategory, b.subcategory) && leq(b.subcategory, c.subcategory);
    }
    SortByIsSorted(grouped[k], bySub);
  }

  /** The main-category headers in display order: the group keys sorted by name. */
  function DisplayOrder(categories: seq<Category>, leq: (string, string) -> bool): (mains: seq<string>)
    ensures multiset(mains) == multiset(DistinctMains(categories))
  {
    SortBy(DistinctMains(categories), leq)
  }

  /** Each group is shown once, and the headers ascend. */
  lemma DisplayOrderSorted(categories: seq<Category>, leq: (string, string) -> bool)
    requires TotalPreorder(leq)
    ensures SortedBy(DisplayOrder(categories, leq), leq)
    ensures forall k :: k in DisplayOrder(categories, leq) <==> k in Grouped(categories)
    ensures |DisplayOrder(categories, leq)| == |Grouped(categories)|
  {
    SortByIsSorted(DistinctMains(categories), leq);
    GroupedIsPartition(categories);
    var d := DistinctMains(categories);
    var s := DisplayOrder(categories, leq);
    forall k ensures k in s <==> k in d {
      assert k in s <==> k in multiset(s);
    }
    assert |s| == |multiset(s)| == |d|;
    DistinctCardinality(d);
    assert Grouped(categories).Keys == set k | k in d;
  }

  lemma {:induction false} DistinctCardinality(d: seq<string>)
    requires Distinct(d)
    ensures |set k | k in d| == |d|
  {
    if d != [] {
      var init := d[..|d| - 1];
      DistinctCardinality(init);
      assert d == init + [d[|d| - 1]];
      assert d[|d| - 1] !in init;
      assert (set k | k in d) == (set k | k in init) + {d[|d| - 1]};
    }
  }

  // ---- text fields ------------------------------------------------------------------

  /** The characters `String.prototype.trim` strips, restricted to ASCII. */
  predicate IsSpace(ch: char)
  {
    ch == ' ' || ch == '\t' || ch == '\n' || ch == '\r' || ch == '\U{000B}' || ch == '\U{000C}'
  }

  function TrimStart(s: string): (r: string)
    ensures |r| <= |s| && r == s[|s| - |r|..]
    ensures r != [] ==> !IsSpace(r[0])
    ensures forall i :: 0 <= i < |s| - |r| ==> IsSpace(s[i])
  {
    if s != [] && IsSpace(s[0]) then TrimStart(s[1..]) else s
  }

  function TrimEnd(s: string): (r: string)
    ensures |r| <= |s| && r == s[..|r|]
    ensures r != [] ==> !IsSpace(r[|r| - 1])
    ensures forall i :: |r| <= i < |s| ==> IsSpace(s[i])
  {
    if s != [] && IsSpace(s[|s| - 1]) then TrimEnd(s[..|s| - 1]) else s
  }

  function Trim(s: string): (r: string)
    ensures r != [] ==> !IsSpace(r[0]) && !IsSpace(r[|r| - 1])
    ensures r == [] <==> forall i :: 0 <= i < |s| ==> IsSpace(s[i])
    ensures var i := |s| - |TrimStart(s)|; i + |r| <= |s| && r == s[i..i + |r|]
  {
    var t := TrimStart(s);
    var r := TrimEnd(t);
    SliceOfSuffix(s, |s| - |t|, |r|);
    r
  }

  lemma SliceOfSuffix(s: string, i: nat, k: nat)
    requires i + k <= |s|
    ensures s[i..][..k] == s[i..i + k]
  {
  }

  /** Trimming twice changes nothing more. */
  lemma TrimIdempotent(s: string)
    ensures Trim(Trim(s)) == Trim(s)
  {
    var r := Trim(s);
    if r != [] {
      assert TrimStart(r) == r;
      assert TrimEnd(r) == r;
    }
  }

  // ---- the page -----------------------------------------------------------------------

  /** What a `fetch` to the categories endpoint came back with. */
  datatype Reply = Succeeded | Refused(error: Option<string>) | NetworkFailure

  datatype NewCategory = NewCategory(mainCategory: string, subcategory: string)

  /** `result.error || fallback`: a missing or empty message falls back. */
  function MessageOr(error: Option<string>, fallback: string): (message: string)
    ensures fallback != "" ==> message != ""
    ensures error.Some? && error.value != "" ==> message == error.value
    ensures !(error.Some? && error.value != "") ==> message == fallback
  {
    if error.Some? && error.value != "" then error.value else fallback
  }

  /** The body `handleAddCategory` posts, or None when a field is blank after trimming. */
  function AddRequest(newMainCategory: string, newSubcategory: string): (request: Option<NewCategory>)
    ensures request.None? <==> Trim(newMainCategory) == [] || Trim(newSubcategory) == []
    ensures request.Some? ==> request.value == NewCategory(Trim(newMainCategory), Trim(newSubcategory))
    ensures request.Some? ==> request.value.mainCategory != [] && request.value.subcategory != []
  {
    if Trim(newMainCategory) == [] || Trim(newSubcategory) == [] then None
    else Some(NewCategory(Trim(newMainCategory), Trim(newSubcategory)))
  }

  /** A submitted category is already trimmed: submitting it again would send the same values. */
  lemma AddRequestStable(newMainCategory: string, newSubcategory: string)
    requires AddRequest(newMainCategory, newSubcategory).Some?
    ensures var r := AddRequest(newMainCategory, newSubcategory).value;
      AddRequest(r.mainCategory, r.subcategory) == Some(r)
  {
    TrimIdempotent(newMainCategory);
    TrimIdempotent(newSubcategory);
  }

  /** The state a handler touches: the two input fields and the banners. */
  datatype FormState = FormState(
    newMainCategory: string,
    newSubcategory: string,
    isLoading: bool,
    error: Option<string>,
    statusMessage: string)

  /** What a handler did: the state it leaves, the request it sent and whether it refetches. */
  datatype Handled<R> = Handled(form: FormState, request: Option<R>, refetch: bool)

  /** `handleAddCategory` run to completion against `reply`. */
  function AfterAdd(form: FormState, reply: Reply): (h: Handled<NewCategory>)
    ensures h.request == AddRequest(form.newMainCategory, form.newSubcategory)
    ensures h.refetch <==> h.request.Some? && reply.Succeeded?
    ensures h.request.None? ==> h.form == form.(error := Some("Both main category and subcategory are required"))
    ensures h.request.Some? ==> !h.form.isLoading
    ensures h.refetch ==> h.form == form.(newMainCategory := "", newSubcategory := "", isLoading := false,
      error := None, statusMessage := "Category added successfully")
    ensures h.request.Some? && !reply.Succeeded? ==>
      h.form.newMainCategory == form.newMainCategory && h.form.newSubcategory == form.newSubcategory
      && h.form.statusMessage == form.statusMessage && h.form.error.Some?
  {
    var request := AddRequest(form.newMainCategory, form.newSubcategory);
    if request.None? then
      Handled(form.(error := Some("Both main category and subcategory are required")), None, false)
    else
      match reply
      case Succeeded =>
        Handled(form.(newMainCategory := "", newSubcategory := "", isLoading := false,
          error := None, statusMessage := "Category added successfully"), request, true)
      case Refused(e) =>
        Handled(form.(isLoading := false, error := Some(MessageOr(e, "Failed to add category"))), request, false)
      case NetworkFailure =>
        Handled(form.(isLoading := false, error := Some("Network error: Failed to add category")), request, false)
  }

  /** `handleDeleteCategory` run to completion; `confirmed` is the answer to the dialog. */
  function AfterDelete(form: FormState, id: string, confirmed: bool, reply: Reply): (h: Handled<string>)
    ensures !confirmed ==> h == Handled(form, None, false)
    ensures confirmed ==> h.request == Some(id) && !h.form.isLoading
    ensures h.refetch <==> confirmed && reply.Succeeded?
    ensures h.form.newMainCategory == form.newMainCategory && h.form.newSubcategory == form.newSubcategory
    ensures confirmed && !reply.Succeeded? ==> h.form.error.Some? && h.form.statusMessage == form.statusMessage
  {
    if !confirmed then Handled(form, None, false)
    else
      match reply
      case Succeeded =>
        Handled(form.(isLoading := false, error := None, statusMessage := "Category deleted successfully"), Some(id), true)
      case Refused(e) =>
        Handled(form.(isLoading := false, error := Some(MessageOr(e, "Failed to delete category"))), Some(id), false)
      case NetworkFailure =>
        Handled(form.(isLoading := false, error := Some("Network error: Failed to delete category")), Some(id), false)
  }

  /** A refused add keeps what was typed so it can be corrected and resubmitted. */
  lemma RefusedAddKeepsInput(form: FormState, e: Option<string>)
    requires AddRequest(form.newMainCategory, form.newSubcategory).Some?
    ensures var h := AfterAdd(form, Refused(e));
      h.form.newMainCategory == form.newMainCategory && h.form.newSubcategory == form.newSubcategory
      && h.form.error == Some(MessageOr(e, "Failed to add category")) && !h.refetch
  {
  }

  class CategoriesPage {
    var categories: seq<Category>
    var groupedCategories: map<string, seq<Category>>
    var newMainCategory: string
    var newSubcategory: string
    var isLoading: bool
    var error: Option<string>
    var statusMessage: string

    function Form(): FormState
      reads this
    {
      FormState(newMainCategory, newSubcategory, isLoading, error, statusMessage)
    }

    constructor ()
      ensures categories == [] && groupedCategories == map[]
      ensures Form() == FormState("", "", false, None, "")
    {
      categories := [];
      groupedCategories := map[];
      newMainCategory := "";
      newSubcategory := "";
      isLoading := false;
      error := None;
      statusMessage := "";
    }

    method SetForm(f: FormState)
      modifies this
      ensures Form() == f
      ensures categories == old(categories) && groupedCategories == old(groupedCategories)
    {
      newMainCategory := f.newMainCategory;
      newSubcategory := f.newSubcategory;
      isLoading := f.isLoading;
      error := f.error;
      statusMessage := f.statusMessage;
    }

    /** A successful `fetchCategories`, followed by the grouping effect it triggers. When
        the effect throws, `setGroupedCategories` is not reached and `thrown` is set. */
    method LoadCategories(data: seq<Category>, leq: (string, string) -> bool) returns (thrown: bool)
      modifies this
      ensures categories == data
      ensures thrown <==> exists c :: c in data && InheritedKey(c.mainCategory)
      ensures !thrown ==> groupedCategories == SortGroups(Grouped(data), leq)
      ensures thrown ==> groupedCategories == old(groupedCategories)
      ensures Form() == old(Form())
    {
      categories := data;
      var grouped := GroupCategories(data);
      thrown := grouped.None?;
      if grouped.Some? {
        groupedCategories := SortGroups(grouped.value, leq);
      }
    }

    method HandleAddCategory(reply: Reply) returns (request: Option<NewCategory>, refetch: bool)
      modifies this
      ensures var h := AfterAdd(old(Form()), reply);
        Form() == h.form && request == h.request && refetch == h.refetch
      ensures categories == old(categories) && groupedCategories == old(groupedCategories)
    {
      var h := AfterAdd(Form(), reply);
      SetForm(h.form);
      request := h.request;
      refetch := h.refetch;
    }

    method HandleDeleteCategory(id: string, confirmed: bool, reply: Reply) returns (deleted: Option<string>, refetch: bool)
      modifies this
      ensures var h := AfterDelete(old(Form()), id, confirmed, reply);
        Form() == h.form && deleted == h.request && refetch == h.refetch
      ensures categories == old(categories) && groupedCategories == old(groupedCategories)
    {
      var h := AfterDelete(Form(), id, confirmed, reply);
      SetForm(h.form);
      deleted := h.request;
      refetch := h.refetch;
    }
  }
}
