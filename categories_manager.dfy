/**
 * `Managers\Categories`: adds the plugin's widget categories to
 * Elementor's elements manager, skipping the malformed ones.
 */
module CategoriesManager {
  import opened Wrappers
  import opened PhpValues
  import opened Host
  import opened ManagersBase
  import opened ManagerWiring

  const CategoriesFilter := "arts/elementor_extension/widgets/categories"
  const CategoriesRegisteredAction := "arts/elementor_extension/widgets/categories_registered"

  /** A category is added only when both its `name` and its `title` are set (and not null). */
  predicate IsValidCategory(category: PhpVal) {
    IsSetOn(category, "name") && IsSetOn(category, "title")
  }

  /** The properties passed to `add_category`: the title, then the icon when one is set. */
  function CategoryProps(category: PhpVal): seq<Pair>
    requires IsValidCategory(category)
  {
    [Pair(StrKey("title"), Index(category.entries, StrKey("title")))]
      + (if IsSetOn(category, "icon") then [Pair(StrKey("icon"), Index(category.entries, StrKey("icon")))] else [])
  }

  /** The `add_category` call made for a valid category. */
  function CategoryCall(category: PhpVal): Call
    requires IsValidCategory(category)
  {
    AddCategory(Index(category.entries, StrKey("name")), CategoryProps(category))
  }

  /** The valid categories, in input order. */
  function ValidCategories(categories: seq<PhpVal>): seq<PhpVal> {
    if categories == [] then []
    else (if IsValidCategory(categories[0]) then [categories[0]] else []) + ValidCategories(categories[1..])
  }

  /** The `add_category` calls `register` makes, in input order. */
  function CategoryCalls(categories: seq<PhpVal>): seq<Call> {
    if categories == [] then []
    else (if IsValidCategory(categories[0]) then [CategoryCall(categories[0])] else []) + CategoryCalls(categories[1..])
  }

  lemma {:induction false} CategoryCallsAppend(xs: seq<PhpVal>, ys: seq<PhpVal>)
    ensures CategoryCalls(xs + ys) == CategoryCalls(xs) + CategoryCalls(ys)
  {
    if xs == [] {
      assert xs + ys == ys;
    } else {
      var zs := xs + ys;
      assert zs[0] == xs[0] && zs[1..] == xs[1..] + ys;
      CategoryCallsAppend(xs[1..], ys);
      ConcatAssoc(if IsValidCategory(xs[0]) then [CategoryCall(xs[0])] else [], CategoryCalls(xs[1..]), CategoryCalls(ys));
    }
  }

  /**
   * The properties of an added category always hold its title, hold an
   * icon exactly when the category sets one, and hold nothing else.
   */
  lemma CategoryPropsShape(category: PhpVal)
    requires IsValidCategory(category)
    ensures Lookup(CategoryProps(category), StrKey("title")) == Some(Index(category.entries, StrKey("title")))
    ensures KeyExists(CategoryProps(category), StrKey("icon")) <==> IsSetOn(category, "icon")
    ensures IsSetOn(category, "icon") ==> Lookup(CategoryProps(category), StrKey("icon")) == Some(Index(category.entries, StrKey("icon")))
    ensures forall k :: KeyExists(CategoryProps(category), k) ==> k == StrKey("title") || k == StrKey("icon")
  {
    var ps := CategoryProps(category);
    assert Position(ps, StrKey("title")) == Some(0);
    if IsSetOn(category, "icon") {
      assert Position(ps, StrKey("icon")) == Some(1);
    } else {
      assert ps == [Pair(StrKey("title"), Index(category.entries, StrKey("title")))];
    }
  }

  /**
   * `add_category` is called exactly once per valid category, in input
   * order; a category lacking its name or title gets no call.
   */
  lemma CategoryCallsPerValid(categories: seq<PhpVal>)
    ensures |CategoryCalls(categories)| == |ValidCategories(categories)|
    ensures forall i :: 0 <= i < |ValidCategories(categories)| ==>
      IsValidCategory(ValidCategories(categories)[i]) &&
      CategoryCalls(categories)[i] == CategoryCall(ValidCategories(categories)[i])
    ensures forall c :: c in ValidCategories(categories) <==> c in categories && IsValidCategory(c)
  {
    CategoryCallsMatchValid(categories);
    ValidCategoriesMembers(categories);
  }

  /** The `add_category` calls for a list of valid categories, one each, in order. */
  function CallsOf(valid: seq<PhpVal>): (r: seq<Call>)
    requires forall v :: v in valid ==> IsValidCategory(v)
    ensures |r| == |valid| && forall i :: 0 <= i < |valid| ==> r[i] == CategoryCall(valid[i])
  {
    if valid == [] then [] else [CategoryCall(valid[0])] + CallsOf(valid[1..])
  }

  lemma {:induction false} CategoryCallsMatchValid(categories: seq<PhpVal>)
    ensures forall v :: v in ValidCategories(categories) ==> IsValidCategory(v)
    ensures CategoryCalls(categories) == CallsOf(ValidCategories(categories))
  {
    ValidCategoriesMembers(categories);
    if categories != [] {
      CategoryCallsMatchValid(categories[1..]);
      var vs := ValidCategories(categories[1..]);
      if IsValidCategory(categories[0]) {
        var v := [categories[0]] + vs;
        assert v[0] == categories[0] && v[1..] == vs;
      } else {
        ConcatEmpty(vs);
        ConcatEmpty(CategoryCalls(categories[1..]));
      }
    }
  }

  lemma {:induction false} ValidCategoriesMembers(categories: seq<PhpVal>)
    ensures forall c :: c in ValidCategories(categories) <==> c in categories && IsValidCategory(c)
  {
    if categories != [] {
      ValidCategoriesMembers(categories[1..]);
      assert categories == [categories[0]] + categories[1..];
    }
  }

  class Categories {
    const base: BaseManager
    /** `$this->categories`, after the `categories` filter. */
    var categories: PhpVal

    constructor (args: PhpVal, strings: PhpVal)
      ensures categories == PArr([])
      ensures base.args == args && base.strings == strings && base.requireFiles == []
      ensures fresh(base)
    {
      base := new BaseManager(args, strings, []);
      categories := PArr([]);
    }

    /** `apply_filters()`: the `categories` filter replaces the list with whatever it returns. */
    method ApplyCategoriesFilter(host: Host, filtered: PhpVal)
      modifies this, host
      ensures categories == filtered
      ensures host.log == old(host.log) + [Call.ApplyFilters(CategoriesFilter)] && host.required == old(host.required)
    {
      host.Record(Call.ApplyFilters(CategoriesFilter));
      categories := filtered;
    }

    /**
     * `init($managers)`, inherited from the base manager: `apply_filters`,
     * which this class overrides, runs first, then `add_managers`, whose
     * `$this` is this categories manager, so this manager is never stored.
     */
    method Init(host: Host, filtered: PhpVal, input: seq<ManagerEntry>)
      modifies this, base, host
      ensures categories == filtered
      ensures host.log == old(host.log) + [Call.ApplyFilters(CategoriesFilter)] && host.required == old(host.required)
      ensures base.steps == old(base.steps) + [ApplyFiltersStep, AddManagersStep]
      ensures base.managers == Some(Added(old(base.managers).GetOr(map[]), input, this))
      ensures base.args == old(base.args) && base.strings == old(base.strings) && base.properties == old(base.properties)
      ensures (forall k :: k in old(base.managers).GetOr(map[]) ==> old(base.managers).GetOr(map[])[k] != this) ==>
        forall k :: k in base.managers.value ==> base.managers.value[k] != this
    {
      ApplyCategoriesFilter(host, filtered);
      base.Init(input, this);
      AddedProperties(old(base.managers).GetOr(map[]), input, this);
    }

    /**
     * `register($elements_manager)`: nothing for a missing or empty list;
     * otherwise one `add_category` per valid category, in order, then the
     * `categories_registered` action.
     */
    method Register(host: Host)
      modifies host
      ensures !IsNonEmptyArray(categories) ==> host.log == old(host.log)
      ensures IsNonEmptyArray(categories) ==>
        host.log == old(host.log) + CategoryCalls(ValuesOf(categories.entries)) + [DoAction(CategoriesRegisteredAction)]
      ensures host.required == old(host.required)
    {
      if !IsNonEmptyArray(categories) {
        return;
      }
      var all := ValuesOf(categories.entries);
      var i := 0;
      while i < |all|
        invariant 0 <= i <= |all|
        invariant host.log == old(host.log) + CategoryCalls(all[..i])
        invariant host.required == old(host.required)
      {
        assert all[..i + 1] == all[..i] + [all[i]];
        CategoryCallsAppend(all[..i], [all[i]]);
        ConcatAssoc(old(host.log), CategoryCalls(all[..i]), CategoryCalls([all[i]]));
        var category := all[i];
        assert [category][1..] == [];
        ConcatEmpty(if IsValidCategory(category) then [CategoryCall(category)] else []);
        if IsValidCategory(category) {
          var props := [Pair(StrKey("title"), Index(category.entries, StrKey("title")))];
          if IsSetOn(category, "icon") {
            props := props + [Pair(StrKey("icon"), Index(category.entries, StrKey("icon")))];
          }
          assert props == CategoryProps(category);
          host.Record(AddCategory(Index(category.entries, StrKey("name")), props));
        } else {
          ConcatEmpty(host.log);
        }
        i := i + 1;
      }
      assert all[..i] == all;
      host.Record(DoAction(CategoriesRegisteredAction));
    }
  }
}
