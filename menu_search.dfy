/**
 * The storefront search of src/app/page.tsx: every category keeps the items
 * whose name or description contains the query, up to ASCII case, and the
 * categories left empty are dropped.
 */
module MenuSearch {
  import opened Wrappers
  import opened Seqs
  import opened Text

  /** A menu item as the page receives it; the description is nullable. */
  datatype MenuEntry = MenuEntry(id: string, name: string, description: Option<string>, price: int)

  datatype Category = Category(id: string, name: string, items: seq<MenuEntry>)

  /** The item callback; a null description never matches. */
  predicate ItemMatches(item: MenuEntry, query: string) {
    || Includes(Lower(item.name), Lower(query))
    || (item.description.Some? && Includes(Lower(item.description.value), Lower(query)))
  }

  /** `{ ...category, items: category.items.filter(...) }`. */
  function Narrow(c: Category, query: string): (n: Category)
    ensures n.id == c.id && n.name == c.name
    ensures IsSubsequence(n.items, c.items)
    ensures forall item :: item in n.items <==> item in c.items && ItemMatches(item, query)
  {
    FilterIsSubsequence(c.items, item => ItemMatches(item, query));
    c.(items := Filter(c.items, item => ItemMatches(item, query)))
  }

  /** `categories.map(...)`. */
  function NarrowAll(categories: seq<Category>, query: string): (r: seq<Category>)
    ensures |r| == |categories|
    ensures forall j :: 0 <= j < |categories| ==> r[j] == Narrow(categories[j], query)
  {
    seq(|categories|, j requires 0 <= j < |categories| => Narrow(categories[j], query))
  }

  predicate NonEmpty(c: Category) {
    |c.items| > 0
  }

  /** `filteredCategories`: the narrowed categories that still hold an item. */
  function FilteredCategories(categories: seq<Category>, query: string): (shown: seq<Category>)
    ensures IsSubsequence(shown, NarrowAll(categories, query))
    ensures forall c :: c in shown ==> NonEmpty(c)
  {
    FilterIsSubsequence(NarrowAll(categories, query), NonEmpty);
    Filter(NarrowAll(categories, query), NonEmpty)
  }

  /** A category is shown exactly when it is the narrowing of a listed category that kept an item. */
  lemma ShownCategoryIff(categories: seq<Category>, query: string, c: Category)
    ensures c in FilteredCategories(categories, query) <==>
      exists j :: 0 <= j < |categories| && c == Narrow(categories[j], query) && |c.items| > 0
  {
    var all := NarrowAll(categories, query);
    if c in FilteredCategories(categories, query) {
      var j :| 0 <= j < |all| && all[j] == c;
      assert c == Narrow(categories[j], query);
    }
    if exists j :: 0 <= j < |categories| && c == Narrow(categories[j], query) && |c.items| > 0 {
      var j :| 0 <= j < |categories| && c == Narrow(categories[j], query) && |c.items| > 0;
      assert all[j] == c;
    }
  }

  /** An item is shown in a category exactly when it is one of its items and its name or description matches. */
  lemma ShownItemIff(c: Category, query: string, item: MenuEntry)
    ensures item in Narrow(c, query).items <==>
      && item in c.items
      && (Contains(Lower(item.name), Lower(query))
          || (item.description.Some? && Contains(Lower(item.description.value), Lower(query))))
  {
    ItemMatchesIff(item, query);
  }

  lemma ItemMatchesIff(item: MenuEntry, query: string)
    ensures ItemMatches(item, query) <==>
      || Contains(Lower(item.name), Lower(query))
      || (item.description.Some? && Contains(Lower(item.description.value), Lower(query)))
  {
    IncludesIff(Lower(item.name), Lower(query));
    if item.description.Some? {
      IncludesIff(Lower(item.description.value), Lower(query));
    }
  }

  /** With an empty query nothing is narrowed: every category that has an item is shown whole. */
  lemma EmptyQueryKeepsNonEmpty(categories: seq<Category>)
    ensures FilteredCategories(categories, "") == Filter(categories, NonEmpty)
  {
    forall j | 0 <= j < |categories| ensures Narrow(categories[j], "") == categories[j] {
      var c := categories[j];
      forall k | 0 <= k < |c.items| ensures ItemMatches(c.items[k], "") {
        IncludesEmpty(Lower(c.items[k].name));
      }
      FilterKeepsAll(c.items, item => ItemMatches(item, ""));
    }
    assert NarrowAll(categories, "") == categories;
  }

  /** `!searchQuery && categories.length > 0`: the tab bar. */
  predicate ShowCategoryTabs(categories: seq<Category>, query: string) {
    query == "" && |categories| > 0
  }

  /** The tabs only appear over an unnarrowed list, which holds at least one category unless all are empty. */
  lemma TabsOverWholeMenu(categories: seq<Category>, query: string)
    requires ShowCategoryTabs(categories, query)
    ensures FilteredCategories(categories, query) == Filter(categories, NonEmpty)
    ensures NonEmpty(categories[0]) ==> |FilteredCategories(categories, query)| > 0
  {
    EmptyQueryKeepsNonEmpty(categories);
  }
}
