/**
 * The list screen's view-model: derived views over the table's current rows
 * (categories, filtered list) and the writes it issues to the table.
 */
module ShoppingListViewModel {
  import opened ShoppingItems
  import opened Seqs
  import opened Sorting
  import opened Text
  import opened ShoppingListDao

  /** The built-in categories as written in the source, before sorting. */
  const RawCategories: seq<string> := [
    "Electronics", "Dairy", "Food", "Vegetables", "Fruits", "Beverages", "Books",
    "Clothing", "Household", "Beauty & Personal Care", "Health & Wellness",
    "Toys & Games", "Sports & Outdoors", "Pet Supplies"]

  /** `defaultCategories`: the built-in categories sorted by their lowercase form. */
  const DefaultCategories: seq<string> := [
    "Beauty & Personal Care", "Beverages", "Books", "Clothing", "Dairy", "Electronics",
    "Food", "Fruits", "Health & Wellness", "Household", "Pet Supplies",
    "Sports & Outdoors", "Toys & Games", "Vegetables"]

  /** `defaultPriority`: the labels offered by the priority filter. */
  const DefaultPriority: seq<string> := ["All", "Normal", "High"]

  /**
   * DefaultCategories is what `sortedBy { it.lowercase() }` makes of the
   * listed names: the same 14 distinct names, strictly ordered by lowercase
   * form (DefaultCategoriesAreTheSort then shows it is the sort itself).
   */
  lemma DefaultCategoriesSorted()
    ensures |DefaultCategories| == |RawCategories| == 14
    ensures forall x :: x in DefaultCategories <==> x in RawCategories
    ensures NoDuplicates(DefaultCategories) && NoDuplicates(RawCategories)
    ensures SortedBy(DefaultCategories, LowerString, StrLe)
    ensures forall i, j :: 0 <= i < j < |DefaultCategories| ==>
      LowerString(DefaultCategories[i]) != LowerString(DefaultCategories[j])
  {
    DefaultCategoriesOrdered();
    RawCategoriesDistinct();
    DefaultCategoriesSameNames();
  }

  /** `defaultCategories` is exactly what the stable sort by lowercase form makes of the listed names. */
  lemma DefaultCategoriesAreTheSort()
    ensures DefaultCategories == SortBy(RawCategories, LowerString, StrLe)
  {
    DefaultCategoriesSorted();
    StrLeIsTotalOrder();
    IsSortOf(DefaultCategories, RawCategories, LowerString, StrLe);
  }

  lemma DefaultCategoriesDistinct()
    ensures NoDuplicates(DefaultCategories)
  {
  }

  lemma RawCategoriesDistinct()
    ensures NoDuplicates(RawCategories)
  {
  }

  lemma DefaultCategoriesSameNames()
    ensures |DefaultCategories| == |RawCategories| == 14
    ensures forall x :: x in DefaultCategories <==> x in RawCategories
  {
  }

  /** The defaults are strictly increasing by lowercase form. */
  lemma DefaultCategoriesOrdered()
    ensures SortedBy(DefaultCategories, LowerString, StrLe)
    ensures forall i, j :: 0 <= i < j < |DefaultCategories| ==>
      LowerString(DefaultCategories[i]) != LowerString(DefaultCategories[j])
  {
    var d := DefaultCategories;
    StrLeIsTotalOrder();
    forall i | 0 <= i < |d| - 1
      ensures StrLe(LowerString(d[i]), LowerString(d[i + 1])) && LowerString(d[i]) != LowerString(d[i + 1])
    {
      DefaultCategoriesAdjacent(i);
    }
    SortedFromAdjacent(d, LowerString, StrLe);
    DistinctKeysFromAdjacent(d, LowerString, StrLe);
  }

  /** Neighbouring default categories are strictly ordered by lowercase form. */
  lemma DefaultCategoriesAdjacent(i: nat)
    requires i < |DefaultCategories| - 1
    ensures var d := DefaultCategories;
      StrLe(LowerString(d[i]), LowerString(d[i + 1])) && LowerString(d[i]) != LowerString(d[i + 1])
  {
    var d := DefaultCategories;
    // the first index at which the lowercase forms differ
    var k := if i == 0 then 2 else if i == 1 || i == 6 || i == 8 then 1 else 0;
    LowerStrLeAt(d[i], d[i + 1], k);
  }

  /** `items.map { it.category }`. */
  function CategoriesOf(items: seq<ShoppingItem>): (r: seq<string>)
    ensures |r| == |items|
    ensures forall i :: 0 <= i < |items| ==> r[i] == items[i].category
  {
    seq(|items|, i requires 0 <= i < |items| => items[i].category)
  }

  /** `allCategories`: "All", then the defaults and the items' categories without repeats. */
  function AllCategoriesOf(items: seq<ShoppingItem>): (r: seq<string>)
    ensures |r| >= 1 + |DefaultCategories| && r[0] == "All"
    ensures r[1..1 + |DefaultCategories|] == DefaultCategories
    ensures forall it :: it in items ==> it.category in r[1..]
  {
    DefaultCategoriesDistinct();
    CategoriesAfter(DefaultCategories, items);
    ["All"] + Distinct(DefaultCategories + CategoriesOf(items))
  }

  /**
   * The category list is "All", the 14 defaults in order, then each item
   * category not yet listed, in first-occurrence order; after the head
   * nothing repeats and every item category appears.
   */
  lemma AllCategoriesShape(items: seq<ShoppingItem>)
    ensures AllCategoriesOf(items) ==
      ["All"] + DefaultCategories + DistinctFrom(CategoriesOf(items), Elems(DefaultCategories))
    ensures NoDuplicates(AllCategoriesOf(items)[1..])
    ensures forall it :: it in items ==> it.category in AllCategoriesOf(items)[1..]
    ensures forall c :: c in AllCategoriesOf(items)[1..] ==>
      c in DefaultCategories || exists it :: it in items && it.category == c
  {
    DefaultCategoriesSorted();
    CategoriesAfter(DefaultCategories, items);
  }

  lemma CategoriesAfter(d: seq<string>, items: seq<ShoppingItem>)
    requires NoDuplicates(d)
    ensures Distinct(d + CategoriesOf(items)) == d + DistinctFrom(CategoriesOf(items), Elems(d))
    ensures NoDuplicates(Distinct(d + CategoriesOf(items)))
    ensures forall it :: it in items ==> it.category in Distinct(d + CategoriesOf(items))
    ensures forall c :: c in Distinct(d + CategoriesOf(items)) ==>
      c in d || exists it :: it in items && it.category == c
  {
    var cats := CategoriesOf(items);
    DistinctFromPrefix(d, cats, {});
    assert {} + Elems(d) == Elems(d);
    DistinctFromNoDuplicates(d + cats, {});
    forall it | it in items ensures it.category in Distinct(d + cats) {
      var i :| 0 <= i < |items| && items[i] == it;
      assert (d + cats)[|d| + i] == it.category;
    }
    forall c | c in Distinct(d + cats) ensures c in d || exists it :: it in items && it.category == c {
      assert c in d + cats;
      if c !in d {
        var i :| 0 <= i < |cats| && cats[i] == c;
        assert items[i] in items;
      }
    }
  }

  /** "All" is not de-duplicated against the head: it shows up again exactly when an item's category is "All". */
  lemma AllCategoriesRepeatsAll(items: seq<ShoppingItem>)
    ensures AllCategoriesOf(items)[0] == "All"
    ensures "All" in AllCategoriesOf(items)[1..] <==> exists it :: it in items && it.category == "All"
  {
  }

  // ----- filterItems -----

  predicate CategoryMatches(category: string, it: ShoppingItem) {
    category == "All" || it.category == category
  }

  predicate PriorityMatches(priority: string, it: ShoppingItem) {
    priority == "All" || EqualsIgnoreCase(it.priority.Name(), priority)
  }

  predicate StatusMatches(status: string, it: ShoppingItem) {
    status == "All" || (status == "Pending" && !it.isBought) || (status == "Bought" && it.isBought)
  }

  predicate NameMatches(searchQuery: string, it: ShoppingItem) {
    ContainsIgnoreCase(it.name, searchQuery)
  }

  /** The four conditions `filterItems` ANDs together. */
  function Selects(category: string, priority: string, status: string, searchQuery: string): ShoppingItem -> bool {
    (it: ShoppingItem) =>
      CategoryMatches(category, it) && PriorityMatches(priority, it) &&
      StatusMatches(status, it) && NameMatches(searchQuery, it)
  }

  /** `filterItems` applied to one value of the live list. */
  function FilterItemsOf(items: seq<ShoppingItem>, category: string, priority: string,
                         status: string, searchQuery: string): (r: seq<ShoppingItem>)
    ensures |r| <= |items|
    ensures forall it :: it in r ==>
      && it in items
      && CategoryMatches(category, it) && PriorityMatches(priority, it)
      && StatusMatches(status, it) && NameMatches(searchQuery, it)
  {
    Filter(items, Selects(category, priority, status, searchQuery))
  }

  /**
   * The result keeps the input's order, and an item is kept exactly when it
   * passes all four tests.
   */
  lemma FilterItemsSpec(items: seq<ShoppingItem>, category: string, priority: string,
                        status: string, searchQuery: string, it: ShoppingItem)
    ensures IsSubsequence(FilterItemsOf(items, category, priority, status, searchQuery), items)
    ensures it in FilterItemsOf(items, category, priority, status, searchQuery) <==>
      && it in items
      && (category == "All" || it.category == category)
      && (priority == "All" || EqualsIgnoreCase(it.priority.Name(), priority))
      && (status == "All" || (status == "Pending" && !it.isBought) || (status == "Bought" && it.isBought))
      && ContainsIgnoreCase(it.name, searchQuery)
  {
    FilterIsSubsequence(items, Selects(category, priority, status, searchQuery));
    FilterMembership(items, Selects(category, priority, status, searchQuery), it);
  }

  /** With every selection at "All" and an empty query the list comes back unchanged. */
  lemma FilterItemsIdentity(items: seq<ShoppingItem>)
    ensures FilterItemsOf(items, "All", "All", "All", "") == items
  {
    forall it | it in items ensures Selects("All", "All", "All", "")(it) {
      ContainsEmpty(it.name);
    }
    FilterKeepsAll(items, Selects("All", "All", "All", ""));
  }

  /** A status other than "All", "Pending" or "Bought" selects nothing. */
  lemma FilterItemsUnknownStatus(items: seq<ShoppingItem>, category: string, priority: string,
                                 status: string, searchQuery: string)
    requires status != "All" && status != "Pending" && status != "Bought"
    ensures FilterItemsOf(items, category, priority, status, searchQuery) == []
  {
    FilterKeepsNoneIff(items, Selects(category, priority, status, searchQuery));
  }

  /** Besides "All", every priority is selected by exactly one label of the priority menu. */
  lemma DefaultPriorityLabels(p: Priority)
    ensures |DefaultPriority| == 3 && DefaultPriority[0] == "All"
    ensures forall i :: 1 <= i < |DefaultPriority| ==>
      (EqualsIgnoreCase(p.Name(), DefaultPriority[i]) <==> i == if p == NORMAL then 1 else 2)
  {
    assert !EqualsIgnoreCase("HIGH", "Normal") by {
      assert Lower("HIGH"[0]) != Lower("Normal"[0]);
    }
  }

  /** The labels "Normal" and "High" of the priority menu each select exactly their priority. */
  lemma PriorityLabelsMatch(it: ShoppingItem)
    ensures PriorityMatches(DefaultPriority[1], it) <==> it.priority == NORMAL
    ensures PriorityMatches(DefaultPriority[2], it) <==> it.priority == HIGH
  {
  }

  // ----- write-through copies -----

  /** `item.copy(category = c)`: only the category differs. */
  function WithCategory(item: ShoppingItem, c: string): (r: ShoppingItem)
    ensures r.category == c
    ensures r.(category := item.category) == item
  {
    item.(category := c)
  }

  /** `item.copy()` followed by `isBought = v` on the copy: only the flag differs. */
  function WithBought(item: ShoppingItem, v: bool): (r: ShoppingItem)
    ensures r.isBought == v
    ensures r.(isBought := item.isBought) == item
  {
    var copy := item;
    copy.(isBought := v)
  }

  /** After `updateItem(item, c)` the row under the item's key is the copy with category `c`; other keys keep their rows. */
  lemma UpdateItemRoundTrip(rows: seq<ShoppingItem>, item: ShoppingItem, c: string, k: int)
    requires item.id in Ids(rows)
    ensures Lookup(ReplaceRow(rows, WithCategory(item, c)), item.id) == Some(WithCategory(item, c))
    ensures k != item.id ==> Lookup(ReplaceRow(rows, WithCategory(item, c)), k) == Lookup(rows, k)
  {
    LookupReplaced(rows, WithCategory(item, c), item.id);
    LookupReplaced(rows, WithCategory(item, c), k);
  }

  /** After `changeItemState(item, true)` the stored row passes the "Bought" filter and fails "Pending"; with `false`, the reverse. */
  lemma ChangeItemStateFilters(rows: seq<ShoppingItem>, item: ShoppingItem, v: bool)
    requires item.id in Ids(rows)
    ensures var after := WithBought(item, v);
      && after in ReplaceRow(rows, after)
      && StatusMatches("Bought", after) == v
      && StatusMatches("Pending", after) == !v
  {
  }

  // ----- the view-model object -----

  class ViewModel {
    const dao: ShoppingItemTable

    constructor (dao: ShoppingItemTable)
      ensures this.dao == dao
    {
      this.dao := dao;
    }

    /** `shoppingItems`: the live list, in four-tier order. */
    function ShoppingItems(): (r: seq<ShoppingItem>)
      reads dao
      ensures multiset(r) == multiset(dao.rows)
      ensures forall i, j :: 0 <= i < j < |r| ==> Tier(r[i]) <= Tier(r[j])
    {
      dao.GetItemsSortedByPriority()
    }

    /** `shoppingItemsSortedByPrice`. */
    function ShoppingItemsSortedByPrice(): (r: seq<ShoppingItem>)
      reads dao
      ensures multiset(r) == multiset(dao.rows)
      ensures forall i, j :: 0 <= i < j < |r| ==> r[i].estimatedPrice <= r[j].estimatedPrice
    {
      dao.GetItemsSortedByPrice()
    }

    /** `allCategories` at the current list. */
    function AllCategories(): (r: seq<string>)
      reads dao
      ensures |r| >= 1 && r[0] == "All"
      ensures forall it :: it in dao.rows ==> it.category in r[1..]
    {
      assert forall it :: it in dao.rows ==> it in multiset(ShoppingItems());
      AllCategoriesOf(ShoppingItems())
    }

    /** `filterItems(...)` at the current list. */
    function FilterItems(category: string, priority: string, status: string, searchQuery: string): (r: seq<ShoppingItem>)
      reads dao
      ensures |r| <= |dao.rows|
      ensures forall it :: it in r ==> it in dao.rows && Selects(category, priority, status, searchQuery)(it)
    {
      assert forall it :: it in ShoppingItems() ==> it in multiset(dao.rows);
      FilterItemsOf(ShoppingItems(), category, priority, status, searchQuery)
    }

    /** `getAllItemsNum`: as many as the live list holds at the same instant. */
    method GetAllItemsNum() returns (n: int)
      ensures n == |ShoppingItems()| == |dao.rows|
    {
      n := dao.GetAllItemsNum();
    }

    /** `getImportantItemsNum`: the HIGH rows, never more than all rows. */
    method GetImportantItemsNum() returns (n: int)
      ensures n == dao.GetImportantItemsNum()
      ensures 0 <= n <= |ShoppingItems()|
      ensures n == 0 <==> forall r :: r in dao.rows ==> r.priority == NORMAL
    {
      n := dao.GetImportantItemsNum();
    }

    /** `addItem`: forwards to the table's insert. */
    method AddItem(item: ShoppingItem)
      requires dao.Valid()
      modifies dao
      ensures dao.Valid()
      ensures dao.rows == InsertedRows(old(dao.rows), old(dao.nextId), item)
      ensures dao.nextId == NextIdAfterInsert(old(dao.nextId), item)
    {
      dao.InsertItem(item);
    }

    /** `updateItem(item, newCategory)`: writes the copy with the new category. */
    method UpdateItem(item: ShoppingItem, newCategory: string)
      requires dao.Valid()
      modifies dao
      ensures dao.Valid()
      ensures dao.rows == ReplaceRow(old(dao.rows), WithCategory(item, newCategory))
      ensures dao.nextId == old(dao.nextId)
    {
      var updatedItem := WithCategory(item, newCategory);
      dao.UpdateItem(updatedItem);
    }

    /** `changeItemState(item, value)`: writes a copy with `isBought = value`; `item` itself is a value and stays as it was. */
    method ChangeItemState(item: ShoppingItem, value: bool)
      requires dao.Valid()
      modifies dao
      ensures dao.Valid()
      ensures dao.rows == ReplaceRow(old(dao.rows), WithBought(item, value))
      ensures dao.nextId == old(dao.nextId)
    {
      var updatedItem := WithBought(item, value);
      dao.UpdateItem(updatedItem);
    }

    /** `deleteItem`. */
    method DeleteItem(item: ShoppingItem)
      requires dao.Valid()
      modifies dao
      ensures dao.Valid()
      ensures dao.rows == RemoveId(old(dao.rows), item.id) && dao.nextId == old(dao.nextId)
    {
      dao.DeleteItem(item);
    }

    /** `deleteAllItems`. */
    method DeleteAllItems()
      requires dao.Valid()
      modifies dao
      ensures dao.Valid()
      ensures dao.rows == [] && dao.nextId == old(dao.nextId)
    {
      dao.DeleteAllItems();
    }
  }

  /** A client run: add "Milk", count it, mark it bought, and filter by status. */
  method MilkScenario() {
    var table := new ShoppingItemTable();
    var vm := new ViewModel(table);
    var milk := NewShoppingItem("Dairy", "Milk", "2L", 3, false, NORMAL);
    vm.AddItem(milk);
    var stored := milk.(id := 1);
    assert table.rows == [stored];
    var n := vm.GetAllItemsNum();
    assert n == 1;
    vm.ChangeItemState(stored, true);
    var bought := stored.(isBought := true);
    assert table.rows == [bought];
    assert vm.ShoppingItems() == [bought];
    FilterItemsSpec([bought], "All", "All", "Bought", "", bought);
    FilterItemsSpec([bought], "All", "All", "Pending", "", bought);
    ContainsEmpty(bought.name);
    assert bought in vm.FilterItems("All", "All", "Bought", "");
    assert bought !in vm.FilterItems("All", "All", "Pending", "");
  }
}
