/**
 * The rules the list screen carries besides its layout: the price-sort
 * projection of the filtered list, the filter selections and how choosing a
 * "filter by" option resets them, and the item dialog's save handler
 * (validation, error flags, and the new or edited item it writes).
 */
module ShoppingListScreen {
  import opened ShoppingItems
  import opened Seqs
  import opened Sorting
  import opened Text
  import opened ShoppingListDao
  import opened ShoppingListViewModel

  // ----- the price projection -----

  /**
   * The list as shown: "Low to High" sorts by price ascending, "High to Low"
   * descending (both stable), anything else leaves the filtered list as it is.
   */
  function PriceSorted(items: seq<ShoppingItem>, priceFilter: string): (r: seq<ShoppingItem>)
    ensures |r| == |items| && multiset(r) == multiset(items)
  {
    if priceFilter == "Low to High" then SortBy(items, Price, IntLe)
    else if priceFilter == "High to Low" then SortBy(items, Price, IntGe)
    else items
  }

  /** Each choice orders by price in its direction, and items of equal price keep their relative order. */
  lemma PriceSortedOrder(items: seq<ShoppingItem>, priceFilter: string, p: int)
    ensures priceFilter == "Low to High" ==>
      forall i, j :: 0 <= i < j < |PriceSorted(items, priceFilter)| ==>
        PriceSorted(items, priceFilter)[i].estimatedPrice <= PriceSorted(items, priceFilter)[j].estimatedPrice
    ensures priceFilter == "High to Low" ==>
      forall i, j :: 0 <= i < j < |PriceSorted(items, priceFilter)| ==>
        PriceSorted(items, priceFilter)[i].estimatedPrice >= PriceSorted(items, priceFilter)[j].estimatedPrice
    ensures priceFilter != "Low to High" && priceFilter != "High to Low" ==> PriceSorted(items, priceFilter) == items
    ensures WithKey(PriceSorted(items, priceFilter), Price, p) == WithKey(items, Price, p)
  {
    IntOrders();
    if priceFilter == "Low to High" {
      SortBySorted(items, Price, IntLe);
      SortByStable(items, Price, IntLe, p);
    } else if priceFilter == "High to Low" {
      SortBySorted(items, Price, IntGe);
      SortByStable(items, Price, IntGe, p);
    }
  }

  /** Sorting a list that is already in price order changes nothing. */
  lemma PriceSortedIdempotent(items: seq<ShoppingItem>, priceFilter: string)
    ensures PriceSorted(PriceSorted(items, priceFilter), priceFilter) == PriceSorted(items, priceFilter)
  {
    IntOrders();
    if priceFilter == "Low to High" {
      SortBySorted(items, Price, IntLe);
      SortBySortedIsIdentity(SortBy(items, Price, IntLe), Price, IntLe);
    } else if priceFilter == "High to Low" {
      SortBySorted(items, Price, IntGe);
      SortBySortedIsIdentity(SortBy(items, Price, IntGe), Price, IntGe);
    }
  }

  // ----- the filter selections -----

  /** The screen's filter state and the list it shows. */
  class FilterSelections {
    var searchQuery: string
    var selectedCategory: string
    var selectedPriority: string
    var selectedPriceFilter: string
    var selectedStatus: string
    var sortByOption: string

    /** Nothing filtered, no price order, "Category" as the "filter by" option. */
    constructor ()
      ensures searchQuery == "" && selectedCategory == "All" && selectedPriority == "All"
      ensures selectedPriceFilter == "None" && selectedStatus == "All" && sortByOption == "Category"
    {
      searchQuery := "";
      selectedCategory := "All";
      selectedPriority := "All";
      selectedPriceFilter := "None";
      selectedStatus := "All";
      sortByOption := "Category";
    }

    /** The filtered list, then the price projection. */
    function Displayed(items: seq<ShoppingItem>): (r: seq<ShoppingItem>)
      reads this
      ensures |r| <= |items|
      ensures forall it :: it in r ==>
        && it in items
        && CategoryMatches(selectedCategory, it) && PriorityMatches(selectedPriority, it)
        && StatusMatches(selectedStatus, it) && NameMatches(searchQuery, it)
    {
      var filtered := FilterItemsOf(items, selectedCategory, selectedPriority, selectedStatus, searchQuery);
      assert forall it :: it in PriceSorted(filtered, selectedPriceFilter) ==> it in multiset(filtered);
      PriceSorted(FilterItemsOf(items, selectedCategory, selectedPriority, selectedStatus, searchQuery), selectedPriceFilter)
    }

    /**
     * Choosing a "filter by" option: the other three selections go back to
     * "All" ("None" for the price filter), the chosen one and the search
     * query stay; an option outside the four resets nothing.
     */
    method SelectSortOption(option: string)
      modifies this
      ensures sortByOption == option && searchQuery == old(searchQuery)
      ensures selectedCategory == if option in {"Priority", "Price", "Status"} then "All" else old(selectedCategory)
      ensures selectedPriority == if option in {"Category", "Price", "Status"} then "All" else old(selectedPriority)
      ensures selectedPriceFilter == if option in {"Category", "Priority", "Status"} then "None" else old(selectedPriceFilter)
      ensures selectedStatus == if option in {"Category", "Priority", "Price"} then "All" else old(selectedStatus)
    {
      sortByOption := option;
      if sortByOption == "Category" {
        selectedPriority := "All";
        selectedPriceFilter := "None";
        selectedStatus := "All";
      } else if sortByOption == "Priority" {
        selectedCategory := "All";
        selectedPriceFilter := "None";
        selectedStatus := "All";
      } else if sortByOption == "Price" {
        selectedCategory := "All";
        selectedPriority := "All";
        selectedStatus := "All";
      } else if sortByOption == "Status" {
        selectedCategory := "All";
        selectedPriority := "All";
        selectedPriceFilter := "None";
      }
    }
  }

  /** The selections right after construction show the whole list in its own order. */
  lemma ResetSelectionsShowAll(s: FilterSelections, items: seq<ShoppingItem>)
    requires s.searchQuery == "" && s.selectedCategory == "All" && s.selectedPriority == "All"
    requires s.selectedPriceFilter == "None" && s.selectedStatus == "All"
    ensures s.Displayed(items) == items
  {
    FilterItemsIdentity(items);
  }

  /**
   * In the state choosing "Category" leaves, only the category selection and
   * the query narrow the list, and it keeps the list's order.
   */
  lemma CategoryOnlyFilters(s: FilterSelections, items: seq<ShoppingItem>, it: ShoppingItem)
    requires s.selectedPriority == "All" && s.selectedPriceFilter == "None" && s.selectedStatus == "All"
    ensures IsSubsequence(s.Displayed(items), items)
    ensures it in s.Displayed(items) <==>
      it in items && CategoryMatches(s.selectedCategory, it) && NameMatches(s.searchQuery, it)
  {
    FilterItemsSpec(items, s.selectedCategory, "All", "All", s.searchQuery, it);
  }

  /** In the state choosing "Priority" leaves, only the priority selection and the query narrow the list. */
  lemma PriorityOnlyFilters(s: FilterSelections, items: seq<ShoppingItem>, it: ShoppingItem)
    requires s.selectedCategory == "All" && s.selectedPriceFilter == "None" && s.selectedStatus == "All"
    ensures IsSubsequence(s.Displayed(items), items)
    ensures it in s.Displayed(items) <==>
      it in items && PriorityMatches(s.selectedPriority, it) && NameMatches(s.searchQuery, it)
  {
    FilterItemsSpec(items, "All", s.selectedPriority, "All", s.searchQuery, it);
  }

  /** In the state choosing "Status" leaves, only the status selection and the query narrow the list. */
  lemma StatusOnlyFilters(s: FilterSelections, items: seq<ShoppingItem>, it: ShoppingItem)
    requires s.selectedCategory == "All" && s.selectedPriority == "All" && s.selectedPriceFilter == "None"
    ensures IsSubsequence(s.Displayed(items), items)
    ensures it in s.Displayed(items) <==>
      it in items && StatusMatches(s.selectedStatus, it) && NameMatches(s.searchQuery, it)
  {
    FilterItemsSpec(items, "All", "All", s.selectedStatus, s.searchQuery, it);
  }

  /**
   * In the state choosing "Price" leaves, the list holds exactly the items
   * whose name contains the query, each as often as in the list, in the
   * chosen price order.
   */
  lemma PriceOnlyFilters(s: FilterSelections, items: seq<ShoppingItem>, it: ShoppingItem)
    requires s.selectedCategory == "All" && s.selectedPriority == "All" && s.selectedStatus == "All"
    ensures multiset(s.Displayed(items)) == multiset(FilterItemsOf(items, "All", "All", "All", s.searchQuery))
    ensures it in s.Displayed(items) <==> it in items && NameMatches(s.searchQuery, it)
  {
    FilterItemsSpec(items, "All", "All", "All", s.searchQuery, it);
    assert it in s.Displayed(items) <==> it in multiset(s.Displayed(items));
  }

  // ----- the item dialog -----

  /** The category text the dialog shows before one is chosen. */
  const SelectCategoryPlaceholder := "Select Category"

  /** The four checks of the save button, in the order the error flags are listed. */
  predicate NameValid(name: string) { !IsBlank(name) }
  predicate DescriptionValid(description: string) { !IsBlank(description) }
  predicate CategoryValid(category: string) { category != SelectCategoryPlaceholder }
  predicate PriceValid(priceText: string) { ToIntOrNull(priceText).Some? }

  /** A form that passes holds a non-empty name, description and price text and a chosen category. */
  predicate CanSave(name: string, description: string, category: string, priceText: string)
    ensures CanSave(name, description, category, priceText) ==>
      |name| > 0 && |description| > 0 && |priceText| > 0 && category != SelectCategoryPlaceholder
  {
    NameValid(name) && DescriptionValid(description) && CategoryValid(category) && PriceValid(priceText)
  }

  /** A new item: not bought, no key yet, everything else from the dialog. */
  function NewItem(name: string, description: string, category: string, price: Int32, priority: Priority): (r: ShoppingItem)
    ensures r.id == 0 && !r.isBought && r.priority == priority
    ensures r.name == name && r.description == description && r.category == category && r.estimatedPrice == price
  {
    NewShoppingItem(category, name, description, price, false, priority)
  }

  /** An edited item: key and bought state from the original, everything else from the dialog. */
  function EditedItem(original: ShoppingItem, name: string, description: string, category: string,
                      price: Int32, priority: Priority): (r: ShoppingItem)
    ensures r.id == original.id && r.isBought == original.isBought && r.priority == priority
    ensures r.name == name && r.description == description && r.category == category && r.estimatedPrice == price
  {
    original.(name := name, description := description, category := category,
              estimatedPrice := price, priority := priority)
  }

  /** Opening an item for edit and saving it untouched writes the same item back. */
  lemma UntouchedEditIsIdentity(item: ShoppingItem)
    ensures ToIntOrNull(IntToString(item.estimatedPrice)).Some?
    ensures EditedItem(item, item.name, item.description, item.category,
                       ToIntOrNull(IntToString(item.estimatedPrice)).value, item.priority) == item
  {
    IntToStringRoundTrip(item.estimatedPrice);
  }

  /** The price field accepts a leading minus sign: "-5" is stored as -5. */
  lemma NegativePriceAccepted()
    ensures ToIntOrNull("-5") == Some(-5)
    ensures CanSave("Milk", "2L", "Dairy", "-5")
  {
    IntToStringRoundTrip(-5);
    assert IntToString(-5) == "-5";
    assert !IsWhitespace("Milk"[0]) && !IsWhitespace("2L"[0]);
  }

  /** A price text with a non-digit after the optional sign is rejected. */
  lemma NonDigitPriceRejected(priceText: string, i: nat)
    requires 0 <= i < |priceText| && !IsDigit(priceText[i])
    requires i > 0 || (priceText[0] != '-' && priceText[0] != '+')
    ensures !PriceValid(priceText)
  {
  }

  /** The dialog's form state and the error flags shown under its fields. */
  class ItemDialog {
    const viewModel: ViewModel
    /** The item being edited, or none for a new item. */
    const itemToEdit: Option<ShoppingItem>
    var name: string
    var description: string
    var category: string
    /** The price field's text. */
    var estimatedPrice: string
    var priority: Priority
    var nameError: bool
    var descError: bool
    var categoryError: bool
    var priceError: bool

    /** The fields start from the edited item, or empty with the placeholder category and NORMAL priority. */
    constructor (viewModel: ViewModel, itemToEdit: Option<ShoppingItem>)
      ensures this.viewModel == viewModel && this.itemToEdit == itemToEdit
      ensures itemToEdit.None? ==>
        && name == "" && description == "" && category == SelectCategoryPlaceholder
        && estimatedPrice == "" && priority == NORMAL
      ensures itemToEdit.Some? ==>
        && name == itemToEdit.value.name && description == itemToEdit.value.description
        && category == itemToEdit.value.category && priority == itemToEdit.value.priority
        && estimatedPrice == IntToString(itemToEdit.value.estimatedPrice)
      ensures !nameError && !descError && !categoryError && !priceError
    {
      this.viewModel := viewModel;
      this.itemToEdit := itemToEdit;
      if itemToEdit.Some? {
        name := itemToEdit.value.name;
        description := itemToEdit.value.description;
        category := itemToEdit.value.category;
        estimatedPrice := IntToString(itemToEdit.value.estimatedPrice);
        priority := itemToEdit.value.priority;
      } else {
        name := "";
        description := "";
        category := SelectCategoryPlaceholder;
        estimatedPrice := "";
        priority := NORMAL;
      }
      nameError := false;
      descError := false;
      categoryError := false;
      priceError := false;
    }

    /** Typing in a field replaces its text and clears that field's error flag only. */
    method EditName(text: string)
      modifies this`name, this`nameError
      ensures name == text && !nameError
    {
      name := text;
      nameError := false;
    }

    method EditDescription(text: string)
      modifies this`description, this`descError
      ensures description == text && !descError
    {
      description := text;
      descError := false;
    }

    method EditPrice(text: string)
      modifies this`estimatedPrice, this`priceError
      ensures estimatedPrice == text && !priceError
    {
      estimatedPrice := text;
      priceError := false;
    }

    /** Choosing a category from the defaults clears the category error. */
    method ChooseCategory(cat: string)
      modifies this`category, this`categoryError
      ensures category == cat && !categoryError
    {
      category := cat;
      categoryError := false;
    }

    method ChoosePriority(p: Priority)
      modifies this`priority
      ensures priority == p
    {
      priority := p;
    }

    /**
     * The save button. When all four checks pass, a new item is added (or the
     * edited copy written with its category) and the dialog is dismissed with
     * the flags as they were; otherwise each flag becomes the failure of its
     * own check and the table is not touched.
     */
    method Save() returns (dismissed: bool)
      requires viewModel.dao.Valid()
      modifies this`nameError, this`descError, this`categoryError, this`priceError, viewModel.dao
      ensures viewModel.dao.Valid()
      ensures dismissed <==> CanSave(name, description, category, estimatedPrice)
      ensures !dismissed ==>
        && nameError == !NameValid(name) && descError == !DescriptionValid(description)
        && categoryError == !CategoryValid(category) && priceError == !PriceValid(estimatedPrice)
        && viewModel.dao.rows == old(viewModel.dao.rows) && viewModel.dao.nextId == old(viewModel.dao.nextId)
      ensures dismissed ==>
        && nameError == old(nameError) && descError == old(descError)
        && categoryError == old(categoryError) && priceError == old(priceError)
      ensures dismissed && itemToEdit.None? ==>
        var item := NewItem(name, description, category, ToIntOrNull(estimatedPrice).value, priority);
        && viewModel.dao.rows == InsertedRows(old(viewModel.dao.rows), old(viewModel.dao.nextId), item)
        && viewModel.dao.nextId == NextIdAfterInsert(old(viewModel.dao.nextId), item)
      ensures dismissed && itemToEdit.Some? ==>
        var item := EditedItem(itemToEdit.value, name, description, category, ToIntOrNull(estimatedPrice).value, priority);
        && viewModel.dao.rows == ReplaceRow(old(viewModel.dao.rows), WithCategory(item, category))
        && viewModel.dao.nextId == old(viewModel.dao.nextId)
    {
      var isNameValid := !IsBlank(name);
      var isDescriptionValid := !IsBlank(description);
      var isCategoryValid := category != SelectCategoryPlaceholder;
      var parsed := ToIntOrNull(estimatedPrice);
      var isPriceValid := parsed.Some?;

      if isNameValid && isDescriptionValid && isCategoryValid && isPriceValid {
        if itemToEdit.None? {
          viewModel.AddItem(NewItem(name, description, category, parsed.value, priority));
        } else {
          var updatedItem := EditedItem(itemToEdit.value, name, description, category, parsed.value, priority);
          viewModel.UpdateItem(updatedItem, category);
        }
        dismissed := true;
      } else {
        nameError := !isNameValid;
        descError := !isDescriptionValid;
        categoryError := !isCategoryValid;
        priceError := !isPriceValid;
        dismissed := false;
      }
    }
  }

  /** A saved new item is stored under a key no row had, with every field as entered and not bought. */
  lemma SavedNewItemReadBack(rows: seq<ShoppingItem>, nextId: int, name: string, description: string,
                             category: string, price: Int32, priority: Priority)
    requires WellFormed(rows, nextId)
    ensures var item := NewItem(name, description, category, price, priority);
      && nextId !in Ids(rows)
      && Lookup(InsertedRows(rows, nextId, item), nextId) == Some(item.(id := nextId))
      && |InsertedRows(rows, nextId, item)| == |rows| + 1
  {
  }

  /** A saved edit replaces the row under the original key and keeps its bought state; other keys are untouched. */
  lemma SavedEditReadBack(rows: seq<ShoppingItem>, original: ShoppingItem, name: string, description: string,
                          category: string, price: Int32, priority: Priority, k: int)
    requires original.id in Ids(rows)
    ensures var item := WithCategory(EditedItem(original, name, description, category, price, priority), category);
      && Lookup(ReplaceRow(rows, item), original.id) == Some(item)
      && item.isBought == original.isBought && item.id == original.id
      && (k != original.id ==> Lookup(ReplaceRow(rows, item), k) == Lookup(rows, k))
  {
    var item := WithCategory(EditedItem(original, name, description, category, price, priority), category);
    LookupReplaced(rows, item, original.id);
    LookupReplaced(rows, item, k);
  }
}
