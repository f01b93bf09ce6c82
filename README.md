# Shopping list: table, view-model and screen rules

A Dafny model of the data-and-rules layer of an Android shopping-list app:

- the `ShoppingItem` record and its priority enum (`items.dfy`);
- the `shopping_items` table behind the DAO, as a class holding the rows and the
  auto-increment counter, with its five writes and five queries (`dao.dfy`);
- the view-model's derived views (default categories, the category list, the
  four-way item filter) and the writes it issues, including the two
  one-field copies `updateItem` and `changeItemState` (`viewmodel.dfy`);
- the rules embedded in the list screen: the price-sort projection, the filter
  selections and their reset when the "filter by" option changes, and the item
  dialog's save handler with its validation and error flags (`screen.dfy`).

Two helper modules carry the generic parts: `seqs.dfy` (Kotlin `filter` and
`distinct`, subsequences) and `sorting.dfy` (a stable insertion sort by key under
a total order, with sortedness, permutation, stability and uniqueness lemmas).
`text.dfy` holds the string operations the rules use: `lowercase`,
`equals`/`contains` with `ignoreCase`, `isBlank`, `toIntOrNull`, `Int.toString`,
and the binary string order of `ORDER BY name`.

Each live view (a `StateFlow` in the app) is a function of the table's current
rows. Each write is an immediate transition of the table. A write method states
its new rows as a pure function of the old ones (`InsertedRows`, `ReplaceRow`,
`RemoveId`, `PendingRows`). The keyed behaviour is then proved about those
functions through `Lookup`: which key holds which row afterwards, and that
every other key is unchanged. Every write keeps the table invariant
`WellFormed`: keys are unique, never 0, and below the counter.

The code's behaviour, which a reader might not expect:

- A price text with a leading minus sign ("-5") passes validation and is stored,
  because `toIntOrNull` accepts a sign.
- Updating an item whose key is not in the table changes nothing and reports
  nothing, because `@Update` is an `UPDATE ... WHERE id = ?` that matches no row.
- An insert with a non-zero id that is absent adds the row under that id, and
  the counter moves past it (AUTOINCREMENT semantics).

## Model

| member | source | states |
|---|---|---|
| ShoppingItems.NewShoppingItem | app/src/main/java/com/example/shoppinglist/data/ShoppingItem.kt:10-18 | a record built without an id has id 0 ("unassigned"); every other field is as given |
| ShoppingItems.PriorityNameRoundTrip | app/src/main/java/com/example/shoppinglist/data/ShoppingItem.kt:20-22 | there are exactly two priorities, and storing one by name and reading it back gives the same priority |
| ShoppingItems.PriorityFromName | app/src/main/java/com/example/shoppinglist/data/ShoppingItem.kt:20-22 | a name that reads back as a priority is that priority's name |
| ShoppingListDao.Lookup | app/src/main/java/com/example/shoppinglist/data/ShoppingListDAO.kt:25-29 | the row found under a key is a stored row with that key; there is none exactly when the key is absent |
| ShoppingListDao.ShoppingItemTable.constructor | app/src/main/java/com/example/shoppinglist/data/ShoppingListDAO.kt:11-12 | a new table is empty, well-formed, and its counter starts at 1 |
| ShoppingListDao.ShoppingItemTable.InsertItem | app/src/main/java/com/example/shoppinglist/data/ShoppingListDAO.kt:22-23 | insert-or-replace: the new rows are InsertedRows of the old ones, the counter moves past the key used, and the invariant holds |
| ShoppingListDao.InsertedRows | app/src/main/java/com/example/shoppinglist/data/ShoppingListDAO.kt:22-23 | the keys after an insert are the old keys plus the key used, and the row stored under that key is the item carrying it |
| ShoppingListDao.NextIdAfterInsert | app/src/main/java/com/example/shoppinglist/data/ShoppingListDAO.kt:22-23 | the counter never goes back and ends above the key the insert used |
| ShoppingListDao.LookupInserted | app/src/main/java/com/example/shoppinglist/data/ShoppingListDAO.kt:22-23 | after an insert, the key used (fresh for id 0, else the item's own) holds the item with that key; every other key holds what it held |
| ShoppingListDao.FreshIdIsNew | app/src/main/java/com/example/shoppinglist/data/ShoppingListDAO.kt:22-23 | an insert with id 0 draws a key no row had, and appends the row |
| ShoppingListDao.InsertKeepsWellFormed | app/src/main/java/com/example/shoppinglist/data/ShoppingListDAO.kt:22-23 | insert keeps keys unique, nonzero and below the counter; the row count grows by one exactly when the key was new |
| ShoppingListDao.ShoppingItemTable.UpdateItem | app/src/main/java/com/example/shoppinglist/data/ShoppingListDAO.kt:25-26 | update writes ReplaceRow of the old rows, leaves the counter, and keeps the invariant |
| ShoppingListDao.ReplaceRow | app/src/main/java/com/example/shoppinglist/data/ShoppingListDAO.kt:25-26 | the row count is kept; each position holds the item if its key is the item's key, and its old row otherwise |
| ShoppingListDao.ReplaceSameIds | app/src/main/java/com/example/shoppinglist/data/ShoppingListDAO.kt:25-26 | an update leaves the set of keys unchanged |
| ShoppingListDao.LookupReplaced | app/src/main/java/com/example/shoppinglist/data/ShoppingListDAO.kt:25-26 | after an update, the item's key holds the item if that key was present; every other key is unchanged |
| ShoppingListDao.ReplaceAbsentIsNoOp | app/src/main/java/com/example/shoppinglist/data/ShoppingListDAO.kt:25-26 | updating an item whose key is absent leaves the table exactly as it was |
| ShoppingListDao.ReplaceKeepsIds | app/src/main/java/com/example/shoppinglist/data/ShoppingListDAO.kt:25-26 | update never changes which key sits at which position, and introduces no row other than the item |
| ShoppingListDao.ReplaceKeepsWellFormed | app/src/main/java/com/example/shoppinglist/data/ShoppingListDAO.kt:25-26 | update keeps the table invariant |
| ShoppingListDao.ShoppingItemTable.DeleteItem | app/src/main/java/com/example/shoppinglist/data/ShoppingListDAO.kt:28-29 | delete writes RemoveId of the old rows and keeps the invariant |
| ShoppingListDao.RemoveId | app/src/main/java/com/example/shoppinglist/data/ShoppingListDAO.kt:28-29 | after a delete the key is gone, no row is added, and the table does not grow |
| ShoppingListDao.LookupRemoved | app/src/main/java/com/example/shoppinglist/data/ShoppingListDAO.kt:28-29 | after a delete the item's key holds nothing and every other key holds what it held |
| ShoppingListDao.RemoveIdempotent | app/src/main/java/com/example/shoppinglist/data/ShoppingListDAO.kt:28-29 | deleting an absent key changes nothing, and deleting twice is deleting once |
| ShoppingListDao.ShoppingItemTable.DeleteAllItems | app/src/main/java/com/example/shoppinglist/data/ShoppingListDAO.kt:31-32 | the table is left empty; the counter is kept |
| ShoppingListDao.ShoppingItemTable.DeleteBoughtItems | app/src/main/java/com/example/shoppinglist/data/ShoppingListDAO.kt:34-35 | the new rows are the pending rows of the old ones, in order, and the invariant holds |
| ShoppingListDao.PendingRows | app/src/main/java/com/example/shoppinglist/data/ShoppingListDAO.kt:34-35 | the rows left are old rows, none of them bought, and the table does not grow |
| ShoppingListDao.LookupPending | app/src/main/java/com/example/shoppinglist/data/ShoppingListDAO.kt:34-35 | after deleting bought items, a key holds its row exactly when that row was not bought |
| ShoppingListDao.PendingCount | app/src/main/java/com/example/shoppinglist/data/ShoppingListDAO.kt:34-35 | the rows left number the old count minus the bought count, and none of them is bought |
| ShoppingListDao.FilterKeepsWellFormed | app/src/main/java/com/example/shoppinglist/data/ShoppingListDAO.kt:28-35 | removing rows by any predicate keeps the table invariant |
| ShoppingListDao.ShoppingItemTable.GetAllItems | app/src/main/java/com/example/shoppinglist/data/ShoppingListDAO.kt:13-14 | the result is a permutation of the rows, ordered by name under the binary collation |
| ShoppingListDao.ShoppingItemTable.GetItemsSortedByPrice | app/src/main/java/com/example/shoppinglist/data/ShoppingListDAO.kt:37-38 | the result is a permutation of the rows with non-decreasing price |
| ShoppingListDao.ShoppingItemTable.GetItemsSortedByPriority | app/src/main/java/com/example/shoppinglist/data/ShoppingListDAO.kt:40-51 | the result is a permutation of the rows with non-decreasing CASE tier |
| ShoppingListDao.Tier | app/src/main/java/com/example/shoppinglist/data/ShoppingListDAO.kt:44-47 | the CASE yields 1 to 4; tiers 1-2 are exactly the unbought rows and the odd tiers exactly the HIGH rows |
| ShoppingListDao.TierOrder | app/src/main/java/com/example/shoppinglist/data/ShoppingListDAO.kt:44-47 | a lower tier means unbought before bought, and within equal status HIGH before NORMAL; equal tiers mean equal status and priority |
| ShoppingListDao.IsHighMeansHigh | app/src/main/java/com/example/shoppinglist/data/ShoppingListDAO.kt:19-20 | comparing the stored priority name with 'HIGH' selects exactly the HIGH items |
| ShoppingListDao.ShoppingItemTable.GetAllItemsNum | app/src/main/java/com/example/shoppinglist/data/ShoppingListDAO.kt:16-17 | the count equals the length of the live item list |
| ShoppingListDao.ShoppingItemTable.GetImportantItemsNum | app/src/main/java/com/example/shoppinglist/data/ShoppingListDAO.kt:19-20 | the HIGH count never exceeds the row count; it is 0 exactly when every row is NORMAL and equals the row count exactly when every row is HIGH |
| ShoppingListDao.ImportantCount | app/src/main/java/com/example/shoppinglist/data/ShoppingListDAO.kt:19-20 | the same bounds and extremes, stated on any row list |
| ShoppingListViewModel.DefaultCategoriesSorted | app/src/main/java/com/example/shoppinglist/ui/screen/ShoppingListViewModel.kt:20-35 | the defaults are the 14 listed names, without repeats, strictly ordered by lowercase form |
| ShoppingListViewModel.DefaultCategoriesOrdered | app/src/main/java/com/example/shoppinglist/ui/screen/ShoppingListViewModel.kt:33-35 | the defaults are sorted by lowercase form, and no two share a lowercase form |
| ShoppingListViewModel.DefaultCategoriesSameNames | app/src/main/java/com/example/shoppinglist/ui/screen/ShoppingListViewModel.kt:20-33 | the sorted defaults hold exactly the 14 listed names |
| ShoppingListViewModel.DefaultCategoriesAreTheSort | app/src/main/java/com/example/shoppinglist/ui/screen/ShoppingListViewModel.kt:20-35 | the 14 defaults, written out sorted, are exactly what sortedBy on their lowercase form returns for the listed order |
| Sorting.IsSortOf | app/src/main/java/com/example/shoppinglist/ui/screen/ShoppingListViewModel.kt:33-35 | a sorted list with distinct keys that has the same distinct elements as the input is what the stable sort of the input returns |
| ShoppingListViewModel.CategoriesOf | app/src/main/java/com/example/shoppinglist/ui/screen/ShoppingListViewModel.kt:47 | the category list has one entry per item, in item order |
| ShoppingListViewModel.AllCategoriesShape | app/src/main/java/com/example/shoppinglist/ui/screen/ShoppingListViewModel.kt:45-49 | "All", then the 14 defaults in order, then each new item category in first-occurrence order; the tail has no repeats, holds every item category, and holds nothing else |
| ShoppingListViewModel.CategoriesAfter | app/src/main/java/com/example/shoppinglist/ui/screen/ShoppingListViewModel.kt:47 | distinct over a repeat-free prefix keeps the prefix and continues with the unseen rest, has no repeats, and holds exactly the prefix and the item categories |
| ShoppingListViewModel.AllCategoriesRepeatsAll | app/src/main/java/com/example/shoppinglist/ui/screen/ShoppingListViewModel.kt:47 | "All" heads the list and appears again exactly when some item's category is "All" |
| ShoppingListViewModel.AllCategoriesOf | app/src/main/java/com/example/shoppinglist/ui/screen/ShoppingListViewModel.kt:45-49 | the list starts with "All" followed by the 14 defaults in order, and every item's category appears after "All" |
| ShoppingListViewModel.FilterItemsSpec | app/src/main/java/com/example/shoppinglist/ui/screen/ShoppingListViewModel.kt:88-96 | the result keeps the input order, and an item is in it exactly when it is in the input and passes all four tests |
| ShoppingListViewModel.FilterItemsIdentity | app/src/main/java/com/example/shoppinglist/ui/screen/ShoppingListViewModel.kt:90-95 | "All", "All", "All" and the empty query return the list unchanged |
| ShoppingListViewModel.FilterItemsUnknownStatus | app/src/main/java/com/example/shoppinglist/ui/screen/ShoppingListViewModel.kt:92-94 | a status other than "All", "Pending" or "Bought" selects nothing |
| ShoppingListViewModel.FilterItemsOf | app/src/main/java/com/example/shoppinglist/ui/screen/ShoppingListViewModel.kt:88-96 | the result is no longer than the input, and every item in it comes from the input and passes the category, priority, status and name tests |
| ShoppingListViewModel.PriorityLabelsMatch | app/src/main/java/com/example/shoppinglist/ui/screen/ShoppingListViewModel.kt:37 | the menu labels "Normal" and "High" select exactly NORMAL and HIGH items, ignoring case |
| ShoppingListViewModel.DefaultPriorityLabels | app/src/main/java/com/example/shoppinglist/ui/screen/ShoppingListViewModel.kt:37 | the priority menu is "All" and two labels; for each priority exactly one label equals its name ignoring case, "Normal" for NORMAL and "High" for HIGH |
| ShoppingListViewModel.WithCategory | app/src/main/java/com/example/shoppinglist/ui/screen/ShoppingListViewModel.kt:63-64 | the copy has the new category and equals the item in every other field, id included |
| ShoppingListViewModel.WithBought | app/src/main/java/com/example/shoppinglist/ui/screen/ShoppingListViewModel.kt:68-70 | the copy has the new bought flag and equals the item in every other field |
| ShoppingListViewModel.UpdateItemRoundTrip | app/src/main/java/com/example/shoppinglist/ui/screen/ShoppingListViewModel.kt:63-66 | after updateItem the item's key holds the copy with the new category, and every other key is unchanged |
| ShoppingListViewModel.ChangeItemStateFilters | app/src/main/java/com/example/shoppinglist/ui/screen/ShoppingListViewModel.kt:68-72 | after changeItemState the stored copy passes the "Bought" filter exactly when the value is true, and "Pending" exactly when it is false |
| ShoppingListViewModel.ViewModel.constructor | app/src/main/java/com/example/shoppinglist/ui/screen/ShoppingListViewModel.kt:16-18 | the view-model reads and writes the table it is given |
| ShoppingListViewModel.ViewModel.ShoppingItems | app/src/main/java/com/example/shoppinglist/ui/screen/ShoppingListViewModel.kt:39-40 | the live list is a permutation of the table's rows in non-decreasing CASE tier |
| ShoppingListViewModel.ViewModel.ShoppingItemsSortedByPrice | app/src/main/java/com/example/shoppinglist/ui/screen/ShoppingListViewModel.kt:42-43 | the price-ordered list is a permutation of the table's rows with non-decreasing price |
| ShoppingListViewModel.ViewModel.AllCategories | app/src/main/java/com/example/shoppinglist/ui/screen/ShoppingListViewModel.kt:45-49 | the category list starts with "All" and holds every stored row's category after it |
| ShoppingListViewModel.ViewModel.FilterItems | app/src/main/java/com/example/shoppinglist/ui/screen/ShoppingListViewModel.kt:82-98 | the filtered list is no longer than the table, and each item in it is a stored row that passes all four tests |
| ShoppingListViewModel.ViewModel.GetAllItemsNum | app/src/main/java/com/example/shoppinglist/ui/screen/ShoppingListViewModel.kt:51-53 | the count equals the length of the live list |
| ShoppingListViewModel.ViewModel.GetImportantItemsNum | app/src/main/java/com/example/shoppinglist/ui/screen/ShoppingListViewModel.kt:55-57 | the count is the table's HIGH count; it lies between 0 and the length of the live list, and is 0 exactly when every row is NORMAL |
| ShoppingListViewModel.ViewModel.AddItem | app/src/main/java/com/example/shoppinglist/ui/screen/ShoppingListViewModel.kt:59-61 | the table makes the insert transition |
| ShoppingListViewModel.ViewModel.UpdateItem | app/src/main/java/com/example/shoppinglist/ui/screen/ShoppingListViewModel.kt:63-66 | the table makes the update transition with the recategorised copy |
| ShoppingListViewModel.ViewModel.ChangeItemState | app/src/main/java/com/example/shoppinglist/ui/screen/ShoppingListViewModel.kt:68-72 | the table makes the update transition with the copy carrying the new flag |
| ShoppingListViewModel.ViewModel.DeleteItem | app/src/main/java/com/example/shoppinglist/ui/screen/ShoppingListViewModel.kt:74-76 | the table makes the delete transition |
| ShoppingListViewModel.ViewModel.DeleteAllItems | app/src/main/java/com/example/shoppinglist/ui/screen/ShoppingListViewModel.kt:78-80 | the table is left empty |
| ShoppingListScreen.PriceSorted | app/src/main/java/com/example/shoppinglist/ui/screen/ShoppingListScreen.kt:324-330 | in every case the shown list is a permutation of the filtered list |
| ShoppingListScreen.PriceSortedOrder | app/src/main/java/com/example/shoppinglist/ui/screen/ShoppingListScreen.kt:324-330 | "Low to High" is non-decreasing in price and "High to Low" non-increasing; both keep equal-price items in their relative order; any other value returns the list unchanged |
| ShoppingListScreen.PriceSortedIdempotent | app/src/main/java/com/example/shoppinglist/ui/screen/ShoppingListScreen.kt:324-330 | applying the projection again changes nothing |
| ShoppingListScreen.FilterSelections.constructor | app/src/main/java/com/example/shoppinglist/ui/screen/ShoppingListScreen.kt:80-86 | the selections start at "All", "All", "None" and "All", with an empty query and "Category" as the "filter by" option |
| ShoppingListScreen.FilterSelections.SelectSortOption | app/src/main/java/com/example/shoppinglist/ui/screen/ShoppingListScreen.kt:192-211 | choosing an option resets the other three selections to "All" (or "None" for the price filter), keeps the chosen one and the query, and resets nothing for an unknown option |
| ShoppingListScreen.FilterSelections.Displayed | app/src/main/java/com/example/shoppinglist/ui/screen/ShoppingListScreen.kt:324-330 | the shown list is no longer than the items, and every item shown is one of them and passes the current selections and query |
| ShoppingListScreen.ResetSelectionsShowAll | app/src/main/java/com/example/shoppinglist/ui/screen/ShoppingListScreen.kt:80-86 | with the initial selections (the values the constructor sets) the displayed list is the whole list in its own order |
| ShoppingListScreen.CategoryOnlyFilters | app/src/main/java/com/example/shoppinglist/ui/screen/ShoppingListScreen.kt:192-197 | with the selections SelectSortOption leaves after "Category", the displayed list keeps item order and shows an item exactly when it has the selected category and its name contains the query |
| ShoppingListScreen.PriorityOnlyFilters | app/src/main/java/com/example/shoppinglist/ui/screen/ShoppingListScreen.kt:198-201 | with the selections left after "Priority", the displayed list keeps item order and shows an item exactly when its priority matches the selection and its name contains the query |
| ShoppingListScreen.StatusOnlyFilters | app/src/main/java/com/example/shoppinglist/ui/screen/ShoppingListScreen.kt:206-210 | with the selections left after "Status", the displayed list keeps item order and shows an item exactly when it has the selected status and its name contains the query |
| ShoppingListScreen.PriceOnlyFilters | app/src/main/java/com/example/shoppinglist/ui/screen/ShoppingListScreen.kt:202-205 | with the selections left after "Price", the displayed list is a reordering of the name-filtered items and shows an item exactly when its name contains the query |
| ShoppingListScreen.ItemDialog.constructor | app/src/main/java/com/example/shoppinglist/ui/screen/ShoppingListScreen.kt:360-370 | the fields start from the edited item, with the price printed as decimal text; for a new item they start empty, with the placeholder category and NORMAL priority; no error flag is set |
| ShoppingListScreen.ItemDialog.EditName | app/src/main/java/com/example/shoppinglist/ui/screen/ShoppingListScreen.kt:388-390 | typing a name replaces it and clears only the name error |
| ShoppingListScreen.ItemDialog.EditDescription | app/src/main/java/com/example/shoppinglist/ui/screen/ShoppingListScreen.kt:406-408 | typing a description replaces it and clears only the description error |
| ShoppingListScreen.ItemDialog.EditPrice | app/src/main/java/com/example/shoppinglist/ui/screen/ShoppingListScreen.kt:424-426 | typing a price replaces its text and clears only the price error |
| ShoppingListScreen.ItemDialog.ChooseCategory | app/src/main/java/com/example/shoppinglist/ui/screen/ShoppingListScreen.kt:457-459 | choosing a category sets it and clears only the category error |
| ShoppingListScreen.ItemDialog.ChoosePriority | app/src/main/java/com/example/shoppinglist/ui/screen/ShoppingListScreen.kt:488-497 | choosing a priority sets only the priority |
| ShoppingListScreen.ItemDialog.Save | app/src/main/java/com/example/shoppinglist/ui/screen/ShoppingListScreen.kt:512-547 | the save is accepted exactly when name and description are not blank, a category is chosen and the price parses. On acceptance a new item is inserted, or the edited copy is written under its key, and the flags stay. On rejection each flag is the failure of its own check and the table is untouched |
| ShoppingListScreen.CanSave | app/src/main/java/com/example/shoppinglist/ui/screen/ShoppingListScreen.kt:514-519 | a form that passes validation has a non-empty name, description and price text and a chosen category |
| ShoppingListScreen.NewItem | app/src/main/java/com/example/shoppinglist/ui/screen/ShoppingListScreen.kt:521-530 | a new item has no key yet, is not bought, and carries the dialog's fields and priority |
| ShoppingListScreen.EditedItem | app/src/main/java/com/example/shoppinglist/ui/screen/ShoppingListScreen.kt:532-538 | an edit keeps the original key and bought flag and takes name, description, category, price and priority from the dialog |
| ShoppingListScreen.UntouchedEditIsIdentity | app/src/main/java/com/example/shoppinglist/ui/screen/ShoppingListScreen.kt:360-370 | opening an item for edit and saving it untouched writes back the same item |
| ShoppingListScreen.NegativePriceAccepted | app/src/main/java/com/example/shoppinglist/ui/screen/ShoppingListScreen.kt:517 | "-5" parses as -5, and a form with it is accepted |
| ShoppingListScreen.NonDigitPriceRejected | app/src/main/java/com/example/shoppinglist/ui/screen/ShoppingListScreen.kt:517 | a price text with any non-digit after the optional sign is rejected |
| ShoppingListScreen.SavedNewItemReadBack | app/src/main/java/com/example/shoppinglist/ui/screen/ShoppingListScreen.kt:520-530 | a saved new item is stored under a key no row had, with its fields as entered, and the row count grows by one |
| ShoppingListScreen.SavedEditReadBack | app/src/main/java/com/example/shoppinglist/ui/screen/ShoppingListScreen.kt:531-539 | a saved edit replaces the row under the original key, keeping its bought flag; other keys are untouched |
| Text.IntToStringRoundTrip | app/src/main/java/com/example/shoppinglist/ui/screen/ShoppingListScreen.kt:363 | the decimal text of a 32-bit price parses back to the same price, and the text of a number outside that range does not parse |
| Text.ToIntOrNull | app/src/main/java/com/example/shoppinglist/ui/screen/ShoppingListScreen.kt:517 | a parse succeeds only on non-empty text, and a leading minus never yields a positive value |
| Text.LowerString | app/src/main/java/com/example/shoppinglist/ui/screen/ShoppingListViewModel.kt:34 | lower-casing keeps the length and maps every character through the ASCII case fold |
| Text.StrLeIsTotalOrder | app/src/main/java/com/example/shoppinglist/data/ShoppingListDAO.kt:13 | the binary string order used for the name order is total, antisymmetric and transitive |
| Seqs.FilterMembership | app/src/main/java/com/example/shoppinglist/ui/screen/ShoppingListViewModel.kt:89 | an element is kept exactly when it is in the list and passes the predicate |
| Seqs.FilterIsSubsequence | app/src/main/java/com/example/shoppinglist/ui/screen/ShoppingListViewModel.kt:89 | the kept elements keep their relative order |
| Seqs.FilterComplement | app/src/main/java/com/example/shoppinglist/data/ShoppingListDAO.kt:34-35 | the bought and the pending rows together make up the row count |
| Seqs.DistinctFromNoDuplicates | app/src/main/java/com/example/shoppinglist/ui/screen/ShoppingListViewModel.kt:47 | distinct leaves no repeats |
| Seqs.DistinctFromPrefix | app/src/main/java/com/example/shoppinglist/ui/screen/ShoppingListViewModel.kt:47 | distinct over a repeat-free prefix keeps that prefix and de-duplicates the rest against it |
| Sorting.SortBySorted | app/src/main/java/com/example/shoppinglist/data/ShoppingListDAO.kt:37-51 | the sort returns a list ordered by its key |
| Sorting.SortByStable | app/src/main/java/com/example/shoppinglist/ui/screen/ShoppingListScreen.kt:326-327 | the sort keeps the relative order of elements with equal keys |
| Sorting.SortBySortedIsIdentity | app/src/main/java/com/example/shoppinglist/ui/screen/ShoppingListScreen.kt:326-327 | sorting a list that is already in key order returns it unchanged |

## Left out

- Compose layout and rendering are not modelled: cards, dialogs, icons, colours, dropdown expansion flags and the empty-list message.
- The selection dropdowns that assign a single filter value (the status, category, priority and price menus) are plain assignments, so they are not modelled.
- Navigation, the splash delay, the summary screen and its counters are not modelled.
- Hilt wiring and the Room engine are not modelled. The table is abstract, with no SQL execution and no persistence.
- Coroutines and `StateFlow` sharing are not modelled: `stateIn`, `WhileSubscribed(5000)` and `viewModelScope.launch`. Each write is an immediate transition and each view a function of the current rows. Interleavings of in-flight writes with reads are not captured.
- Text.Lower: case folding is ASCII only. Kotlin's full Unicode `lowercase` and `ignoreCase` are not modelled. The 14 default categories are ASCII, so their order is unaffected.
- Text.ToIntOrNull: only ASCII digits are accepted. Kotlin also accepts other Unicode decimal digits.
- Text.IsWhitespace: the set is written out as Kotlin's `isWhitespace` defines it for the BMP. Characters outside the BMP are not classified.
- Text.StrLe: the binary collation is modelled as code-point order. That is the UTF-8 byte order SQLite compares.
- ShoppingListDao.ShoppingItemTable.GetAllItems, GetItemsSortedByPrice, GetItemsSortedByPriority: SQLite leaves the order of equal keys unspecified. The model sorts stably, but the contracts promise only a sorted permutation.
- ShoppingListDao.ShoppingItemTable.InsertItem: ids are unbounded integers. The 32-bit overflow of the auto-generated key is not modelled.
- ShoppingListDao.ShoppingItemTable.UpdateItem: `updateItem` returns nothing, so an update of an absent key is a silent no-op.
- Resource strings are taken to be the literal English labels that the code compares against ("Category", "Low to High", "All", and so on).
