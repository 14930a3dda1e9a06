# Tasting notes: a verified model of the in-memory core

This project models the in-memory logic of a tasting-notes iOS app. The app comes in two
variants, Reviewer and Shari, and the model proves properties of that logic in Dafny. It covers:

- **The restaurant/dish/taste store** (`DefaultReviewListStorage`). It holds restaurants
  ordered by date. A lookup finds the first record whose id matches. It saves restaurants and
  dishes, deletes them, adds a taste to a dish, and fetches restaurants, dishes and tastes.
- **The taste-selection view models** of both variants (`DefaultTasteListViewModel`). A tap
  appends a taste to the selection, a second tap removes the first equal entry, and saving
  sends one dish to the repository.
- **The glossary search** (`DefaultGlossaryViewModel`). An empty keyword shows everything;
  any other keyword filters on substring containment.
- **The restaurant list view models** of both variants (`DefaultRestaurantListViewModel`).
  They load and sort, select, add and delete restaurants. The Shari variant also has the
  markdown export (`createFile`) and the ledger of created files (`removeFiles`).
- **The restaurant-dish list view models** of both variants
  (`DefaultRestaurantDishListViewModel`).
- **The taste-list scroll offset** (`generateScrollPosition`). Each category header and each
  taste button is 80 points high.
- **The studio screen's state machine** (`StudioViewController`):
  - the resolution and frame-rate segmented controls;
  - capture mode and the record toggle;
  - the camera-permission prompt, around which the session queue is suspended and resumed.

Objects whose fields change become Dafny classes with `modifies` frames, and their loops
become `while`/`for` loops with invariants. Everything outside the app is a parameter:
- the clock (`now`);
- fresh UUIDs (`newId`);
- the date formatter (`formatDate`);
- the taste taxonomy and glossary contents;
- the results that the asynchronous repository and settings calls deliver.

Calls a view model makes on its repository or its navigation actions go into a ghost log
(`calls`), in call order.

Module layout:
- `Wrappers`: Option and Result.
- `Seqs`: the Swift collection operations used, namely `filter`, `firstIndex`/`first` and
  `remove(at:)`.
- `Entities`: dishes and restaurants; `Date` is an integer.
- `DateOrder`: `sorted(by: { $0.date < $1.date })`, modelled as a stable insertion sort.
- `Calls`: the outgoing calls.
- `ListItems`: the row projections and the shared sorting.
- One module per core file: `ReviewListStorage`, `TasteSelection` with `ShariTasteList` and
  `ReviewerTasteList`, `Glossary`, `ShariRestaurantList`, `ReviewerRestaurantList`,
  `ShariRestaurantDishList`, `ReviewerRestaurantDishList`, `TasteListScroll`, `StudioView`.

The store keeps restaurants in the order its fetch descriptor returns them, ascending by
date, so "first in date order" is literally the first match in the sequence. The fetch
descriptor sorts by date alone and fixes no order among restaurants of equal date. The model
chooses one: a new restaurant goes after those of equal date, and the list's own sort keeps
equal dates in the order it receives them.

Dish ids are unique in the store (`@Attribute(.unique)` on the dish entity), and the view
models pass a fresh UUID for every new dish. The store's invariant says that no two stored
dishes share an id.

A refused or missing camera permission sets `setupResult` to `notAuthorized`, which suggests
it should keep the session from starting. But nothing in
`Reviewer/Presentation/StudioView/StudioViewController.swift` reads `setupResult`, and
`viewDidAppear` still sets up and starts the session. The model follows the code: it records
`setupResult` and lets it gate nothing.

## Model

| member | source | states |
|---|---|---|
| Seqs.FirstIndex | Reviewer/Data/Storage/ReviewListStorage.swift:129 | The index found is the first one whose element satisfies the predicate; None exactly when no element does (`firstIndex(where:)`). |
| Seqs.Filter | Reviewer/Data/Storage/ReviewListStorage.swift:69 | The result holds only elements of the input that satisfy the predicate, and every satisfying element of the input is in it (`filter`). |
| Seqs.RemoveAt | Reviewer/Data/Storage/ReviewListStorage.swift:73 | `remove(at: k)` drops exactly the element at `k`: one shorter, earlier elements in place, later ones shifted by one, multiset minus that element. |
| Seqs.FilterFirstIsFirstIndex | Reviewer/Data/Storage/ReviewListStorage.swift:72 | `filter(p).first` exists exactly when `firstIndex(where: p)` does, and is the element at that index. |
| Seqs.FilterIsSubsequence | Reviewer/Presentation/GlossaryViewController/GlossaryViewModel.swift:46 | A filter keeps the original order: its result is a subsequence of its input. |
| Seqs.FilterIdempotent | Reviewer/Presentation/GlossaryViewController/GlossaryViewModel.swift:46 | Filtering a filtered list again with the same predicate changes nothing. |
| Seqs.FilterAgreeing | Reviewer/Presentation/GlossaryViewController/GlossaryViewModel.swift:46 | Predicates that agree on every element filter a list identically. |
| Seqs.FilterAll | Reviewer/Presentation/GlossaryViewController/GlossaryViewModel.swift:41-46 | A predicate that holds for every element keeps the whole list. |
| Seqs.FirstIndexAppend | Shari/Presentation/TasteListView/TasteListViewModel.swift:64-70 | Appending an element leaves an existing first match in place, and otherwise makes the new last position the first match if it satisfies the predicate. |
| Seqs.FirstIndexAgreeing | Reviewer/Data/Storage/ReviewListStorage.swift:129 | Two equally long lists whose elements agree on the predicate have the same first match. |
| DateOrder.InsertBy | Reviewer/Data/Storage/ReviewListStorage.swift:38-46 | Inserting a new record into the date-ordered store adds exactly that record (length plus one, multiset plus the record). |
| DateOrder.SortBy | Reviewer/Presentation/RestaurantListView/RestaurantListViewModel.swift:59 | Sorting returns a permutation of its input. |
| DateOrder.InsertByLowerBound | Reviewer/Data/Storage/ReviewListStorage.swift:38-46 | Inserting keeps every date at or above a bound that the new record and all existing ones respect. |
| DateOrder.InsertBySorted | Reviewer/Data/Storage/ReviewListStorage.swift:38-46 | Inserting into a date-ordered sequence keeps it date-ordered. |
| DateOrder.SortBySorted | Reviewer/Presentation/RestaurantListView/RestaurantListViewModel.swift:59 | Sorting by date yields an ascending sequence. |
| DateOrder.RemoveAtSorted | Reviewer/Presentation/RestaurantListView/RestaurantListViewModel.swift:87-91 | Removing any element from an ascending sequence leaves it ascending. |
| DateOrder.InsertByLast | Reviewer/Data/Storage/ReviewListStorage.swift:38-42 | A record dated no earlier than every other goes to the end. |
| DateOrder.SortByAscending | Reviewer/Presentation/RestaurantListView/RestaurantListViewModel.swift:59 | Sorting an already ascending sequence leaves it exactly as it is. |
| ListItems.RestaurantItems | Shari/Presentation/RestaurantListView/RestaurantListViewModel.swift:70 | One row per restaurant, in order, carrying that restaurant's name and date. |
| ListItems.DishItems | Shari/Presentation/RestaurantDishListView/RestaurantDishListViewModel.swift:75 | One row per dish, in order, carrying that dish's name. |
| ListItems.SortRestaurants | Shari/Presentation/RestaurantListView/RestaurantListViewModel.swift:69 | The restaurants after a load are ascending by date and a permutation of those fetched. |
| ListItems.SortDishes | Shari/Presentation/RestaurantDishListView/RestaurantDishListViewModel.swift:74 | The dishes after a load are ascending by date and a permutation of those fetched. |
| ListItems.SortRestaurantsKeepsStoreOrder | Reviewer/Data/Storage/ReviewListStorage.swift:45-51 | Restaurants delivered in the store's date order keep exactly that order through the list's own sort. |
| ListItems.SortDishesKeepsOrder | Reviewer/Presentation/RestaurantDishListView/RestaurantDishListViewModel.swift:71 | Dishes already in date order keep exactly that order through the list's sort. |
| ReviewListStorage.FetchRestaurant | Reviewer/Data/Storage/ReviewListStorage.swift:124-143 | The lookup finds nil exactly when no record has the id; otherwise it finds the first record in date order with that id. |
| ReviewListStorage.DishesOf | Reviewer/Data/Storage/ReviewListStorage.swift:99-108 | nil exactly for an unknown restaurant; otherwise every dish of the restaurant found, in stored order. |
| ReviewListStorage.TastesOf | Reviewer/Data/Storage/ReviewListStorage.swift:110-122 | A value exactly when both the restaurant and a dish with that id exist; it is the tastes of the first such dish. |
| ReviewListStorage.RestaurantDeleted | Reviewer/Data/Storage/ReviewListStorage.swift:58-64 | An unknown id changes nothing; otherwise exactly the record found is removed and the rest keep their order. |
| ReviewListStorage.DishDeleted | Reviewer/Data/Storage/ReviewListStorage.swift:66-80 | Only the first dish with that id, in the restaurant found, is removed; other restaurants and dishes keep their values and order; nothing changes if the restaurant or the dish is absent. |
| ReviewListStorage.DishAppended | Reviewer/Data/Storage/ReviewListStorage.swift:82-88 | Exactly one dish with the given id, name and tastes, dated `now` and with no thumbnail, is appended to the restaurant found; earlier dishes and other restaurants are unchanged; no-op for an unknown restaurant. |
| ReviewListStorage.TasteAddedToDishes | Reviewer/Data/Storage/ReviewListStorage.swift:92-93 | Every dish with that id gets the taste at the end of its tastes; other dishes are untouched. |
| ReviewListStorage.DishEntity | Reviewer/Data/Storage/ReviewListStorage.swift:84 | The stored entity takes the dish's id, name and tastes, the date of its creation and no thumbnail. |
| ReviewListStorage.WithTaste | Reviewer/Data/Storage/ReviewListStorage.swift:93 | A matching dish gains the taste at the end, keeping its earlier tastes; id, name, date and thumbnail never change. |
| ReviewListStorage.TasteAdded | Reviewer/Data/Storage/ReviewListStorage.swift:90-97 | Only the restaurant found changes, by adding the taste to its matching dishes; no-op for an unknown restaurant. |
| ReviewListStorage.SameKeys | Reviewer/Data/Storage/ReviewListStorage.swift:124-143 | Changes that keep every record's id and date keep lookups and the date order. |
| ReviewListStorage.AddTasteThenFetchTastes | Reviewer/Data/Storage/ReviewListStorage.swift:90-122 | Round trip: after adding a taste to an existing dish, fetching its tastes gives the old tastes followed by the new one. |
| ReviewListStorage.DeleteDishThenFetchDishes | Reviewer/Data/Storage/ReviewListStorage.swift:66-108 | After deleting an existing dish, fetching the dishes gives one fewer, and exactly one copy of the deleted dish is gone. |
| ReviewListStorage.DefaultReviewListStorage.constructor | Reviewer/Data/Storage/ReviewListStorage.swift:27-36 | A new store is empty and records whether a context could be created. |
| ReviewListStorage.DefaultReviewListStorage.SaveRestaurant | Reviewer/Data/Storage/ReviewListStorage.swift:38-43 | With a context, the new record, dated now and without dishes, is inserted in date order; without one nothing changes. |
| ReviewListStorage.DefaultReviewListStorage.FetchRestaurants | Reviewer/Data/Storage/ReviewListStorage.swift:45-56 | With a context it delivers every record ascending by date; without one the completion never runs. |
| ReviewListStorage.DefaultReviewListStorage.Delete | Reviewer/Data/Storage/ReviewListStorage.swift:58-64 | The store becomes `RestaurantDeleted` of the old store and stays date-ordered. |
| ReviewListStorage.DefaultReviewListStorage.DeleteDish | Reviewer/Data/Storage/ReviewListStorage.swift:66-80 | The store becomes `DishDeleted` of the old store, stays date-ordered with unique dish ids, and no dish with that id can be fetched from that restaurant any more. |
| ReviewListStorage.DefaultReviewListStorage.SaveDish | Reviewer/Data/Storage/ReviewListStorage.swift:82-88 | Given a dish id not yet stored, the store becomes `DishAppended` of the old store and stays date-ordered with unique dish ids. |
| ReviewListStorage.DeleteDishRemovesEveryMatch | Reviewer/Data/Storage/ReviewListStorage.swift:66-71 | In a store with unique dish ids, deleting a dish leaves no dish with that id in the restaurant, as deleting every matching dish would. |
| ReviewListStorage.OnlyDishWithId | Reviewer/Data/Storage/DishEntity.swift:13 | In a store with unique dish ids, two different dishes of one restaurant have different ids. |
| ReviewListStorage.StoredDishIdsInsert | Reviewer/Data/Storage/ReviewListStorage.swift:38-42 | Inserting a restaurant adds exactly its dish ids to the store's ids. |
| ReviewListStorage.UniqueAfterInsert | Reviewer/Data/Storage/ReviewListStorage.swift:38-42 | Inserting a restaurant without dishes keeps dish ids unique. |
| ReviewListStorage.UniqueAfterRemove | Reviewer/Data/Storage/ReviewListStorage.swift:58-62 | Removing a restaurant keeps dish ids unique. |
| ReviewListStorage.UniqueAfterShrink | Reviewer/Data/Storage/ReviewListStorage.swift:66-71 | Replacing a restaurant by one whose dish ids are among the old ones keeps dish ids unique. |
| ReviewListStorage.UniqueAfterAppend | Reviewer/Data/Storage/ReviewListStorage.swift:82-88 | Appending a dish whose id is not yet stored keeps dish ids unique. |
| ReviewListStorage.DefaultReviewListStorage.AddTaste | Reviewer/Data/Storage/ReviewListStorage.swift:90-97 | The loop over the dishes yields `TasteAdded` of the old store, which stays date-ordered. |
| ReviewListStorage.DefaultReviewListStorage.FetchDishes | Reviewer/Data/Storage/ReviewListStorage.swift:99-108 | Always calls back; nil for an unknown restaurant, otherwise all its dishes in stored order. |
| ReviewListStorage.DefaultReviewListStorage.FetchTastes | Reviewer/Data/Storage/ReviewListStorage.swift:110-122 | Always calls back, with `TastesOf` the current store. |
| TasteSelection.RemoveFirst | Shari/Presentation/TasteListView/TasteListViewModel.swift:68-74 | An absent taste leaves the list unchanged; a selected one makes it one shorter, and its multiset loses exactly one copy of that taste. |
| TasteSelection.RemoveFirstRemovesFirst | Shari/Presentation/TasteListView/TasteListViewModel.swift:68-74 | When the taste is selected, the entry removed is its first occurrence and the entries around it keep their order. |
| TasteSelection.SelectThenDeselectOrder | Shari/Presentation/TasteListView/TasteListViewModel.swift:64-74 | Selecting then deselecting a taste gives the exact list back when the taste was not already selected; otherwise the earlier copy goes and the new one stays at the end. |
| TasteSelection.SelectThenDeselect | Shari/Presentation/TasteListView/TasteListViewModel.swift:64-74 | Selecting then deselecting a taste always restores the length and the multiset of the selection. |
| ShariTasteList.DefaultTasteListViewModel.constructor | Shari/Presentation/TasteListView/TasteListViewModel.swift:44-54 | The selection starts empty; the title subject starts with the dish name. |
| ShariTasteList.DefaultTasteListViewModel.LoadTitle | Shari/Presentation/TasteListView/TasteListViewModel.swift:56-58 | Publishes the dish name. |
| ShariTasteList.DefaultTasteListViewModel.LoadTasteCategories | Shari/Presentation/TasteListView/TasteListViewModel.swift:60-62 | Publishes the taxonomy. |
| ShariTasteList.DefaultTasteListViewModel.DidSelectTaste | Shari/Presentation/TasteListView/TasteListViewModel.swift:64-66 | Appends exactly the chosen taste at the end. |
| ShariTasteList.DefaultTasteListViewModel.DidDeselectTaste | Shari/Presentation/TasteListView/TasteListViewModel.swift:68-74 | The selection becomes `RemoveFirst` of the old one. |
| ShariTasteList.DefaultTasteListViewModel.DidSaveDish | Shari/Presentation/TasteListView/TasteListViewModel.swift:76-80 | No save for an empty selection; otherwise exactly one save with the dish name, the selection in order and the thumbnail. The selection is not cleared. |
| ReviewerTasteList.DefaultTasteListViewModel.constructor | Reviewer/Presentation/TasteListView/TasteListViewModel.swift:43-52 | The selection starts empty; the title subject starts as the empty string. |
| ReviewerTasteList.DefaultTasteListViewModel.LoadTitle | Reviewer/Presentation/TasteListView/TasteListViewModel.swift:54-56 | Publishes the restaurant name. |
| ReviewerTasteList.DefaultTasteListViewModel.LoadTasteCategories | Reviewer/Presentation/TasteListView/TasteListViewModel.swift:58-60 | Publishes the taxonomy. |
| ReviewerTasteList.DefaultTasteListViewModel.DidSelectTaste | Reviewer/Presentation/TasteListView/TasteListViewModel.swift:62-64 | Appends exactly the chosen taste at the end. |
| ReviewerTasteList.DefaultTasteListViewModel.DidDeselectTaste | Reviewer/Presentation/TasteListView/TasteListViewModel.swift:66-72 | The selection becomes `RemoveFirst` of the old one. |
| ReviewerTasteList.DefaultTasteListViewModel.DidSaveDish | Reviewer/Presentation/TasteListView/TasteListViewModel.swift:74-78 | No save for an empty selection; otherwise exactly one save whose tastes are the selection in order. |
| Glossary.Items | Reviewer/Presentation/GlossaryViewController/GlossaryViewModel.swift:36 | One row per glossary entry, in order, carrying that entry. |
| Glossary.Contains | Reviewer/Presentation/GlossaryViewController/GlossaryViewModel.swift:46 | A prefix of a text is contained in it, and no keyword longer than the text is. |
| Glossary.Search | Reviewer/Presentation/GlossaryViewController/GlossaryViewModel.swift:40-48 | At most one row per entry, each one of the entries; every entry for the empty keyword, otherwise only entries containing the keyword. |
| Glossary.EmptyKeywordMatchesAll | Reviewer/Presentation/GlossaryViewController/GlossaryViewModel.swift:41-46 | The model's `Contains` holds for the empty keyword in every text. This is a fact about the model only: Foundation's `contains("")` is false, and `didSearch` tests the empty keyword before it filters. |
| Glossary.SearchIsFilter | Reviewer/Presentation/GlossaryViewController/GlossaryViewModel.swift:40-48 | In the model, `Search` equals the filter by the model's `Contains` for every keyword, the empty one included. In the source the guard is needed, because the filter by "" would keep nothing. |
| Glossary.SearchMeaning | Reviewer/Presentation/GlossaryViewController/GlossaryViewModel.swift:46 | A search yields exactly the entries that contain the keyword, as a subsequence of all entries. |
| Glossary.SearchIdempotent | Reviewer/Presentation/GlossaryViewController/GlossaryViewModel.swift:46-47 | Searching the rows of a search again with the same keyword gives the same rows. |
| Glossary.DefaultGlossaryViewModel.constructor | Reviewer/Presentation/GlossaryViewController/GlossaryViewModel.swift:29-33 | The contents are the given glossary entries, and no rows are shown or published yet. |
| Glossary.DefaultGlossaryViewModel.LoadGlossaryContents | Reviewer/Presentation/GlossaryViewController/GlossaryViewModel.swift:35-38 | Publishes every entry: the same rows as a search for the empty keyword. |
| Glossary.DefaultGlossaryViewModel.DidSearch | Reviewer/Presentation/GlossaryViewController/GlossaryViewModel.swift:40-48 | The rows are computed from the full contents and the keyword alone, never from the previous rows. |
| Glossary.DefaultGlossaryViewModel.CellForRow | Reviewer/Presentation/GlossaryViewController/GlossaryViewModel.swift:53-55 | Row `i` is item `i` of the current rows. |
| Glossary.DefaultGlossaryViewModel.NumberOfRowsIn | Reviewer/Presentation/GlossaryViewController/GlossaryViewModel.swift:57-59 | The row count is the number of current rows. |
| ShariRestaurantList.DishLinesConcat | Shari/Presentation/RestaurantListView/RestaurantListViewModel.swift:115-119 | The export lines of a concatenation of dishes are those of each part, one after the other. |
| ShariRestaurantList.ExportContentsShape | Shari/Presentation/RestaurantListView/RestaurantListViewModel.swift:111-119 | The export starts with `## name`, and each dish contributes its own line, in dish order. |
| ShariRestaurantList.TastesDescription | Shari/Presentation/RestaurantListView/RestaurantListViewModel.swift:118 | A taste list prints bracketed: `[]` when empty, one quoted taste when there is one. |
| ShariRestaurantList.DishLine | Shari/Presentation/RestaurantListView/RestaurantListViewModel.swift:116-118 | One dish adds a blank line, its name, `: ` and its bracketed tastes. |
| ShariRestaurantList.DishLines | Shari/Presentation/RestaurantListView/RestaurantListViewModel.swift:115-119 | No dishes add nothing; each dish adds at least six characters. |
| ShariRestaurantList.Heading | Shari/Presentation/RestaurantListView/RestaurantListViewModel.swift:111-113 | The heading is `## ` followed by the restaurant's name. |
| ShariRestaurantList.ExportContents | Shari/Presentation/RestaurantListView/RestaurantListViewModel.swift:111-119 | The export starts with the heading, is only the heading without dishes, and grows by at least one line per dish. |
| ShariRestaurantList.FileName | Shari/Presentation/RestaurantListView/RestaurantListViewModel.swift:120 | The file name starts with the formatted date and ends with the extension's raw value, which begins with a dot. |
| ShariRestaurantList.RemoveCalls | Shari/Presentation/RestaurantListView/RestaurantListViewModel.swift:130 | One remove per URL, in order. |
| ShariRestaurantList.DefaultRestaurantListViewModel.constructor | Shari/Presentation/RestaurantListView/RestaurantListViewModel.swift:54-65 | Starts empty, with no file URL, no created files and deletion not immediate. |
| ShariRestaurantList.DefaultRestaurantListViewModel.LoadListItem | Shari/Presentation/RestaurantListView/RestaurantListViewModel.swift:67-72 | On success the restaurants become the fetched ones sorted by date and the rows mirror them; a thrown error propagates and changes nothing. |
| ShariRestaurantList.DefaultRestaurantListViewModel.DidConfirm | Shari/Presentation/RestaurantListView/RestaurantListViewModel.swift:74-76 | Opens the studio with the id stored by the last `didAddRestaurant` and the given name. |
| ShariRestaurantList.DefaultRestaurantListViewModel.DidSelectItem | Shari/Presentation/RestaurantListView/RestaurantListViewModel.swift:78-80 | Shows the dish list of the restaurant in that row, by its id and name. |
| ShariRestaurantList.DefaultRestaurantListViewModel.DidAddRestaurant | Shari/Presentation/RestaurantListView/RestaurantListViewModel.swift:82-86 | Stores the fresh id and saves a restaurant with that id and name. |
| ShariRestaurantList.DefaultRestaurantListViewModel.DidDeleteRestaurant | Shari/Presentation/RestaurantListView/RestaurantListViewModel.swift:88-92 | One repository delete of that restaurant's id; exactly that element is removed from the restaurants; the rows are untouched. |
| ShariRestaurantList.DefaultRestaurantListViewModel.LoadIsDeleteImmediate | Shari/Presentation/RestaurantListView/RestaurantListViewModel.swift:94-105 | The setting changes only on a successful fetch. |
| ShariRestaurantList.DefaultRestaurantListViewModel.CreateFile | Shari/Presentation/RestaurantListView/RestaurantListViewModel.swift:107-127 | The loop builds `ExportContents` of the restaurant; the file name is formatted date, name, then `.md` or `.csv`; exactly one URL is appended to the ledger and one file write is asked for. |
| ShariRestaurantList.DefaultRestaurantListViewModel.RemoveFiles | Shari/Presentation/RestaurantListView/RestaurantListViewModel.swift:129-131 | One remove per created URL, in order; the ledger is kept. |
| ShariRestaurantList.DefaultRestaurantListViewModel.CellForRow | Shari/Presentation/RestaurantListView/RestaurantListViewModel.swift:136-138 | Row `i` is row item `i`; after a load and before a deletion it shows restaurant `i`'s name and date. |
| ShariRestaurantList.DefaultRestaurantListViewModel.NumberOfRowsIn | Shari/Presentation/RestaurantListView/RestaurantListViewModel.swift:140-142 | The number of row items; after a load and before a deletion, the number of restaurants. |
| ReviewerRestaurantList.DefaultRestaurantListViewModel.constructor | Reviewer/Presentation/RestaurantListView/RestaurantListViewModel.swift:43-52 | Starts empty, with deletion not immediate. |
| ReviewerRestaurantList.DefaultRestaurantListViewModel.LoadListItem | Reviewer/Presentation/RestaurantListView/RestaurantListViewModel.swift:54-71 | On success the restaurants become the fetched ones sorted by date and the rows mirror them; on failure nothing changes. |
| ReviewerRestaurantList.DefaultRestaurantListViewModel.DidPressedAlertConfirmButton | Reviewer/Presentation/RestaurantListView/RestaurantListViewModel.swift:73-75 | Opens the studio with the id stored by the last `didAddRestaurant` and the given name. |
| ReviewerRestaurantList.DefaultRestaurantListViewModel.DidSelectItem | Reviewer/Presentation/RestaurantListView/RestaurantListViewModel.swift:77-79 | Forwards exactly the id and name of the restaurant in that row. |
| ReviewerRestaurantList.DefaultRestaurantListViewModel.DidAddRestaurant | Reviewer/Presentation/RestaurantListView/RestaurantListViewModel.swift:81-85 | Stores the fresh id and saves a restaurant with that id and name. |
| ReviewerRestaurantList.DefaultRestaurantListViewModel.DidDeleteRestaurant | Reviewer/Presentation/RestaurantListView/RestaurantListViewModel.swift:87-91 | One repository delete of that restaurant's id; exactly that element is removed; the rows are untouched. |
| ReviewerRestaurantList.DefaultRestaurantListViewModel.LoadIsDeleteImmediate | Reviewer/Presentation/RestaurantListView/RestaurantListViewModel.swift:93-104 | The setting changes only on a successful fetch; a failure leaves it as it was. |
| ReviewerRestaurantList.DefaultRestaurantListViewModel.CellForRow | Reviewer/Presentation/RestaurantListView/RestaurantListViewModel.swift:109-111 | Row `i` is row item `i`; after a load and before a deletion it shows restaurant `i`'s name and date. |
| ReviewerRestaurantList.DefaultRestaurantListViewModel.NumberOfRowsIn | Reviewer/Presentation/RestaurantListView/RestaurantListViewModel.swift:113-115 | The number of row items; after a load and before a deletion, the number of restaurants. |
| ShariRestaurantDishList.DefaultRestaurantDishListViewModel.constructor | Shari/Presentation/RestaurantDishListView/RestaurantDishListViewModel.swift:52-63 | No dishes, an empty title, deletion not immediate. |
| ShariRestaurantDishList.DefaultRestaurantDishListViewModel.LoadTitle | Shari/Presentation/RestaurantDishListView/RestaurantDishListViewModel.swift:65-67 | Publishes the restaurant name. |
| ShariRestaurantDishList.DefaultRestaurantDishListViewModel.LoadDishes | Shari/Presentation/RestaurantDishListView/RestaurantDishListViewModel.swift:69-84 | On success the dishes become the fetched ones sorted by date, and the rows and published rows are their names in that order; on failure nothing changes. |
| ShariRestaurantDishList.DefaultRestaurantDishListViewModel.DidSelectRow | Shari/Presentation/RestaurantDishListView/RestaurantDishListViewModel.swift:86-89 | Forwards the restaurant id and exactly the dish in that row. |
| ShariRestaurantDishList.DefaultRestaurantDishListViewModel.DidDeleteDish | Shari/Presentation/RestaurantDishListView/RestaurantDishListViewModel.swift:91-94 | One repository delete of that dish's id; the local dishes are unchanged. |
| ShariRestaurantDishList.DefaultRestaurantDishListViewModel.DidLoadStudio | Shari/Presentation/RestaurantDishListView/RestaurantDishListViewModel.swift:96-98 | Opens the studio for this restaurant. |
| ShariRestaurantDishList.DefaultRestaurantDishListViewModel.DidLoadTasteView | Shari/Presentation/RestaurantDishListView/RestaurantDishListViewModel.swift:100-102 | Opens the taste list with the restaurant's id and name, the dish name and no thumbnail. |
| ShariRestaurantDishList.DefaultRestaurantDishListViewModel.LoadIsDeleteImmediate | Shari/Presentation/RestaurantDishListView/RestaurantDishListViewModel.swift:104-115 | The setting changes only on a successful fetch. |
| ShariRestaurantDishList.DefaultRestaurantDishListViewModel.CellForRow | Shari/Presentation/RestaurantDishListView/RestaurantDishListViewModel.swift:120-122 | Row `i` carries dish `i`'s name, and it equals the published row `i`. |
| ShariRestaurantDishList.DefaultRestaurantDishListViewModel.NumberOfRowsIn | Shari/Presentation/RestaurantDishListView/RestaurantDishListViewModel.swift:124-126 | One row per dish, as many as were published. |
| ReviewerRestaurantDishList.DefaultRestaurantDishListViewModel.constructor | Reviewer/Presentation/RestaurantDishListView/RestaurantDishListViewModel.swift:49-60 | No dishes, an empty title, deletion not immediate. |
| ReviewerRestaurantDishList.DefaultRestaurantDishListViewModel.LoadTitle | Reviewer/Presentation/RestaurantDishListView/RestaurantDishListViewModel.swift:62-64 | Publishes the restaurant name. |
| ReviewerRestaurantDishList.DefaultRestaurantDishListViewModel.LoadDishes | Reviewer/Presentation/RestaurantDishListView/RestaurantDishListViewModel.swift:66-81 | On success the dishes become the fetched ones sorted by date and the rows mirror their names; on failure nothing changes. |
| ReviewerRestaurantDishList.DefaultRestaurantDishListViewModel.DidSelectRow | Reviewer/Presentation/RestaurantDishListView/RestaurantDishListViewModel.swift:83-85 | Forwards the restaurant id and the id, tastes and name of the same dish. |
| ReviewerRestaurantDishList.DefaultRestaurantDishListViewModel.DidDeleteDish | Reviewer/Presentation/RestaurantDishListView/RestaurantDishListViewModel.swift:87-90 | One repository delete of that dish's id; the local dishes are unchanged. |
| ReviewerRestaurantDishList.DefaultRestaurantDishListViewModel.DidLoadStudio | Reviewer/Presentation/RestaurantDishListView/RestaurantDishListViewModel.swift:92-94 | Opens the studio for this restaurant. |
| ReviewerRestaurantDishList.DefaultRestaurantDishListViewModel.LoadIsDeleteImmediate | Reviewer/Presentation/RestaurantDishListView/RestaurantDishListViewModel.swift:96-107 | The setting changes only on a successful fetch. |
| ReviewerRestaurantDishList.DefaultRestaurantDishListViewModel.CellForRow | Reviewer/Presentation/RestaurantDishListView/RestaurantDishListViewModel.swift:112-114 | Row `i` carries dish `i`'s name, and it equals the published row `i`. |
| ReviewerRestaurantDishList.DefaultRestaurantDishListViewModel.NumberOfRowsIn | Reviewer/Presentation/RestaurantDishListView/RestaurantDishListViewModel.swift:116-118 | One row per dish, as many as were published. |
| TasteListScroll.TastesBefore | Shari/Presentation/TasteListView/TasteListViewController.swift:146-148 | The taste buttons of the earlier categories: none when those are all empty, and at least as many as any one of them has. |
| TasteListScroll.RowsAbove | Shari/Presentation/TasteListView/TasteListViewController.swift:144-153 | One header per earlier category plus their buttons: at least the index, and exactly the index when the earlier categories are empty. |
| TasteListScroll.GenerateScrollPosition | Shari/Presentation/TasteListView/TasteListViewController.swift:144-153 | The accumulated position is 80 × (index + the taste counts of the earlier categories): 0 for the first category, always a non-negative multiple of 80. |
| TasteListScroll.NextCategoryOffset | Shari/Presentation/TasteListView/TasteListViewController.swift:146-150 | Consecutive positions differ by 80 × (the category's taste count + 1). |
| TasteListScroll.OffsetsIncrease | Shari/Presentation/TasteListView/TasteListViewController.swift:146-150 | Positions strictly increase with the category index. |
| TasteListScroll.MenuActionOffset | Shari/Presentation/TasteListView/TasteListViewController.swift:129-133 | The menu entry for category `i` scrolls to `(i, generateScrollPosition(i))`. |
| StudioView.ZoomFactorOfSegment | Reviewer/Presentation/StudioView/StudioViewController.swift:251-267 | Segments 0, 1 and 2 map to a zoom factor; no other index does. |
| StudioView.ResolutionOfSegment | Reviewer/Presentation/StudioView/StudioViewController.swift:273-287 | Segments 0 and 1 map to a resolution; no other index does. |
| StudioView.FrameRateOfSegment | Reviewer/Presentation/StudioView/StudioViewController.swift:293-311 | Segments 0 and 1 map to a frame rate; no other index does. |
| StudioView.CaptureModeOfSegment | Reviewer/Presentation/StudioView/StudioViewController.swift:317-339 | Segments 0 and 1 map to a capture mode; no other index does. |
| StudioView.SegmentOfZoomFactor | Reviewer/Presentation/StudioView/StudioViewController.swift:251-267 | Each zoom factor is chosen by exactly one segment. |
| StudioView.SegmentOfResolution | Reviewer/Presentation/StudioView/StudioViewController.swift:273-287 | Each resolution is chosen by exactly one segment. |
| StudioView.SegmentOfFrameRate | Reviewer/Presentation/StudioView/StudioViewController.swift:293-311 | Each frame rate is chosen by exactly one segment. |
| StudioView.OccurrencesAppend | Reviewer/Presentation/StudioView/StudioViewController.swift:472-490 | Logging one call adds one occurrence of it and none of any other call. |
| StudioView.StudioViewController.constructor | Reviewer/Presentation/StudioView/StudioViewController.swift:37-43 | Starts with setup success, HD, 30 fps, not recording, capture mode on segment 0, no calls. |
| StudioView.StudioViewController.ShouldAutorotate | Reviewer/Presentation/StudioView/StudioViewController.swift:119-121 | The screen may rotate exactly when no movie is being recorded. |
| StudioView.StudioViewController.CheckAuthorizationStatus | Reviewer/Presentation/StudioView/StudioViewController.swift:341-359 | Authorized: nothing. Undetermined: the session queue is suspended once and a prompt is pending. Denied or restricted: the setup becomes not authorized. The suspend/resume pairing is preserved. |
| StudioView.StudioViewController.AccessRequestAnswered | Reviewer/Presentation/StudioView/StudioViewController.swift:348-353 | The queue resumes exactly once, granted or not; a refusal marks the setup not authorized. |
| StudioView.StudioViewController.ViewDidLoad | Reviewer/Presentation/StudioView/StudioViewController.swift:123-164 | Runs the authorization check (one pending permission prompt exactly when the status is undetermined), hides the movie controls, timer label and record button, then asks for the title; the capture button and mode control are untouched. |
| StudioView.FirstLaunchPrompt | Reviewer/Presentation/StudioView/StudioViewController.swift:341-353 | On first launch the queue is suspended, the title loaded, and the answered prompt resumes the queue; a refusal leaves `notAuthorized`. |
| StudioView.StudioViewController.ViewDidAppear | Reviewer/Presentation/StudioView/StudioViewController.swift:170-199 | Photo mode sets up the photo session; movie mode forwards exactly the current frame rate and resolution; then the session starts. |
| StudioView.StudioViewController.StartSession | Reviewer/Presentation/StudioView/StudioViewController.swift:173-175 | Exactly three calls, in order: set the session on the preview, configure it, start it running. |
| StudioView.StudioViewController.ViewWillDisappear | Reviewer/Presentation/StudioView/StudioViewController.swift:201-204 | The session stops. |
| StudioView.StudioViewController.DidSelectZoomFactor | Reviewer/Presentation/StudioView/StudioViewController.swift:251-267 | Forwards the factor of the chosen segment; any other index forwards nothing. |
| StudioView.StudioViewController.DidSelectResolution | Reviewer/Presentation/StudioView/StudioViewController.swift:273-287 | The chosen resolution becomes current and is forwarded with the unchanged frame rate; any other index changes nothing. |
| StudioView.StudioViewController.DidSelectFrameRate | Reviewer/Presentation/StudioView/StudioViewController.swift:293-311 | The chosen frame rate becomes current and is forwarded with the unchanged resolution; any other index changes nothing. |
| StudioView.StudioViewController.DidSelectCaptureMode | Reviewer/Presentation/StudioView/StudioViewController.swift:317-339 | Photo mode shows the shutter and hides the movie controls; movie mode does the reverse; the mode is forwarded; other indexes change no control and forward nothing. |
| StudioView.StudioViewController.TapRecord | Reviewer/Presentation/StudioView/StudioViewController.swift:472-490 | Each tap flips `isRecord` and reports it. Starting runs the timer and hides the resolution, frame-rate and capture-mode controls; stopping cancels the timer and shows them. The timer runs exactly while recording. |

## Left out

- The camera itself is not modelled: `Studio`, `PhotoCaptureProcessor` and the AVFoundation session they drive, with its dispatch queues, photo and movie capture, focus and zoom. The studio model logs what it asks of its view model instead.
- The forwarding wrappers `StudioViewModel`, `StudioUseCase`, both `DefaultReviewListRepository`s and `DefaultSettingsRepository` are not modelled. The view models' calls are logged at the repository boundary instead.
- Settings persistence (`DefaultSettingsStorage`, UserDefaults) is not modelled. Its fetch result is a parameter of `LoadIsDeleteImmediate`.
- Writing and removing files (`FileGenerator`) and the `yyyyMMdd` date formatting are not modelled. The formatter is a function parameter of `CreateFile`, and the writes are logged calls.
- UIKit is not modelled: view controllers apart from the studio state machine and the scroll offset, adapters, cells, buttons, flow coordinators, DI containers and the scene delegate. The same goes for the studio's layout constraints, orientation mask, focus gesture and the dish-name alert after a capture or recording.
- `DishDetailViewModel`, `ReviewListViewModel` and `ReviewDetailViewModel` are not modelled. Their state is an empty list or a verbatim copy of fetched tastes.
- The static taxonomy and glossary data (`Constants`) are not modelled; they are parameters.
- Async/await, completion-handler scheduling and Combine publishers are not modelled. A fetch's result is the argument of the method that applies it, and each subject is represented by the field that holds its current value.
- The `[weak self]` branches taken after a view model has been released are not modelled, because the model's objects are never released.
- ReviewListStorage.DefaultReviewListStorage.FetchRestaurants: a `context.fetch` that throws is not modelled; the model's context always answers.
- ReviewListStorage.DefaultReviewListStorage.DeleteDish: `context.delete` on every dish with the id is modelled as removing the first one from the restaurant. The store's invariant keeps dish ids unique, and `DeleteDishRemovesEveryMatch` proves that no match remains.
- ReviewListStorage.DefaultReviewListStorage.SaveDish: saving a dish whose id is already stored (SwiftData's upsert on a unique attribute) is not modelled. The method requires a fresh id, as the callers pass `UUID().uuidString`.
- ShariRestaurantList.TastesDescription: Swift's escaping of quotes and backslashes inside a taste, when it prints `[String]`, is not modelled.
- Glossary.Contains: `String.contains` compares Unicode grapheme clusters; the model compares characters. The model also counts the empty keyword as contained in every text, while Foundation's `contains("")` is false. `didSearch` tests the empty keyword before it filters, so this difference never shows in a search.
- TasteListScroll.GenerateScrollPosition: 64-bit overflow of `Int` is not modelled. Reaching it would take more than 10^17 taste buttons.
- DateOrder.InsertBy: the order among records of equal date is the model's choice, not the source's. `SortDescriptor(\.date)` and `sorted(by:)` fix no order among equal dates. The model inserts a new restaurant after those of equal date, and its sort is stable. `DateOrder.SortByAscending`, `ListItems.SortRestaurantsKeepsStoreOrder` and `ListItems.SortDishesKeepsOrder` rely on this choice. Without it they hold only when no two dates are equal.
