/**
 * `DefaultRestaurantListViewModel` of the Shari app: the restaurant list, its selection and
 * deletion, and the markdown export with its ledger of created files.
 */
module ShariRestaurantList {
  import opened Wrappers
  import opened Entities
  import opened DateOrder
  import opened Seqs
  import opened Calls
  import opened ListItems

  datatype SupportedFileExtension = Markdown | Csv

  function RawValue(e: SupportedFileExtension): string {
    match e
    case Markdown => ".md"
    case Csv => ".csv"
  }

  function Quoted(t: string): string {
    "\"" + t + "\""
  }

  function JoinQuoted(ts: seq<string>): string {
    if ts == [] then ""
    else if |ts| == 1 then Quoted(ts[0])
    else Quoted(ts[0]) + ", " + JoinQuoted(ts[1..])
  }

  /**
   * `"\(tastes)"`: Swift's description of a `[String]`, such as `["sweet", "salty"]`: bracketed,
   * `[]` when empty, and one quoted taste when there is one.
   */
  function TastesDescription(ts: seq<string>): (r: string)
    ensures |r| >= 2 && r[0] == '[' && r[|r| - 1] == ']'
    ensures ts == [] ==> r == "[]"
    ensures |ts| == 1 ==> r == "[\"" + ts[0] + "\"]"
  {
    "[" + JoinQuoted(ts) + "]"
  }

  /** What one pass of the export loop appends for a dish: a blank line, then `name: [tastes]`. */
  function DishLine(d: Dish): (r: string)
    ensures |r| >= 6 + |d.name| && r[..2] == "\n\n" && r[|r| - 1] == ']'
    ensures r[2..2 + |d.name|] == d.name && r[2 + |d.name|..4 + |d.name|] == ": "
    ensures r[4 + |d.name|..] == TastesDescription(d.tastes)
  {
    "\n" + "\n" + d.name + ": " + TastesDescription(d.tastes)
  }

  /** The lines of the dishes, in order. */
  function DishLines(ds: seq<Dish>): (r: string)
    ensures |r| >= 6 * |ds|
    ensures ds == [] ==> r == ""
  {
    if ds == [] then "" else DishLines(ds[..|ds| - 1]) + DishLine(ds[|ds| - 1])
  }

  /** The level-two markdown heading holding the restaurant's name. */
  function Heading(r: Restaurant): (h: string)
    ensures |h| == 3 + |r.name| && h[..3] == "## " && h[3..] == r.name
  {
    "## " + r.name
  }

  /**
   * The markdown contents `createFile` writes for a restaurant: the heading, then at least one
   * blank line and `name: [tastes]` per dish; only the heading when there are no dishes.
   */
  function ExportContents(r: Restaurant): (c: string)
    ensures |c| >= |Heading(r)| + 6 * |r.dishes| && c[..|Heading(r)|] == Heading(r)
    ensures r.dishes == [] ==> c == Heading(r)
  {
    Heading(r) + DishLines(r.dishes)
  }

  /** The lines of a non-empty list end with the line of its last dish. */
  lemma DishLinesLast(ds: seq<Dish>)
    requires ds != []
    ensures DishLines(ds) == DishLines(ds[..|ds| - 1]) + DishLine(ds[|ds| - 1])
  {
  }

  /** The lines of a concatenation are the lines of each part, one after the other. */
  lemma {:induction false} DishLinesConcat(a: seq<Dish>, b: seq<Dish>)
    ensures DishLines(a + b) == DishLines(a) + DishLines(b)
  {
    if b == [] {
      assert a + b == a;
    } else {
      var b' := b[..|b| - 1];
      DropLastOfConcat(a, b);
      DishLinesLast(a + b);
      DishLinesLast(b);
      DishLinesConcat(a, b');
      AppendAssoc(DishLines(a), DishLines(b'), DishLine(b[|b| - 1]));
    }
  }

  /**
   * The export starts with the heading, and each dish contributes its own line in order: the
   * export of a restaurant whose dishes are `a + b` is its heading, the lines of `a`, then
   * the lines of `b`.
   */
  lemma {:induction false} ExportContentsShape(r: Restaurant, a: seq<Dish>, b: seq<Dish>)
    requires r.dishes == a + b
    ensures ExportContents(r) == Heading(r) + DishLines(a) + DishLines(b)
    ensures |ExportContents(r)| >= |Heading(r)| && ExportContents(r)[..|Heading(r)|] == Heading(r)
  {
    DishLinesConcat(a, b);
  }

  /** The file name: it starts with the formatted date and ends with `.md` or `.csv`. */
  function FileName(r: Restaurant, e: SupportedFileExtension, formatDate: Date -> string): (n: string)
    ensures |n| == |formatDate(r.date)| + |r.name| + |RawValue(e)|
    ensures n[..|formatDate(r.date)|] == formatDate(r.date)
    ensures n[|n| - |RawValue(e)|..] == RawValue(e) && n[|n| - |RawValue(e)|] == '.'
  {
    formatDate(r.date) + r.name + RawValue(e)
  }

  function RemoveCalls(urls: seq<Url>): (r: seq<Call>)
    ensures |r| == |urls| && forall j :: 0 <= j < |urls| ==> r[j] == RemoveFile(urls[j])
  {
    seq(|urls|, j requires 0 <= j < |urls| => RemoveFile(urls[j]))
  }

  class DefaultRestaurantListViewModel {
    var restaurants: seq<Restaurant>
    var restaurantId: string
    var isDeleteImmediate: bool
    var fileUrl: Option<Url>
    var createdUrls: seq<Url>
    var listItemViewModels: seq<RestaurantListItem>
    /** Current value of `listItemViewModelSubject`. */
    var publishedItems: seq<RestaurantListItem>
    /** Calls made to the repository and to the navigation actions, oldest first. */
    ghost var calls: seq<Call>

    ghost predicate Valid()
      reads this
    {
      SortedBy(restaurants, RestaurantDate) && publishedItems == listItemViewModels
    }

    /** The rows shown are those of the current restaurants: true after a load, until a deletion. */
    ghost predicate RowsMirrorRestaurants()
      reads this
    {
      listItemViewModels == RestaurantItems(restaurants)
    }

    constructor ()
      ensures Valid() && RowsMirrorRestaurants()
      ensures restaurants == [] && restaurantId == "" && !isDeleteImmediate && fileUrl == None
      ensures createdUrls == [] && listItemViewModels == [] && calls == []
    {
      restaurants := [];
      restaurantId := "";
      isDeleteImmediate := false;
      fileUrl := None;
      createdUrls := [];
      listItemViewModels := [];
      publishedItems := [];
      calls := [];
    }

    /**
     * `loadListItem`, given what `fetchRestaurants` returned: on success the restaurants in
     * date order and their rows, published; a thrown error propagates and changes nothing.
     */
    method LoadListItem(fetched: Result<seq<Restaurant>>) returns (threw: bool)
      requires Valid()
      modifies this`restaurants, this`listItemViewModels, this`publishedItems
      ensures Valid()
      ensures threw <==> fetched.Failure?
      ensures fetched.Failure? ==>
        restaurants == old(restaurants) && listItemViewModels == old(listItemViewModels)
      ensures fetched.Success? ==>
        restaurants == SortRestaurants(fetched.value) && RowsMirrorRestaurants()
    {
      if fetched.Failure? {
        return true;
      }
      restaurants := SortRestaurants(fetched.value);
      listItemViewModels := RestaurantItems(restaurants);
      publishedItems := listItemViewModels;
      return false;
    }

    /** `didConfirm(restaurantName:)`: opens the studio for the restaurant added last. */
    method DidConfirm(restaurantName: string)
      modifies this`calls
      ensures calls == old(calls) + [ShowStudioView(restaurantId, restaurantName)]
    {
      calls := calls + [ShowStudioView(restaurantId, restaurantName)];
    }

    /** `didSelectItem(at:)`. */
    method DidSelectItem(row: int)
      requires 0 <= row < |restaurants|
      modifies this`calls
      ensures calls == old(calls) + [ShowRestaurantDishListView(restaurants[row].id, restaurants[row].name)]
    {
      calls := calls + [ShowRestaurantDishListView(restaurants[row].id, restaurants[row].name)];
    }

    /** `didAddRestaurant(name:)`, with `newId` the fresh UUID string. */
    method DidAddRestaurant(name: string, newId: string)
      modifies this`restaurantId, this`calls
      ensures restaurantId == newId
      ensures calls == old(calls) + [SaveRestaurant(newId, name)]
    {
      restaurantId := newId;
      calls := calls + [SaveRestaurant(newId, name)];
    }

    /** `didDeleteRestaurant(at:)`: one repository delete; the rows wait for the next load. */
    method DidDeleteRestaurant(row: int)
      requires Valid()
      requires 0 <= row < |restaurants|
      modifies this`restaurants, this`calls
      ensures Valid()
      ensures calls == old(calls) + [DeleteRestaurant(old(restaurants)[row].id)]
      ensures restaurants == old(restaurants)[..row] + old(restaurants)[row + 1..]
    {
      var id := restaurants[row].id;
      calls := calls + [DeleteRestaurant(id)];
      RemoveAtSorted(restaurants, row, RestaurantDate);
      restaurants := RemoveAt(restaurants, row);
    }

    /** `loadIsDeleteImmediate`, given the settings fetch result: a failure keeps the old value. */
    method LoadIsDeleteImmediate(fetched: Result<bool>)
      modifies this`isDeleteImmediate
      ensures isDeleteImmediate == if fetched.Success? then fetched.value else old(isDeleteImmediate)
    {
      if fetched.Success? {
        isDeleteImmediate := fetched.value;
      }
    }

    /**
     * `createFile(at:url:fileExtension:)`, with `formatDate` the `yyyyMMdd` formatter: builds
     * the export, records the new file URL in `fileUrl` and `createdUrls`, and asks the
     * repository to write it.
     */
    method CreateFile(row: int, url: Url, fileExtension: SupportedFileExtension, formatDate: Date -> string)
      requires 0 <= row < |restaurants|
      modifies this`fileUrl, this`createdUrls, this`calls
      ensures
        var u := Url(url.components + [FileName(restaurants[row], fileExtension, formatDate)]);
        fileUrl == Some(u) && createdUrls == old(createdUrls) + [u] &&
        calls == old(calls) + [Calls.CreateFile(ExportContents(restaurants[row]), u)]
    {
      var restaurant := restaurants[row];
      var dishes := restaurant.dishes;
      var contents := "## " + restaurant.name;
      for i := 0 to |dishes|
        invariant contents == Heading(restaurant) + DishLines(dishes[..i])
        invariant unchanged(this)
      {
        var line := "\n" + "\n" + dishes[i].name + ": " + TastesDescription(dishes[i].tastes);
        assert dishes[..i + 1][..i] == dishes[..i];
        DishLinesLast(dishes[..i + 1]);
        AppendAssoc(Heading(restaurant), DishLines(dishes[..i]), line);
        contents := contents + line;
      }
      assert dishes[..|dishes|] == dishes;
      var u := Url(url.components + [formatDate(restaurant.date) + restaurant.name + RawValue(fileExtension)]);
      fileUrl := Some(u);
      createdUrls := createdUrls + [u];
      calls := calls + [Calls.CreateFile(contents, u)];
    }

    /** `removeFiles`: one repository remove per created file, in order; the ledger is kept. */
    method RemoveFiles()
      modifies this`calls
      ensures calls == old(calls) + RemoveCalls(createdUrls)
    {
      for i := 0 to |createdUrls|
        invariant calls == old(calls) + RemoveCalls(createdUrls[..i])
      {
        assert RemoveCalls(createdUrls[..i + 1]) == RemoveCalls(createdUrls[..i]) + [RemoveFile(createdUrls[i])];
        calls := calls + [RemoveFile(createdUrls[i])];
      }
      assert createdUrls[..|createdUrls|] == createdUrls;
    }

    /** `cellForRow(at:)`: after a load and before any deletion, row `i` shows restaurant `i`. */
    function CellForRow(row: int): (item: RestaurantListItem)
      reads this
      requires 0 <= row < NumberOfRowsIn()
      ensures item == listItemViewModels[row]
      ensures RowsMirrorRestaurants() ==>
        item.restaurantName == restaurants[row].name && item.date == restaurants[row].date
    {
      listItemViewModels[row]
    }

    /** `numberOfRowsIn(section:)`: the number of rows last loaded. */
    function NumberOfRowsIn(): (n: nat)
      reads this
      ensures n == |listItemViewModels|
      ensures RowsMirrorRestaurants() ==> n == |restaurants|
    {
      |listItemViewModels|
    }
  }
}
