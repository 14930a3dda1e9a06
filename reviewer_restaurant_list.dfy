/**
 * `DefaultRestaurantListViewModel` of the Reviewer app: the restaurant list, its selection and
 * deletion. Its load is a completion handler of the repository's fetch.
 */
module ReviewerRestaurantList {
  import opened Wrappers
  import opened Entities
  import opened DateOrder
  import opened Seqs
  import opened Calls
  import opened ListItems

  class DefaultRestaurantListViewModel {
    var restaurants: seq<Restaurant>
    var restaurantId: string
    var isDeleteImmediate: bool
    var listItemViewModels: seq<RestaurantListItem>
    /** Current value of `listItemViewModelSubject`. */
    var publishedItems: seq<RestaurantListItem>
    /** Calls made to the repository and to the navigation actions, oldest first. */
    ghost var calls: seq<Call>

    ghost predicate Valid()
      reads this
    {
      SortedBy(restaurants, RestaurantDate) && publishedItems == listItemViewModels
    }

    /** The rows shown are those of the current restaurants: true after a load, until a deletion. */
    ghost predicate RowsMirrorRestaurants()
      reads this
    {
      listItemViewModels == RestaurantItems(restaurants)
    }

    constructor ()
      ensures Valid() && RowsMirrorRestaurants()
      ensures restaurants == [] && restaurantId == "" && !isDeleteImmediate
      ensures listItemViewModels == [] && calls == []
    {
      restaurants := [];
      restaurantId := "";
      isDeleteImmediate := false;
      listItemViewModels := [];
      publishedItems := [];
      calls := [];
    }

    /**
     * The completion handler `loadListItem` hands to `fetchRestaurants`: on success the
     * restaurants in date order and their rows, published; on failure nothing changes.
     */
    method LoadListItem(result: Result<seq<Restaurant>>)
      requires Valid()
      modifies this`restaurants, this`listItemViewModels, this`publishedItems
      ensures Valid()
      ensures result.Failure? ==> restaurants == old(restaurants) && listItemViewModels == old(listItemViewModels)
      ensures result.Success? ==> restaurants == SortRestaurants(result.value) && RowsMirrorRestaurants()
    {
      match result
      case Success(fetched) =>
        restaurants := SortRestaurants(fetched);
        listItemViewModels := RestaurantItems(restaurants);
        publishedItems := listItemViewModels;
      case Failure(_) =>
    }

    /** `didPressedAlertConfirmButton(with:)`: opens the studio for the restaurant added last. */
    method DidPressedAlertConfirmButton(restaurantName: string)
      modifies this`calls
      ensures calls == old(calls) + [ShowStudioView(restaurantId, restaurantName)]
    {
      calls := calls + [ShowStudioView(restaurantId, restaurantName)];
    }

    /** `didSelectItem(at:)`. */
    method DidSelectItem(row: int)
      requires 0 <= row < |restaurants|
      modifies this`calls
      ensures calls == old(calls) + [ShowRestaurantDishListView(restaurants[row].id, restaurants[row].name)]
    {
      calls := calls + [ShowRestaurantDishListView(restaurants[row].id, restaurants[row].name)];
    }

    /** `didAddRestaurant(name:)`, with `newId` the fresh UUID string. */
    method DidAddRestaurant(name: string, newId: string)
      modifies this`restaurantId, this`calls
      ensures restaurantId == newId
      ensures calls == old(calls) + [SaveRestaurant(newId, name)]
    {
      restaurantId := newId;
      calls := calls + [SaveRestaurant(newId, name)];
    }

    /** `didDeleteRestaurant(at:)`: one repository delete; the rows wait for the next load. */
    method DidDeleteRestaurant(row: int)
      requires Valid()
      requires 0 <= row < |restaurants|
      modifies this`restaurants, this`calls
      ensures Valid()
      ensures calls == old(calls) + [DeleteRestaurant(old(restaurants)[row].id)]
      ensures restaurants == old(restaurants)[..row] + old(restaurants)[row + 1..]
    {
      var id := restaurants[row].id;
      calls := calls + [DeleteRestaurant(id)];
      RemoveAtSorted(restaurants, row, RestaurantDate);
      restaurants := RemoveAt(restaurants, row);
    }

    /** The completion handler of `loadIsDeleteImmediate`: a failure keeps the old value. */
    method LoadIsDeleteImmediate(result: Result<bool>)
      modifies this`isDeleteImmediate
      ensures isDeleteImmediate == if result.Success? then result.value else old(isDeleteImmediate)
    {
      if result.Success? {
        isDeleteImmediate := result.value;
      }
    }

    /** `cellForRow(at:)`: after a load and before any deletion, row `i` shows restaurant `i`. */
    function CellForRow(row: int): (item: RestaurantListItem)
      reads this
      requires 0 <= row < NumberOfRowsIn()
      ensures item == listItemViewModels[row]
      ensures RowsMirrorRestaurants() ==>
        item.restaurantName == restaurants[row].name && item.date == restaurants[row].date
    {
      listItemViewModels[row]
    }

    /** `numberOfRowsIn(section:)`: the number of rows last loaded. */
    function NumberOfRowsIn(): (n: nat)
      reads this
      ensures n == |listItemViewModels|
      ensures RowsMirrorRestaurants() ==> n == |restaurants|
    {
      |listItemViewModels|
    }
  }
}
