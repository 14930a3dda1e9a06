/**
 * `DefaultRestaurantDishListViewModel` of the Shari app: the dishes of one restaurant, in date
 * order, with navigation to a dish's detail, the studio and the taste list.
 */
module ShariRestaurantDishList {
  import opened Wrappers
  import opened Entities
  import opened DateOrder
  import opened Calls
  import opened ListItems

  class DefaultRestaurantDishListViewModel {
    const restaurantId: string
    const restaurantName: string
    /** Current value of `restaurantNameSubject`. */
    var publishedTitle: string
    var isDeleteImmediate: bool
    var dishes: seq<Dish>
    var listItems: seq<DishListItem>
    /** Current value of `listItemsSubject`. */
    var publishedItems: seq<DishListItem>
    /** Calls made to the repository and to the navigation actions, oldest first. */
    ghost var calls: seq<Call>

    /** The rows are always those of the dishes, which are in date order. */
    ghost predicate Valid()
      reads this
    {
      SortedBy(dishes, DishDate) && listItems == DishItems(dishes) && publishedItems == listItems
    }

    constructor (id: string, restaurantName: string)
      ensures Valid()
      ensures restaurantId == id && this.restaurantName == restaurantName
      ensures publishedTitle == "" && !isDeleteImmediate && dishes == [] && calls == []
    {
      restaurantId := id;
      this.restaurantName := restaurantName;
      publishedTitle := "";
      isDeleteImmediate := false;
      dishes := [];
      listItems := [];
      publishedItems := [];
      calls := [];
    }

    /** `loadTitle`: publishes the restaurant's name. */
    method LoadTitle()
      modifies this`publishedTitle
      ensures publishedTitle == restaurantName
    {
      publishedTitle := restaurantName;
    }

    /**
     * The completion handler `loadDishes` hands to `fetchDishes`: on success the dishes in
     * date order and their rows, published; on failure nothing changes.
     */
    method LoadDishes(result: Result<seq<Dish>>)
      requires Valid()
      modifies this`dishes, this`listItems, this`publishedItems
      ensures Valid()
      ensures result.Failure? ==> dishes == old(dishes)
      ensures result.Success? ==> dishes == SortDishes(result.value)
    {
      match result
      case Success(fetched) =>
        dishes := SortDishes(fetched);
        listItems := DishItems(dishes);
        publishedItems := listItems;
      case Failure(_) =>
    }

    /** `didSelectRow(at:)`: shows the detail of the dish in that row. */
    method DidSelectRow(row: int)
      requires 0 <= row < |dishes|
      modifies this`calls
      ensures calls == old(calls) + [ShowDishDetail(restaurantId, dishes[row])]
    {
      calls := calls + [ShowDishDetail(restaurantId, dishes[row])];
    }

    /** `didDeleteDish(at:)`: one repository delete; the dishes wait for the next load. */
    method DidDeleteDish(row: int)
      requires 0 <= row < |dishes|
      modifies this`calls
      ensures calls == old(calls) + [DeleteDish(restaurantId, dishes[row].id)]
    {
      calls := calls + [DeleteDish(restaurantId, dishes[row].id)];
    }

    /** `didLoadStudio`. */
    method DidLoadStudio()
      modifies this`calls
      ensures calls == old(calls) + [ShowStudio(restaurantId, restaurantName)]
    {
      calls := calls + [ShowStudio(restaurantId, restaurantName)];
    }

    /** `didLoadTasteView(with:)`: the taste list for a new dish, with no thumbnail. */
    method DidLoadTasteView(dishName: string)
      modifies this`calls
      ensures calls == old(calls) + [ShowTastes(restaurantId, restaurantName, dishName, None)]
    {
      calls := calls + [ShowTastes(restaurantId, restaurantName, dishName, None)];
    }

    /** The completion handler of `loadIsDeleteImmediate`: a failure keeps the old value. */
    method LoadIsDeleteImmediate(result: Result<bool>)
      modifies this`isDeleteImmediate
      ensures isDeleteImmediate == if result.Success? then result.value else old(isDeleteImmediate)
    {
      if result.Success? {
        isDeleteImmediate := result.value;
      }
    }

    /** `cellForRow(at:)`: the name of the dish in that row, which is also the published row. */
    function CellForRow(row: int): (item: DishListItem)
      reads this
      requires 0 <= row < NumberOfRowsIn()
      ensures item.name == dishes[row].name
      ensures Valid() ==> item == publishedItems[row]
    {
      DishListItem(dishes[row].name)
    }

    /** `numberOfRowsIn(section:)`: one row per dish, as many as were published. */
    function NumberOfRowsIn(): (n: nat)
      reads this
      ensures n == |dishes|
      ensures Valid() ==> n == |publishedItems|
    {
      |dishes|
    }
  }
}
