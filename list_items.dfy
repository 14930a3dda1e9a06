/**
 * What the list view models of both variants share: the post-fetch ordering
 * (`sorted(by: { $0.date < $1.date })`) and the projection of records to row items.
 */
module ListItems {
  import opened Entities
  import opened DateOrder

  datatype RestaurantListItem = RestaurantListItem(restaurantName: string, date: Date)

  datatype DishListItem = DishListItem(name: string)

  /** `restaurants.map { .init(restaurantName: $0.name, date: $0.date) }`. */
  function RestaurantItems(rs: seq<Restaurant>): (r: seq<RestaurantListItem>)
    ensures |r| == |rs|
    ensures forall j :: 0 <= j < |rs| ==> r[j].restaurantName == rs[j].name && r[j].date == rs[j].date
  {
    seq(|rs|, j requires 0 <= j < |rs| => RestaurantListItem(rs[j].name, rs[j].date))
  }

  /** `dishes.map { .init(name: $0.name) }`. */
  function DishItems(ds: seq<Dish>): (r: seq<DishListItem>)
    ensures |r| == |ds|
    ensures forall j :: 0 <= j < |ds| ==> r[j].name == ds[j].name
  {
    seq(|ds|, j requires 0 <= j < |ds| => DishListItem(ds[j].name))
  }

  /** The fetched restaurants ascending by date: a sorted permutation of them. */
  function SortRestaurants(rs: seq<Restaurant>): (r: seq<Restaurant>)
    ensures SortedBy(r, RestaurantDate)
    ensures |r| == |rs| && multiset(r) == multiset(rs)
  {
    SortBySorted(rs, RestaurantDate);
    SortBy(rs, RestaurantDate)
  }

  /** The fetched dishes ascending by date: a sorted permutation of them. */
  function SortDishes(ds: seq<Dish>): (r: seq<Dish>)
    ensures SortedBy(r, DishDate)
    ensures |r| == |ds| && multiset(r) == multiset(ds)
  {
    SortBySorted(ds, DishDate);
    SortBy(ds, DishDate)
  }

  /**
   * Restaurants that come from the store already in date order keep that order through the
   * view model's own sort: the rows show the store's sequence.
   */
  lemma SortRestaurantsKeepsStoreOrder(rs: seq<Restaurant>)
    requires SortedBy(rs, RestaurantDate)
    ensures SortRestaurants(rs) == rs
  {
    SortByAscending(rs, RestaurantDate);
  }

  /** The same for the dishes of a restaurant that are already in date order. */
  lemma SortDishesKeepsOrder(ds: seq<Dish>)
    requires SortedBy(ds, DishDate)
    ensures SortDishes(ds) == ds
  {
    SortByAscending(ds, DishDate);
  }
}
