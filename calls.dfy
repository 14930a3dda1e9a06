/**
 * The calls the view models make outward: to the review-list repository and to the navigation
 * actions their coordinators supply. The models record them in ghost logs, in call order.
 */
module Calls {
  import opened Wrappers
  import opened Entities

  /** A file URL, as its sequence of path components. */
  datatype Url = Url(components: seq<string>)

  datatype Call =
    // repository
    | SaveRestaurant(restaurantId: string, name: string)
    | DeleteRestaurant(restaurantId: string)
    | DeleteDish(restaurantId: string, dishId: string)
    | SaveDish(restaurantId: string, dish: Dish)
    | CreateFile(contents: string, url: Url)
    | RemoveFile(url: Url)
    // navigation
    | ShowStudioView(restaurantId: string, restaurantName: string)
    | ShowRestaurantDishListView(restaurantId: string, restaurantName: string)
    | ShowDishDetail(restaurantId: string, dish: Dish)
    | ShowDishDetailOf(restaurantId: string, dishId: string, tastes: seq<string>, dishName: string)
    | ShowStudio(restaurantId: string, restaurantName: string)
    | ShowTastes(restaurantId: string, restaurantName: string, dishName: string, thumbnailImageData: Option<Bytes>)
}
