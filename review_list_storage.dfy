/**
 * The restaurant/dish/taste store of the Reviewer app (`DefaultReviewListStorage`).
 *
 * The persistence context is modelled as the sequence of restaurant records in the order the
 * store's fetch descriptor returns them (ascending by date). Lookups are the store's
 * `filter { $0.id == id }.first`; mutations change the record that lookup finds, in place.
 */
module ReviewListStorage {
  import opened Wrappers
  import opened Entities
  import opened Seqs
  import opened DateOrder

  /**
   * What a completion handler receives: it is never called (`Silent`), or it is called with an
   * optional value. The error argument is nil on every modelled path.
   */
  datatype Reply<T> = Silent | Delivered(value: Option<T>)

  function RestaurantHasId(id: string): Restaurant -> bool {
    (r: Restaurant) => r.id == id
  }

  function DishHasId(dishId: string): Dish -> bool {
    (d: Dish) => d.id == dishId
  }

  /** Position of the record `fetchRestaurant(with:)` finds. */
  function Lookup(rs: seq<Restaurant>, id: string): Option<nat> {
    FirstIndex(rs, RestaurantHasId(id))
  }

  function DishIndex(ds: seq<Dish>, dishId: string): Option<nat> {
    FirstIndex(ds, DishHasId(dishId))
  }

  /** `fetchRestaurant(with:)`: the first record in date order whose id matches, or nil. */
  function FetchRestaurant(rs: seq<Restaurant>, id: string): (r: Option<Restaurant>)
    ensures r.None? <==> forall j :: 0 <= j < |rs| ==> rs[j].id != id
    ensures r.Some? ==> Lookup(rs, id).Some? && r.value == rs[Lookup(rs, id).value] && r.value.id == id
  {
    FilterFirstIsFirstIndex(rs, RestaurantHasId(id));
    var matching := Filter(rs, RestaurantHasId(id));
    if matching == [] then None else Some(matching[0])
  }

  /** The payload of `fetchDishes(with:)`: every dish of the restaurant, in stored order. */
  function DishesOf(rs: seq<Restaurant>, id: string): (r: Option<seq<Dish>>)
    ensures r.None? <==> forall j :: 0 <= j < |rs| ==> rs[j].id != id
    ensures r.Some? ==> r.value == rs[Lookup(rs, id).value].dishes
  {
    match FetchRestaurant(rs, id)
    case None => None
    case Some(restaurant) => Some(restaurant.dishes)
  }

  /** The payload of `fetchTastes`: the tastes of the first dish with that id, if both exist. */
  function TastesOf(rs: seq<Restaurant>, restaurantId: string, dishId: string): (r: Option<seq<string>>)
    ensures r.Some? <==> Lookup(rs, restaurantId).Some? && DishIndex(rs[Lookup(rs, restaurantId).value].dishes, dishId).Some?
    ensures r.Some? ==>
      var ds := rs[Lookup(rs, restaurantId).value].dishes;
      r.value == ds[DishIndex(ds, dishId).value].tastes
  {
    match FetchRestaurant(rs, restaurantId)
    case None => None
    case Some(restaurant) =>
      FilterFirstIsFirstIndex(restaurant.dishes, DishHasId(dishId));
      var matching := Filter(restaurant.dishes, DishHasId(dishId));
      if matching == [] then None else Some(matching[0].tastes)
  }

  /** The store after `delete(with:)`. */
  function RestaurantDeleted(rs: seq<Restaurant>, id: string): (r: seq<Restaurant>)
    ensures Lookup(rs, id).None? ==> r == rs
    ensures Lookup(rs, id).Some? ==>
      var k := Lookup(rs, id).value;
      |r| == |rs| - 1 && r == rs[..k] + rs[k + 1..] && multiset(r) == multiset(rs) - multiset{rs[k]}
  {
    match Lookup(rs, id)
    case None => rs
    case Some(k) => RemoveAt(rs, k)
  }

  /** The store after `deleteDish(dishId:restaurantId:)`: only the first matching dish goes. */
  function DishDeleted(rs: seq<Restaurant>, restaurantId: string, dishId: string): (r: seq<Restaurant>)
    ensures |r| == |rs|
    ensures forall j :: 0 <= j < |rs| ==> r[j].id == rs[j].id && r[j].name == rs[j].name && r[j].date == rs[j].date
    ensures TastesOf(rs, restaurantId, dishId).None? ==> r == rs
    ensures TastesOf(rs, restaurantId, dishId).Some? ==>
      var k := Lookup(rs, restaurantId).value;
      var ds := rs[k].dishes;
      var i := DishIndex(ds, dishId).value;
      (forall j :: 0 <= j < |rs| && j != k ==> r[j] == rs[j]) &&
      r[k].dishes == ds[..i] + ds[i + 1..] && ds[i].id == dishId &&
      (forall j :: 0 <= j < i ==> ds[j].id != dishId)
  {
    match Lookup(rs, restaurantId)
    case None => rs
    case Some(k) =>
      match DishIndex(rs[k].dishes, dishId)
      case None => rs
      case Some(i) => rs[k := rs[k].(dishes := RemoveAt(rs[k].dishes, i))]
  }

  /** The record `save(dish:id:)` stores: the entity takes the dish's id, name and tastes, and its own creation date. */
  function DishEntity(dish: Dish, now: Date): (d: Dish)
    ensures d.id == dish.id && d.name == dish.name && d.tastes == dish.tastes
    ensures d.date == now && d.thumbnailImageData == None
  {
    Dish(dish.id, dish.name, now, dish.tastes, None)
  }

  /** The store after `save(dish:id:)`. */
  function DishAppended(rs: seq<Restaurant>, dish: Dish, id: string, now: Date): (r: seq<Restaurant>)
    ensures |r| == |rs|
    ensures forall j :: 0 <= j < |rs| ==> r[j].id == rs[j].id && r[j].name == rs[j].name && r[j].date == rs[j].date
    ensures Lookup(rs, id).None? ==> r == rs
    ensures Lookup(rs, id).Some? ==>
      var k := Lookup(rs, id).value;
      (forall j :: 0 <= j < |rs| && j != k ==> r[j] == rs[j]) &&
      |r[k].dishes| == |rs[k].dishes| + 1 &&
      r[k].dishes[..|rs[k].dishes|] == rs[k].dishes &&
      var added := r[k].dishes[|rs[k].dishes|];
      added.id == dish.id && added.name == dish.name && added.tastes == dish.tastes &&
      added.date == now && added.thumbnailImageData == None
  {
    match Lookup(rs, id)
    case None => rs
    case Some(k) => rs[k := rs[k].(dishes := rs[k].dishes + [DishEntity(dish, now)])]
  }

  /**
   * One dish after `addTaste`: a matching dish gets the taste at the end of its tastes, keeping
   * its earlier tastes; any other dish is unchanged. Id, name and date never change.
   */
  function WithTaste(d: Dish, dishId: string, taste: string): (r: Dish)
    ensures r.id == d.id && r.name == d.name && r.date == d.date && r.thumbnailImageData == d.thumbnailImageData
    ensures |r.tastes| == |d.tastes| + (if d.id == dishId then 1 else 0)
    ensures r.tastes[..|d.tastes|] == d.tastes
    ensures d.id == dishId ==> r.tastes[|d.tastes|] == taste
  {
    if d.id == dishId then d.(tastes := d.tastes + [taste]) else d
  }

  function TasteAddedToDishes(ds: seq<Dish>, dishId: string, taste: string): (r: seq<Dish>)
    ensures |r| == |ds|
    ensures forall j :: 0 <= j < |ds| ==> r[j].id == ds[j].id
    ensures forall j :: 0 <= j < |ds| && ds[j].id != dishId ==> r[j] == ds[j]
    ensures forall j :: 0 <= j < |ds| && ds[j].id == dishId ==>
      r[j].tastes == ds[j].tastes + [taste] && r[j].name == ds[j].name && r[j].date == ds[j].date
  {
    seq(|ds|, j requires 0 <= j < |ds| => WithTaste(ds[j], dishId, taste))
  }

  /** The store after `addTaste(restaurantId:dishId:taste:)`. */
  function TasteAdded(rs: seq<Restaurant>, restaurantId: string, dishId: string, taste: string): (r: seq<Restaurant>)
    ensures |r| == |rs|
    ensures forall j :: 0 <= j < |rs| ==> r[j].id == rs[j].id && r[j].name == rs[j].name && r[j].date == rs[j].date
    ensures Lookup(rs, restaurantId).None? ==> r == rs
    ensures Lookup(rs, restaurantId).Some? ==>
      var k := Lookup(rs, restaurantId).value;
      (forall j :: 0 <= j < |rs| && j != k ==> r[j] == rs[j]) &&
      r[k].dishes == TasteAddedToDishes(rs[k].dishes, dishId, taste)
  {
    match Lookup(rs, restaurantId)
    case None => rs
    case Some(k) => rs[k := rs[k].(dishes := TasteAddedToDishes(rs[k].dishes, dishId, taste))]
  }

  /** A change that keeps every record's id and date keeps lookups and the date order. */
  lemma SameKeys(rs: seq<Restaurant>, r: seq<Restaurant>, id: string)
    requires |r| == |rs|
    requires forall j :: 0 <= j < |rs| ==> r[j].id == rs[j].id && r[j].date == rs[j].date
    ensures Lookup(r, id) == Lookup(rs, id)
    ensures SortedBy(rs, RestaurantDate) ==> SortedBy(r, RestaurantDate)
  {
    FirstIndexAgreeing(rs, r, RestaurantHasId(id));
  }

  /**
   * Round trip: after `addTaste(r, d, t)` on an existing dish, `fetchTastes(r, d)` delivers the
   * old tastes followed by `t`.
   */
  lemma {:induction false} AddTasteThenFetchTastes(rs: seq<Restaurant>, restaurantId: string, dishId: string, taste: string)
    requires TastesOf(rs, restaurantId, dishId).Some?
    ensures TastesOf(TasteAdded(rs, restaurantId, dishId, taste), restaurantId, dishId)
         == Some(TastesOf(rs, restaurantId, dishId).value + [taste])
  {
    var r := TasteAdded(rs, restaurantId, dishId, taste);
    SameKeys(rs, r, restaurantId);
    var k := Lookup(rs, restaurantId).value;
    FirstIndexAgreeing(rs[k].dishes, r[k].dishes, DishHasId(dishId));
  }

  /**
   * Deleting a dish and fetching the dishes again gives the old list without exactly one copy of
   * the deleted dish.
   */
  lemma {:induction false} DeleteDishThenFetchDishes(rs: seq<Restaurant>, restaurantId: string, dishId: string)
    requires TastesOf(rs, restaurantId, dishId).Some?
    ensures
      var before := DishesOf(rs, restaurantId).value;
      var after := DishesOf(DishDeleted(rs, restaurantId, dishId), restaurantId);
      after.Some? && |after.value| == |before| - 1 &&
      multiset(after.value) == multiset(before) - multiset{before[DishIndex(before, dishId).value]}
  {
    var r := DishDeleted(rs, restaurantId, dishId);
    SameKeys(rs, r, restaurantId);
    var k := Lookup(rs, restaurantId).value;
    var ds := rs[k].dishes;
    var i := DishIndex(ds, dishId).value;
    assert r[k].dishes == RemoveAt(ds, i);
  }

  /** The ids of a restaurant's dishes, in order. */
  function DishIds(ds: seq<Dish>): (ids: seq<string>)
    ensures |ids| == |ds| && forall i :: 0 <= i < |ds| ==> ids[i] == ds[i].id
  {
    seq(|ds|, i requires 0 <= i < |ds| => ds[i].id)
  }

  /** The ids of every dish in the store, restaurant by restaurant. */
  function StoredDishIds(rs: seq<Restaurant>): seq<string> {
    if rs == [] then [] else DishIds(rs[0].dishes) + StoredDishIds(rs[1..])
  }

  /** `DishEntity.id` is `@Attribute(.unique)`: no two dishes in the store share an id. */
  ghost predicate DishIdsUnique(rs: seq<Restaurant>) {
    forall id :: multiset(StoredDishIds(rs))[id] <= 1
  }

  /** The ids of a concatenation of stores are those of each part. */
  lemma {:induction false} StoredDishIdsConcat(a: seq<Restaurant>, b: seq<Restaurant>)
    ensures StoredDishIds(a + b) == StoredDishIds(a) + StoredDishIds(b)
  {
    if a == [] {
      assert a + b == b;
    } else {
      assert (a + b)[1..] == a[1..] + b;
      StoredDishIdsConcat(a[1..], b);
      AppendAssoc(DishIds(a[0].dishes), StoredDishIds(a[1..]), StoredDishIds(b));
    }
  }

  /** Replacing one restaurant trades its dish ids for those of the replacement. */
  lemma StoredDishIdsUpdate(rs: seq<Restaurant>, k: nat, y: Restaurant)
    requires k < |rs|
    ensures multiset(StoredDishIds(rs[k := y])) + multiset(DishIds(rs[k].dishes))
         == multiset(StoredDishIds(rs)) + multiset(DishIds(y.dishes))
  {
    assert rs == rs[..k] + ([rs[k]] + rs[k + 1..]);
    assert rs[k := y] == rs[..k] + ([y] + rs[k + 1..]);
    StoredDishIdsConcat(rs[..k], [rs[k]] + rs[k + 1..]);
    StoredDishIdsConcat(rs[..k], [y] + rs[k + 1..]);
    assert ([rs[k]] + rs[k + 1..])[1..] == rs[k + 1..];
    assert ([y] + rs[k + 1..])[1..] == rs[k + 1..];
  }

  /** Removing one restaurant drops exactly its dish ids. */
  lemma StoredDishIdsRemove(rs: seq<Restaurant>, k: nat)
    requires k < |rs|
    ensures multiset(StoredDishIds(rs[..k] + rs[k + 1..])) + multiset(DishIds(rs[k].dishes))
         == multiset(StoredDishIds(rs))
  {
    var front, back := rs[..k], rs[k + 1..];
    var mid := [rs[k]] + back;
    assert rs == front + mid;
    assert mid[1..] == back;
    StoredDishIdsConcat(front, mid);
    StoredDishIdsConcat(front, back);
  }

  /** Inserting a restaurant adds exactly its dish ids, wherever it lands. */
  lemma {:induction false} StoredDishIdsInsert(x: Restaurant, rs: seq<Restaurant>)
    ensures multiset(StoredDishIds(InsertBy(x, rs, RestaurantDate)))
         == multiset(StoredDishIds(rs)) + multiset(DishIds(x.dishes))
  {
    var r := InsertBy(x, rs, RestaurantDate);
    if rs == [] || RestaurantDate(x) < RestaurantDate(rs[0]) {
      assert r[1..] == rs;
    } else {
      assert r[0] == rs[0] && r[1..] == InsertBy(x, rs[1..], RestaurantDate);
      StoredDishIdsInsert(x, rs[1..]);
    }
  }

  /** The dishes of any restaurant hold each id at most as often as the whole store. */
  lemma DishIdsWithinStore(rs: seq<Restaurant>, k: nat)
    requires k < |rs|
    ensures multiset(DishIds(rs[k].dishes)) <= multiset(StoredDishIds(rs))
  {
    StoredDishIdsRemove(rs, k);
  }

  /** Removing one dish drops exactly its id. */
  lemma DishIdsRemoveAt(ds: seq<Dish>, i: nat)
    requires i < |ds|
    ensures multiset(DishIds(RemoveAt(ds, i))) == multiset(DishIds(ds)) - multiset{ds[i].id}
  {
    var ids := DishIds(ds);
    assert DishIds(RemoveAt(ds, i)) == ids[..i] + ids[i + 1..];
    assert ids == ids[..i] + [ids[i]] + ids[i + 1..];
  }

  /** Appending one dish adds exactly its id. */
  lemma DishIdsAppend(ds: seq<Dish>, d: Dish)
    ensures DishIds(ds + [d]) == DishIds(ds) + [d.id]
  {
  }

  /** Inserting a restaurant without dishes keeps dish ids unique. */
  lemma UniqueAfterInsert(x: Restaurant, rs: seq<Restaurant>)
    requires DishIdsUnique(rs) && x.dishes == []
    ensures DishIdsUnique(InsertBy(x, rs, RestaurantDate))
  {
    StoredDishIdsInsert(x, rs);
    assert DishIds(x.dishes) == [];
  }

  /** Removing a restaurant keeps dish ids unique. */
  lemma UniqueAfterRemove(rs: seq<Restaurant>, k: nat)
    requires DishIdsUnique(rs) && k < |rs|
    ensures DishIdsUnique(RemoveAt(rs, k))
  {
    StoredDishIdsRemove(rs, k);
    var after := StoredDishIds(rs[..k] + rs[k + 1..]);
    forall id
      ensures multiset(after)[id] <= 1
    {
      assert multiset(after)[id] <= multiset(StoredDishIds(rs))[id];
    }
  }

  /** Replacing a restaurant by one holding some of its dish ids keeps dish ids unique. */
  lemma UniqueAfterShrink(rs: seq<Restaurant>, k: nat, y: Restaurant)
    requires DishIdsUnique(rs) && k < |rs|
    requires multiset(DishIds(y.dishes)) <= multiset(DishIds(rs[k].dishes))
    ensures DishIdsUnique(rs[k := y])
  {
    StoredDishIdsUpdate(rs, k, y);
    var after, m := multiset(StoredDishIds(rs[k := y])), multiset(StoredDishIds(rs));
    var a, b := multiset(DishIds(rs[k].dishes)), multiset(DishIds(y.dishes));
    assert after + a == m + b;
    forall id
      ensures after[id] <= 1
    {
      assert (after + a)[id] == (m + b)[id];
      assert b[id] <= a[id];
    }
  }

  /** Appending a dish whose id is not yet stored keeps dish ids unique. */
  lemma UniqueAfterAppend(rs: seq<Restaurant>, k: nat, d: Dish)
    requires DishIdsUnique(rs) && k < |rs| && d.id !in StoredDishIds(rs)
    ensures DishIdsUnique(rs[k := rs[k].(dishes := rs[k].dishes + [d])])
  {
    var y := rs[k].(dishes := rs[k].dishes + [d]);
    StoredDishIdsUpdate(rs, k, y);
    DishIdsAppend(rs[k].dishes, d);
    var after, m := multiset(StoredDishIds(rs[k := y])), multiset(StoredDishIds(rs));
    var a, b := multiset(DishIds(rs[k].dishes)), multiset(DishIds(y.dishes));
    assert b == a + multiset{d.id};
    assert after + a == m + b;
    assert m[d.id] == 0;
    forall id
      ensures after[id] <= 1
    {
      assert (after + a)[id] == (m + b)[id];
      assert b[id] == a[id] + (if id == d.id then 1 else 0);
    }
  }

  /** In a store with unique dish ids, a dish id occurs at one position of its restaurant at most. */
  lemma OnlyDishWithId(rs: seq<Restaurant>, k: nat, i: nat, j: nat)
    requires DishIdsUnique(rs) && k < |rs| && i < |rs[k].dishes| && j < |rs[k].dishes| && i != j
    ensures rs[k].dishes[i].id != rs[k].dishes[j].id
  {
    var ids := DishIds(rs[k].dishes);
    DishIdsWithinStore(rs, k);
    TwoCopies(ids, i, j);
  }

  /**
   * With unique dish ids, deleting a dish leaves no dish with that id in its restaurant, so
   * `fetchTastes` no longer finds it: removing the first match is removing every match.
   */
  lemma DeleteDishRemovesEveryMatch(rs: seq<Restaurant>, restaurantId: string, dishId: string)
    requires DishIdsUnique(rs)
    ensures TastesOf(DishDeleted(rs, restaurantId, dishId), restaurantId, dishId).None?
  {
    var r := DishDeleted(rs, restaurantId, dishId);
    SameKeys(rs, r, restaurantId);
    if TastesOf(rs, restaurantId, dishId).Some? {
      var k := Lookup(rs, restaurantId).value;
      var ds := rs[k].dishes;
      var i := DishIndex(ds, dishId).value;
      var rest := RemoveAt(ds, i);
      assert r[k].dishes == rest;
      forall j | 0 <= j < |rest|
        ensures rest[j].id != dishId
      {
        OnlyDishWithId(rs, k, i, if j < i then j else j + 1);
      }
    }
  }

  class DefaultReviewListStorage {
    /** Whether the model container and its context could be created. */
    const hasContext: bool
    /** The restaurant records, as the date-sorted fetch descriptor returns them. */
    var restaurants: seq<Restaurant>

    ghost predicate Valid()
      reads this
    {
      && SortedBy(restaurants, RestaurantDate)
      && DishIdsUnique(restaurants)
      && (!hasContext ==> restaurants == [])
    }

    constructor (containerCreated: bool)
      ensures Valid() && hasContext == containerCreated && restaurants == []
    {
      hasContext := containerCreated;
      restaurants := [];
    }

    /** `saveRestaurant(id:name:)`: a new record dated `now`, placed by date; nothing without a context. */
    method SaveRestaurant(id: string, name: string, now: Date)
      requires Valid()
      modifies this
      ensures Valid()
      ensures hasContext ==> restaurants == InsertBy(Restaurant(id, name, now, []), old(restaurants), RestaurantDate)
      ensures !hasContext ==> restaurants == old(restaurants)
    {
      if hasContext {
        InsertBySorted(Restaurant(id, name, now, []), restaurants, RestaurantDate);
        UniqueAfterInsert(Restaurant(id, name, now, []), restaurants);
        restaurants := InsertBy(Restaurant(id, name, now, []), restaurants, RestaurantDate);
      }
    }

    /** `fetchRestaurants`: every record, ascending by date; the completion never runs without a context. */
    function FetchRestaurants(): (reply: Reply<seq<Restaurant>>)
      reads this
      requires Valid()
      ensures reply.Delivered? <==> hasContext
      ensures reply.Delivered? ==>
        reply.value.Some? && SortedBy(reply.value.value, RestaurantDate) &&
        multiset(reply.value.value) == multiset(restaurants)
    {
      if hasContext then Delivered(Some(restaurants)) else Silent
    }

    /** `delete(with:)`: removes the record lookup finds; an unknown id changes nothing. */
    method Delete(id: string)
      requires Valid()
      modifies this
      ensures Valid()
      ensures restaurants == RestaurantDeleted(old(restaurants), id)
    {
      var found := Lookup(restaurants, id);
      if found.Some? {
        RemoveAtSorted(restaurants, found.value, RestaurantDate);
        UniqueAfterRemove(restaurants, found.value);
        restaurants := RemoveAt(restaurants, found.value);
      }
    }

    /**
     * `deleteDish(dishId:restaurantId:)`: ids being unique, the dish found is the only one with
     * that id, so afterwards `fetchTastes` finds none.
     */
    method DeleteDish(dishId: string, restaurantId: string)
      requires Valid()
      modifies this
      ensures Valid()
      ensures restaurants == DishDeleted(old(restaurants), restaurantId, dishId)
      ensures TastesOf(restaurants, restaurantId, dishId).None?
    {
      DeleteDishRemovesEveryMatch(restaurants, restaurantId, dishId);
      var found := Lookup(restaurants, restaurantId);
      if found.Some? {
        var k := found.value;
        var first := DishIndex(restaurants[k].dishes, dishId);
        if first.Some? {
          var updated := restaurants[k := restaurants[k].(dishes := RemoveAt(restaurants[k].dishes, first.value))];
          SameKeys(restaurants, updated, restaurantId);
          DishIdsRemoveAt(restaurants[k].dishes, first.value);
          UniqueAfterShrink(restaurants, k, updated[k]);
          restaurants := updated;
        }
      }
    }

    /** `save(dish:id:)`, with a dish id not yet in the store (callers pass a fresh UUID). */
    method SaveDish(dish: Dish, id: string, now: Date)
      requires Valid()
      requires dish.id !in StoredDishIds(restaurants)
      modifies this
      ensures Valid()
      ensures restaurants == DishAppended(old(restaurants), dish, id, now)
    {
      var found := Lookup(restaurants, id);
      if found.Some? {
        var k := found.value;
        var updated := restaurants[k := restaurants[k].(dishes := restaurants[k].dishes + [DishEntity(dish, now)])];
        SameKeys(restaurants, updated, id);
        UniqueAfterAppend(restaurants, k, DishEntity(dish, now));
        restaurants := updated;
      }
    }

    /** `addTaste(restaurantId:dishId:taste:)`: appends to every matching dish of the restaurant. */
    method AddTaste(restaurantId: string, dishId: string, taste: string)
      requires Valid()
      modifies this
      ensures Valid()
      ensures restaurants == TasteAdded(old(restaurants), restaurantId, dishId, taste)
    {
      var found := Lookup(restaurants, restaurantId);
      if found.Some? {
        var k := found.value;
        var dishes := restaurants[k].dishes;
        var i := 0;
        while i < |dishes|
          invariant 0 <= i <= |dishes| == |restaurants[k].dishes|
          invariant forall j :: 0 <= j < i ==> dishes[j] == WithTaste(restaurants[k].dishes[j], dishId, taste)
          invariant forall j :: i <= j < |dishes| ==> dishes[j] == restaurants[k].dishes[j]
        {
          if dishes[i].id == dishId {
            dishes := dishes[i := dishes[i].(tastes := dishes[i].tastes + [taste])];
          }
          i := i + 1;
        }
        assert dishes == TasteAddedToDishes(restaurants[k].dishes, dishId, taste);
        var updated := restaurants[k := restaurants[k].(dishes := dishes)];
        SameKeys(restaurants, updated, restaurantId);
        assert DishIds(dishes) == DishIds(restaurants[k].dishes);
        UniqueAfterShrink(restaurants, k, updated[k]);
        restaurants := updated;
      }
    }

    /** `fetchDishes(with:)`: always calls back; nil (and no error) for an unknown restaurant. */
    function FetchDishes(id: string): (reply: Reply<seq<Dish>>)
      reads this
      ensures reply.Delivered?
      ensures reply.value.None? <==> forall j :: 0 <= j < |restaurants| ==> restaurants[j].id != id
      ensures reply.value.Some? ==> reply.value.value == restaurants[Lookup(restaurants, id).value].dishes
    {
      Delivered(DishesOf(restaurants, id))
    }

    /** `fetchTastes(restaurantId:dishId:)`: always calls back; nil when the restaurant or the dish is missing. */
    function FetchTastes(restaurantId: string, dishId: string): (reply: Reply<seq<string>>)
      reads this
      ensures reply.Delivered?
      ensures reply.value == TastesOf(restaurants, restaurantId, dishId)
    {
      Delivered(TastesOf(restaurants, restaurantId, dishId))
    }
  }
}
