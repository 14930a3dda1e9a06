/**
 * `DefaultTasteListViewModel` of the Reviewer app: the same selection list, without a
 * thumbnail; its title is the restaurant name.
 */
module ReviewerTasteList {
  import opened Wrappers
  import opened Entities
  import opened Calls
  import opened TasteSelection

  class DefaultTasteListViewModel {
    const restaurantId: string
    const restaurantName: string
    const dishName: string
    const tasteCategories: seq<TasteCategory>
    /** Current value of `restaurantNameSubject`. */
    var restaurantNameValue: string
    /** Current value of `tasteCategoriesSubject`. */
    var publishedCategories: seq<TasteCategory>
    var selectedTastes: seq<string>
    /** Calls made to the repository, oldest first. */
    ghost var calls: seq<Call>

    constructor (restaurantId: string, restaurantName: string, dishName: string, tasteCategories: seq<TasteCategory>)
      ensures this.restaurantId == restaurantId && this.restaurantName == restaurantName
      ensures this.dishName == dishName && this.tasteCategories == tasteCategories
      ensures selectedTastes == [] && restaurantNameValue == "" && publishedCategories == [] && calls == []
    {
      this.restaurantId := restaurantId;
      this.restaurantName := restaurantName;
      this.dishName := dishName;
      this.tasteCategories := tasteCategories;
      restaurantNameValue := "";
      publishedCategories := [];
      selectedTastes := [];
      calls := [];
    }

    /** `loadTitle`: publishes the restaurant name. */
    method LoadTitle()
      modifies this`restaurantNameValue
      ensures restaurantNameValue == restaurantName
    {
      restaurantNameValue := restaurantName;
    }

    /** `loadTasteCategories`: publishes the taxonomy. */
    method LoadTasteCategories()
      modifies this`publishedCategories
      ensures publishedCategories == tasteCategories
    {
      publishedCategories := tasteCategories;
    }

    /** `didSelectTaste(at:at:)`: the chosen taste goes at the end. */
    method DidSelectTaste(categoryIndex: int, index: int)
      requires ValidChoice(tasteCategories, categoryIndex, index)
      modifies this`selectedTastes
      ensures selectedTastes == old(selectedTastes) + [TasteAt(tasteCategories, categoryIndex, index)]
    {
      selectedTastes := selectedTastes + [tasteCategories[categoryIndex].tastes[index]];
    }

    /** `didDeselectTaste(at:at:)`: the first equal entry goes; nothing changes when there is none. */
    method DidDeselectTaste(categoryIndex: int, index: int)
      requires ValidChoice(tasteCategories, categoryIndex, index)
      modifies this`selectedTastes
      ensures selectedTastes == RemoveFirst(old(selectedTastes), TasteAt(tasteCategories, categoryIndex, index))
    {
      selectedTastes := RemoveFirst(selectedTastes, tasteCategories[categoryIndex].tastes[index]);
    }

    /**
     * `didSaveDish`: with a non-empty selection, exactly one save of a dish with a fresh id
     * (`newId`), the dish name, the current date (`now`) and the selection in order.
     */
    method DidSaveDish(newId: string, now: Date)
      modifies this`calls
      ensures old(selectedTastes) == [] ==> calls == old(calls)
      ensures old(selectedTastes) != [] ==>
        calls == old(calls) + [SaveDish(restaurantId, Dish(newId, dishName, now, selectedTastes, None))]
    {
      if selectedTastes != [] {
        calls := calls + [SaveDish(restaurantId, Dish(newId, dishName, now, selectedTastes, None))];
      }
    }
  }
}
