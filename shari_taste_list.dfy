/**
 * `DefaultTasteListViewModel` of the Shari app: the taste list for a dish being recorded,
 * saved together with the dish's thumbnail.
 */
module ShariTasteList {
  import opened Wrappers
  import opened Entities
  import opened Calls
  import opened TasteSelection

  class DefaultTasteListViewModel {
    const restaurantId: string
    const restaurantName: string
    const dishName: string
    const thumbnailImageData: Option<Bytes>
    const tasteCategories: seq<TasteCategory>
    /** Current value of `dishNameSubject`. */
    var dishNameValue: string
    /** Current value of `tasteCategoriesSubject`. */
    var publishedCategories: seq<TasteCategory>
    var selectedTastes: seq<string>
    /** Calls made to the repository, oldest first. */
    ghost var calls: seq<Call>

    constructor (restaurantId: string, restaurantName: string, dishName: string,
                 thumbnailImageData: Option<Bytes>, tasteCategories: seq<TasteCategory>)
      ensures this.restaurantId == restaurantId && this.restaurantName == restaurantName
      ensures this.dishName == dishName && this.thumbnailImageData == thumbnailImageData
      ensures this.tasteCategories == tasteCategories
      ensures selectedTastes == [] && dishNameValue == dishName && publishedCategories == [] && calls == []
    {
      this.restaurantId := restaurantId;
      this.restaurantName := restaurantName;
      this.dishName := dishName;
      this.thumbnailImageData := thumbnailImageData;
      this.tasteCategories := tasteCategories;
      dishNameValue := dishName;
      publishedCategories := [];
      selectedTastes := [];
      calls := [];
    }

    /** `loadTitle`: publishes the dish name. */
    method LoadTitle()
      modifies this`dishNameValue
      ensures dishNameValue == dishName
    {
      dishNameValue := dishName;
    }

    /** `loadTasteCategories`: publishes the taxonomy. */
    method LoadTasteCategories()
      modifies this`publishedCategories
      ensures publishedCategories == tasteCategories
    {
      publishedCategories := tasteCategories;
    }

    /** `didSelectTaste(at:at:)`: the chosen taste goes at the end. */
    method DidSelectTaste(categoryIndex: int, index: int)
      requires ValidChoice(tasteCategories, categoryIndex, index)
      modifies this`selectedTastes
      ensures selectedTastes == old(selectedTastes) + [TasteAt(tasteCategories, categoryIndex, index)]
    {
      selectedTastes := selectedTastes + [tasteCategories[categoryIndex].tastes[index]];
    }

    /** `didDeselectTaste(at:at:)`: the first equal entry goes; nothing changes when there is none. */
    method DidDeselectTaste(categoryIndex: int, index: int)
      requires ValidChoice(tasteCategories, categoryIndex, index)
      modifies this`selectedTastes
      ensures selectedTastes == RemoveFirst(old(selectedTastes), TasteAt(tasteCategories, categoryIndex, index))
    {
      selectedTastes := RemoveFirst(selectedTastes, tasteCategories[categoryIndex].tastes[index]);
    }

    /**
     * `didSaveDish`: with a non-empty selection, exactly one save of a dish with a fresh id
     * (`newId`), the dish name, the current date (`now`), the selection in order and the
     * thumbnail. The selection is kept, so saving again saves the same tastes again.
     */
    method DidSaveDish(newId: string, now: Date)
      modifies this`calls
      ensures old(selectedTastes) == [] ==> calls == old(calls)
      ensures old(selectedTastes) != [] ==>
        calls == old(calls) + [SaveDish(restaurantId, Dish(newId, dishName, now, selectedTastes, thumbnailImageData))]
    {
      if selectedTastes != [] {
        calls := calls + [SaveDish(restaurantId, Dish(newId, dishName, now, selectedTastes, thumbnailImageData))];
      }
    }
  }
}
