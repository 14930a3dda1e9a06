/**
 * The scroll offset of the Shari taste list: every category header and every taste button
 * is 80 points high, so the offset of category `index` is 80 times the number of rows
 * above it.
 */
module TasteListScroll {
  import opened TasteSelection

  /** The height of one row (a category header or a taste button). */
  const RowHeight: int := 80

  /**
   * The number of taste buttons in the categories before `index`: none when those categories
   * are all empty, and at least the buttons of the category just before.
   */
  function TastesBefore(categories: seq<TasteCategory>, index: nat): (n: nat)
    requires index <= |categories|
    ensures (forall j :: 0 <= j < index ==> categories[j].tastes == []) ==> n == 0
    ensures forall j :: 0 <= j < index ==> n >= |categories[j].tastes|
  {
    if index == 0 then 0 else TastesBefore(categories, index - 1) + |categories[index - 1].tastes|
  }

  /**
   * The number of rows, headers and buttons, above the header of category `index`: one header
   * per earlier category, plus at least the buttons of each earlier category.
   */
  function RowsAbove(categories: seq<TasteCategory>, index: nat): (n: nat)
    requires index <= |categories|
    ensures n >= index
    ensures forall j :: 0 <= j < index ==> n >= index + |categories[j].tastes|
    ensures (forall j :: 0 <= j < index ==> categories[j].tastes == []) ==> n == index
  {
    index + TastesBefore(categories, index)
  }

  /**
   * `generateScrollPosition(at:)`: the taste counts of the earlier categories, each times 80,
   * accumulated in a loop, plus 80 per earlier header.
   */
  method GenerateScrollPosition(categories: seq<TasteCategory>, index: int) returns (position: int)
    requires 0 <= index <= |categories|
    ensures position == RowHeight * RowsAbove(categories, index)
    ensures index == 0 ==> position == 0
    ensures position >= 0 && position % RowHeight == 0
  {
    position := 0;
    for i := 0 to index
      invariant position == RowHeight * TastesBefore(categories, i)
    {
      position := position + |categories[i].tastes| * 80;
    }
    position := position + index * 80;
  }

  /** The next category starts below this one's header and its taste buttons. */
  lemma NextCategoryOffset(categories: seq<TasteCategory>, i: nat)
    requires i < |categories|
    ensures RowHeight * RowsAbove(categories, i + 1)
         == RowHeight * RowsAbove(categories, i) + RowHeight * (|categories[i].tastes| + 1)
  {
  }

  /** Later categories are strictly further down. */
  lemma {:induction false} OffsetsIncrease(categories: seq<TasteCategory>, i: nat, j: nat)
    requires i < j <= |categories|
    ensures RowHeight * RowsAbove(categories, i) < RowHeight * RowsAbove(categories, j)
  {
    NextCategoryOffset(categories, j - 1);
    if i < j - 1 {
      OffsetsIncrease(categories, i, j - 1);
    }
  }

  /**
   * The action of menu entry `i` in `addListBarButtonItem`: the content offset it scrolls
   * to, as `(x, y)`.
   */
  method MenuActionOffset(categories: seq<TasteCategory>, i: int) returns (x: int, y: int)
    requires 0 <= i < |categories|
    ensures x == i && y == RowHeight * RowsAbove(categories, i)
  {
    var position := GenerateScrollPosition(categories, i);
    x, y := i, position;
  }
}
