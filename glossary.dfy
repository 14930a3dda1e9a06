/**
 * `DefaultGlossaryViewModel` of the Reviewer app: a fixed list of glossary entries and the
 * rows shown for the current search keyword.
 */
module Glossary {
  import opened Seqs

  datatype GlossaryListItem = GlossaryListItem(content: string)

  /**
   * `text.contains(keyword)` for a non-empty keyword: the keyword occurs in the text as a
   * contiguous run of characters. A prefix of the text is contained in it, and nothing longer
   * than the text is. The empty keyword never reaches this test in `didSearch`.
   */
  predicate Contains(text: string, keyword: string): (b: bool)
    ensures |keyword| <= |text| && text[..|keyword|] == keyword ==> b
    ensures b ==> |keyword| <= |text|
  {
    assert |keyword| <= |text| && text[..|keyword|] == keyword ==> OccursAt(text, keyword, 0);
    exists i :: 0 <= i <= |text| && OccursAt(text, keyword, i)
  }

  predicate OccursAt(text: string, keyword: string, i: int) {
    0 <= i <= |text| - |keyword| && text[i..i + |keyword|] == keyword
  }

  function ContentContains(keyword: string): GlossaryListItem -> bool {
    (item: GlossaryListItem) => Contains(item.content, keyword)
  }

  /** `glossaryContents.map { .init(content: $0) }`. */
  function Items(contents: seq<string>): (r: seq<GlossaryListItem>)
    ensures |r| == |contents| && forall j :: 0 <= j < |contents| ==> r[j].content == contents[j]
  {
    seq(|contents|, j requires 0 <= j < |contents| => GlossaryListItem(contents[j]))
  }

  /**
   * The rows `didSearch(keyword:)` computes, always from the full contents: every entry for the
   * empty keyword, otherwise only entries that contain the keyword.
   */
  function Search(contents: seq<string>, keyword: string): (r: seq<GlossaryListItem>)
    ensures |r| <= |contents|
    ensures keyword == [] ==> |r| == |contents|
    ensures forall j :: 0 <= j < |r| ==> r[j] in Items(contents)
    ensures keyword != [] ==> forall j :: 0 <= j < |r| ==> Contains(r[j].content, keyword)
  {
    if keyword == [] then Items(contents)
    else Filter(Items(contents), ContentContains(keyword))
  }

  /**
   * The model's `Contains` holds for the empty keyword in every text. Foundation's `contains`
   * finds no empty range, so this is a fact about the model only; `didSearch` tests the empty
   * keyword before it filters, so the two never disagree on a search.
   */
  lemma EmptyKeywordMatchesAll(text: string)
    ensures Contains(text, [])
  {
    assert OccursAt(text, [], 0);
  }

  /**
   * In the model, `Search` is the filter by the model's `Contains` for every keyword: filtering
   * by the empty keyword would keep every entry, in order, as the guard does. In the source the
   * guard is needed, since there the filter by "" would keep nothing.
   */
  lemma {:induction false} SearchIsFilter(contents: seq<string>, keyword: string)
    ensures Search(contents, keyword) == Filter(Items(contents), ContentContains(keyword))
  {
    if keyword == [] {
      var items := Items(contents);
      forall j | 0 <= j < |items| ensures ContentContains(keyword)(items[j]) {
        EmptyKeywordMatchesAll(items[j].content);
      }
      FilterAll(items, ContentContains(keyword));
    }
  }

  /**
   * A search yields exactly the entries that contain the keyword, in their original order: its
   * result is a subsequence of the full list.
   */
  lemma {:induction false} SearchMeaning(contents: seq<string>, keyword: string)
    ensures forall j :: 0 <= j < |Search(contents, keyword)| ==>
      Search(contents, keyword)[j].content in contents && Contains(Search(contents, keyword)[j].content, keyword)
    ensures forall j :: 0 <= j < |contents| && Contains(contents[j], keyword) ==>
      GlossaryListItem(contents[j]) in Search(contents, keyword)
    ensures IsSubsequence(Search(contents, keyword), Items(contents))
  {
    var items := Items(contents);
    var p := ContentContains(keyword);
    SearchIsFilter(contents, keyword);
    forall j | 0 <= j < |Search(contents, keyword)|
      ensures Search(contents, keyword)[j].content in contents
    {
      var item := Search(contents, keyword)[j];
      assert item in items;
      var i :| 0 <= i < |items| && items[i] == item;
      assert item.content == contents[i];
    }
    forall j | 0 <= j < |contents| && Contains(contents[j], keyword)
      ensures GlossaryListItem(contents[j]) in Search(contents, keyword)
    {
      assert items[j] == GlossaryListItem(contents[j]) && p(items[j]);
    }
    FilterIsSubsequence(items, p);
  }

  /** Searching the rows of a search again with the same keyword changes nothing. */
  lemma {:induction false} SearchIdempotent(contents: seq<string>, keyword: string)
    ensures
      var rows := Search(contents, keyword);
      Search(seq(|rows|, j requires 0 <= j < |rows| => rows[j].content), keyword) == rows
  {
    var rows := Search(contents, keyword);
    var texts := seq(|rows|, j requires 0 <= j < |rows| => rows[j].content);
    assert Items(texts) == rows;
    if keyword != [] {
      FilterIdempotent(Items(contents), ContentContains(keyword));
    }
  }

  class DefaultGlossaryViewModel {
    const glossaryContents: seq<string>
    var glossaryListItems: seq<GlossaryListItem>
    /** Current value of `glossaryListItemsSubject`. */
    var publishedItems: seq<GlossaryListItem>

    constructor (glossaryContents: seq<string>)
      ensures this.glossaryContents == glossaryContents && glossaryListItems == [] && publishedItems == []
    {
      this.glossaryContents := glossaryContents;
      glossaryListItems := [];
      publishedItems := [];
    }

    /** `loadGlossaryContents`: every entry, published; the same rows as a search for "". */
    method LoadGlossaryContents()
      modifies this`glossaryListItems, this`publishedItems
      ensures glossaryListItems == publishedItems == Items(glossaryContents)
      ensures glossaryListItems == Search(glossaryContents, [])
    {
      glossaryListItems := Items(glossaryContents);
      publishedItems := glossaryListItems;
    }

    /**
     * `didSearch(keyword:)`: the rows depend only on the full contents and the keyword, never
     * on the previous rows, so searches do not compound and repeating one is idempotent.
     */
    method DidSearch(keyword: string)
      modifies this`glossaryListItems, this`publishedItems
      ensures glossaryListItems == publishedItems == Search(glossaryContents, keyword)
    {
      if keyword == [] {
        glossaryListItems := Items(glossaryContents);
        publishedItems := glossaryListItems;
        return;
      }
      glossaryListItems := Filter(Items(glossaryContents), ContentContains(keyword));
      publishedItems := glossaryListItems;
    }

    /** `cellForRow(at:)`. */
    function CellForRow(row: int): (item: GlossaryListItem)
      reads this
      requires 0 <= row < NumberOfRowsIn()
      ensures item == glossaryListItems[row]
    {
      glossaryListItems[row]
    }

    /** `numberOfRowsIn(section:)`. */
    function NumberOfRowsIn(): (n: nat)
      reads this
      ensures n == |glossaryListItems|
    {
      |glossaryListItems|
    }
  }
}
