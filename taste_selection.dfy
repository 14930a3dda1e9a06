/**
 * The taste-selection list shared by both variants of `DefaultTasteListViewModel`: a list of
 * taste strings that a tap appends to and a second tap removes the first equal entry from.
 */
module TasteSelection {
  import opened Wrappers
  import opened Seqs

  /** One section of the taste taxonomy; the taxonomy itself is a parameter of the model. */
  datatype TasteCategory = TasteCategory(title: string, tastes: seq<string>)

  /** The indexes `tasteCategories[categoryIndex].tastes[index]` reads without trapping. */
  predicate ValidChoice(categories: seq<TasteCategory>, categoryIndex: int, index: int) {
    0 <= categoryIndex < |categories| && 0 <= index < |categories[categoryIndex].tastes|
  }

  function TasteAt(categories: seq<TasteCategory>, categoryIndex: int, index: int): string
    requires ValidChoice(categories, categoryIndex, index)
  {
    categories[categoryIndex].tastes[index]
  }

  function IsTaste(taste: string): string -> bool {
    (s: string) => s == taste
  }

  /** `selectedTastes` after `firstIndex(of:)` and `remove(at:)`; unchanged when the taste is absent. */
  function RemoveFirst(s: seq<string>, taste: string): (r: seq<string>)
    ensures taste !in s ==> r == s
    ensures taste in s ==> |r| == |s| - 1 && multiset(r) == multiset(s) - multiset{taste}
  {
    match FirstIndex(s, IsTaste(taste))
    case None => s
    case Some(k) => RemoveAt(s, k)
  }

  /**
   * When the taste is selected, deselecting removes its first occurrence and keeps the rest
   * of the list in order.
   */
  lemma RemoveFirstRemovesFirst(s: seq<string>, taste: string)
    requires taste in s
    ensures exists k ::
      && 0 <= k < |s| && s[k] == taste && taste !in s[..k]
      && RemoveFirst(s, taste) == s[..k] + s[k + 1..]
  {
    var k := FirstIndex(s, IsTaste(taste)).value;
    assert taste !in s[..k] by {
      forall j | 0 <= j < k ensures s[..k][j] != taste { assert !IsTaste(taste)(s[j]); }
    }
  }

  /** Where the first equal entry is known, deselecting removes exactly that index. */
  lemma RemoveFirstAt(s: seq<string>, taste: string, k: nat)
    requires FirstIndex(s, IsTaste(taste)) == Some(k)
    ensures k < |s| && RemoveFirst(s, taste) == s[..k] + s[k + 1..]
  {
    assert RemoveFirst(s, taste) == RemoveAt(s, k);
  }

  /** Where there is no equal entry, deselecting changes nothing. */
  lemma RemoveFirstNone(s: seq<string>, taste: string)
    requires FirstIndex(s, IsTaste(taste)) == None
    ensures RemoveFirst(s, taste) == s
  {
  }

  /**
   * Selecting a taste and then deselecting it gives the list back when the taste was not
   * already selected; otherwise the earlier copy is the one removed and the new copy stays
   * at the end.
   */
  lemma SelectThenDeselectOrder(s: seq<string>, taste: string)
    ensures taste !in s ==> RemoveFirst(s + [taste], taste) == s
    ensures taste in s ==> RemoveFirst(s + [taste], taste) == RemoveFirst(s, taste) + [taste]
  {
    var t := s + [taste];
    FirstIndexAppend(s, taste, IsTaste(taste));
    match FirstIndex(s, IsTaste(taste))
    case Some(k) =>
      RemoveFirstAt(t, taste, k);
      RemoveFirstAt(s, taste, k);
      assert t[..k] + t[k + 1..] == (s[..k] + s[k + 1..]) + [taste];
    case None =>
      RemoveFirstAt(t, taste, |s|);
      RemoveFirstNone(s, taste);
      assert t[..|s|] + t[|s| + 1..] == s;
  }

  /** Selecting a taste and then deselecting it restores the length and the multiset of the list. */
  lemma SelectThenDeselect(s: seq<string>, taste: string)
    ensures |RemoveFirst(s + [taste], taste)| == |s|
    ensures multiset(RemoveFirst(s + [taste], taste)) == multiset(s)
  {
    SelectThenDeselectOrder(s, taste);
    if taste in s {
      var r := RemoveFirst(s, taste);
      assert multiset(r) == multiset(s) - multiset{taste};
      assert multiset(r + [taste]) == multiset(r) + multiset{taste};
    }
  }
}
