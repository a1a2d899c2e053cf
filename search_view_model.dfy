/**
 * SearchViewModel: the search text, the injected entries and the case-insensitive search over an
 * entry's title, content, tags and emotion tags.
 */
module SearchViewModel {
  import opened Wrappers
  import opened Seqs
  import opened Text
  import opened Items

  /** `searchText.trimmingCharacters(in: .whitespaces)`. */
  function Query(searchText: string): string
  {
    Trim(searchText, IsSpace)
  }

  /** `field?.lowercased().contains(lower) == true`. */
  predicate FieldMatches(field: Option<string>, lower: string)
  {
    field.Some? && Contains(Lower(field.value), lower)
  }

  /** `fields.contains(where: { $0.lowercased().contains(lower) })`. */
  predicate AnyMatches(fields: seq<string>, lower: string)
  {
    exists k :: 0 <= k < |fields| && Contains(Lower(fields[k]), lower)
  }

  /** The filter of `filteredItems`: the lower-cased query occurs in the title, content, a tag or an emotion tag. */
  predicate Matches(item: Item, lower: string)
  {
    FieldMatches(item.title, lower) || FieldMatches(item.content, lower) ||
    AnyMatches(item.tags, lower) || AnyMatches(item.emotionTags, lower)
  }

  /** `filteredItems`: nothing for a blank query, else the matching entries in their order. */
  function SearchResults(items: seq<Item>, searchText: string): seq<Item>
  {
    var query := Query(searchText);
    if query == [] then [] else Filter(items, (item: Item) => Matches(item, Lower(query)))
  }

  /** `isSearchEmpty`. */
  predicate IsSearchEmpty(searchText: string)
  {
    Query(searchText) == []
  }

  /** The search is empty exactly when the text holds only spaces and tabs, and then nothing is found. */
  lemma SearchEmptyIff(items: seq<Item>, searchText: string)
    ensures IsSearchEmpty(searchText) <==> forall c :: c in searchText ==> IsSpace(c)
    ensures IsSearchEmpty(searchText) ==> SearchResults(items, searchText) == []
  {
    TrimChars(searchText, IsSpace);
  }

  /**
   * An entry is found exactly when the query is not blank, the entry is in the list and the
   * lower-cased query occurs in one of its lower-cased fields; the results keep the list's order.
   */
  lemma SearchResultsFacts(items: seq<Item>, searchText: string)
    ensures forall item :: item in SearchResults(items, searchText) <==>
      !IsSearchEmpty(searchText) && item in items && Matches(item, Lower(Query(searchText)))
    ensures IsSubsequence(SearchResults(items, searchText), items)
  {
    var query := Query(searchText);
    if query != [] {
      FilterIsSubsequence(items, (item: Item) => Matches(item, Lower(query)));
    } else {
      assert IsSubsequence([], items);
    }
  }

  /** Lower-casing a slice is slicing the lower-cased text. */
  lemma LowerSlice(s: string, i: int, j: int)
    requires 0 <= i <= j <= |s|
    ensures Lower(s)[i..j] == Lower(s[i..j])
  {
    forall k | 0 <= k < j - i ensures Lower(s)[i..j][k] == Lower(s[i..j])[k] {
      LowerAt(s, i + k);
      LowerAt(s[i..j], k);
    }
  }

  /** An occurrence survives lower-casing both texts. */
  lemma LowerKeepsOccurrence(s: string, t: string)
    requires Contains(s, t)
    ensures Contains(Lower(s), Lower(t))
  {
    ContainsIffOccurs(s, t);
    var i :| OccursAt(s, t, i);
    var n := |t|;
    assert s[i..i + n] == t;
    LowerSlice(s, i, i + n);
    var ls, lt := Lower(s), Lower(t);
    assert |lt| == n && ls[i..i + n] == lt;
    assert OccursAt(ls, lt, i);
    ContainsIffOccurs(ls, lt);
  }

  /** An entry whose title holds the trimmed query verbatim is found, whatever the case of the letters. */
  lemma TitleHitIsFound(items: seq<Item>, searchText: string, item: Item)
    requires item in items && !IsSearchEmpty(searchText)
    requires item.title.Some? && Contains(item.title.value, Query(searchText))
    ensures item in SearchResults(items, searchText)
  {
    LowerKeepsOccurrence(item.title.value, Query(searchText));
    SearchResultsFacts(items, searchText);
  }

  class SearchViewModel {
    var searchText: string
    /** The entries injected by the view's query. */
    var allItems: seq<Item>

    constructor()
      ensures searchText == [] && allItems == []
    {
      searchText := [];
      allItems := [];
    }

    /** `updateItems(_:)`. */
    method UpdateItems(items: seq<Item>)
      modifies this
      ensures allItems == items && searchText == old(searchText)
    {
      allItems := items;
    }

    /** `clearSearch()`: afterwards the search is empty and nothing is listed. */
    method ClearSearch()
      modifies this
      ensures searchText == [] && allItems == old(allItems)
      ensures IsSearchEmpty(searchText) && FilteredItems() == []
    {
      searchText := [];
    }

    /** `filteredItems`. */
    function FilteredItems(): seq<Item>
      reads this
    {
      SearchResults(allItems, searchText)
    }
  }
}
