/**
 * The search bar and tag filter of a category page: every card is shown or
 * hidden by a case-insensitive substring match, and a "no results" message
 * is shown or hidden with it.
 */
module Category {
  import opened Strings
  import opened Store

  /** A language card: its whole text content and the texts of its tags. */
  datatype Card = Card(text: string, tags: seq<string>)

  /** The search rule: the lower-cased card text contains the lower-cased term. */
  predicate SearchMatch(card: Card, term: string) {
    Includes(ToLower(card.text), ToLower(term))
  }

  /** The tag rule: some trimmed tag of the card contains the filter text, both lower-cased. */
  predicate TagMatch(card: Card, tagText: string) {
    exists j :: 0 <= j < |card.tags| && Includes(ToLower(Trim(card.tags[j])), ToLower(tagText))
  }

  /** At least one card is not hidden. */
  predicate AnyVisible(hidden: seq<bool>) {
    exists i :: 0 <= i < |hidden| && !hidden[i]
  }

  /** The search ignores case on both sides, and the empty term matches every card. */
  lemma SearchIgnoresCase(card: Card, term: string)
    ensures SearchMatch(card, term) == SearchMatch(card, ToLower(term))
    ensures SearchMatch(card, term) == SearchMatch(card.(text := ToLower(card.text)), term)
    ensures SearchMatch(card, "")
  {
    ToLowerIdempotent(term);
    ToLowerIdempotent(card.text);
    assert ToLower("") == "";
    IncludesSelfAndEmpty(ToLower(card.text));
  }

  /** The tag filter ignores the case of the filter text. */
  lemma TagFilterIgnoresCase(card: Card, tagText: string)
    ensures TagMatch(card, tagText) == TagMatch(card, ToLower(tagText))
  {
    ToLowerIdempotent(tagText);
  }

  /** Filtering by one of a card's own tags, trimmed as the click handler does,
      keeps that card shown; a card without tags matches no filter. */
  lemma ClickedTagKeepsItsCard(card: Card, j: nat)
    requires j < |card.tags|
    ensures TagMatch(card, Trim(card.tags[j]))
    ensures forall t :: TagMatch(Card(card.text, []), t) == false
  {
    IncludesSelfAndEmpty(ToLower(Trim(card.tags[j])));
  }

  /** The message rule as written, `noResultsMessage.classList.toggle('hidden',
      !hasVisibleCards)`: the message is hidden when no card is shown. */
  predicate NoResultsHiddenAsWritten(hidden: seq<bool>) {
    !AnyVisible(hidden)
  }

  /** As written, the rule hides the message when the search matched nothing
      and shows it when a card matched. */
  lemma AsWrittenMessageIsInverted()
    ensures var card := Card("Rust", ["Rust"]);
      var none := [!SearchMatch(card, "python")];
      var all := [!SearchMatch(card, "")];
      && !AnyVisible(none) && NoResultsHiddenAsWritten(none)
      && AnyVisible(all) && !NoResultsHiddenAsWritten(all)
  {
    var card := Card("Rust", ["Rust"]);
    SearchIgnoresCase(card, "");
    assert |ToLower(card.text)| == 4 && |ToLower("python")| == 6;
    assert !SearchMatch(card, "python");
    assert ![!SearchMatch(card, "")][0];
  }

  /** A category page: the cards, their hidden flags (the `hidden-by-search`
      class), the search bar's value, the "no results" message's hidden flag
      and the active-filter badge. */
  class CategoryPage {
    const cards: seq<Card>
    const hidden: array<bool>
    const hasSearchBar: bool
    const hasFilterArea: bool
    var searchValue: string
    var noResultsHidden: bool
    var activeFilter: Option<string>

    ghost predicate Valid()
      reads this
    {
      hidden.Length == |cards|
    }

    /** The page as loaded: every card shown and the message hidden. */
    constructor (cards: seq<Card>, hasSearchBar: bool, hasFilterArea: bool)
      ensures Valid() && fresh(hidden)
      ensures this.cards == cards && this.hasSearchBar == hasSearchBar && this.hasFilterArea == hasFilterArea
      ensures forall i :: 0 <= i < hidden.Length ==> !hidden[i]
      ensures searchValue == "" && noResultsHidden && activeFilter == None
    {
      this.cards := cards;
      this.hasSearchBar := hasSearchBar;
      this.hasFilterArea := hasFilterArea;
      hidden := new bool[|cards|](i => false);
      searchValue := "";
      noResultsHidden := true;
      activeFilter := None;
    }

    /** The search bar's input handler, typed value `value`. */
    method Search(value: string)
      requires Valid() && hasSearchBar
      modifies this`searchValue, this`noResultsHidden, hidden
      ensures Valid()
      ensures forall i :: 0 <= i < |cards| ==> hidden[i] == !SearchMatch(cards[i], value)
      ensures noResultsHidden == AnyVisible(hidden[..])
      ensures searchValue == value
    {
      searchValue := value;
      var term := ToLower(value);
      var hasVisibleCards := false;
      var i := 0;
      while i < hidden.Length
        modifies hidden
        invariant 0 <= i <= hidden.Length
        invariant forall k :: 0 <= k < i ==> hidden[k] == !SearchMatch(cards[k], value)
        invariant hasVisibleCards <==> exists k :: 0 <= k < i && !hidden[k]
      {
        var isMatch := Includes(ToLower(cards[i].text), term);
        hidden[i] := !isMatch;
        if isMatch {
          hasVisibleCards := true;
        }
        i := i + 1;
      }
      noResultsHidden := hasVisibleCards;
      assert hasVisibleCards == AnyVisible(hidden[..]) by {
        if hasVisibleCards {
          var k :| 0 <= k < hidden.Length && !hidden[k];
          assert !hidden[..][k];
        }
      }
    }

    /** `applyTagFilter(tagText)`: the search bar is cleared and every card is
        judged by its tags alone, whatever an earlier filter left. */
    method ApplyTagFilter(tagText: string)
      requires Valid()
      modifies this`searchValue, this`noResultsHidden, this`activeFilter, hidden
      ensures Valid()
      ensures forall i :: 0 <= i < |cards| ==> hidden[i] == !TagMatch(cards[i], tagText)
      ensures noResultsHidden == AnyVisible(hidden[..])
      ensures searchValue == if hasSearchBar then "" else old(searchValue)
      ensures activeFilter == if hasFilterArea then Some(tagText) else old(activeFilter)
    {
      if hasSearchBar {
        searchValue := "";
      }
      var hasVisibleCards := false;
      var i := 0;
      while i < hidden.Length
        modifies hidden
        invariant 0 <= i <= hidden.Length
        invariant forall k :: 0 <= k < i ==> hidden[k] == !TagMatch(cards[k], tagText)
        invariant hasVisibleCards <==> exists k :: 0 <= k < i && !hidden[k]
      {
        var isMatch := TagMatch(cards[i], tagText);
        hidden[i] := !isMatch;
        if isMatch {
          hasVisibleCards := true;
        }
        i := i + 1;
      }
      noResultsHidden := hasVisibleCards;
      assert hasVisibleCards == AnyVisible(hidden[..]) by {
        if hasVisibleCards {
          var k :| 0 <= k < hidden.Length && !hidden[k];
          assert !hidden[..][k];
        }
      }
      if hasFilterArea {
        activeFilter := Some(tagText);
      }
    }

    /** A click on a tag: the filter text is the tag's trimmed text. */
    method ClickTag(rawTag: string)
      requires Valid()
      modifies this`searchValue, this`noResultsHidden, this`activeFilter, hidden
      ensures Valid()
      ensures forall i :: 0 <= i < |cards| ==> hidden[i] == !TagMatch(cards[i], Trim(rawTag))
      ensures noResultsHidden == AnyVisible(hidden[..])
      ensures searchValue == if hasSearchBar then "" else old(searchValue)
      ensures activeFilter == if hasFilterArea then Some(Trim(rawTag)) else old(activeFilter)
    {
      ApplyTagFilter(Trim(rawTag));
    }

    /** `clearTagFilter()`: every card is shown again and the message is hidden;
        the search bar keeps its value. */
    method ClearTagFilter()
      requires Valid()
      modifies this`noResultsHidden, this`activeFilter, hidden
      ensures Valid()
      ensures forall i :: 0 <= i < hidden.Length ==> !hidden[i]
      ensures noResultsHidden
      ensures activeFilter == if hasFilterArea then None else old(activeFilter)
    {
      for i := 0 to hidden.Length
        modifies hidden
        invariant forall k :: 0 <= k < i ==> !hidden[k]
      {
        hidden[i] := false;
      }
      noResultsHidden := true;
      if hasFilterArea {
        activeFilter := None;
      }
    }
  }

  /** Filtering by one tag and then by another shows exactly the cards of the
      second tag (`afterSecond` is the hidden flags at that point): a new filter
      replaces the old one, and clearing then shows all. */
  method FilterReplacesThenClearRestores(page: CategoryPage, first: string, second: string)
    returns (ghost afterSecond: seq<bool>)
    requires page.Valid()
    modifies page`searchValue, page`noResultsHidden, page`activeFilter, page.hidden
    ensures page.Valid()
    ensures |afterSecond| == |page.cards|
    ensures forall i :: 0 <= i < |page.cards| ==> afterSecond[i] == !TagMatch(page.cards[i], second)
    ensures forall i :: 0 <= i < page.hidden.Length ==> !page.hidden[i]
  {
    page.ApplyTagFilter(first);
    page.ApplyTagFilter(second);
    afterSecond := page.hidden[..];
    page.ClearTagFilter();
  }
}
