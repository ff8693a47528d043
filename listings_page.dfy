/** The listings page: the cards in the grid, the filter panel, the sort
    selector, the results counter and the "no results" placeholder, with the
    handlers that filter, sort and reset them. */
module ListingsPage {
  import opened Listings
  import opened Sorting

  /** A price or location checkbox: its value attribute and whether it is
      checked. */
  datatype Checkbox = Checkbox(value: string, checked: bool)

  /** The values of the checked boxes, in document order. */
  function CheckedValues(boxes: seq<Checkbox>): (values: seq<string>)
    ensures |values| <= |boxes|
    ensures values == [] <==> forall i :: 0 <= i < |boxes| ==> !boxes[i].checked
    ensures forall i :: 0 <= i < |boxes| && boxes[i].checked ==> boxes[i].value in values
    ensures forall v :: v in values ==> exists i :: 0 <= i < |boxes| && boxes[i].checked && boxes[i].value == v
  {
    if boxes == [] then []
    else (if boxes[0].checked then [boxes[0].value] else []) + CheckedValues(boxes[1..])
  }

  /** `boxes.forEach(cb => cb.checked = false)`. */
  method UncheckAll(boxes: seq<Checkbox>) returns (cleared: seq<Checkbox>)
    ensures |cleared| == |boxes|
    ensures forall i :: 0 <= i < |boxes| ==> cleared[i] == boxes[i].(checked := false)
  {
    cleared := boxes;
    var i := 0;
    while i < |cleared|
      invariant 0 <= i <= |cleared| == |boxes|
      invariant forall j :: 0 <= j < i ==> cleared[j] == boxes[j].(checked := false)
      invariant forall j :: i <= j < |cleared| ==> cleared[j] == boxes[j]
    {
      cleared := cleared[i := cleared[i].(checked := false)];
      i := i + 1;
    }
  }

  /** Every card displayed again, in the same order. */
  function ShowAll(cards: seq<Card>): (shown: seq<Card>)
    ensures |shown| == |cards|
  {
    seq(|cards|, i requires 0 <= i < |cards| => cards[i].(visible := true))
  }

  /** The loop of `resetFilters` that restores every card's display. */
  method ShowEvery(cards: seq<Card>) returns (shown: seq<Card>)
    ensures shown == ShowAll(cards)
  {
    shown := cards;
    var i := 0;
    while i < |shown|
      invariant 0 <= i <= |shown| == |cards|
      invariant forall j :: 0 <= j < i ==> shown[j] == cards[j].(visible := true)
      invariant forall j :: i <= j < |shown| ==> shown[j] == cards[j]
    {
      shown := shown[i := shown[i].(visible := true)];
      i := i + 1;
    }
  }

  /** The listings behind the cards, in grid order. */
  function ListingsOf(cards: seq<Card>): seq<Listing> {
    seq(|cards|, i requires 0 <= i < |cards| => cards[i].listing)
  }

  /** The loop of `filterListings`: each card is displayed exactly when its
      listing matches the selection, and the visible cards are counted. */
  method ApplyFilter(selection: Criteria, cards: seq<Card>) returns (updated: seq<Card>, visibleCount: nat)
    ensures ListingsOf(updated) == ListingsOf(cards)
    ensures forall i :: 0 <= i < |updated| ==> updated[i].visible == Matches(selection, updated[i].listing)
    ensures visibleCount == VisibleCount(updated)
  {
    updated := cards;
    visibleCount := 0;
    var i := 0;
    while i < |updated|
      invariant 0 <= i <= |updated| == |cards|
      invariant forall j :: 0 <= j < |updated| ==> updated[j].listing == cards[j].listing
      invariant forall j :: 0 <= j < i ==> updated[j].visible == Matches(selection, updated[j].listing)
      invariant visibleCount == VisibleCount(updated[..i])
    {
      var listing := updated[i].listing;
      var showListing := true;
      if selection.industry != "" && listing.industry != selection.industry {
        showListing := false;
      }
      if |selection.priceRanges| > 0 {
        var matchesPrice := SomeRangeMatches(selection.priceRanges, listing.price);
        if !matchesPrice {
          showListing := false;
        }
      }
      if |selection.locations| > 0 {
        if listing.location !in selection.locations {
          showListing := false;
        }
      }
      var before := updated[..i];
      updated := updated[i := Card(listing, showListing)];
      assert updated[..i + 1] == before + [updated[i]];
      VisibleCountAppend(before, [updated[i]]);
      if showListing {
        visibleCount := visibleCount + 1;
      }
      i := i + 1;
    }
    assert updated[..i] == updated;
  }

  /** Cards as `resetFilters` leaves them: all displayed, featured ones
      first. */
  ghost predicate ResetOrder(cards: seq<Card>) {
    && (forall i :: 0 <= i < |cards| ==> cards[i].visible)
    && Sorted(FeaturedFirst, cards)
  }

  /** The cards `resetFilters` leaves, `r`, are the featured cards and then
      the others, each group in its previous order, all displayed and all
      counted; cards already so are left as they are. */
  lemma {:induction false} ResetCards(cards: seq<Card>, r: seq<Card>)
    requires r == SortBy(FeaturedFirst, ShowAll(cards))
    ensures r == Featured(ShowAll(cards)) + NotFeatured(ShowAll(cards))
    ensures ResetOrder(r)
    ensures VisibleCount(r) == |r| == |cards|
    ensures ResetOrder(cards) ==> r == cards
  {
    var shown := ShowAll(cards);
    FeaturedFirstOrder(shown);
    ResetCardsVisible(shown, r);
    SortSorted(FeaturedFirst, shown);
    if ResetOrder(cards) {
      assert shown == cards;
      SortOfSorted(FeaturedFirst, cards);
    }
  }

  lemma {:induction false} ResetCardsVisible(shown: seq<Card>, r: seq<Card>)
    requires forall i :: 0 <= i < |shown| ==> shown[i].visible
    requires r == SortBy(FeaturedFirst, shown)
    ensures |r| == |shown|
    ensures forall i :: 0 <= i < |r| ==> r[i].visible
    ensures VisibleCount(r) == |r|
  {
    SortPermutes(FeaturedFirst, shown);
    forall i | 0 <= i < |r| ensures r[i].visible {
      assert r[i] in multiset(shown);
    }
    VisibleCountAll(r);
  }

  class Page {
    /** `allListings`: the cards, in the order they were last appended to
        the grid. */
    var cards: seq<Card>
    /** The industry selector's value; the empty string selects nothing. */
    var industrySelect: string
    var priceBoxes: seq<Checkbox>
    var locationBoxes: seq<Checkbox>
    /** The sort selector's value. */
    var sortSelect: string
    /** The number shown in the results counter. */
    var resultsCount: nat
    /** How many elements with the id 'noResults' the grid holds. */
    var noResultsDivs: nat

    /** The placeholder is only ever created when none is found, so there is
        at most one. */
    ghost predicate Valid()
      reads this
    {
      noResultsDivs <= 1
    }

    predicate PlaceholderShown()
      reads this
    {
      noResultsDivs > 0
    }

    /** What `filterListings` reads from the filter panel. */
    function Selection(): (c: Criteria)
      reads this`industrySelect, this`priceBoxes, this`locationBoxes
      ensures c.industry == industrySelect
      ensures c.priceRanges == [] <==> forall i :: 0 <= i < |priceBoxes| ==> !priceBoxes[i].checked
      ensures c.locations == [] <==> forall i :: 0 <= i < |locationBoxes| ==> !locationBoxes[i].checked
      ensures forall v :: v in c.priceRanges <==> exists i :: 0 <= i < |priceBoxes| && priceBoxes[i].checked && priceBoxes[i].value == v
      ensures forall v :: v in c.locations <==> exists i :: 0 <= i < |locationBoxes| && locationBoxes[i].checked && locationBoxes[i].value == v
    {
      Criteria(industrySelect, CheckedValues(priceBoxes), CheckedValues(locationBoxes))
    }

    /** The display agrees with the filter panel: exactly the matching cards
        are shown and the counter shows how many are. */
    ghost predicate Agrees()
      reads this
    {
      && (forall i :: 0 <= i < |cards| ==> cards[i].visible == Matches(Selection(), cards[i].listing))
      && resultsCount == VisibleCount(cards)
    }

    /** The filter panel and the sort selector as `resetFilters` leaves
        them. */
    predicate ControlsCleared()
      reads this`industrySelect, this`priceBoxes, this`locationBoxes, this`sortSelect
    {
      && industrySelect == ""
      && (forall i :: 0 <= i < |priceBoxes| ==> !priceBoxes[i].checked)
      && (forall i :: 0 <= i < |locationBoxes| ==> !locationBoxes[i].checked)
      && sortSelect == "featured"
    }

    /** The state `resetFilters` leaves the page in. */
    ghost predicate IsReset()
      reads this
    {
      ControlsCleared() && ResetOrder(cards) && resultsCount == |cards| && noResultsDivs == 0
    }

    /** The page as the markup renders it, before any handler has run. */
    constructor (cards: seq<Card>, industrySelect: string, priceBoxes: seq<Checkbox>,
                 locationBoxes: seq<Checkbox>, sortSelect: string, resultsCount: nat)
      ensures Valid() && !PlaceholderShown()
      ensures this.cards == cards && this.industrySelect == industrySelect
      ensures this.priceBoxes == priceBoxes && this.locationBoxes == locationBoxes
      ensures this.sortSelect == sortSelect && this.resultsCount == resultsCount
    {
      this.cards := cards;
      this.industrySelect := industrySelect;
      this.priceBoxes := priceBoxes;
      this.locationBoxes := locationBoxes;
      this.sortSelect := sortSelect;
      this.resultsCount := resultsCount;
      noResultsDivs := 0;
    }

    /** `showNoResults`: the placeholder is present exactly when the count is
        zero; a second call with zero adds no second placeholder. */
    method ShowNoResults(count: nat)
      requires Valid()
      modifies this`noResultsDivs
      ensures Valid()
      ensures PlaceholderShown() <==> count == 0
      ensures noResultsDivs == (if count == 0 then 1 else 0)
    {
      if count == 0 {
        if noResultsDivs == 0 {
          noResultsDivs := noResultsDivs + 1;
        }
      } else {
        if noResultsDivs > 0 {
          noResultsDivs := noResultsDivs - 1;
        }
      }
    }

    /** `filterListings`: shows exactly the cards whose listing passes all
        three checks against the filter panel, hides the others, puts their
        number in the counter and toggles the placeholder. */
    method FilterListings()
      requires Valid()
      modifies this
      ensures Valid() && Agrees()
      ensures ListingsOf(cards) == ListingsOf(old(cards))
      ensures industrySelect == old(industrySelect) && sortSelect == old(sortSelect)
      ensures priceBoxes == old(priceBoxes) && locationBoxes == old(locationBoxes)
      ensures PlaceholderShown() <==> resultsCount == 0
    {
      var updated, visibleCount := ApplyFilter(Selection(), cards);
      cards := updated;
      resultsCount := visibleCount;
      ShowNoResults(visibleCount);
    }

    /** `sortListings`: reorders the cards with the comparator the sort
        selector names and re-appends them in that order. Each card keeps its
        displayed state, so a display that agreed with the filter panel still
        does. */
    method SortListings()
      modifies this`cards
      ensures cards == SortBy(ParseSortKey(sortSelect), old(cards))
      ensures multiset(cards) == multiset(old(cards))
      ensures VisibleCount(cards) == VisibleCount(old(cards))
      ensures old(Agrees()) ==> Agrees()
    {
      ghost var before := cards;
      var key := ParseSortKey(sortSelect);
      cards := SortBy(key, cards);
      SortPermutes(key, before);
      SortKeepsVisibleCount(key, before);
      if old(Agrees()) {
        forall i | 0 <= i < |cards|
          ensures cards[i].visible == Matches(Selection(), cards[i].listing)
        {
          assert cards[i] in multiset(before);
        }
      }
    }

    /** The sort selector's change handler: sort, then filter again. */
    method ChangeSort(value: string)
      requires Valid()
      modifies this
      ensures Valid() && Agrees()
      ensures sortSelect == value
      ensures ListingsOf(cards) == ListingsOf(SortBy(ParseSortKey(value), old(cards)))
      ensures industrySelect == old(industrySelect)
      ensures priceBoxes == old(priceBoxes) && locationBoxes == old(locationBoxes)
      ensures PlaceholderShown() <==> resultsCount == 0
    {
      sortSelect := value;
      SortListings();
      FilterListings();
    }

    /** The industry selector's change handler. */
    method ChangeIndustry(value: string)
      requires Valid()
      modifies this
      ensures Valid() && Agrees()
      ensures industrySelect == value
      ensures ListingsOf(cards) == ListingsOf(old(cards))
      ensures sortSelect == old(sortSelect)
      ensures priceBoxes == old(priceBoxes) && locationBoxes == old(locationBoxes)
      ensures PlaceholderShown() <==> resultsCount == 0
    {
      industrySelect := value;
      FilterListings();
    }

    /** A price checkbox's change handler. */
    method TogglePrice(k: nat, checked: bool)
      requires Valid() && k < |priceBoxes|
      modifies this
      ensures Valid() && Agrees()
      ensures priceBoxes == old(priceBoxes)[k := old(priceBoxes)[k].(checked := checked)]
      ensures ListingsOf(cards) == ListingsOf(old(cards))
      ensures industrySelect == old(industrySelect) && sortSelect == old(sortSelect)
      ensures locationBoxes == old(locationBoxes)
      ensures PlaceholderShown() <==> resultsCount == 0
    {
      priceBoxes := priceBoxes[k := priceBoxes[k].(checked := checked)];
      FilterListings();
    }

    /** A location checkbox's change handler. */
    method ToggleLocation(k: nat, checked: bool)
      requires Valid() && k < |locationBoxes|
      modifies this
      ensures Valid() && Agrees()
      ensures locationBoxes == old(locationBoxes)[k := old(locationBoxes)[k].(checked := checked)]
      ensures ListingsOf(cards) == ListingsOf(old(cards))
      ensures industrySelect == old(industrySelect) && sortSelect == old(sortSelect)
      ensures priceBoxes == old(priceBoxes)
      ensures PlaceholderShown() <==> resultsCount == 0
    {
      locationBoxes := locationBoxes[k := locationBoxes[k].(checked := checked)];
      FilterListings();
    }

    /** The first half of `resetFilters`: the industry selector and every
        checkbox are cleared and the sort selector set to 'featured'; on a
        panel already cleared nothing changes. */
    method ClearControls()
      modifies this`industrySelect, this`priceBoxes, this`locationBoxes, this`sortSelect
      ensures ControlsCleared()
      ensures Selection() == Criteria("", [], [])
      ensures |priceBoxes| == |old(priceBoxes)|
      ensures forall i :: 0 <= i < |priceBoxes| ==> priceBoxes[i] == old(priceBoxes)[i].(checked := false)
      ensures |locationBoxes| == |old(locationBoxes)|
      ensures forall i :: 0 <= i < |locationBoxes| ==> locationBoxes[i] == old(locationBoxes)[i].(checked := false)
      ensures old(ControlsCleared()) ==> priceBoxes == old(priceBoxes) && locationBoxes == old(locationBoxes)
    {
      industrySelect := "";
      priceBoxes := UncheckAll(priceBoxes);
      locationBoxes := UncheckAll(locationBoxes);
      sortSelect := "featured";
      if old(ControlsCleared()) {
        assert priceBoxes == old(priceBoxes);
        assert locationBoxes == old(locationBoxes);
      }
    }

    /** The second half of `resetFilters`: every card is displayed and
        counted, and the cards are sorted featured first. */
    method ShowAndSortAll()
      requires sortSelect == "featured"
      modifies this`cards, this`resultsCount
      ensures cards == Featured(ShowAll(old(cards))) + NotFeatured(ShowAll(old(cards)))
      ensures ResetOrder(cards)
      ensures resultsCount == VisibleCount(cards) == |cards|
      ensures ResetOrder(old(cards)) ==> cards == old(cards)
    {
      ghost var before := cards;
      cards := ShowEvery(cards);
      resultsCount := |cards|;
      SortListings();
      ResetCards(before, cards);
    }

    /** `resetFilters`: clears the filter panel, selects 'featured', shows
        every card, puts the number of cards in the counter, sorts featured
        first and removes the placeholder. Resetting a page that is already
        reset changes nothing. */
    method ResetFilters()
      requires Valid()
      modifies this
      ensures Valid() && Agrees() && IsReset()
      ensures |priceBoxes| == |old(priceBoxes)|
      ensures forall i :: 0 <= i < |priceBoxes| ==> priceBoxes[i] == old(priceBoxes)[i].(checked := false)
      ensures |locationBoxes| == |old(locationBoxes)|
      ensures forall i :: 0 <= i < |locationBoxes| ==> locationBoxes[i] == old(locationBoxes)[i].(checked := false)
      ensures cards == Featured(ShowAll(old(cards))) + NotFeatured(ShowAll(old(cards)))
      ensures old(IsReset()) ==>
                cards == old(cards) && priceBoxes == old(priceBoxes) && locationBoxes == old(locationBoxes)
    {
      ClearControls();
      ShowAndSortAll();
      if noResultsDivs > 0 {
        noResultsDivs := noResultsDivs - 1;
      }
    }
  }
}
