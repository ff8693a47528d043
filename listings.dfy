/** Listing records as read from the cards' data attributes, the filter
    criteria read from the filter panel, and the filter's three predicates. */
module Listings {
  import opened Wrappers

  /** The data attributes of one listing card. `price` is the result of
      `parseInt` on the price attribute; `None` stands for NaN. */
  datatype Listing = Listing(industry: string, price: Option<int>, location: string, featured: bool)

  /** A card of the grid: its listing and whether it is displayed. */
  datatype Card = Card(listing: Listing, visible: bool)

  /** A snapshot of the filter panel: the industry selector's value (the empty
      string when nothing is selected) and the values of the checked price and
      location boxes, in document order. */
  datatype Criteria = Criteria(industry: string, priceRanges: seq<string>, locations: seq<string>)

  /** The labels of the five price ranges the filter recognises. */
  const PriceRangeLabels: set<string> := {"0-100k", "100k-500k", "500k-1m", "1m-5m", "5m+"}

  /** `price < bound` in JavaScript: false when the price is NaN. */
  predicate Below(price: Option<int>, bound: int) {
    price.Some? && price.value < bound
  }

  /** `price >= bound` in JavaScript: false when the price is NaN. */
  predicate AtLeast(price: Option<int>, bound: int) {
    price.Some? && price.value >= bound
  }

  /** The one named range a numeric price belongs to: the ranges are
      half-open and together cover every integer. */
  function Bucket(p: int): (range: string)
    ensures range in PriceRangeLabels
    ensures range == "0-100k" <==> p < 100000
    ensures range == "100k-500k" <==> 100000 <= p < 500000
    ensures range == "500k-1m" <==> 500000 <= p < 1000000
    ensures range == "1m-5m" <==> 1000000 <= p < 5000000
    ensures range == "5m+" <==> 5000000 <= p
  {
    if p < 100000 then "0-100k"
    else if p < 500000 then "100k-500k"
    else if p < 1000000 then "500k-1m"
    else if p < 5000000 then "1m-5m"
    else "5m+"
  }

  /** Whether a listing with the given parsed price passes one checked price
      range: an unrecognised label passes every listing, a NaN price passes
      none of the named ranges, and a numeric price passes exactly the range
      it falls in. */
  function MatchesRange(range: string, price: Option<int>): (r: bool)
    ensures range !in PriceRangeLabels ==> r
    ensures range in PriceRangeLabels && price.None? ==> !r
    ensures range in PriceRangeLabels && price.Some? ==> (r <==> range == Bucket(price.value))
  {
    if range == "0-100k" then Below(price, 100000)
    else if range == "100k-500k" then AtLeast(price, 100000) && Below(price, 500000)
    else if range == "500k-1m" then AtLeast(price, 500000) && Below(price, 1000000)
    else if range == "1m-5m" then AtLeast(price, 1000000) && Below(price, 5000000)
    else if range == "5m+" then AtLeast(price, 5000000)
    else true
  }

  /** Whether some checked range label is not one of the five the switch
      names (such a label passes every listing). */
  predicate HasUnknownRange(ranges: seq<string>) {
    exists range :: range in ranges && range !in PriceRangeLabels
  }

  /** `selectedPrices.some(...)`: some checked range passes the price. A
      numeric price passes exactly when its own range is checked or an
      unknown label is; a NaN price passes only through an unknown label. */
  function SomeRangeMatches(ranges: seq<string>, price: Option<int>): (r: bool)
    ensures price.Some? ==> (r <==> Bucket(price.value) in ranges || HasUnknownRange(ranges))
    ensures price.None? ==> (r <==> HasUnknownRange(ranges))
  {
    exists range :: range in ranges && MatchesRange(range, price)
  }

  /** The industry check: an unset selection passes every listing, a set one
      only the listings of that industry. */
  function IndustryOk(c: Criteria, l: Listing): (r: bool)
    ensures c.industry == "" ==> r
    ensures c.industry != "" ==> (r <==> l.industry == c.industry)
  {
    c.industry == "" || l.industry == c.industry
  }

  /** The price check: no checked range passes every listing; otherwise the
      listing passes when the range of its numeric price is checked, or when
      an unknown label is. */
  function PriceOk(c: Criteria, l: Listing): (r: bool)
    ensures r <==> || |c.priceRanges| == 0
                   || (l.price.Some? && Bucket(l.price.value) in c.priceRanges)
                   || HasUnknownRange(c.priceRanges)
  {
    |c.priceRanges| == 0 || SomeRangeMatches(c.priceRanges, l.price)
  }

  /** The location check: no checked location passes every listing;
      otherwise the listing's location must be one of those checked. */
  function LocationOk(c: Criteria, l: Listing): (r: bool)
    ensures |c.locations| == 0 ==> r
    ensures |c.locations| > 0 ==> (r <==> exists i :: 0 <= i < |c.locations| && c.locations[i] == l.location)
  {
    |c.locations| == 0 || l.location in c.locations
  }

  /** A listing is shown exactly when all three independent checks pass; an
      empty filter panel shows every listing, and a listing with a NaN price
      is hidden whenever only named ranges are checked. */
  function Matches(c: Criteria, l: Listing): (r: bool)
    ensures c.industry == "" && |c.priceRanges| == 0 && |c.locations| == 0 ==> r
    ensures |c.priceRanges| > 0 && !HasUnknownRange(c.priceRanges) && l.price.None? ==> !r
    ensures r ==> IndustryOk(c, l) && PriceOk(c, l) && LocationOk(c, l)
  {
    IndustryOk(c, l) && PriceOk(c, l) && LocationOk(c, l)
  }

  /** The number of displayed cards. */
  function VisibleCount(cards: seq<Card>): (n: nat)
    ensures n <= |cards|
  {
    if cards == [] then 0
    else (if cards[0].visible then 1 else 0) + VisibleCount(cards[1..])
  }

  /** Every card is displayed exactly when the count is the number of cards. */
  lemma {:induction false} VisibleCountAll(cards: seq<Card>)
    ensures VisibleCount(cards) == |cards| <==> forall i :: 0 <= i < |cards| ==> cards[i].visible
  {
    if cards != [] {
      VisibleCountAll(cards[1..]);
      assert forall i :: 1 <= i < |cards| ==> cards[i] == cards[1..][i - 1];
    }
  }

  lemma {:induction false} VisibleCountAppend(a: seq<Card>, b: seq<Card>)
    ensures VisibleCount(a + b) == VisibleCount(a) + VisibleCount(b)
  {
    if a != [] {
      assert (a + b)[0] == a[0] && (a + b)[1..] == a[1..] + b;
      VisibleCountAppend(a[1..], b);
    } else {
      assert a + b == b;
    }
  }
}
