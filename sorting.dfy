/** The sort selector's comparator and the order `Array.prototype.sort`
    produces with it. The sort is stable, so whenever the comparator is a
    consistent ordering the result is the unique stable sort, given here by
    insertion. */
module Sorting {
  import opened Wrappers
  import opened Listings

  /** The sort selector's values: 'price-low', 'price-high', 'newest', and
      'featured', which is also what every unrecognised value falls back to. */
  datatype SortKey = PriceLow | PriceHigh | Newest | FeaturedFirst

  function ParseSortKey(value: string): (key: SortKey)
    ensures key == PriceLow <==> value == "price-low"
    ensures key == PriceHigh <==> value == "price-high"
    ensures key == Newest <==> value == "newest"
  {
    if value == "price-low" then PriceLow
    else if value == "price-high" then PriceHigh
    else if value == "newest" then Newest
    else FeaturedFirst
  }

  /** 1 for a card carrying the featured badge, 0 otherwise. */
  function FeaturedFlag(l: Listing): int {
    if l.featured then 1 else 0
  }

  /** Whether the comparator orders this listing consistently: under the
      price keys a NaN price compares equal to every other price. */
  predicate Ranked(key: SortKey, l: Listing) {
    (key == PriceLow || key == PriceHigh) ==> l.price.Some?
  }

  /** The position of a listing in the order a key asks for: listings of
      smaller rank come first. */
  function Rank(key: SortKey, l: Listing): int {
    match key
    case PriceLow => l.price.GetOr(0)
    case PriceHigh => -l.price.GetOr(0)
    case Newest => 0
    case FeaturedFirst => 1 - FeaturedFlag(l)
  }

  /** The comparator passed to `allListings.sort`. A NaN result (a price
      difference involving NaN) is read by the sort as +0, so it is 0 here.
      Between consistently ordered listings it is the difference of their
      ranks; otherwise the listings compare equal. */
  function Compare(key: SortKey, a: Listing, b: Listing): (r: int)
    ensures Ranked(key, a) && Ranked(key, b) ==> r == Rank(key, a) - Rank(key, b)
    ensures !(Ranked(key, a) && Ranked(key, b)) ==> r == 0
  {
    match key
    case PriceLow =>
      if a.price.Some? && b.price.Some? then a.price.value - b.price.value else 0
    case PriceHigh =>
      if a.price.Some? && b.price.Some? then b.price.value - a.price.value else 0
    case Newest => 0
    case FeaturedFirst => FeaturedFlag(b) - FeaturedFlag(a)
  }

  /** Inserts `x`, which came before every card of `s`, in front of the first
      card it does not sort after. */
  function Insert(key: SortKey, x: Card, s: seq<Card>): (r: seq<Card>)
    ensures |r| == |s| + 1 && x in r
  {
    if s == [] then [x]
    else if Compare(key, x.listing, s[0].listing) <= 0 then [x] + s
    else [s[0]] + Insert(key, x, s[1..])
  }

  /** The stable sort of `s` under the comparator for `key`. */
  function SortBy(key: SortKey, s: seq<Card>): (r: seq<Card>)
    ensures |r| == |s|
  {
    if s == [] then [] else Insert(key, s[0], SortBy(key, s[1..]))
  }

  predicate AllRanked(key: SortKey, s: seq<Card>) {
    forall i :: 0 <= i < |s| ==> Ranked(key, s[i].listing)
  }

  predicate Sorted(key: SortKey, s: seq<Card>) {
    forall i, j :: 0 <= i < j < |s| ==> Rank(key, s[i].listing) <= Rank(key, s[j].listing)
  }

  /** The cards of rank `v`, in their order in `s`. */
  function WithRank(key: SortKey, s: seq<Card>, v: int): seq<Card> {
    if s == [] then []
    else (if Rank(key, s[0].listing) == v then [s[0]] else []) + WithRank(key, s[1..], v)
  }

  /** The featured cards of `s`, in their order in `s`. */
  function Featured(s: seq<Card>): seq<Card> {
    if s == [] then []
    else (if s[0].listing.featured then [s[0]] else []) + Featured(s[1..])
  }

  /** The cards of `s` without the featured badge, in their order in `s`. */
  function NotFeatured(s: seq<Card>): seq<Card> {
    if s == [] then []
    else (if s[0].listing.featured then [] else [s[0]]) + NotFeatured(s[1..])
  }

  // ---------------------------------------------------------------------
  // The sort is a permutation

  lemma {:induction false} InsertPermutes(key: SortKey, x: Card, s: seq<Card>)
    ensures multiset(Insert(key, x, s)) == multiset(s) + multiset{x}
  {
    if s != [] && Compare(key, x.listing, s[0].listing) > 0 {
      InsertPermutes(key, x, s[1..]);
      assert s == [s[0]] + s[1..];
    }
  }

  /** Sorting neither adds nor drops a card, and each card keeps its
      displayed state. */
  lemma {:induction false} SortPermutes(key: SortKey, s: seq<Card>)
    ensures multiset(SortBy(key, s)) == multiset(s)
    ensures |SortBy(key, s)| == |s|
  {
    if s != [] {
      calc {
        multiset(SortBy(key, s));
        multiset(Insert(key, s[0], SortBy(key, s[1..])));
        { InsertPermutes(key, s[0], SortBy(key, s[1..])); }
        multiset(SortBy(key, s[1..])) + multiset{s[0]};
        { SortPermutes(key, s[1..]); }
        multiset(s[1..]) + multiset{s[0]};
        { assert s == [s[0]] + s[1..]; }
        multiset(s);
      }
    }
    assert |multiset(SortBy(key, s))| == |SortBy(key, s)|;
  }

  lemma {:induction false} SameElementsRanked(key: SortKey, a: seq<Card>, b: seq<Card>)
    requires multiset(a) == multiset(b)
    requires AllRanked(key, a)
    ensures AllRanked(key, b)
  {
    forall i | 0 <= i < |b| ensures Ranked(key, b[i].listing) {
      assert b[i] in multiset(a);
    }
  }

  // ---------------------------------------------------------------------
  // Ordered by rank

  lemma {:induction false} InsertSorted(key: SortKey, x: Card, s: seq<Card>)
    requires Ranked(key, x.listing) && AllRanked(key, s) && Sorted(key, s)
    ensures Sorted(key, Insert(key, x, s))
  {
    if s == [] {
    } else if Compare(key, x.listing, s[0].listing) <= 0 {
      SortedCons(key, x, s);
    } else {
      var t := Insert(key, x, s[1..]);
      InsertSorted(key, x, s[1..]);
      InsertPermutes(key, x, s[1..]);
      forall j | 0 <= j < |t| ensures Rank(key, s[0].listing) <= Rank(key, t[j].listing) {
        assert t[j] in multiset(s[1..]) + multiset{x};
      }
      SortedCons(key, s[0], t);
    }
  }

  /** A card ranked no higher than every card of a sorted sequence can go in
      front of it. */
  lemma {:induction false} SortedCons(key: SortKey, y: Card, t: seq<Card>)
    requires Sorted(key, t)
    requires forall j :: 0 <= j < |t| ==> Rank(key, y.listing) <= Rank(key, t[j].listing)
    ensures Sorted(key, [y] + t)
  {
    var s := [y] + t;
    forall i, j | 0 <= i < j < |s| ensures Rank(key, s[i].listing) <= Rank(key, s[j].listing) {
      assert s[j] == t[j - 1];
      if i > 0 {
        assert s[i] == t[i - 1];
      }
    }
  }

  /** With a consistent comparator the result is ordered by rank. */
  lemma {:induction false} SortSorted(key: SortKey, s: seq<Card>)
    requires AllRanked(key, s)
    ensures Sorted(key, SortBy(key, s))
  {
    if s != [] {
      SortSorted(key, s[1..]);
      SortPermutes(key, s[1..]);
      SameElementsRanked(key, s[1..], SortBy(key, s[1..]));
      InsertSorted(key, s[0], SortBy(key, s[1..]));
    }
  }

  // ---------------------------------------------------------------------
  // Stable

  lemma {:induction false} InsertStable(key: SortKey, x: Card, s: seq<Card>, v: int)
    requires Ranked(key, x.listing) && AllRanked(key, s)
    ensures WithRank(key, Insert(key, x, s), v)
         == (if Rank(key, x.listing) == v then [x] else []) + WithRank(key, s, v)
  {
    if s == [] {
    } else if Compare(key, x.listing, s[0].listing) <= 0 {
      assert ([x] + s)[0] == x && ([x] + s)[1..] == s;
    } else {
      var y, t := s[0], Insert(key, x, s[1..]);
      var ex := if Rank(key, x.listing) == v then [x] else [];
      var ey := if Rank(key, y.listing) == v then [y] else [];
      assert Ranked(key, y.listing);
      assert Rank(key, y.listing) < Rank(key, x.listing);
      calc {
        WithRank(key, Insert(key, x, s), v);
        WithRank(key, [y] + t, v);
        { assert ([y] + t)[0] == y && ([y] + t)[1..] == t; }
        ey + WithRank(key, t, v);
        { InsertStable(key, x, s[1..], v); }
        ey + (ex + WithRank(key, s[1..], v));
        { assert ey == [] || ex == []; }
        ex + (ey + WithRank(key, s[1..], v));
        ex + WithRank(key, s, v);
      }
    }
  }

  /** With a consistent comparator, cards of equal rank keep their relative
      order: the cards of each rank appear in the result exactly as in the
      input. */
  lemma {:induction false} SortStable(key: SortKey, s: seq<Card>, v: int)
    requires AllRanked(key, s)
    ensures WithRank(key, SortBy(key, s), v) == WithRank(key, s, v)
  {
    if s != [] {
      SortStable(key, s[1..], v);
      SortPermutes(key, s[1..]);
      SameElementsRanked(key, s[1..], SortBy(key, s[1..]));
      InsertStable(key, s[0], SortBy(key, s[1..]), v);
    }
  }

  // ---------------------------------------------------------------------
  // What each key does

  /** Under 'price-low', when every price is numeric, prices never decrease
      along the result. */
  lemma {:induction false} PriceLowOrder(s: seq<Card>)
    requires forall i :: 0 <= i < |s| ==> s[i].listing.price.Some?
    ensures var r := SortBy(PriceLow, s);
      && multiset(r) == multiset(s)
      && (forall i :: 0 <= i < |r| ==> r[i].listing.price.Some?)
      && (forall i, j :: 0 <= i < j < |r| ==> r[i].listing.price.value <= r[j].listing.price.value)
  {
    SortPermutes(PriceLow, s);
    SameElementsRanked(PriceLow, s, SortBy(PriceLow, s));
    SortSorted(PriceLow, s);
  }

  /** Under 'price-high', when every price is numeric, prices never increase
      along the result. */
  lemma {:induction false} PriceHighOrder(s: seq<Card>)
    requires forall i :: 0 <= i < |s| ==> s[i].listing.price.Some?
    ensures var r := SortBy(PriceHigh, s);
      && multiset(r) == multiset(s)
      && (forall i :: 0 <= i < |r| ==> r[i].listing.price.Some?)
      && (forall i, j :: 0 <= i < j < |r| ==> r[i].listing.price.value >= r[j].listing.price.value)
  {
    SortPermutes(PriceHigh, s);
    SameElementsRanked(PriceHigh, s, SortBy(PriceHigh, s));
    SortSorted(PriceHigh, s);
  }

  /** Sorting input that is already in order changes nothing. */
  lemma {:induction false} SortOfSorted(key: SortKey, s: seq<Card>)
    requires AllRanked(key, s) && Sorted(key, s)
    ensures SortBy(key, s) == s
  {
    if s != [] {
      SortOfSorted(key, s[1..]);
      assert s == [s[0]] + s[1..];
    }
  }

  /** Sorting twice under a consistent comparator is sorting once. */
  lemma {:induction false} SortIdempotent(key: SortKey, s: seq<Card>)
    requires AllRanked(key, s)
    ensures SortBy(key, SortBy(key, s)) == SortBy(key, s)
  {
    SortPermutes(key, s);
    SameElementsRanked(key, s, SortBy(key, s));
    SortSorted(key, s);
    SortOfSorted(key, SortBy(key, s));
  }

  /** 'newest' has no comparator of its own: the order is left as it was. */
  lemma {:induction false} NewestKeepsOrder(s: seq<Card>)
    ensures SortBy(Newest, s) == s
  {
    SortOfSorted(Newest, s);
  }

  lemma {:induction false} InsertNotFeatured(x: Card, f: seq<Card>, n: seq<Card>)
    requires !x.listing.featured
    requires forall i :: 0 <= i < |f| ==> f[i].listing.featured
    requires forall i :: 0 <= i < |n| ==> !n[i].listing.featured
    ensures Insert(FeaturedFirst, x, f + n) == f + [x] + n
  {
    if f != [] {
      InsertNotFeatured(x, f[1..], n);
      assert (f + n)[0] == f[0] && (f + n)[1..] == f[1..] + n;
    } else {
      assert f + n == n;
    }
  }

  /** `Featured` keeps exactly the featured cards and `NotFeatured` the
      others. */
  lemma {:induction false} FeaturedAreFeatured(s: seq<Card>)
    ensures forall i :: 0 <= i < |Featured(s)| ==> Featured(s)[i].listing.featured
    ensures forall i :: 0 <= i < |NotFeatured(s)| ==> !NotFeatured(s)[i].listing.featured
    ensures |Featured(s)| + |NotFeatured(s)| == |s|
  {
    if s != [] {
      FeaturedAreFeatured(s[1..]);
    }
  }

  lemma {:induction false} InsertFeatured(x: Card, s: seq<Card>)
    requires x.listing.featured
    ensures Insert(FeaturedFirst, x, s) == [x] + s
  {
    if s != [] {
      assert Compare(FeaturedFirst, x.listing, s[0].listing) <= 0;
    }
  }

  /** Under 'featured' (and any unrecognised key) every featured card comes
      before every other card, and each group keeps its order. */
  lemma {:induction false} FeaturedFirstOrder(s: seq<Card>)
    ensures SortBy(FeaturedFirst, s) == Featured(s) + NotFeatured(s)
  {
    if s != [] {
      var x, f: seq<Card>, n: seq<Card> := s[0], Featured(s[1..]), NotFeatured(s[1..]);
      if x.listing.featured {
        calc {
          SortBy(FeaturedFirst, s);
          Insert(FeaturedFirst, x, SortBy(FeaturedFirst, s[1..]));
          { FeaturedFirstOrder(s[1..]); }
          Insert(FeaturedFirst, x, f + n);
          { InsertFeatured(x, f + n); }
          [x] + (f + n);
          ([x] + f) + n;
          Featured(s) + NotFeatured(s);
        }
      } else {
        calc {
          SortBy(FeaturedFirst, s);
          Insert(FeaturedFirst, x, SortBy(FeaturedFirst, s[1..]));
          { FeaturedFirstOrder(s[1..]); }
          Insert(FeaturedFirst, x, f + n);
          { FeaturedAreFeatured(s[1..]); InsertNotFeatured(x, f, n); }
          f + [x] + n;
          f + ([x] + n);
          Featured(s) + NotFeatured(s);
        }
      }
    }
  }

  /** Sorting keeps the number of displayed cards. */
  lemma {:induction false} SortKeepsVisibleCount(key: SortKey, s: seq<Card>)
    ensures VisibleCount(SortBy(key, s)) == VisibleCount(s)
  {
    if s != [] {
      SortKeepsVisibleCount(key, s[1..]);
      InsertKeepsVisibleCount(key, s[0], SortBy(key, s[1..]));
    }
  }

  lemma {:induction false} InsertKeepsVisibleCount(key: SortKey, x: Card, s: seq<Card>)
    ensures VisibleCount(Insert(key, x, s)) == VisibleCount(s) + (if x.visible then 1 else 0)
  {
    if s != [] && Compare(key, x.listing, s[0].listing) > 0 {
      InsertKeepsVisibleCount(key, x, s[1..]);
      assert ([s[0]] + Insert(key, x, s[1..]))[1..] == Insert(key, x, s[1..]);
    } else if s != [] {
      assert ([x] + s)[1..] == s;
    }
  }
}
