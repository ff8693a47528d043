/** Concrete example pages: a filter, a sort and a formatted price, worked
    through the model. */
module Scenarios {
  import opened Wrappers
  import opened Listings
  import opened Sorting
  import opened PriceFormat

  function Retail(): Listing { Listing("retail", Some(50000), "texas", false) }
  function Food(): Listing { Listing("food", Some(150000), "ohio", false) }
  function BigRetail(): Listing { Listing("retail", Some(6000000), "texas", true) }

  /** The boundaries between ranges are half-open, a NaN price fails each
      of the five named ranges, and the label "any" (which the switch does
      not name) passes both a NaN and a numeric price. */
  lemma RangeBoundaries()
    ensures MatchesRange("100k-500k", Some(100000)) && !MatchesRange("0-100k", Some(100000))
    ensures MatchesRange("5m+", Some(5000000)) && !MatchesRange("1m-5m", Some(5000000))
    ensures !MatchesRange("0-100k", None) && !MatchesRange("100k-500k", None)
    ensures !MatchesRange("500k-1m", None) && !MatchesRange("1m-5m", None)
    ensures !MatchesRange("5m+", None)
    ensures MatchesRange("any", None) && MatchesRange("any", Some(100000))
  {
  }

  /** Selecting the industry "retail" shows the first and the third
      listing, and the counter shows 2: the cards below are the only ones
      whose displayed state agrees with the selection. */
  lemma {:induction false} IndustryScenario()
    ensures var c := Criteria("retail", [], []);
      Matches(c, Retail()) && !Matches(c, Food()) && Matches(c, BigRetail())
    ensures var c := Criteria("retail", [], []);
      VisibleCount([Card(Retail(), Matches(c, Retail())), Card(Food(), Matches(c, Food())),
                    Card(BigRetail(), Matches(c, BigRetail()))]) == 2
  {
    var shown := [Card(Retail(), true), Card(Food(), false), Card(BigRetail(), true)];
    assert shown[1..] == [Card(Food(), false), Card(BigRetail(), true)];
    assert shown[1..][1..] == [Card(BigRetail(), true)];
    assert VisibleCount([Card(BigRetail(), true)]) == 1;
  }

  /** Checking only the "5m+" box shows the third listing alone. */
  lemma PriceScenario()
    ensures var c := Criteria("", ["5m+"], []);
      !Matches(c, Retail()) && !Matches(c, Food()) && Matches(c, BigRetail())
  {
    var c := Criteria("", ["5m+"], []);
    assert MatchesRange("5m+", BigRetail().price);
    assert "5m+" in c.priceRanges;
  }

  /** Sorting by ascending price puts 50000 before 150000 before 6000000. */
  lemma {:induction false} PriceLowScenario()
    ensures var a, b, c := Card(Food(), true), Card(Retail(), true), Card(BigRetail(), true);
      SortBy(PriceLow, [a, b, c]) == [b, a, c]
  {
    var a, b, c := Card(Food(), true), Card(Retail(), true), Card(BigRetail(), true);
    assert [a, b, c][1..] == [b, c] && [b, c][1..] == [c] && [c][1..] == [];
    assert SortBy(PriceLow, [c]) == [c];
    assert SortBy(PriceLow, [b, c]) == [b, c];
    assert Insert(PriceLow, a, [c]) == [a, c];
    assert Insert(PriceLow, a, [b, c]) == [b, a, c];
  }

  /** Sorting featured first moves the featured listing to the front and
      keeps the other two in their order. */
  lemma {:induction false} FeaturedScenario()
    ensures var a, b, c := Card(Retail(), true), Card(BigRetail(), true), Card(Food(), true);
      SortBy(FeaturedFirst, [a, b, c]) == [b, a, c]
  {
    var a, b, c := Card(Retail(), true), Card(BigRetail(), true), Card(Food(), true);
    FeaturedFirstOrder([a, b, c]);
    assert [a, b, c][1..] == [b, c] && [b, c][1..] == [c] && [c][1..] == [];
    assert Featured([c]) == [] && NotFeatured([c]) == [c];
    assert Featured([b, c]) == [b] && NotFeatured([b, c]) == [c];
    assert Featured([a, b, c]) == [b] && NotFeatured([a, b, c]) == [a, c];
  }

  /** 1250000 is shown as "$1,250,000". The price is passed as `p` rather
      than written as a literal, so that the verifier does not unfold
      `Digits` and the regular expression on a constant argument. */
  lemma {:induction false} FormatScenario(p: int)
    requires p == 1250000
    ensures FormatPrice(p) == "$1,250,000"
  {
    var ds := Digits(p);
    calc {
      FormatPrice(p);
      { FormatPriceGroups(p); }
      "$" + Group(ds);
      { DigitsScenario(p); }
      "$" + Group("1250000");
      { GroupScenario(); }
      "$1,250,000";
    }
  }

  lemma DigitsScenario(p: nat)
    requires p == 1250000
    ensures Digits(p) == "1250000"
  {
    assert Digits(1) == "1";
    assert Digits(12) == "12";
    assert Digits(125) == "125";
    assert Digits(1250) == "1250";
    assert Digits(12500) == "12500";
    assert Digits(125000) == "125000";
  }

  lemma GroupScenario()
    ensures Group("1250000") == "1,250,000"
  {
    assert "1250000"[..4] == "1250" && "1250000"[4..] == "000";
    assert "1250"[..1] == "1" && "1250"[1..] == "250";
  }
}
