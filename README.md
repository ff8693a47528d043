# BizMatch listings page: a Dafny model

This project models the script behind the BizMatch business-for-sale listings
page (`bizmatch.js`). The page shows a grid of listing cards. Each card
carries an industry, a price, a location and, for some cards, a "featured"
badge. A filter panel (an industry selector plus price-range and location
checkboxes) hides the cards that do not match. A sort selector reorders the
grid. A counter shows how many cards are visible, and a "no results"
placeholder appears when none are. A reset button restores everything. The
"express interest" dialog opens for a listing, closes on submit or Escape,
and locks page scrolling while open. `formatPrice` turns a price into a
dollar string with thousands separators.

Modules:

- `Listings` (`listings.dfy`): the listing record (`price` is `parseInt`'s
  result, with `None` for NaN), a card (a listing plus its displayed state),
  the filter criteria, the price-range switch and the three checks of the
  filter.
- `Sorting` (`sorting.dfy`): the sort selector's keys, the comparator, and
  the order `Array.prototype.sort` gives. Because that sort is stable, this
  order is the stable insertion sort `SortBy`. The properties of each key are
  proved about it.
- `ListingsPage` (`listings_page.dfy`): the page as a class. Its fields are
  the cards in grid order, the controls, the counter and the placeholder. Its
  methods are `filterListings`, `sortListings`, `showNoResults`,
  `resetFilters` and the change handlers. `FilterListings`, `ChangeSort`,
  `ChangeIndustry`, `TogglePrice`, `ToggleLocation` and `ResetFilters`
  establish the predicate `Agrees` (the display matches the filter panel).
  `SortListings` is stated against `Sorting.SortBy` and preserves `Agrees`.
  `ShowNoResults` is stated on the placeholder alone.
- `Modal` (`modal.dfy`): the interest dialog as a class, covering its open
  state, the business name and the body's overflow style.
- `PriceFormat` (`price_format.dfy`): `formatPrice` with its regular
  expression `\B(?=(\d{3})+(?!\d))`, modelled position by position:
  - `NotBoundary` is `\B`;
  - `GroupsAhead` is the lookahead;
  - `CommasUpTo` is the global replacement.

  The file proves that this gives the intended grouping `Group`, and that
  deleting the commas gives back the digits.
- `Scenarios` (`scenarios.dfy`): concrete example pages, worked through the
  model.

The cards' DOM elements, the controls and the document are fields and
parameters. The price attribute's parsing and the browser's timers are not
modelled. The alert dialog itself is not modelled either; `Submit` returns
its text (see below).

Read as an interval, '0-100k' would be [0, 100000), but the code tests only
`price < 100000`, so a negative price falls in '0-100k'. The model follows
the code (`Listings.Bucket`, `Listings.MatchesRange`).

A card's displayed state is the value each handler sets at once. The model
assumes that no hide timer from an earlier filter is still pending (see
"Left out").

## Model

| member | source | states |
|---|---|---|
| Listings.Bucket | bizmatch.js:48-52 | the five ranges are half-open and cover every integer: a price is in '0-100k' exactly when it is below 100000, in '100k-500k' exactly when it is in [100000, 500000), in '500k-1m' exactly when in [500000, 1000000), in '1m-5m' exactly when in [1000000, 5000000), and in '5m+' exactly when it is at least 5000000 |
| Listings.MatchesRange | bizmatch.js:47-54 | an unrecognised range label passes every listing; a NaN price passes none of the five named ranges; a numeric price passes exactly the range it falls in |
| Listings.SomeRangeMatches | bizmatch.js:46-55 | some checked range passes a numeric price exactly when the range it falls in is checked or an unknown label is; a NaN price passes only through an unknown label |
| Listings.IndustryOk | bizmatch.js:39-41 | an unset industry passes every listing; a set one passes exactly the listings of that industry |
| Listings.PriceOk | bizmatch.js:44-59 | with no range checked every listing passes; otherwise a listing passes exactly when the range of its numeric price is checked or an unknown label is |
| Listings.LocationOk | bizmatch.js:62-66 | with no location checked every listing passes; otherwise exactly the listings whose location is one of those checked |
| Listings.Matches | bizmatch.js:36-66 | a listing is shown only when all three checks pass; an empty panel shows every listing; with only named ranges checked a NaN price is hidden |
| Listings.VisibleCount | bizmatch.js:75 | the number of displayed cards is at most the number of cards |
| Listings.VisibleCountAll | bizmatch.js:155-161 | the count equals the number of cards exactly when every card is displayed |
| Listings.VisibleCountAppend | bizmatch.js:35-83 | counting the displayed cards is additive over consecutive runs of cards |
| ListingsPage.CheckedValues | bizmatch.js:26-31 | the selected values are exactly the values of the checked boxes: every checked box's value is among them and every value among them comes from a checked box; they are empty exactly when no box is checked |
| ListingsPage.ApplyFilter | bizmatch.js:33-83 | after the loop, each card is displayed exactly when its listing passes the industry, price and location checks; the count is the number of displayed cards; the listings and their order are unchanged |
| ListingsPage.UncheckAll | bizmatch.js:151-152 | every checkbox is unchecked and keeps its value |
| ListingsPage.ShowEvery | bizmatch.js:155-159 | every card is displayed, in the same order |
| ListingsPage.ResetCards | bizmatch.js:155-163 | after showing all cards and sorting featured first: the featured cards come first and then the rest, each group in its previous order; all are displayed and counted; cards already in that state are unchanged |
| ListingsPage.ResetCardsVisible | bizmatch.js:155-163 | sorting cards that are all displayed leaves them all displayed and counted |
| ListingsPage.Page.constructor | bizmatch.js:12-21 | the page starts from the markup's cards and controls, with no placeholder |
| ListingsPage.Page.Selection | bizmatch.js:25-31 | the selection read from the panel has the industry selector's value, and its price ranges and locations are exactly the values of the checked boxes (empty exactly when none is checked) |
| ListingsPage.Page.ShowNoResults | bizmatch.js:124-146 | the placeholder is present exactly when the count is 0; there is never more than one, and a positive count removes it |
| ListingsPage.Page.FilterListings | bizmatch.js:24-90 | afterwards the display agrees with the filter panel: each card is shown exactly when it matches, the counter holds the number shown, and the placeholder is present exactly when that number is 0; the listings, their order and the controls are unchanged |
| ListingsPage.Page.SortListings | bizmatch.js:93-121 | the cards are reordered into the stable order for the selected key; this is a permutation that keeps each card's displayed state and the visible count, so a display that agreed with the filter panel still does |
| ListingsPage.Page.ChangeSort | bizmatch.js:175-178 | after a sort change the listings are in the new key's order and the display agrees with the filter panel again |
| ListingsPage.Page.ChangeIndustry | bizmatch.js:172 | choosing an industry refilters: the display agrees with the new selection, and the order and other controls are unchanged |
| ListingsPage.Page.TogglePrice | bizmatch.js:173 | toggling a price box refilters with the new box state |
| ListingsPage.Page.ToggleLocation | bizmatch.js:174 | toggling a location box refilters with the new box state |
| ListingsPage.Page.ClearControls | bizmatch.js:150-153 | the industry is unset, every box is unchecked, and the sort selector is 'featured', so the selection filters nothing out; a cleared panel is left unchanged |
| ListingsPage.Page.ShowAndSortAll | bizmatch.js:155-163 | all cards are displayed, counted and ordered featured first, each group keeping its order; cards already so are unchanged |
| ListingsPage.Page.ResetFilters | bizmatch.js:149-169 | the reset state is reached: controls cleared, sort 'featured', every card displayed, featured cards first in stable order, the count is the number of cards, and no placeholder; the display agrees with the filter panel; resetting a reset page changes nothing, so reset is idempotent |
| Sorting.ParseSortKey | bizmatch.js:100-113 | 'price-low', 'price-high' and 'newest' select their own comparator; every other value selects the featured-first comparator |
| Sorting.Compare | bizmatch.js:96-115 | between listings the key orders consistently, the comparator is the difference of their ranks; a price difference with NaN compares equal |
| Sorting.Insert | bizmatch.js:96-115 | inserting a card into the sorted rest adds one card, the inserted one |
| Sorting.SortBy | bizmatch.js:96-115 | the stable sort keeps the number of cards (its order, permutation and stability are the lemmas below) |
| Sorting.InsertPermutes | bizmatch.js:96-115 | inserting a card adds exactly that card |
| Sorting.SortPermutes | bizmatch.js:96-115 | sorting is a permutation of the cards |
| Sorting.SameElementsRanked | bizmatch.js:97-98 | a permutation of cards with numeric prices still has only numeric prices |
| Sorting.InsertSorted | bizmatch.js:96-115 | inserting into a sorted sequence keeps it sorted |
| Sorting.SortedCons | bizmatch.js:96-115 | a card ranked no later than every card of a sorted sequence can go in front of it |
| Sorting.SortSorted | bizmatch.js:96-115 | under a consistent comparator the result is sorted by rank |
| Sorting.InsertStable | bizmatch.js:96-115 | inserting keeps the relative order of equal-ranked cards |
| Sorting.SortStable | bizmatch.js:96-115 | the sort is stable: the cards of each rank keep their relative order |
| Sorting.PriceLowOrder | bizmatch.js:101-102 | under 'price-low' the result is a permutation with non-decreasing prices |
| Sorting.PriceHighOrder | bizmatch.js:103-104 | under 'price-high' the result is a permutation with non-increasing prices |
| Sorting.SortOfSorted | bizmatch.js:96-115 | sorting an already sorted sequence leaves it unchanged |
| Sorting.SortIdempotent | bizmatch.js:96-115 | sorting twice is the same as sorting once |
| Sorting.NewestKeepsOrder | bizmatch.js:105-107 | under 'newest' the order is unchanged |
| Sorting.InsertNotFeatured | bizmatch.js:108-113 | a card without the badge goes after all featured cards and before the other unbadged ones |
| Sorting.InsertFeatured | bizmatch.js:108-113 | a featured card goes in front |
| Sorting.FeaturedAreFeatured | bizmatch.js:111-112 | the featured group holds only featured cards, the other group only unbadged ones, and together they account for every card |
| Sorting.FeaturedFirstOrder | bizmatch.js:108-113 | featured-first order is every featured card, then every other card, each group in its previous order |
| Sorting.SortKeepsVisibleCount | bizmatch.js:117-120 | sorting never changes how many cards are displayed |
| Sorting.InsertKeepsVisibleCount | bizmatch.js:117-120 | inserting a card adds its own displayed state to the count |
| Modal.InterestModal.constructor | bizmatch.js:243-247 | the dialog as the markup renders it: closed (no 'active' class, the state closing leaves) with scrolling enabled |
| Modal.InterestModal.Open | bizmatch.js:234-241 | the dialog is open and shows the given business name, page scrolling is locked, and the dialog's other classes are kept |
| Modal.InterestModal.Close | bizmatch.js:243-247 | the dialog is closed and scrolling restored whatever the state before; closing a closed dialog changes nothing |
| Modal.InterestModal.Submit | bizmatch.js:249-261 | submitting returns the acknowledgement text and leaves the dialog closed |
| Modal.InterestModal.KeyDown | bizmatch.js:264-268 | Escape closes the dialog, which is a no-op when it is already closed; any other key changes nothing |
| PriceFormat.Digits | bizmatch.js:276 | the decimal string of a natural number is non-empty and all digits; 0 is written "0", and any other number has no leading zero |
| PriceFormat.DigitsValue | bizmatch.js:276 | reading the decimal string back gives the number |
| PriceFormat.Strip | bizmatch.js:276 | deleting commas leaves no comma |
| PriceFormat.NumberToString | bizmatch.js:276 | `toString` of an integer: non-empty, a minus sign exactly for a negative price, then only digits |
| PriceFormat.NotBoundary | bizmatch.js:276 | `\B` before a word character needs a word character in front of it; at the end of the string it needs a non-word character (or nothing) in front |
| PriceFormat.GroupsAhead | bizmatch.js:276 | the lookahead only holds in front of a digit |
| PriceFormat.CommaAt | bizmatch.js:276 | the pattern only matches strictly inside the string, in front of a digit that has a word character before it |
| PriceFormat.CommasOnlyInserted | bizmatch.js:276 | the global replacement (`CommasUpTo`) only inserts commas: deleting them gives what deleting them from the input gives |
| PriceFormat.InsertCommas | bizmatch.js:276 | `replace(..., ',')` only inserts commas into the string |
| PriceFormat.FormatPrice | bizmatch.js:275-277 | the result starts with '$', and deleting its commas after the '$' gives back `price.toString()` |
| PriceFormat.DigitRun | bizmatch.js:276 | the run of digits from a position is all digits and is followed by the end or a non-digit |
| PriceFormat.GroupsAheadRun | bizmatch.js:276 | the lookahead `(?=(\d{3})+(?!\d))` holds exactly when the digit run ahead has a positive length that is a multiple of 3 |
| PriceFormat.CommaAtDigits | bizmatch.js:276 | in a digit string the pattern matches at an inner position exactly when a multiple of three digits follows it |
| PriceFormat.InsertCommasDigits | bizmatch.js:276 | on a digit string the global replacement yields a comma before each complete group of three digits from the right |
| PriceFormat.CommasUpToShift | bizmatch.js:276 | a leading minus sign is kept and does not affect where commas go |
| PriceFormat.FormatPriceGroups | bizmatch.js:275-277 | the result is '$', then a minus sign for a negative price, then its digits grouped by three from the right |
| PriceFormat.GroupStrip | bizmatch.js:276 | deleting the commas from the grouping gives the digits back |
| PriceFormat.GroupEnds | bizmatch.js:276 | the grouping begins and ends with a digit, so there is no leading or trailing comma |
| PriceFormat.FormatPriceRoundTrip | bizmatch.js:275-277 | for a natural number, the result is '$' and the grouped digits; deleting the commas gives the decimal string, which reads back as the number; there is no leading or trailing comma |
| Scenarios.RangeBoundaries | bizmatch.js:47-54 | 100000 is in '100k-500k' and not '0-100k'; 5000000 is in '5m+' and not '1m-5m'; a NaN price fails each of the five named ranges; the unnamed label 'any' passes both a NaN price and 100000 (the general statements are `Listings.MatchesRange`'s) |
| Scenarios.IndustryScenario | bizmatch.js:38-41 | with industry 'retail' the two retail listings are shown and the food listing is hidden, and the count of shown cards is 2 |
| Scenarios.PriceScenario | bizmatch.js:44-59 | with only '5m+' checked, only the 6000000 listing is shown |
| Scenarios.PriceLowScenario | bizmatch.js:101-102 | 'price-low' orders prices 150000, 50000, 6000000 as 50000, 150000, 6000000 |
| Scenarios.FeaturedScenario | bizmatch.js:108-113 | 'featured' moves the featured middle card to the front and keeps the other two in order |
| Scenarios.FormatScenario | bizmatch.js:275-277 | 1250000 is formatted as "$1,250,000" |

## Left out

- Animations and timers: the opacity and transform styles and the
  `setTimeout` delays when filtering and resetting. A card's displayed state
  is the value each handler sets at once.
- The hide timer race: hiding a card sets `display = 'none'` only after
  300 ms, and nothing cancels that timer. If a later filter or a reset shows
  the card again within those 300 ms, the card ends up hidden while
  `resultsCount` still counts it. `Page.FilterListings` and
  `Page.ResetFilters` (`Agrees`, `IsReset`) assume that no such timer is
  pending.
- The scroll-in animation (IntersectionObserver) and smooth scrolling for
  anchors: these are browser effects with no logic to verify.
- Element lookups and listener registration: controls and cards are fields
  of `Page`, and each registered handler is a method.
- `parseInt` on the price attribute: the price is given already parsed, as
  an `Option<int>` (`None` for NaN). Prefix parsing of strings such as
  "12abc" is not modelled.
- Fractional prices: the model's prices are integers.
- `formatPrice` on numbers whose `toString` uses exponent notation or rounds
  (magnitude 1e21 and beyond, and non-integers): the model covers integer
  prices written in plain decimal.
- `submitInterest`: `preventDefault`, the collected `FormData` (which is
  never sent) and the form reset are not modelled. The alert is modelled as
  the returned acknowledgement text.
- `searchListings`: it is never called, and it depends on Unicode case
  folding and element queries.
- Where cards go in the grid: re-appending each card moves it to the end, so
  the grid holds the cards in `allListings` order. Where the placeholder sits
  among them is not modelled. It is kept as a count of placeholders.
- Sorting.SortBy: under 'price-low' or 'price-high' with some NaN prices the
  comparator is not a consistent ordering, and the engine's order is then
  implementation-defined. The model fixes it to the stable insertion order,
  and the ordering lemmas require numeric prices (`AllRanked`).
- The modal's form fields and the dialog's other markup are not modelled.
