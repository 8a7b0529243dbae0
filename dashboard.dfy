/** The decision rules of the dashboard page (Templates/js/dashboard.js):
    category filtering, the two-step rendering of a recommendation section,
    the cart counters and the time-of-day label. Prices are held in cents,
    ratings in tenths and match scores in whole percent; a section's content
    is a record rather than markup. */
module Dashboard {
  import opened Common

  /** A product as the dashboard's mock data describes it. */
  datatype DashProduct = DashProduct(
    id: int, name: string, priceCents: int, image: string,
    ratingTenths: int, category: string, matchPercent: Option<int>)

  // ---------------------------------------------------------------------
  // filterProducts and the section feeds
  // ---------------------------------------------------------------------

  /** JavaScript truthiness of an optional string: absent and "" are false. */
  predicate HasCategoryArgument(category: Option<string>)
  {
    category.Some? && category.value != ""
  }

  function InCategory(category: string): DashProduct -> bool
  {
    (p: DashProduct) => p.category == category
  }

  /** `filterProducts`: no category returns the list itself; otherwise the
      products of that category, in order. */
  function FilterProducts(products: seq<DashProduct>, category: Option<string>): (r: seq<DashProduct>)
    ensures !HasCategoryArgument(category) ==> r == products
    ensures HasCategoryArgument(category) ==>
      && IsSubsequence(r, products)
      && (forall i :: 0 <= i < |r| ==> r[i].category == category.value)
      && |r| == Count(products, InCategory(category.value))
  {
    if !HasCategoryArgument(category) then products
    else Filter(products, InCategory(category.value))
  }

  /** With a category, a list is the filter's result exactly when it is an
      order-preserving subsequence of the products, all of that category,
      and as long as the number of products of that category. */
  lemma FilterProductsExactly(products: seq<DashProduct>, category: string, r: seq<DashProduct>)
    requires category != ""
    ensures r == FilterProducts(products, Some(category)) <==>
      && IsSubsequence(r, products)
      && (forall i :: 0 <= i < |r| ==> r[i].category == category)
      && |r| == Count(products, InCategory(category))
  {
    if IsSubsequence(r, products) && (forall i :: 0 <= i < |r| ==> r[i].category == category)
       && |r| == Count(products, InCategory(category)) {
      FilterUnique(r, products, InCategory(category));
    }
  }

  const LOCATION_LIMIT: nat := 4

  /** The three lists `initRecommendationSections` renders: every
      electronics product, every fitness product, and the first four of all
      products for the location section. */
  function SectionFeeds(products: seq<DashProduct>): (r: (seq<DashProduct>, seq<DashProduct>, seq<DashProduct>))
    ensures r.0 == FilterProducts(products, Some("electronics"))
    ensures r.1 == FilterProducts(products, Some("fitness"))
    ensures forall i :: 0 <= i < |r.0| ==> r.0[i].category == "electronics"
    ensures forall i :: 0 <= i < |r.1| ==> r.1[i].category == "fitness"
    ensures |r.0| == Count(products, InCategory("electronics"))
    ensures |r.1| == Count(products, InCategory("fitness"))
    ensures |r.2| == Min(|products|, LOCATION_LIMIT)
    ensures r.2 == products[..|r.2|]
  {
    (FilterProducts(products, Some("electronics")),
     FilterProducts(products, Some("fitness")),
     Take(FilterProducts(products, None), LOCATION_LIMIT))
  }

  // ---------------------------------------------------------------------
  // renderRecommendationSection
  // ---------------------------------------------------------------------

  /** One product card: the match badge (a percentage, when shown), image
      with the name as alt text, title, price, rating, and the product id
      carried by the quick-view and add-to-cart buttons. */
  datatype DashCard = DashCard(
    matchBadge: Option<int>, image: string, altText: string, title: string,
    priceCents: int, ratingTenths: int, quickViewId: int, addToCartId: int)

  /** `product.matchScore ? ... : ''`: a missing score and a score of 0 show no badge. */
  predicate ShowsMatchBadge(p: DashProduct)
  {
    p.matchPercent.Some? && p.matchPercent.value != 0
  }

  function CardFor(p: DashProduct): (c: DashCard)
    ensures c.matchBadge.Some? <==> ShowsMatchBadge(p)
    ensures c.matchBadge.Some? ==> c.matchBadge.value == p.matchPercent.value
    ensures c.title == p.name && c.quickViewId == p.id && c.addToCartId == p.id
  {
    DashCard(
      if ShowsMatchBadge(p) then p.matchPercent else None,
      p.image, p.name, p.name, p.priceCents, p.ratingTenths, p.id, p.id)
  }

  /** What a section's container shows. */
  datatype SectionView =
    | PageMarkup
    | Skeleton
    | NoRecommendations
    | CardGrid(cards: seq<DashCard>)

  /** The content written by the delayed step. */
  function FinalView(products: seq<DashProduct>): (v: SectionView)
    ensures v == NoRecommendations <==> products == []
    ensures products != [] ==> v.CardGrid? && |v.cards| == |products|
    ensures products != [] ==> forall i :: 0 <= i < |products| ==> v.cards[i] == CardFor(products[i])
  {
    if |products| == 0 then NoRecommendations
    else CardGrid(seq(|products|, i requires 0 <= i < |products| => CardFor(products[i])))
  }

  /** A recommendation section's container element. */
  class Section {
    var view: SectionView

    constructor ()
      ensures view == PageMarkup
    {
      view := PageMarkup;
    }
  }

  /** First step of `renderRecommendationSection`: an id with no element
      does nothing; otherwise that element shows the skeleton and is returned
      for the delayed step. No other element changes. */
  method RenderRecommendationSection(page: map<string, Section>, elementId: string) returns (container: Section?)
    modifies if elementId in page then {page[elementId]} else {}
    ensures elementId !in page ==> container == null
    ensures elementId in page ==> container == page[elementId] && container.view == Skeleton
  {
    if elementId !in page {
      return null;
    }
    container := page[elementId];
    container.view := Skeleton;
  }

  /** The delayed step: the empty-state block for an empty list, otherwise
      one card per product, in order. */
  method CompleteRecommendationSection(container: Section, products: seq<DashProduct>)
    modifies container
    ensures container.view == FinalView(products)
  {
    if |products| == 0 {
      container.view := NoRecommendations;
      return;
    }
    container.view := CardGrid(seq(|products|, i requires 0 <= i < |products| => CardFor(products[i])));
  }

  // ---------------------------------------------------------------------
  // updateCartCount
  // ---------------------------------------------------------------------

  /** `parseInt(el.textContent) || 0`: `None` is text that reads as NaN.
      The count is the parsed number, and 0 exactly for NaN or a parsed 0. */
  function CurrentCount(text: Option<int>): (r: int)
    ensures text.Some? ==> r == text.value
    ensures r == 0 <==> text.None? || text == Some(0)
  {
    match text
    case Some(n) => n
    case None => 0
  }

  /** Every `.cart-count` element goes up by one from its current count. */
  method UpdateCartCount(counters: array<Option<int>>)
    modifies counters
    ensures forall i :: 0 <= i < counters.Length ==> counters[i] == Some(CurrentCount(old(counters[i])) + 1)
  {
    var i := 0;
    while i < counters.Length
      invariant 0 <= i <= counters.Length
      invariant forall k :: 0 <= k < i ==> counters[k] == Some(CurrentCount(old(counters[k])) + 1)
      invariant forall k :: i <= k < counters.Length ==> counters[k] == old(counters[k])
    {
      counters[i] := Some(CurrentCount(counters[i]) + 1);
      i := i + 1;
    }
  }

  // ---------------------------------------------------------------------
  // updateTimeElements
  // ---------------------------------------------------------------------

  datatype DayPart = Morning | Afternoon | Evening

  /** The hour bucket of `updateTimeElements`. */
  function DayPartOf(hour: int): (r: DayPart)
    ensures r == Morning <==> hour < 12
    ensures r == Afternoon <==> 12 <= hour < 18
    ensures r == Evening <==> 18 <= hour
  {
    if hour < 12 then Morning
    else if hour < 18 then Afternoon
    else Evening
  }

  function DayPartName(d: DayPart): string
  {
    match d
    case Morning => "Morning"
    case Afternoon => "Afternoon"
    case Evening => "Evening"
  }

  /** Every `.time-of-day` element shows the bucket of the given hour. */
  method UpdateTimeElements(labels: array<string>, hour: int)
    modifies labels
    ensures forall i :: 0 <= i < labels.Length ==> labels[i] == DayPartName(DayPartOf(hour))
  {
    var timeOfDay := DayPartName(DayPartOf(hour));
    var i := 0;
    while i < labels.Length
      invariant 0 <= i <= labels.Length
      invariant forall k :: 0 <= k < i ==> labels[k] == timeOfDay
    {
      labels[i] := timeOfDay;
      i := i + 1;
    }
  }
}
