/** The decision rules of the product detail page (Templates/js/product.js):
    the five-slot star rating, the stock-status line, the discount badge, the
    quantity stepper and the recommended-products list. Ratings are held in
    tenths of a star, prices in cents; cards are records rather than markup. */
module ProductPage {
  import opened Common

  // ---------------------------------------------------------------------
  // renderStars
  // ---------------------------------------------------------------------

  datatype Star = Full | Half | Empty

  const STAR_SLOTS: nat := 5

  /** `Math.floor(rating)`; Dafny's division by a positive divisor floors. */
  function FullStars(ratingTenths: int): int
  {
    ratingTenths / 10
  }

  /** `rating % 1 >= 0.5`. JavaScript's remainder takes the sign of the
      rating, so a negative rating never earns a half star. */
  predicate HasHalfStar(ratingTenths: int)
  {
    ratingTenths >= 0 && ratingTenths % 10 >= 5
  }

  /** The icon in slot `i` (1 to 5) of the loop in `renderStars`. */
  function StarAt(ratingTenths: int, i: int): Star
  {
    if i <= FullStars(ratingTenths) then Full
    else if i == FullStars(ratingTenths) + 1 && HasHalfStar(ratingTenths) then Half
    else Empty
  }

  /** The whole row of icons, slot 1 first: five icons, full before half
      before empty. */
  function StarRow(ratingTenths: int): (r: seq<Star>)
    ensures |r| == STAR_SLOTS
    ensures forall i, j :: 0 <= i < j < STAR_SLOTS ==> Rank(r[i]) >= Rank(r[j])
  {
    seq(STAR_SLOTS, i requires 0 <= i < STAR_SLOTS => StarAt(ratingTenths, i + 1))
  }

  /** `renderStars`: accumulates one icon per slot. */
  method RenderStars(ratingTenths: int) returns (stars: seq<Star>)
    ensures |stars| == STAR_SLOTS
    ensures stars == StarRow(ratingTenths)
  {
    stars := [];
    var i := 1;
    while i <= STAR_SLOTS
      invariant 1 <= i <= STAR_SLOTS + 1
      invariant |stars| == i - 1
      invariant forall k :: 0 <= k < i - 1 ==> stars[k] == StarAt(ratingTenths, k + 1)
    {
      if i <= FullStars(ratingTenths) {
        stars := stars + [Full];
      } else if i == FullStars(ratingTenths) + 1 && HasHalfStar(ratingTenths) {
        stars := stars + [Half];
      } else {
        stars := stars + [Empty];
      }
      i := i + 1;
    }
  }

  function IsFull(s: Star): bool { s == Full }
  function IsHalf(s: Star): bool { s == Half }

  /** Full before half before empty. */
  function Rank(s: Star): nat
  {
    match s
    case Full => 2
    case Half => 1
    case Empty => 0
  }

  /** If exactly the first `k` elements satisfy `p`, then `k` elements do. */
  lemma {:induction false} CountLeadingRun<T>(s: seq<T>, p: T -> bool, k: nat)
    requires k <= |s|
    requires forall i :: 0 <= i < k ==> p(s[i])
    requires forall i :: k <= i < |s| ==> !p(s[i])
    ensures Count(s, p) == k
    decreases |s|
  {
    if s != [] {
      CountLeadingRun(s[1..], p, if k == 0 then 0 else k - 1);
    }
  }

  /** The number of full stars is floor(rating), clamped to 0..5. */
  lemma StarRowFullCount(ratingTenths: int)
    ensures Count(StarRow(ratingTenths), IsFull) ==
      if FullStars(ratingTenths) < 0 then 0
      else if FullStars(ratingTenths) > STAR_SLOTS then STAR_SLOTS
      else FullStars(ratingTenths)
  {
    var full := FullStars(ratingTenths);
    var k: nat := if full < 0 then 0 else if full > STAR_SLOTS then STAR_SLOTS else full;
    CountLeadingRun(StarRow(ratingTenths), IsFull, k);
  }

  /** A half star appears only in slot floor(rating)+1, only when the
      fractional part is at least one half, and at most once. */
  lemma StarRowHalfStar(ratingTenths: int)
    ensures forall i :: 0 <= i < STAR_SLOTS ==>
      (StarRow(ratingTenths)[i] == Half <==> i == FullStars(ratingTenths) && HasHalfStar(ratingTenths))
    ensures Count(StarRow(ratingTenths), IsHalf) <= 1
  {
    var row := StarRow(ratingTenths);
    var full := FullStars(ratingTenths);
    if 0 <= full < STAR_SLOTS && HasHalfStar(ratingTenths) {
      CountSingle(row, IsHalf, full);
    } else {
      CountLeadingRun(row, IsHalf, 0);
    }
  }

  /** If only position `k` satisfies `p`, exactly one element does. */
  lemma {:induction false} CountSingle<T>(s: seq<T>, p: T -> bool, k: nat)
    requires k < |s|
    requires forall i :: 0 <= i < |s| ==> (p(s[i]) <==> i == k)
    ensures Count(s, p) == 1
    decreases |s|
  {
    if k == 0 {
      CountLeadingRun(s[1..], p, 0);
    } else {
      CountSingle(s[1..], p, k - 1);
    }
  }

  // ---------------------------------------------------------------------
  // Stock status
  // ---------------------------------------------------------------------

  datatype StockStatus = InStock | OnlyLeft(count: int) | OutOfStock

  /** The stock-status branch of `renderProductDetails`. */
  function StockStatusOf(stock: int): (r: StockStatus)
    ensures r == InStock <==> stock > 5
    ensures r.OnlyLeft? <==> 0 < stock <= 5
    ensures r.OnlyLeft? ==> r.count == stock
    ensures r == OutOfStock <==> stock <= 0
  {
    if stock > 5 then InStock
    else if stock > 0 then OnlyLeft(stock)
    else OutOfStock
  }

  // ---------------------------------------------------------------------
  // Discount badge
  // ---------------------------------------------------------------------

  /** What the price block shows: the price, the struck-through original
      price and the discount badge, each None when hidden. */
  datatype PriceTags = PriceTags(price: int, originalPrice: Option<int>, discountPercent: Option<int>)

  /** JavaScript truthiness of an optional number: absent and 0 are false. */
  predicate Truthy(amount: Option<int>)
  {
    amount.Some? && amount.value != 0
  }

  /** Floor of `a / b` for either sign of `b`. */
  function FloorDiv(a: int, b: int): (q: int)
    requires b != 0
    ensures b > 0 ==> q * b <= a < q * b + b
    ensures b < 0 ==> q * b >= a > q * b + b
  {
    if b > 0 then a / b else (-a) / (-b)
  }

  /** `Math.round((1 - price / originalPrice) * 100)` computed exactly: the
      integer nearest to the percentage taken off, halves rounded up. */
  function DiscountPercent(priceCents: int, originalCents: int): (r: int)
    requires originalCents != 0
    ensures (r as real) - 0.5 <= 100.0 * ((originalCents - priceCents) as real) / (originalCents as real) < (r as real) + 0.5
  {
    var n := 200 * (originalCents - priceCents) + originalCents;
    var d := 2 * originalCents;
    var q := FloorDiv(n, d);
    RealQuotientBounds(n, d, q);
    ShiftedQuotient(100.0 * ((originalCents - priceCents) as real), originalCents as real, n as real);
    q
  }

  /** `(200a + o) / (2o) = 100a / o + 1/2`, with `100a` written `t`. */
  lemma ShiftedQuotient(t: real, o: real, n: real)
    requires o != 0.0 && n == 2.0 * t + o
    ensures n / (2.0 * o) == t / o + 0.5
  {
    var y := t / o;
    assert y * o == t;
    assert (y + 0.5) * (2.0 * o) == n;
    QuotientUnique(n, 2.0 * o, y + 0.5);
  }

  /** The only number that times `d` gives `n` is `n / d`. */
  lemma QuotientUnique(n: real, d: real, z: real)
    requires d != 0.0 && z * d == n
    ensures z == n / d
  {
    assert (n / d) * d == n;
    assert (z - n / d) * d == 0.0;
  }

  /** An integer floor of `n / d` bounds the exact quotient. */
  lemma RealQuotientBounds(n: int, d: int, q: int)
    requires d != 0
    requires d > 0 ==> q * d <= n < q * d + d
    requires d < 0 ==> q * d >= n > q * d + d
    ensures q as real <= (n as real) / (d as real) < (q as real) + 1.0
  {
    if d > 0 {
      CastProduct(q, d);
      PositiveQuotientBounds(n as real, d as real, q as real);
    } else {
      CastProduct(q, -d);
      PositiveQuotientBounds(-n as real, -d as real, q as real);
      NegatedQuotient(n as real, d as real);
    }
  }

  lemma CastProduct(a: int, b: int)
    ensures (a * b) as real == (a as real) * (b as real)
  {
  }

  lemma NegatedQuotient(n: real, d: real)
    requires d != 0.0
    ensures (-n) / (-d) == n / d
  {
    assert (n / d) * d == n;
    assert (n / d) * (-d) == -n;
    QuotientUnique(-n, -d, n / d);
  }

  lemma PositiveQuotientBounds(n: real, d: real, q: real)
    requires d > 0.0 && q * d <= n < q * d + d
    ensures q <= n / d < q + 1.0
  {
    var x := n / d;
    assert x * d == n;
    assert (x - q) * d == n - q * d;
    FactorSign(x - q, d);
    assert (q + 1.0 - x) * d == q * d + d - n;
    FactorSign(q + 1.0 - x, d);
  }

  /** Multiplying by a positive number keeps the sign. */
  lemma FactorSign(a: real, b: real)
    requires b > 0.0
    ensures a * b >= 0.0 ==> a >= 0.0
    ensures a * b > 0.0 ==> a > 0.0
  {
    if a < 0.0 {
      assert (-a) * b > 0.0;
    }
  }

  /** The discount branch of `renderProductDetails`. */
  function PriceTagsOf(priceCents: int, originalCents: Option<int>): (r: PriceTags)
    ensures r.price == priceCents
    ensures r.originalPrice.Some? <==> Truthy(originalCents)
    ensures r.discountPercent.Some? <==> Truthy(originalCents)
    ensures r.originalPrice.Some? ==> r.originalPrice == originalCents
    ensures r.discountPercent.Some? ==> r.discountPercent.value == DiscountPercent(priceCents, originalCents.value)
  {
    if Truthy(originalCents) then
      PriceTags(priceCents, originalCents, Some(DiscountPercent(priceCents, originalCents.value)))
    else
      PriceTags(priceCents, None, None)
  }

  /** A sale price between nothing and the original price gives a discount
      between 0% and 100%; no markdown gives 0%. */
  lemma DiscountWithinPercent(priceCents: int, originalCents: int)
    requires 0 <= priceCents <= originalCents && originalCents > 0
    ensures 0 <= DiscountPercent(priceCents, originalCents) <= 100
    ensures priceCents == originalCents ==> DiscountPercent(priceCents, originalCents) == 0
  {
    var n := 200 * (originalCents - priceCents) + originalCents;
    var d := 2 * originalCents;
    assert DiscountPercent(priceCents, originalCents) == n / d;
    assert 0 < n < 101 * d;
    QuotientBelow(n, d, 101);
    if priceCents == originalCents {
      QuotientBelow(n, d, 1);
    }
  }

  /** A non-negative numerator below `k` times the divisor has a quotient below `k`. */
  lemma QuotientBelow(n: int, d: int, k: int)
    requires d > 0 && 0 <= n < k * d
    ensures 0 <= n / d < k
  {
    var q := n / d;
    assert q * d <= n;
    if q >= k {
      MultiplyMonotone(k, q, d);
    }
  }

  lemma MultiplyMonotone(a: int, b: int, d: int)
    requires a <= b && d >= 0
    ensures a * d <= b * d
  {
    assert b * d - a * d == (b - a) * d;
  }

  // ---------------------------------------------------------------------
  // Quantity stepper
  // ---------------------------------------------------------------------

  const MIN_QUANTITY := 1
  const MAX_QUANTITY := 10

  /** The classes of the clicked `.quantity-btn`. */
  datatype StepperButton = StepperButton(minus: bool, plus: bool)

  /** One click on the stepper. `None` is text that `parseInt` reads as NaN;
      every comparison with NaN is false, so it stays as it is. */
  function Step(value: Option<int>, button: StepperButton): (r: Option<int>)
    ensures value.None? ==> r == None
    ensures value.Some? ==> (r == Some(value.value - 1) <==> button.minus && value.value > MIN_QUANTITY)
    ensures value.Some? ==> (r == Some(value.value + 1) <==>
      !(button.minus && value.value > MIN_QUANTITY) && button.plus && value.value < MAX_QUANTITY)
    ensures (value.Some? && !(button.minus && value.value > MIN_QUANTITY) &&
             !(button.plus && value.value < MAX_QUANTITY)) ==> r == value
    ensures value.Some? && MIN_QUANTITY <= value.value <= MAX_QUANTITY ==>
      r.Some? && MIN_QUANTITY <= r.value <= MAX_QUANTITY
  {
    match value
    case None => None
    case Some(v) =>
      if button.minus && v > MIN_QUANTITY then Some(v - 1)
      else if button.plus && v < MAX_QUANTITY then Some(v + 1)
      else Some(v)
  }

  /** The `.quantity-input` element. */
  class QuantityInput {
    var value: Option<int>

    constructor (value: Option<int>)
      ensures this.value == value
    {
      this.value := value;
    }

    /** The click handler of a `.quantity-btn`. */
    method Click(button: StepperButton)
      modifies this
      ensures value == Step(old(value), button)
      ensures old(value).Some? && MIN_QUANTITY <= old(value).value <= MAX_QUANTITY ==>
        value.Some? && MIN_QUANTITY <= value.value <= MAX_QUANTITY
    {
      if value.Some? {
        var v := value.value;
        if button.minus && v > MIN_QUANTITY {
          value := Some(v - 1);
        } else if button.plus && v < MAX_QUANTITY {
          value := Some(v + 1);
        }
      }
    }
  }

  // ---------------------------------------------------------------------
  // renderRecommendedProducts
  // ---------------------------------------------------------------------

  datatype RecommendedProduct = RecommendedProduct(id: int, name: string, priceCents: int, image: string, ratingTenths: int)

  /** One recommendation card: image (alt text the name), title, price,
      rating and the add-to-cart button's product id. */
  datatype RecommendedCard = RecommendedCard(id: int, image: string, altText: string, title: string, priceCents: int, ratingTenths: int)

  function CardFor(p: RecommendedProduct): (c: RecommendedCard)
    ensures c.id == p.id && c.title == p.name && c.altText == p.name
  {
    RecommendedCard(p.id, p.image, p.name, p.name, p.priceCents, p.ratingTenths)
  }

  /** `products.map(...).join('')`. */
  function RecommendedCards(products: seq<RecommendedProduct>): (r: seq<RecommendedCard>)
    ensures |r| == |products|
    ensures forall i :: 0 <= i < |r| ==> r[i].id == products[i].id && r[i].title == products[i].name
  {
    if products == [] then [] else [CardFor(products[0])] + RecommendedCards(products[1..])
  }

  /** What the `.recommended-products` container shows. */
  datatype RecommendedView = PageMarkup | Cards(cards: seq<RecommendedCard>)

  class RecommendedContainer {
    var view: RecommendedView

    constructor ()
      ensures view == PageMarkup
    {
      view := PageMarkup;
    }
  }

  /** `renderRecommendedProducts`: no container, nothing happens; otherwise
      its content becomes one card per product, in order. */
  method RenderRecommendedProducts(container: RecommendedContainer?, products: seq<RecommendedProduct>)
    modifies container
    ensures container != null ==> container.view == Cards(RecommendedCards(products))
  {
    if container == null {
      return;
    }
    container.view := Cards(RecommendedCards(products));
  }
}
