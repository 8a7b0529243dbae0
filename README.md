# Smart-Cart storefront: verified model of the recommendation rules

This project models the decision logic of a small storefront. The storefront has a Flask back end and two front-end pages.

- **Back end (`data/app.py`)**: module `Recommender` in `recommender.dfy`.
  - Four recommendation rules, each over the product table (`products`) and the per-user behaviour history (`user_behavior`):
    - collaborative filtering;
    - same category as the last purchase;
    - a laptop in the cart;
    - time of day.
  - The `/cart` lookup.
  - The `/track_behavior` logger, which appends to the in-memory tables. The tables are the fields of the `Store` class.
  - The rules read the module-level tables; in the model those tables are passed as parameters.
- **Product detail page (`Templates/js/product.js`)**: module `ProductPage` in `product_page.dfy`.
  - The five-slot star rating.
  - The stock-status line.
  - The original price and discount badge.
  - The quantity stepper, modelled as the `QuantityInput` class.
  - The recommended-products list.
- **Dashboard (`Templates/js/dashboard.js`)**: module `Dashboard` in `dashboard.dfy`.
  - Category filtering.
  - The three section feeds, one of them cut to four products.
  - The two-step rendering of a recommendation section: a skeleton first, then the empty-state block or one card per product.
  - The cart counters.
  - The time-of-day labels.
- **Shared pieces**: module `Common` in `common.dfy`.
  - An order-preserving filter, characterised independently by "order-preserving subsequence, every element passes, as many as pass". `FilterUnique` proves that this characterisation determines the filter.
  - A bounded prefix.
  - `Option`.

## Units and representation

- **Numbers**:
  - prices are integer cents;
  - ratings are integer tenths of a star;
  - match scores are integer percent.
- **Screen content**: cards are records and a container's content is a datatype value (`PageMarkup`, `Skeleton`, `NoRecommendations`, `CardGrid`), not HTML strings.
- **Errors from the back end**:
  - a Python `KeyError` is `Err(KeyError(key))`;
  - the `/cart` 400 response is `Err(HttpError(400, "Missing user_id"))`.
- **JavaScript truthiness** is written out:
  - an original price or match score that is absent or 0 is false;
  - a category that is absent or `""` is false;
  - text that `parseInt` reads as NaN is `None`.
- **Similarity**: `collaborative_filtering` compares the *square* of `|T∩O| / sqrt(|T|·|O| + 1e-6)`, computed exactly as a `real`. Both sides are non-negative, so the square picks the same most-similar user.

## Where the code and its description differ

The model follows the code in each case.

- A dashboard card shows a match badge only when `matchScore` is truthy. A score of 0 therefore shows no badge, even though it is present (`Templates/js/dashboard.js:121`).
- `renderRecommendationSection` takes a `title` argument but never uses it (`Templates/js/dashboard.js:95-147`). The model has no title.
- `cart_based` evaluates `products[p]` on every cart id up to the first laptop. An unknown id met before a laptop raises `KeyError` (`data/app.py:49`). The model returns that error rather than skipping the id.
- `content_based` fails with `KeyError` when the last purchased id is not in the product table (`data/app.py:42`).

## Model

| member | source | states |
|---|---|---|
| Common.Filter | Templates/js/dashboard.js:92 | the result is an order-preserving subsequence of the input; every element passes the test; its length is the number of passing inputs; it holds exactly the passing elements |
| Common.FilterUnique | Templates/js/dashboard.js:92 | any order-preserving subsequence of passing elements that is as long as the number of passing inputs is the filter's result |
| Common.Take | Templates/js/dashboard.js:87 | `slice(0, n)` / `[:n]`: the first min(length, n) elements, unchanged |
| Recommender.Lookup | data/app.py:42 | `products[id]` is absent exactly when no entry has that id; when found, the entry is in the table |
| Recommender.LookupFindsEntry | data/app.py:42 | with distinct product ids (dictionary keys), `products[id]` is `p` exactly when `(id, p)` is an entry of the table |
| Recommender.Purchases | data/app.py:38 | an id is purchased exactly when some purchase event of the history names it |
| Recommender.PurchasesInOrder | data/app.py:38 | the purchased list is the products of the purchase events, in history order with repeats kept |
| Recommender.LastPurchase | data/app.py:39-41 | `purchased[-1]`: none iff the history has no purchase event; otherwise the product of a purchase event with no purchase event after it |
| Recommender.ContentBased | data/app.py:37-44 | an unknown user raises KeyError for the user; no purchase gives `[]`; it fails exactly for an unknown user or a last purchase missing from the table, and then with KeyError for that product; at most 5 ids |
| Recommender.ContentBasedSameCategory | data/app.py:41-44 | when the last purchase is in the table: every id has that product's category and differs from it; ids are in table order; the result is the first min(5, n) of the n matching products |
| Recommender.AnyLaptop | data/app.py:49 | true iff a laptop (lower-cased name containing "laptop") comes before any unknown id; KeyError iff an unknown id comes before any laptop, naming the first unknown id; with all ids known, true iff the cart holds a laptop |
| Recommender.CartBased | data/app.py:46-51 | `["p2","p3"]` iff a laptop comes before any unknown cart id; KeyError iff an unknown id comes first, naming a cart id; otherwise `[]`; with all ids known, `["p2","p3"]` iff the cart holds a laptop |
| Recommender.TimeBased | data/app.py:53-59 | `["coffee1"]` iff 5 ≤ hour < 12; `["snack1"]` iff 18 ≤ hour < 23; `[]` iff the hour is in neither range |
| Recommender.SimilarityBounds | data/app.py:26-29 | the (squared) similarity is never negative, and zero exactly when the two users bought nothing in common |
| Recommender.SimilaritySymmetric | data/app.py:27-29 | the similarity of two purchase sets does not depend on their order |
| Recommender.FirstMaxIndexIsFirstMaximum | data/app.py:32 | `max(scores, key=scores.get)`: the chosen score is the greatest, and every earlier score is strictly smaller (the first maximum wins) |
| Recommender.TopUser | data/app.py:31-32 | there is a top user iff some user other than the target exists, and it is one of those users |
| Recommender.TopUserIsMostSimilar | data/app.py:22-32 | there is no top user iff the target is the only user; the top user is never the target; it is at least as similar as every other user and strictly more similar than every user before it |
| Recommender.ScoreOthers | data/app.py:22-30 | the scores dict holds one (user, similarity) pair per user other than the target, in user order |
| Recommender.FirstMax | data/app.py:32 | the loop picks the index of the first greatest score |
| Recommender.TakeFromSet | data/app.py:34 | `list(s)[:n]`: min(size, n) distinct elements, all from the set |
| Recommender.CollaborativeFiltering | data/app.py:20-35 | an unknown user raises KeyError; no other user gives `[]`; otherwise at most 5 distinct ids, each bought by the most similar user and not by the target; exactly min(#unseen, 5) of them |
| Recommender.GetCart | data/app.py:112-118 | a missing or empty user_id is an error with status 400, and only then |
| Recommender.CartItems | data/app.py:117 | one line per cart id found in the table; every line's id is in the cart and carries that id's product record |
| Recommender.CartItemsAreKnownCartIds | data/app.py:116-117 | the cart lines' ids are exactly the cart ids present in the product table, in cart order with duplicates kept; each line carries that id's product record |
| Recommender.GetCartReturnsKnownItems | data/app.py:113-118 | with a user id, `/cart` succeeds with one line per known cart id, in cart order, each tagged with its id and product |
| Recommender.Store.constructor | data/app.py:10-17 | the loaded tables, with distinct product ids, `users` the keys of `user_behavior`, and every cart empty |
| Recommender.Store.TrackBehavior | data/app.py:96-105 | an unknown user raises KeyError and changes nothing; otherwise exactly one `{action, product}` event is appended to that user's history; the user's cart grows by the product iff the action is `add_to_cart`; no other user's history or cart changes; the result is "logged" |
| ProductPage.StarRow | Templates/js/product.js:96-104 | exactly five icons, full before half before empty |
| ProductPage.RenderStars | Templates/js/product.js:91-107 | the loop emits five icons and they are the star row of the rating |
| ProductPage.StarRowFullCount | Templates/js/product.js:92-98 | the number of full stars is floor(rating) clamped to 0..5 |
| ProductPage.StarRowHalfStar | Templates/js/product.js:93-100 | a half star sits in slot floor(rating)+1 iff the fractional part is at least one half; there is at most one |
| ProductPage.StockStatusOf | Templates/js/product.js:81-88 | "In Stock" iff stock > 5; "Only N left!" with N = stock iff 1 ≤ stock ≤ 5; "Out of Stock" iff stock ≤ 0 |
| ProductPage.PriceTagsOf | Templates/js/product.js:55-62 | the original price and the discount badge are shown iff the original price is truthy; the badge shows the rounded discount; the price is always shown |
| ProductPage.DiscountPercent | Templates/js/product.js:57 | the badge value is the integer nearest to the percentage taken off the original price, halves rounded up |
| ProductPage.DiscountWithinPercent | Templates/js/product.js:57 | a sale price between 0 and the original price gives a rounded discount between 0% and 100%; an unchanged price gives 0% |
| ProductPage.Step | Templates/js/product.js:192-198 | NaN stays as it is; decrement iff minus and value > 1; otherwise increment iff plus and value < 10; otherwise the value is unchanged; a value in 1..10 stays in 1..10 |
| ProductPage.QuantityInput.Click | Templates/js/product.js:190-199 | the input's new value is one stepper step from its old value, and a value in 1..10 stays in 1..10 |
| ProductPage.RecommendedCards | Templates/js/product.js:160-184 | one card per product, in order, each with that product's id and name |
| ProductPage.RenderRecommendedProducts | Templates/js/product.js:156-185 | no container: nothing changes; otherwise the container shows one card per product |
| Dashboard.FilterProducts | Templates/js/dashboard.js:90-93 | no category (absent or empty): the list itself; otherwise an order-preserving subsequence of that category with every such product |
| Dashboard.FilterProductsExactly | Templates/js/dashboard.js:92 | with a category, a list is the result iff it is an order-preserving subsequence, all of that category, as long as the number of such products |
| Dashboard.SectionFeeds | Templates/js/dashboard.js:85-87 | the electronics and fitness feeds are the category filter of the products, so each holds every product of its category and no other; the location feed is the first min(n, 4) products |
| Dashboard.CardFor | Templates/js/dashboard.js:118-146 | a card has a match badge iff the match score is truthy, and the badge shows that score; the title and both button ids are the product's |
| Dashboard.FinalView | Templates/js/dashboard.js:107-147 | the empty-state block iff the list is empty; otherwise exactly one card per product, in order |
| Dashboard.CurrentCount | Templates/js/dashboard.js:187 | the count is the parsed number; it is 0 exactly for text that is NaN or reads 0 |
| Dashboard.RenderRecommendationSection | Templates/js/dashboard.js:95-104 | a missing element id changes nothing; otherwise that container, and only it, shows the skeleton |
| Dashboard.CompleteRecommendationSection | Templates/js/dashboard.js:107-147 | after the delayed step the container shows the final view of the product list |
| Dashboard.UpdateCartCount | Templates/js/dashboard.js:184-192 | every counter becomes its previous integer value plus one, with non-numeric text counted as 0 |
| Dashboard.DayPartOf | Templates/js/dashboard.js:216-222 | "Morning" iff hour < 12; "Afternoon" iff 12 ≤ hour < 18; "Evening" iff hour ≥ 18 |
| Dashboard.UpdateTimeElements | Templates/js/dashboard.js:216-227 | every time-of-day label shows the bucket of the given hour |

## Left out

- Flask routing, `render_template`, `jsonify`, request parsing, `/recommendations` and `/products` (`data/app.py:64-109`) are framework glue. The routes' logic is modelled through the functions they call.
- Loading `products.json` and `user_behavior.json` at import is file I/O. The `Store` constructor takes the loaded tables.
- Only `name` and `category` of a product record are modelled. Cart lines carry that record. The JSON's other fields are not read by the rules.
- `datetime.now().hour`, `new Date().getHours()` and `URLSearchParams` read the clock and the URL. The hour is a parameter.
- Recommender.CollaborativeFiltering: the order of `list(set)` is unspecified in Python, so only the size, distinctness and membership of the result are stated, not its order.
- Recommender.TakeFromSet: states no order for the same reason.
- Recommender.ScoreOthers: the similarity is compared exactly, squared and as a real number. Floating-point rounding of the division and the square root is not modelled.
- ProductPage.DiscountWithinPercent: `Math.round` of a floating-point quotient is computed exactly on integer cents. Float rounding near .5 is not modelled.
- `toFixed(2)`, `Math.round(matchScore * 100)` and `formatPrice` with `Intl.NumberFormat` are floating-point or library formatting. Prices are cents and match scores whole percents.
- Ratings are multiples of a tenth.
- Recommender.Lower: lower-cases ASCII letters only. Python's `str.lower` on the rest of Unicode is not modelled.
- Reading `user_carts[user_id]` on a `defaultdict` inserts an empty list for a new user. Nobody can observe that insertion, so it is not modelled.
- A missing `user_id`, `action` or `product_id` in the JSON body of `/track_behavior` (Python `None`) is not modelled. These are strings in the model.
- Recommender.Store.TrackBehavior: `user_behavior[None]` for a missing user_id is not modelled. It raises `KeyError` like any other unknown user.
- `setTimeout` delays, the 30 s and 60 s `setInterval` timers, fade and bounce animations, toasts and `console.log` are timers and presentation. The 800 ms render step is the separate call `CompleteRecommendationSection`.
- Gallery thumbnail swapping, wishlist toggling, `addToCart`/`showQuickView` click glue and the HTML markup strings are presentation only.
- `Templates/js/main.js` is not part of this model: dark mode, price formatting, ripples, toasts, debounce and its own greeting bucket.
