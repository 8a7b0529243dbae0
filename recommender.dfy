/** The recommendation engine and behaviour log of the Flask back end
    (data/app.py): four recommendation rules over the product table and the
    per-user behaviour history, the cart lookup, and the in-memory tables that
    `track_behavior` appends to. The module-level tables that the Python
    functions read are passed to them as parameters; the tables that are
    updated in place are the fields of the `Store` class. */
module Recommender {
  import opened Common

  /** One entry of a user's behaviour history: `{"action": ..., "product": ...}`. */
  datatype Event = Event(action: string, product: string)

  /** The fields of a product record that the rules read. */
  datatype Product = Product(name: string, category: string)

  /** One `(pid, product)` pair of the product table, in table order. */
  datatype Entry = Entry(id: string, product: Product)

  /** A cart line returned by `/cart`: the product record tagged with its id. */
  datatype CartItem = CartItem(id: string, product: Product)

  /** A Python `KeyError`, or an HTTP error response. */
  datatype Failure = KeyError(key: string) | HttpError(status: nat, message: string)

  datatype Result<T> = Ok(value: T) | Err(failure: Failure)

  const PURCHASE := "purchase"
  const ADD_TO_CART := "add_to_cart"
  const MAX_RECOMMENDATIONS: nat := 5

  // ---------------------------------------------------------------------
  // Product table
  // ---------------------------------------------------------------------

  /** `products[id]`: the first entry with that id. The loaded table has
      distinct ids (they are dictionary keys); `Store.Valid` keeps that. */
  function Lookup(catalog: seq<Entry>, id: string): (r: Option<Product>)
    ensures r.None? <==> forall i :: 0 <= i < |catalog| ==> catalog[i].id != id
    ensures r.Some? ==> Entry(id, r.value) in catalog
  {
    if catalog == [] then None
    else if catalog[0].id == id then Some(catalog[0].product)
    else Lookup(catalog[1..], id)
  }

  /** `pid in products`, as a predicate value for Filter. */
  function InCatalog(catalog: seq<Entry>): string -> bool
  {
    (id: string) => Lookup(catalog, id).Some?
  }

  /** The ids of a run of entries, in order. */
  function Ids(entries: seq<Entry>): (r: seq<string>)
    ensures |r| == |entries|
    ensures forall i :: 0 <= i < |r| ==> r[i] == entries[i].id
  {
    seq(|entries|, i requires 0 <= i < |entries| => entries[i].id)
  }

  /** With distinct ids, `products[id]` is `p` exactly when `(id, p)` is an
      entry of the table. */
  lemma {:induction false} LookupFindsEntry(catalog: seq<Entry>, id: string, p: Product)
    requires Distinct(Ids(catalog))
    ensures Lookup(catalog, id) == Some(p) <==> Entry(id, p) in catalog
    decreases |catalog|
  {
    if catalog != [] {
      assert Ids(catalog[1..]) == Ids(catalog)[1..];
      LookupFindsEntry(catalog[1..], id, p);
    }
  }

  // ---------------------------------------------------------------------
  // Behaviour history
  // ---------------------------------------------------------------------

  function IsPurchase(e: Event): bool
  {
    e.action == PURCHASE
  }

  /** The products of a run of events, in order. */
  function Products(events: seq<Event>): (r: seq<string>)
    ensures |r| == |events|
    ensures forall i :: 0 <= i < |r| ==> r[i] == events[i].product
  {
    seq(|events|, i requires 0 <= i < |events| => events[i].product)
  }

  /** `[x["product"] for x in history if x["action"] == "purchase"]`. */
  function Purchases(history: seq<Event>): (r: seq<string>)
    ensures forall x :: x in r <==> exists e :: e in history && e.action == PURCHASE && e.product == x
  {
    if history == [] then []
    else
      var rest := Purchases(history[1..]);
      assert forall e :: e in history <==> e == history[0] || e in history[1..];
      if history[0].action == PURCHASE then [history[0].product] + rest else rest
  }

  /** The purchased list is the products of the purchase events, in history
      order, repeats kept. */
  lemma {:induction false} PurchasesInOrder(history: seq<Event>)
    ensures Purchases(history) == Products(Filter(history, IsPurchase))
    decreases |history|
  {
    if history != [] {
      PurchasesInOrder(history[1..]);
      if history[0].action == PURCHASE {
        assert Products([history[0]] + Filter(history[1..], IsPurchase))
            == [history[0].product] + Products(Filter(history[1..], IsPurchase));
      }
    }
  }

  /** `set(...)` of the purchases. */
  function PurchaseSet(history: seq<Event>): set<string>
  {
    set x | x in Purchases(history)
  }

  /** The product bought last (`purchased[-1]`): none without a purchase
      event, otherwise the product of the last purchase event. */
  function LastPurchase(history: seq<Event>): (r: Option<string>)
    ensures r.None? <==> forall i :: 0 <= i < |history| ==> history[i].action != PURCHASE
    ensures r.Some? ==> exists i :: 0 <= i < |history| && history[i] == Event(PURCHASE, r.value) &&
                           forall j :: i < j < |history| ==> history[j].action != PURCHASE
  {
    var purchased := Purchases(history);
    if purchased == [] then
      NoPurchaseEvents(history);
      None
    else
      PurchasesLast(history);
      Some(purchased[|purchased| - 1])
  }

  /** An empty purchased list means the history has no purchase event. */
  lemma {:induction false} NoPurchaseEvents(history: seq<Event>)
    requires Purchases(history) == []
    ensures forall i :: 0 <= i < |history| ==> history[i].action != PURCHASE
    decreases |history|
  {
    if history != [] {
      NoPurchaseEvents(history[1..]);
      forall i | 0 < i < |history|
        ensures history[i].action != PURCHASE
      {
        assert history[i] == history[1..][i - 1];
      }
    }
  }

  /** The last purchased product is the product of a purchase event with no
      purchase event after it. */
  lemma {:induction false} PurchasesLast(history: seq<Event>)
    requires Purchases(history) != []
    ensures var last := Purchases(history)[|Purchases(history)| - 1];
      exists i :: 0 <= i < |history| && history[i] == Event(PURCHASE, last) &&
        forall j :: i < j < |history| ==> history[j].action != PURCHASE
    decreases |history|
  {
    var purchased := Purchases(history);
    var last := purchased[|purchased| - 1];
    var rest := Purchases(history[1..]);
    if rest != [] {
      PurchasesLast(history[1..]);
      assert last == rest[|rest| - 1];
      var i :| 0 <= i < |history[1..]| && history[1..][i] == Event(PURCHASE, last) &&
        forall j :: i < j < |history[1..]| ==> history[1..][j].action != PURCHASE;
      assert history[i + 1] == Event(PURCHASE, last);
      forall j | i + 1 < j < |history|
        ensures history[j].action != PURCHASE
      {
        assert history[j] == history[1..][j - 1];
      }
    } else {
      assert history[0] == Event(PURCHASE, last);
      NoPurchaseEvents(history[1..]);
      forall j | 0 < j < |history|
        ensures history[j].action != PURCHASE
      {
        assert history[j] == history[1..][j - 1];
      }
    }
  }

  /** `user_carts[user_id]` on a `defaultdict(list)`: an absent user has an empty cart. */
  function CartOf(carts: map<string, seq<string>>, userId: string): seq<string>
  {
    if userId in carts then carts[userId] else []
  }

  /** `users = list(user_behavior.keys())`: every listed user has a history,
      every user with a history is listed once. */
  ghost predicate UsersOf(behavior: map<string, seq<Event>>, users: seq<string>)
  {
    Distinct(users) && forall u :: u in behavior <==> u in users
  }

  // ---------------------------------------------------------------------
  // content_based
  // ---------------------------------------------------------------------

  /** The test of the comprehension in `content_based`. */
  function SameCategoryAs(category: string, exclude: string): Entry -> bool
  {
    (e: Entry) => e.product.category == category && e.id != exclude
  }

  /** Up to five products of the category of the user's last purchase, other
      than that product, in product-table order. */
  function ContentBased(catalog: seq<Entry>, behavior: map<string, seq<Event>>, userId: string): (r: Result<seq<string>>)
    ensures userId !in behavior ==> r == Err(KeyError(userId))
    ensures userId in behavior && LastPurchase(behavior[userId]).None? ==> r == Ok([])
    ensures r.Err? <==>
      || userId !in behavior
      || (LastPurchase(behavior[userId]).Some? && Lookup(catalog, LastPurchase(behavior[userId]).value).None?)
    ensures (userId in behavior && LastPurchase(behavior[userId]).Some? &&
             Lookup(catalog, LastPurchase(behavior[userId]).value).None?) ==>
      r == Err(KeyError(LastPurchase(behavior[userId]).value))
    ensures r.Ok? ==> |r.value| <= MAX_RECOMMENDATIONS
  {
    if userId !in behavior then Err(KeyError(userId))
    else
      match LastPurchase(behavior[userId])
      case None => Ok([])
      case Some(last) =>
        match Lookup(catalog, last)
        case None => Err(KeyError(last))
        case Some(p) => Ok(Take(Ids(Filter(catalog, SameCategoryAs(p.category, last))), MAX_RECOMMENDATIONS))
  }

  /** Mapping to ids preserves the subsequence relation. */
  lemma {:induction false} IdsSubsequence(a: seq<Entry>, b: seq<Entry>)
    requires IsSubsequence(a, b)
    ensures IsSubsequence(Ids(a), Ids(b))
    decreases |b|
  {
    if a == [] {
    } else if a[0] == b[0] {
      IdsSubsequence(a[1..], b[1..]);
      assert Ids(a)[1..] == Ids(a[1..]);
      assert Ids(b)[1..] == Ids(b[1..]);
    } else {
      IdsSubsequence(a, b[1..]);
      assert Ids(b)[1..] == Ids(b[1..]);
      if a[0].id == b[0].id {
        SubsequenceDropHead(Ids(a), Ids(b[1..]));
        assert Ids(a)[1..] == Ids(a[1..]);
      }
    }
  }

  /** When the last purchase is in the table, content_based succeeds and
      returns products of the same category, never the last purchase itself,
      in table order: the first min(5, n) of the n matching products. */
  lemma ContentBasedSameCategory(catalog: seq<Entry>, behavior: map<string, seq<Event>>, userId: string, last: string, p: Product)
    requires userId in behavior && LastPurchase(behavior[userId]) == Some(last)
    requires Lookup(catalog, last) == Some(p)
    ensures ContentBased(catalog, behavior, userId).Ok?
    ensures var ids := ContentBased(catalog, behavior, userId).value;
      && (forall i :: 0 <= i < |ids| ==> ids[i] != last && exists e :: e in catalog && e.id == ids[i] && e.product.category == p.category)
      && IsSubsequence(ids, Ids(catalog))
      && |ids| == Min(MAX_RECOMMENDATIONS, Count(catalog, SameCategoryAs(p.category, last)))
      && ids == Ids(Filter(catalog, SameCategoryAs(p.category, last)))[..|ids|]
  {
    var matching := Filter(catalog, SameCategoryAs(p.category, last));
    var ids := ContentBased(catalog, behavior, userId).value;
    assert ids == Take(Ids(matching), MAX_RECOMMENDATIONS);
    forall i | 0 <= i < |ids|
      ensures ids[i] != last && exists e :: e in catalog && e.id == ids[i] && e.product.category == p.category
    {
      var e := matching[i];
      assert SameCategoryAs(p.category, last)(e);
      assert e in catalog;
    }
    PrefixIsSubsequence(Ids(matching), |ids|);
    assert ids == Ids(matching)[..|ids|];
    IdsSubsequence(matching, catalog);
    SubsequenceTransitive(ids, Ids(matching), Ids(catalog));
  }

  // ---------------------------------------------------------------------
  // cart_based
  // ---------------------------------------------------------------------

  function LowerChar(c: char): char
  {
    if 'A' <= c <= 'Z' then (c as int + 32) as char else c
  }

  /** `str.lower()` on ASCII letters. */
  function Lower(s: string): (r: string)
    ensures |r| == |s|
    ensures forall i :: 0 <= i < |s| ==> r[i] == LowerChar(s[i])
  {
    seq(|s|, i requires 0 <= i < |s| => LowerChar(s[i]))
  }

  /** Python's substring test `t in s`. */
  predicate Contains(s: string, t: string)
  {
    exists i | 0 <= i <= |s| - |t| :: OccursAt(s, t, i)
  }

  predicate OccursAt(s: string, t: string, i: nat)
    requires i + |t| <= |s|
  {
    s[i..i + |t|] == t
  }

  /** The product with this id is in the table and its name mentions a laptop. */
  predicate IsLaptop(catalog: seq<Entry>, id: string)
  {
    match Lookup(catalog, id)
    case None => false
    case Some(p) => Contains(Lower(p.name), "laptop")
  }

  /** Scanning the cart in order, a laptop is met while every id before it
      is in the table. */
  predicate LaptopReached(catalog: seq<Entry>, cart: seq<string>)
  {
    exists i :: 0 <= i < |cart| && IsLaptop(catalog, cart[i]) &&
                forall j :: 0 <= j < i ==> Lookup(catalog, cart[j]).Some?
  }

  /** Scanning the cart in order, an id missing from the table is met while
      no id before it is a laptop. */
  predicate UnknownReached(catalog: seq<Entry>, cart: seq<string>)
  {
    exists i :: 0 <= i < |cart| && Lookup(catalog, cart[i]).None? &&
                forall j :: 0 <= j < i ==> !IsLaptop(catalog, cart[j])
  }

  /** `any("laptop" in products[p]["name"].lower() for p in cart)`: true at
      the first laptop; an unknown id reached before any laptop raises
      KeyError for that id; false when the whole cart is known and holds no
      laptop. */
  function AnyLaptop(catalog: seq<Entry>, cart: seq<string>): (r: Result<bool>)
    ensures r == Ok(true) <==> LaptopReached(catalog, cart)
    ensures r.Err? <==> UnknownReached(catalog, cart)
    ensures r.Err? ==> exists i :: 0 <= i < |cart| && r.failure == KeyError(cart[i]) && Lookup(catalog, cart[i]).None? &&
                                   forall j :: 0 <= j < i ==> Lookup(catalog, cart[j]).Some? && !IsLaptop(catalog, cart[j])
    ensures (forall i :: 0 <= i < |cart| ==> Lookup(catalog, cart[i]).Some?) ==>
      r == Ok(exists i :: 0 <= i < |cart| && IsLaptop(catalog, cart[i]))
  {
    if cart == [] then Ok(false)
    else
      match Lookup(catalog, cart[0])
      case None => Err(KeyError(cart[0]))
      case Some(p) =>
        if Contains(Lower(p.name), "laptop") then Ok(true)
        else
          var rest := AnyLaptop(catalog, cart[1..]);
          ScanPastKnownItem(catalog, cart);
          rest
  }

  /** Past a known id that is not a laptop, the scan of the cart is the scan
      of the rest of it. */
  lemma ScanPastKnownItem(catalog: seq<Entry>, cart: seq<string>)
    requires cart != [] && Lookup(catalog, cart[0]).Some? && !IsLaptop(catalog, cart[0])
    ensures LaptopReached(catalog, cart) <==> LaptopReached(catalog, cart[1..])
    ensures UnknownReached(catalog, cart) <==> UnknownReached(catalog, cart[1..])
  {
    if LaptopReached(catalog, cart) {
      LaptopReachedInTail(catalog, cart);
    }
    if LaptopReached(catalog, cart[1..]) {
      LaptopReachedFromTail(catalog, cart);
    }
    if UnknownReached(catalog, cart) {
      UnknownReachedInTail(catalog, cart);
    }
    if UnknownReached(catalog, cart[1..]) {
      UnknownReachedFromTail(catalog, cart);
    }
  }

  lemma LaptopReachedInTail(catalog: seq<Entry>, cart: seq<string>)
    requires cart != [] && !IsLaptop(catalog, cart[0])
    requires LaptopReached(catalog, cart)
    ensures LaptopReached(catalog, cart[1..])
  {
    var tail := cart[1..];
    var i :| 0 <= i < |cart| && IsLaptop(catalog, cart[i]) && forall j :: 0 <= j < i ==> Lookup(catalog, cart[j]).Some?;
    assert tail[i - 1] == cart[i];
    forall j | 0 <= j < i - 1
      ensures Lookup(catalog, tail[j]).Some?
    {
      assert tail[j] == cart[j + 1];
    }
  }

  lemma LaptopReachedFromTail(catalog: seq<Entry>, cart: seq<string>)
    requires cart != [] && Lookup(catalog, cart[0]).Some?
    requires LaptopReached(catalog, cart[1..])
    ensures LaptopReached(catalog, cart)
  {
    var tail := cart[1..];
    var i :| 0 <= i < |tail| && IsLaptop(catalog, tail[i]) && forall j :: 0 <= j < i ==> Lookup(catalog, tail[j]).Some?;
    assert cart[i + 1] == tail[i];
    forall j | 1 <= j < i + 1
      ensures Lookup(catalog, cart[j]).Some?
    {
      assert cart[j] == tail[j - 1];
    }
  }

  lemma UnknownReachedInTail(catalog: seq<Entry>, cart: seq<string>)
    requires cart != [] && Lookup(catalog, cart[0]).Some?
    requires UnknownReached(catalog, cart)
    ensures UnknownReached(catalog, cart[1..])
  {
    var tail := cart[1..];
    var i :| 0 <= i < |cart| && Lookup(catalog, cart[i]).None? && forall j :: 0 <= j < i ==> !IsLaptop(catalog, cart[j]);
    assert tail[i - 1] == cart[i];
    forall j | 0 <= j < i - 1
      ensures !IsLaptop(catalog, tail[j])
    {
      assert tail[j] == cart[j + 1];
    }
  }

  lemma UnknownReachedFromTail(catalog: seq<Entry>, cart: seq<string>)
    requires cart != [] && !IsLaptop(catalog, cart[0])
    requires UnknownReached(catalog, cart[1..])
    ensures UnknownReached(catalog, cart)
  {
    var tail := cart[1..];
    var i :| 0 <= i < |tail| && Lookup(catalog, tail[i]).None? && forall j :: 0 <= j < i ==> !IsLaptop(catalog, tail[j]);
    assert cart[i + 1] == tail[i];
    forall j | 1 <= j < i + 1
      ensures !IsLaptop(catalog, cart[j])
    {
      assert cart[j] == tail[j - 1];
    }
  }

  /** A laptop in the cart triggers the two fixed accessory ids; the scan
      fails exactly when it meets an unknown id before any laptop. */
  function CartBased(catalog: seq<Entry>, carts: map<string, seq<string>>, userId: string): (r: Result<seq<string>>)
    ensures r == Ok(["p2", "p3"]) <==> LaptopReached(catalog, CartOf(carts, userId))
    ensures r.Err? <==> UnknownReached(catalog, CartOf(carts, userId))
    ensures r.Err? ==> exists i :: 0 <= i < |CartOf(carts, userId)| && r.failure == KeyError(CartOf(carts, userId)[i])
    ensures var cart := CartOf(carts, userId);
      (forall i :: 0 <= i < |cart| ==> Lookup(catalog, cart[i]).Some?) ==>
        r == Ok(if exists i :: 0 <= i < |cart| && IsLaptop(catalog, cart[i]) then ["p2", "p3"] else [])
    ensures r.Ok? ==> r.value == [] || r.value == ["p2", "p3"]
  {
    match AnyLaptop(catalog, CartOf(carts, userId))
    case Err(f) => Err(f)
    case Ok(found) => Ok(if found then ["p2", "p3"] else [])
  }

  // ---------------------------------------------------------------------
  // time_based
  // ---------------------------------------------------------------------

  /** Hour buckets: coffee in the morning, a snack in the evening. */
  function TimeBased(hour: int): (r: seq<string>)
    ensures r == ["coffee1"] <==> 5 <= hour < 12
    ensures r == ["snack1"] <==> 18 <= hour < 23
    ensures r == [] <==> hour < 5 || 12 <= hour < 18 || 23 <= hour
  {
    if 5 <= hour < 12 then ["coffee1"]
    else if 18 <= hour < 23 then ["snack1"]
    else []
  }

  // ---------------------------------------------------------------------
  // collaborative_filtering
  // ---------------------------------------------------------------------

  /** Square of `len(T & O) / sqrt(len(T) * len(O) + 1e-6)`. Both are
      non-negative, so the square orders users exactly as the similarity does. */
  function Similarity(target: set<string>, other: set<string>): real
  {
    var common := |target * other|;
    (common * common) as real / ((|target| * |other|) as real + 0.000001)
  }

  /** The similarity is never negative, and zero exactly when nothing was
      bought by both users. */
  lemma SimilarityBounds(target: set<string>, other: set<string>)
    ensures Similarity(target, other) >= 0.0
    ensures Similarity(target, other) == 0.0 <==> target * other == {}
  {
  }

  /** The score does not depend on which of the two users is the target. */
  lemma SimilaritySymmetric(a: set<string>, b: set<string>)
    ensures Similarity(a, b) == Similarity(b, a)
  {
    assert a * b == b * a;
    assert |a| * |b| == |b| * |a|;
  }

  function NotUser(userId: string): string -> bool
  {
    (u: string) => u != userId
  }

  /** The keys of the `scores` dict, in insertion order: every user but the target. */
  function Others(users: seq<string>, userId: string): seq<string>
  {
    Filter(users, NotUser(userId))
  }

  /** The `scores` dict as a list of `(user, similarity)` pairs. */
  function ScoreTable(behavior: map<string, seq<Event>>, target: set<string>, others: seq<string>): (r: seq<(string, real)>)
    requires forall u :: u in others ==> u in behavior
    ensures |r| == |others|
  {
    seq(|others|, i requires 0 <= i < |others| => (others[i], Similarity(target, PurchaseSet(behavior[others[i]]))))
  }

  /** `max(scores, key=scores.get)`: the index of the first greatest score. */
  function FirstMaxIndex(scores: seq<(string, real)>): (k: nat)
    requires |scores| > 0
    ensures k < |scores|
  {
    if |scores| == 1 then 0
    else
      var k := FirstMaxIndex(scores[..|scores| - 1]);
      if scores[|scores| - 1].1 > scores[k].1 then |scores| - 1 else k
  }

  /** FirstMaxIndex picks a greatest score, and every earlier score is strictly smaller. */
  lemma {:induction false} FirstMaxIndexIsFirstMaximum(scores: seq<(string, real)>)
    requires |scores| > 0
    ensures var k := FirstMaxIndex(scores);
      && (forall j :: 0 <= j < |scores| ==> scores[j].1 <= scores[k].1)
      && (forall j :: 0 <= j < k ==> scores[j].1 < scores[k].1)
    decreases |scores|
  {
    if |scores| > 1 {
      FirstMaxIndexIsFirstMaximum(scores[..|scores| - 1]);
    }
  }

  /** The user chosen as `top_user`, or None when `scores` is empty: one of
      the users other than the target, when there is one. */
  function TopUser(behavior: map<string, seq<Event>>, users: seq<string>, userId: string): (r: Option<string>)
    requires userId in behavior && UsersOf(behavior, users)
    ensures r.None? <==> Others(users, userId) == []
    ensures r.Some? ==> r.value in Others(users, userId) && r.value in behavior
  {
    var others := Others(users, userId);
    if others == [] then None
    else Some(others[FirstMaxIndex(ScoreTable(behavior, PurchaseSet(behavior[userId]), others))])
  }

  /** The top user is never the target; there is none exactly when no other
      user exists; otherwise it scores at least as high as every other user
      and strictly higher than every user listed before it. */
  lemma TopUserIsMostSimilar(behavior: map<string, seq<Event>>, users: seq<string>, userId: string)
    requires userId in behavior && UsersOf(behavior, users)
    ensures TopUser(behavior, users, userId).None? <==> forall u :: u in users ==> u == userId
    ensures TopUser(behavior, users, userId).Some? ==>
      var top := TopUser(behavior, users, userId).value;
      var target := PurchaseSet(behavior[userId]);
      var others := Others(users, userId);
      && top != userId && top in users
      && (forall u :: u in users && u != userId ==> Similarity(target, PurchaseSet(behavior[u])) <= Similarity(target, PurchaseSet(behavior[top])))
      && exists k :: 0 <= k < |others| && others[k] == top &&
           forall j :: 0 <= j < k ==> Similarity(target, PurchaseSet(behavior[others[j]])) < Similarity(target, PurchaseSet(behavior[top]))
  {
    var others := Others(users, userId);
    if others != [] {
      var target := PurchaseSet(behavior[userId]);
      var table := ScoreTable(behavior, target, others);
      FirstMaxIndexIsFirstMaximum(table);
      var k := FirstMaxIndex(table);
      var top := others[k];
      forall u | u in users && u != userId
        ensures Similarity(target, PurchaseSet(behavior[u])) <= Similarity(target, PurchaseSet(behavior[top]))
      {
        var j :| 0 <= j < |others| && others[j] == u;
        assert table[j].1 <= table[k].1;
      }
      forall j | 0 <= j < k
        ensures Similarity(target, PurchaseSet(behavior[others[j]])) < Similarity(target, PurchaseSet(behavior[top]))
      {
        assert table[j].1 < table[k].1;
      }
    }
  }

  /** Takes up to `n` elements of a set in an unspecified order, as
      `list(s)[:n]` does. */
  method TakeFromSet(s: set<string>, n: nat) returns (r: seq<string>)
    ensures |r| == Min(|s|, n)
    ensures Distinct(r)
    ensures forall x :: x in r ==> x in s
  {
    r := [];
    var rest := s;
    while |r| < n && rest != {}
      invariant rest <= s
      invariant forall x :: x in r ==> x in s && x !in rest
      invariant Distinct(r)
      invariant |r| + |rest| == |s|
      invariant |r| <= n
      decreases rest
    {
      var x :| x in rest;
      r := r + [x];
      rest := rest - {x};
    }
  }

  /** Scoring one more user appends one pair to the table. */
  lemma ScoreTableSnoc(behavior: map<string, seq<Event>>, target: set<string>, others: seq<string>, other: string)
    requires forall u :: u in others ==> u in behavior
    requires other in behavior
    ensures ScoreTable(behavior, target, others + [other])
         == ScoreTable(behavior, target, others) + [(other, Similarity(target, PurchaseSet(behavior[other])))]
  {
  }

  /** Every user other than the target among the first `n` users has a history. */
  lemma OthersKnown(behavior: map<string, seq<Event>>, users: seq<string>, userId: string, n: nat)
    requires forall u :: u in users ==> u in behavior
    requires n <= |users|
    ensures forall u :: u in Others(users[..n], userId) ==> u in behavior
  {
    assert forall u :: u in users[..n] ==> u in users;
  }

  /** Scoring user `i` extends the table of the first `i` users by that
      user's pair, unless it is the target. */
  lemma ScoreTableStep(behavior: map<string, seq<Event>>, users: seq<string>, userId: string, target: set<string>, i: nat)
    requires forall u :: u in users ==> u in behavior
    requires i < |users|
    ensures forall u :: u in Others(users[..i], userId) ==> u in behavior
    ensures forall u :: u in Others(users[..i + 1], userId) ==> u in behavior
    ensures ScoreTable(behavior, target, Others(users[..i + 1], userId))
         == ScoreTable(behavior, target, Others(users[..i], userId)) +
            (if users[i] != userId then [(users[i], Similarity(target, PurchaseSet(behavior[users[i]])))] else [])
  {
    OthersKnown(behavior, users, userId, i);
    OthersKnown(behavior, users, userId, i + 1);
    assert users[..i + 1] == users[..i] + [users[i]];
    FilterSnoc(users[..i], users[i], NotUser(userId));
    if users[i] != userId {
      ScoreTableSnoc(behavior, target, Others(users[..i], userId), users[i]);
    }
  }

  /** The loop of `collaborative_filtering` that fills `scores`: one
      `(user, similarity)` pair per user other than the target, in user order. */
  method ScoreOthers(behavior: map<string, seq<Event>>, users: seq<string>, userId: string, target: set<string>)
    returns (scores: seq<(string, real)>)
    requires forall u :: u in users ==> u in behavior
    ensures forall u :: u in Others(users, userId) ==> u in behavior
    ensures scores == ScoreTable(behavior, target, Others(users, userId))
  {
    scores := [];
    var i := 0;
    OthersKnown(behavior, users, userId, 0);
    while i < |users|
      invariant 0 <= i <= |users|
      invariant forall u :: u in Others(users[..i], userId) ==> u in behavior
      invariant scores == ScoreTable(behavior, target, Others(users[..i], userId))
    {
      var other := users[i];
      ScoreTableStep(behavior, users, userId, target, i);
      if other != userId {
        var similarity := Similarity(target, PurchaseSet(behavior[other]));
        scores := scores + [(other, similarity)];
      }
      i := i + 1;
    }
    assert users[..|users|] == users;
  }

  /** `max(scores, key=scores.get)`: a later user replaces the current best
      only with a strictly greater score. */
  method FirstMax(scores: seq<(string, real)>) returns (best: nat)
    requires |scores| > 0
    ensures best == FirstMaxIndex(scores)
  {
    best := 0;
    var j := 1;
    while j < |scores|
      invariant 1 <= j <= |scores|
      invariant best == FirstMaxIndex(scores[..j])
    {
      assert scores[..j + 1][..j] == scores[..j];
      if scores[j].1 > scores[best].1 {
        best := j;
      }
      j := j + 1;
    }
    assert scores[..|scores|] == scores;
  }

  /** Recommends products bought by the most similar other user and not yet
      by the target: at most five, none twice, none the target already
      bought; nothing when there is no other user. */
  method CollaborativeFiltering(behavior: map<string, seq<Event>>, users: seq<string>, userId: string)
    returns (r: Result<seq<string>>)
    requires UsersOf(behavior, users)
    ensures userId !in behavior ==> r == Err(KeyError(userId))
    ensures userId in behavior ==> r.Ok?
    ensures userId in behavior && TopUser(behavior, users, userId).None? ==> r == Ok([])
    ensures userId in behavior && TopUser(behavior, users, userId).Some? ==>
      var unseen := PurchaseSet(behavior[TopUser(behavior, users, userId).value]) - PurchaseSet(behavior[userId]);
      && |r.value| == Min(|unseen|, MAX_RECOMMENDATIONS)
      && Distinct(r.value)
      && forall x :: x in r.value ==> x in unseen
  {
    if userId !in behavior {
      return Err(KeyError(userId));
    }
    var target := PurchaseSet(behavior[userId]);
    var scores := ScoreOthers(behavior, users, userId, target);
    if scores == [] {
      return Ok([]);
    }
    var best := FirstMax(scores);
    var topUser := scores[best].0;
    var otherHistory := PurchaseSet(behavior[topUser]);
    var recs := TakeFromSet(otherHistory - target, MAX_RECOMMENDATIONS);
    return Ok(recs);
  }

  // ---------------------------------------------------------------------
  // get_cart
  // ---------------------------------------------------------------------

  /** `[{**products[pid], "id": pid} for pid in cart if pid in products]`:
      one line per cart id found in the table, carrying that id's record. */
  function CartItems(catalog: seq<Entry>, cart: seq<string>): (r: seq<CartItem>)
    ensures |r| == Count(cart, InCatalog(catalog))
    ensures forall i :: 0 <= i < |r| ==> r[i].id in cart && Lookup(catalog, r[i].id) == Some(r[i].product)
  {
    if cart == [] then []
    else
      match Lookup(catalog, cart[0])
      case None => CartItems(catalog, cart[1..])
      case Some(p) => [CartItem(cart[0], p)] + CartItems(catalog, cart[1..])
  }

  /** `/cart`: a missing or empty user_id is a 400 error; otherwise the
      user's cart lines that are in the product table. */
  function GetCart(catalog: seq<Entry>, carts: map<string, seq<string>>, userId: Option<string>): (r: Result<seq<CartItem>>)
    ensures r.Err? <==> userId == None || userId == Some("")
    ensures r.Err? ==> r.failure.HttpError? && r.failure.status == 400
  {
    if userId.None? || userId.value == "" then Err(HttpError(400, "Missing user_id"))
    else Ok(CartItems(catalog, CartOf(carts, userId.value)))
  }

  function ItemIds(items: seq<CartItem>): (r: seq<string>)
    ensures |r| == |items|
    ensures forall i :: 0 <= i < |items| ==> r[i] == items[i].id
  {
    seq(|items|, i requires 0 <= i < |items| => items[i].id)
  }

  /** The cart lines are exactly the cart ids found in the product table, in
      cart order with duplicates kept, each carrying its product record. */
  lemma {:induction false} CartItemsAreKnownCartIds(catalog: seq<Entry>, cart: seq<string>)
    ensures ItemIds(CartItems(catalog, cart)) == Filter(cart, InCatalog(catalog))
    ensures forall i :: 0 <= i < |CartItems(catalog, cart)| ==>
      Lookup(catalog, CartItems(catalog, cart)[i].id) == Some(CartItems(catalog, cart)[i].product)
    decreases |cart|
  {
    if cart != [] {
      CartItemsAreKnownCartIds(catalog, cart[1..]);
      var rest := CartItems(catalog, cart[1..]);
      match Lookup(catalog, cart[0])
      case None =>
      case Some(p) =>
        assert ItemIds([CartItem(cart[0], p)] + rest) == [cart[0]] + ItemIds(rest);
    }
  }

  /** With a user id, `/cart` returns one line per cart id present in the
      product table, in cart order, and nothing else. */
  lemma GetCartReturnsKnownItems(catalog: seq<Entry>, carts: map<string, seq<string>>, userId: string)
    requires userId != ""
    ensures GetCart(catalog, carts, Some(userId)).Ok?
    ensures var items := GetCart(catalog, carts, Some(userId)).value;
      var cart := CartOf(carts, userId);
      && IsSubsequence(ItemIds(items), cart)
      && |items| == Count(cart, InCatalog(catalog))
      && forall i :: 0 <= i < |items| ==> Lookup(catalog, items[i].id) == Some(items[i].product)
  {
    CartItemsAreKnownCartIds(catalog, CartOf(carts, userId));
  }

  // ---------------------------------------------------------------------
  // The in-memory tables and track_behavior
  // ---------------------------------------------------------------------

  /** The module-level tables: `products`, `user_behavior`, `users` and
      `user_carts`. */
  class Store {
    var catalog: seq<Entry>
    var behavior: map<string, seq<Event>>
    var users: seq<string>
    var carts: map<string, seq<string>>

    /** Product ids are dictionary keys, and `users` lists the users with
        a history. */
    ghost predicate Valid()
      reads this
    {
      Distinct(Ids(catalog)) && UsersOf(behavior, users)
    }

    /** The tables as loaded at import; every cart starts empty. */
    constructor (catalog: seq<Entry>, behavior: map<string, seq<Event>>, users: seq<string>)
      requires Distinct(Ids(catalog)) && UsersOf(behavior, users)
      ensures Valid()
      ensures this.catalog == catalog && this.behavior == behavior && this.users == users
      ensures carts == map[]
    {
      this.catalog := catalog;
      this.behavior := behavior;
      this.users := users;
      this.carts := map[];
    }

    /** `/track_behavior`: appends one event to the user's history and, for
        an add-to-cart, the product to the user's cart. An unknown user
        raises KeyError before anything changes. No other user's history or
        cart changes. */
    method TrackBehavior(userId: string, action: string, productId: string) returns (r: Result<string>)
      requires Valid()
      modifies this
      ensures Valid()
      ensures catalog == old(catalog) && users == old(users)
      ensures userId !in old(behavior) ==>
        r == Err(KeyError(userId)) && behavior == old(behavior) && carts == old(carts)
      ensures userId in old(behavior) ==>
        && r == Ok("logged")
        && behavior == old(behavior)[userId := old(behavior)[userId] + [Event(action, productId)]]
        && CartOf(carts, userId) == CartOf(old(carts), userId) + (if action == ADD_TO_CART then [productId] else [])
      ensures forall u :: u != userId ==>
        && (u in behavior <==> u in old(behavior))
        && (u in behavior ==> behavior[u] == old(behavior)[u])
        && CartOf(carts, u) == CartOf(old(carts), u)
    {
      if userId !in behavior {
        return Err(KeyError(userId));
      }
      behavior := behavior[userId := behavior[userId] + [Event(action, productId)]];
      if action == ADD_TO_CART {
        carts := carts[userId := CartOf(carts, userId) + [productId]];
      }
      return Ok("logged");
    }
  }
}
