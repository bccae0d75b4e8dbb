/**
  The shop page: per-product average ratings, adding a review to one product, the
  list on display (search results or the catalogue), its ordering, and the
  add-to-cart guard with the selection reset that follows it.
*/
module Shop {
  import opened Wrappers
  import opened Strings
  import opened Cart

  datatype Review = Review(userId: string, userName: string, rating: int, comment: string)

  datatype Product = Product(id: int, name: string, price: int, image: string, sizes: seq<string>,
                             reviews: seq<Review>, averageRating: real)

  /** The signed-in user as the page sees it, if any. */
  datatype User = User(id: string, name: string)

  datatype SortBy = ByRating | ByPrice | ByName

  datatype SortOrder = Asc | Desc

  const ReviewFailed := "Failed to add review. Please try again later."

  function InitialProducts(): seq<Product> {
    var sizes := ["XS", "S", "M", "L", "XL"];
    [ Product(1, "Pink Sapphire Swimsuit", 650, "/products/ruby-swimsuit.jpg", sizes, [], 0.0),
      Product(2, "Pink Sapphire Bikini", 600, "/products/ruby-bikini.jpg", sizes, [], 0.0),
      Product(3, "Maddison Swimsuit", 650, "/products/maddison-swimsuit.jpg", sizes, [], 0.0),
      Product(4, "Maddison Bikini", 600, "/products/maddison-bikini.jpg", sizes, [], 0.0) ]
  }

  // ----- ratings -----

  /** The ratings added up. */
  function SumRatings(reviews: seq<Review>): int {
    if reviews == [] then 0 else reviews[0].rating + SumRatings(reviews[1..])
  }

  /** The mean rating, and 0 for a product without reviews. */
  function AverageRating(reviews: seq<Review>): (avg: real)
    ensures reviews == [] ==> avg == 0.0
    ensures reviews != [] ==> avg * (|reviews| as real) == SumRatings(reviews) as real
  {
    if |reviews| > 0 then SumRatings(reviews) as real / |reviews| as real else 0.0
  }

  /** A product with a fresh list of reviews from the backend. */
  function WithFetchedReviews(p: Product, reviews: seq<Review>): (r: Product)
    ensures r.reviews == reviews && r.averageRating == AverageRating(reviews)
    ensures r.(reviews := p.reviews, averageRating := p.averageRating) == p
  {
    p.(reviews := reviews, averageRating := AverageRating(reviews))
  }

  /** The backend's added review appended last, and the average recomputed. */
  function WithReview(p: Product, added: Review): (r: Product)
    ensures r.reviews == p.reviews + [added]
    ensures r.averageRating == AverageRating(p.reviews + [added])
    ensures r.(reviews := p.reviews, averageRating := p.averageRating) == p
  {
    var updated := p.reviews + [added];
    p.(reviews := updated, averageRating := SumRatings(updated) as real / |updated| as real)
  }

  /** The `setProducts` update of `handleAddReview`. */
  function WithAddedReview(products: seq<Product>, productId: int, added: Review): (r: seq<Product>)
    ensures |r| == |products|
    ensures forall i :: 0 <= i < |products| ==>
      r[i] == if products[i].id == productId then WithReview(products[i], added) else products[i]
  {
    if products == [] then []
    else
      [if products[0].id == productId then WithReview(products[0], added) else products[0]]
      + WithAddedReview(products[1..], productId, added)
  }

  /** `{ userId: user?.id || 'anonymous', userName: user?.name || 'Anonymous User', ...newReview }`. */
  function ReviewToAdd(user: Option<User>, rating: int, comment: string): (r: Review)
    ensures user.None? || user.value.id == "" ==> r.userId == "anonymous"
    ensures user.Some? && user.value.id != "" ==> r.userId == user.value.id
    ensures user.None? || user.value.name == "" ==> r.userName == "Anonymous User"
    ensures user.Some? && user.value.name != "" ==> r.userName == user.value.name
    ensures r.rating == rating && r.comment == comment
  {
    var userId := if user.Some? && user.value.id != "" then user.value.id else "anonymous";
    var userName := if user.Some? && user.value.name != "" then user.value.name else "Anonymous User";
    Review(userId, userName, rating, comment)
  }

  // ----- ordering -----

  /** The list that is sorted: the search results if there are any, else the catalogue. */
  function Displayed(searchResults: seq<Product>, products: seq<Product>): (r: seq<Product>)
    ensures r == searchResults || r == products
    ensures r == [] <==> searchResults == [] && products == []
    ensures |searchResults| > 0 ==> r == searchResults
    ensures |searchResults| == 0 ==> r == products
  {
    if |searchResults| > 0 then searchResults else products
  }

  /**
    The comparator returns at most 0 for `(a, b)`, so `a` may stay ahead of `b`.
    `localeCompare` is taken to be code-point order.
  */
  predicate Before(a: Product, b: Product, key: SortBy, order: SortOrder): (r: bool)
    ensures key == ByRating ==>
      (r <==> if order == Desc then a.averageRating >= b.averageRating else a.averageRating <= b.averageRating)
    ensures key == ByPrice ==> (r <==> if order == Desc then a.price >= b.price else a.price <= b.price)
    ensures key == ByName ==> (r <==> if order == Desc then Le(b.name, a.name) else Le(a.name, b.name))
  {
    match key
    case ByRating => if order == Desc then b.averageRating - a.averageRating <= 0.0 else a.averageRating - b.averageRating <= 0.0
    case ByPrice => if order == Desc then b.price - a.price <= 0 else a.price - b.price <= 0
    case ByName => if order == Desc then Le(b.name, a.name) else Le(a.name, b.name)
  }

  lemma BeforeTotal(a: Product, b: Product, key: SortBy, order: SortOrder)
    ensures Before(a, b, key, order) || Before(b, a, key, order)
  {
    if key == ByName {
      LeTotal(a.name, b.name);
    }
  }

  lemma BeforeTransitive(a: Product, b: Product, c: Product, key: SortBy, order: SortOrder)
    requires Before(a, b, key, order) && Before(b, c, key, order)
    ensures Before(a, c, key, order)
  {
    if key == ByName {
      if order == Desc {
        LeTransitive(c.name, b.name, a.name);
      } else {
        LeTransitive(a.name, b.name, c.name);
      }
    }
  }

  predicate SortedBy(s: seq<Product>, key: SortBy, order: SortOrder) {
    forall i, j :: 0 <= i < j < |s| ==> Before(s[i], s[j], key, order)
  }

  /** Inserts `x` ahead of the first element it may precede, so equal elements keep their order. */
  function InsertBy(x: Product, s: seq<Product>, key: SortBy, order: SortOrder): (r: seq<Product>)
    requires SortedBy(s, key, order)
    ensures multiset(r) == multiset(s) + multiset{x}
    ensures SortedBy(r, key, order)
  {
    if s == [] then [x]
    else if Before(x, s[0], key, order) then
      FirstBefore(x, s, key, order);
      [x] + s
    else
      var t := InsertBy(x, s[1..], key, order);
      assert s == [s[0]] + s[1..];
      InsertedAfterFirst(x, s, t, key, order);
      [s[0]] + t
  }

  lemma FirstBefore(x: Product, s: seq<Product>, key: SortBy, order: SortOrder)
    requires SortedBy(s, key, order) && s != [] && Before(x, s[0], key, order)
    ensures SortedBy([x] + s, key, order)
  {
    forall j | 0 < j < |s| ensures Before(x, s[j], key, order) {
      BeforeTransitive(x, s[0], s[j], key, order);
    }
  }

  lemma InsertedAfterFirst(x: Product, s: seq<Product>, t: seq<Product>, key: SortBy, order: SortOrder)
    requires SortedBy(s, key, order) && s != [] && !Before(x, s[0], key, order) && SortedBy(t, key, order)
    requires multiset(t) == multiset(s[1..]) + multiset{x}
    ensures SortedBy([s[0]] + t, key, order)
  {
    BeforeTotal(x, s[0], key, order);
    forall j | 0 <= j < |t| ensures Before(s[0], t[j], key, order) {
      assert t[j] in multiset(t);
      if t[j] != x {
        assert t[j] in multiset(s[1..]);
        var k :| 0 <= k < |s[1..]| && s[1..][k] == t[j];
        assert s[k + 1] == t[j];
      }
    }
  }


  /** `[...list].sort(comparator)`: a stable sort under the chosen comparator. */
  function SortProducts(s: seq<Product>, key: SortBy, order: SortOrder): (r: seq<Product>)
    ensures multiset(r) == multiset(s)
    ensures SortedBy(r, key, order)
  {
    if s == [] then []
    else
      assert s == [s[0]] + s[1..];
      InsertBy(s[0], SortProducts(s[1..], key, order), key, order)
  }

  // ----- the page -----

  class ShopPage {
    var products: seq<Product>
    var selectedProduct: Option<Product>
    var selectedSize: string
    var quantity: int
    var isFullScreen: bool
    var sortBy: SortBy
    var sortOrder: SortOrder
    var searchResults: seq<Product>
    var error: Option<string>

    constructor()
      ensures products == InitialProducts() && selectedProduct == None && selectedSize == "" && quantity == 1
      ensures !isFullScreen && sortBy == ByRating && sortOrder == Desc && searchResults == [] && error == None
    {
      products := InitialProducts();
      selectedProduct := None;
      selectedSize := "";
      quantity := 1;
      isFullScreen := false;
      sortBy := ByRating;
      sortOrder := Desc;
      searchResults := [];
      error := None;
    }

    /** `sortedProducts`. */
    function SortedProducts(): (r: seq<Product>)
      reads this
      ensures multiset(r) == multiset(Displayed(searchResults, products))
      ensures SortedBy(r, sortBy, sortOrder)
    {
      SortProducts(Displayed(searchResults, products), sortBy, sortOrder)
    }

    /**
      `handleAddToCart`: with a product and a size chosen, adds one line for them (the id
      passed as its decimal string) and resets size, quantity and selection; otherwise nothing.
    */
    method AddToCart(store: CartStore)
      modifies this, store
      ensures selectedProduct.Some? ==> selectedProduct == old(selectedProduct)
      ensures old(selectedProduct.Some? && selectedSize != "") ==>
        var p := old(selectedProduct).value;
        && store.cart == Added(old(store.cart), CartItem(StrId(IntToString(p.id)), p.name, p.price, old(quantity), old(selectedSize), p.image))
        && selectedSize == "" && quantity == 1 && selectedProduct == None
      ensures !old(selectedProduct.Some? && selectedSize != "") ==>
        store.cart == old(store.cart) && selectedSize == old(selectedSize) && quantity == old(quantity)
        && selectedProduct == old(selectedProduct)
      ensures products == old(products) && searchResults == old(searchResults) && error == old(error)
      ensures sortBy == old(sortBy) && sortOrder == old(sortOrder) && isFullScreen == old(isFullScreen)
    {
      if selectedProduct.Some? && selectedSize != "" {
        var p := selectedProduct.value;
        store.AddToCart(CartItem(StrId(IntToString(p.id)), p.name, p.price, quantity, selectedSize, p.image));
        selectedSize := "";
        quantity := 1;
        selectedProduct := None;
      }
    }

    method ToggleFullScreen()
      modifies this
      ensures isFullScreen == !old(isFullScreen)
      ensures products == old(products) && selectedProduct == old(selectedProduct)
      ensures selectedSize == old(selectedSize) && quantity == old(quantity)
      ensures sortBy == old(sortBy) && sortOrder == old(sortOrder)
      ensures searchResults == old(searchResults) && error == old(error)
    {
      isFullScreen := !isFullScreen;
    }

    method HandleSearch(results: seq<Product>)
      modifies this
      ensures searchResults == results
      ensures products == old(products) && selectedProduct == old(selectedProduct)
      ensures selectedSize == old(selectedSize) && quantity == old(quantity) && isFullScreen == old(isFullScreen)
      ensures sortBy == old(sortBy) && sortOrder == old(sortOrder) && error == old(error)
    {
      searchResults := results;
    }

    /**
      `handleAddReview` once the backend has answered: `added` is the review it returned,
      `ok` whether the request succeeded. The refetch that follows is not part of this model.
    */
    method AddReview(productId: int, added: Review, ok: bool)
      modifies this
      ensures ok ==> products == WithAddedReview(old(products), productId, added) && error == None
      ensures ok && old(selectedProduct).Some? && old(selectedProduct).value.id == productId ==>
        selectedProduct == Some(WithReview(old(selectedProduct).value, added))
      ensures ok && !(old(selectedProduct).Some? && old(selectedProduct).value.id == productId) ==>
        selectedProduct == old(selectedProduct)
      ensures !ok ==> products == old(products) && selectedProduct == old(selectedProduct) && error == Some(ReviewFailed)
      ensures selectedSize == old(selectedSize) && quantity == old(quantity) && isFullScreen == old(isFullScreen)
      ensures sortBy == old(sortBy) && sortOrder == old(sortOrder) && searchResults == old(searchResults)
    {
      if !ok {
        error := Some("Failed to add review. Please try again later.");
        return;
      }
      products := WithAddedReview(products, productId, added);
      if selectedProduct.Some? && selectedProduct.value.id == productId {
        selectedProduct := Some(WithReview(selectedProduct.value, added));
      }
      error := None;
    }
  }

  // ----- properties -----

  /**
    Adding a review changes only the products with the given id: each gets the review
    last and its average recomputed; the number and order of products stay.
  */
  lemma AddedReviewTouchesOneProduct(products: seq<Product>, productId: int, added: Review)
    ensures |WithAddedReview(products, productId, added)| == |products|
    ensures forall i :: 0 <= i < |products| && products[i].id != productId ==>
      WithAddedReview(products, productId, added)[i] == products[i]
    ensures forall i :: 0 <= i < |products| && products[i].id == productId ==>
      var q := WithAddedReview(products, productId, added)[i];
      q.reviews == products[i].reviews + [added] && q.averageRating == AverageRating(q.reviews)
      && q.id == products[i].id && q.name == products[i].name && q.price == products[i].price
  {
  }

  /** The ratings sum adds up over concatenation, so the new average folds in the new rating. */
  lemma {:induction false} SumRatingsConcat(a: seq<Review>, b: seq<Review>)
    ensures SumRatings(a + b) == SumRatings(a) + SumRatings(b)
  {
    if a == [] {
      assert a + b == b;
    } else {
      assert (a + b)[1..] == a[1..] + b;
      SumRatingsConcat(a[1..], b);
    }
  }

  lemma AverageAfterReview(reviews: seq<Review>, added: Review)
    ensures AverageRating(reviews + [added]) * ((|reviews| + 1) as real)
         == AverageRating(reviews) * (|reviews| as real) + added.rating as real
  {
    var after := reviews + [added];
    SumRatingsConcat(reviews, [added]);
    assert SumRatings([added]) == added.rating by { assert [added][1..] == []; }
    assert AverageRating(after) * ((|reviews| + 1) as real) == SumRatings(after) as real by { assert |after| == |reviews| + 1; }
    assert AverageRating(reviews) * (|reviews| as real) == SumRatings(reviews) as real;
  }

  /** `n` reviews rated 1 to 5 add up to between `n` and `5 n`. */
  lemma {:induction false} RatingsBounded(reviews: seq<Review>)
    requires forall i :: 0 <= i < |reviews| ==> 1 <= reviews[i].rating <= 5
    ensures |reviews| <= SumRatings(reviews) <= 5 * |reviews|
  {
    if reviews != [] {
      RatingsBounded(reviews[1..]);
    }
  }

  /** Reviews rated 1 to 5 average between 1 and 5. */
  lemma AverageBounded(reviews: seq<Review>)
    requires reviews != []
    requires forall i :: 0 <= i < |reviews| ==> 1 <= reviews[i].rating <= 5
    ensures 1.0 <= AverageRating(reviews) <= 5.0
  {
    var n := |reviews| as real;
    var avg := AverageRating(reviews);
    var total := SumRatings(reviews) as real;
    RatingsBounded(reviews);
    assert avg * n == total;
    assert n <= total && total <= 5.0 * n;
    ScaledBetween(avg, n, total);
  }

  lemma ScaledBetween(x: real, n: real, total: real)
    requires n > 0.0 && x * n == total && n <= total <= 5.0 * n
    ensures 1.0 <= x <= 5.0
  {
  }

  /** Prices ascend for `asc` and descend for `desc`. */
  lemma PriceOrder(s: seq<Product>, order: SortOrder)
    ensures var r := SortProducts(s, ByPrice, order);
      forall i, j :: 0 <= i < j < |r| ==> if order == Asc then r[i].price <= r[j].price else r[i].price >= r[j].price
  {
    var r := SortProducts(s, ByPrice, order);
    forall i, j | 0 <= i < j < |r|
      ensures if order == Asc then r[i].price <= r[j].price else r[i].price >= r[j].price
    {
      assert Before(r[i], r[j], ByPrice, order);
    }
  }

  /** Average ratings ascend for `asc` and descend for `desc`, the page's default. */
  lemma RatingOrder(s: seq<Product>, order: SortOrder)
    ensures var r := SortProducts(s, ByRating, order);
      forall i, j :: 0 <= i < j < |r| ==>
        if order == Asc then r[i].averageRating <= r[j].averageRating else r[i].averageRating >= r[j].averageRating
  {
    var r := SortProducts(s, ByRating, order);
    forall i, j | 0 <= i < j < |r|
      ensures if order == Asc then r[i].averageRating <= r[j].averageRating else r[i].averageRating >= r[j].averageRating
    {
      assert Before(r[i], r[j], ByRating, order);
    }
  }

  /** Sorting keeps exactly the displayed products: search results win when there are any. */
  lemma SortedIsDisplayed(searchResults: seq<Product>, products: seq<Product>, key: SortBy, order: SortOrder)
    ensures |searchResults| > 0 ==> multiset(SortProducts(Displayed(searchResults, products), key, order)) == multiset(searchResults)
    ensures |searchResults| == 0 ==> multiset(SortProducts(Displayed(searchResults, products), key, order)) == multiset(products)
    ensures |SortProducts(Displayed(searchResults, products), key, order)| == |Displayed(searchResults, products)|
  {
    var d := Displayed(searchResults, products);
    assert |multiset(SortProducts(d, key, order))| == |multiset(d)|;
  }
}
