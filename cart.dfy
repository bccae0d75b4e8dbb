/**
  The shopping cart held by `CartProvider`: an ordered list of lines, each keyed by
  the pair (`id.toString()`, `size`). Every operation replaces the list by a new
  one computed from the old; the store class below holds the current list.
*/
module Cart {

  /** A product id as the cart receives it: `string | number` (whole numbers here). */
  datatype Id = NumId(n: int) | StrId(s: string)

  datatype CartItem = CartItem(id: Id, name: string, price: int, quantity: int, size: string, image: string)

  // ----- Number.prototype.toString for whole numbers -----

  function DigitChar(d: int): (c: char)
    requires 0 <= d < 10
    ensures '0' <= c <= '9'
  {
    ('0' as int + d) as char
  }

  function NatToString(n: nat): (s: string)
    ensures s != []
    ensures forall i :: 0 <= i < |s| ==> '0' <= s[i] <= '9'
    ensures n >= 10 ==> |s| >= 2
  {
    if n < 10 then [DigitChar(n)] else NatToString(n / 10) + [DigitChar(n % 10)]
  }

  /** `toString` of a whole number: an optional minus sign, then decimal digits. */
  function IntToString(n: int): (s: string)
    ensures s != []
    ensures s[0] == '-' <==> n < 0
    ensures forall i :: (if n < 0 then 1 else 0) <= i < |s| ==> '0' <= s[i] <= '9'
  {
    if n < 0 then "-" + NatToString(-n) else NatToString(n)
  }

  /** `id.toString()`: a string id is its own string. */
  function IdString(id: Id): (s: string)
    ensures id.StrId? ==> s == id.s
  {
    match id
    case NumId(n) => IntToString(n)
    case StrId(s) => s
  }

  /** The key a line is found by. */
  function Key(item: CartItem): (string, string) {
    (IdString(item.id), item.size)
  }

  predicate Matches(item: CartItem, id: Id, size: string) {
    IdString(item.id) == IdString(id) && item.size == size
  }

  predicate HasLine(cart: seq<CartItem>, id: Id, size: string) {
    exists i :: 0 <= i < |cart| && Matches(cart[i], id, size)
  }

  /** No two lines share a key. */
  predicate Unique(cart: seq<CartItem>) {
    forall i, j :: 0 <= i < j < |cart| ==> Key(cart[i]) != Key(cart[j])
  }

  predicate NonNegativeQuantities(cart: seq<CartItem>) {
    forall i :: 0 <= i < |cart| ==> cart[i].quantity >= 0
  }

  predicate NonNegativePrices(cart: seq<CartItem>) {
    forall i :: 0 <= i < |cart| ==> cart[i].price >= 0
  }

  // ----- the state updaters -----

  /** The `map` branch of `addToCart`: matching lines gain `item.quantity`. */
  function Merged(cart: seq<CartItem>, item: CartItem): (r: seq<CartItem>)
    ensures |r| == |cart|
    ensures forall i :: 0 <= i < |cart| ==>
      r[i] == if Matches(cart[i], item.id, item.size) then cart[i].(quantity := cart[i].quantity + item.quantity) else cart[i]
  {
    if cart == [] then []
    else
      var line := cart[0];
      [if Matches(line, item.id, item.size) then line.(quantity := line.quantity + item.quantity) else line]
      + Merged(cart[1..], item)
  }

  /** `addToCart`: merge into an existing line, or append. */
  function Added(cart: seq<CartItem>, item: CartItem): (r: seq<CartItem>)
    ensures HasLine(r, item.id, item.size)
    ensures |r| == if HasLine(cart, item.id, item.size) then |cart| else |cart| + 1
    ensures forall i :: 0 <= i < |cart| && !Matches(cart[i], item.id, item.size) ==> r[i] == cart[i]
  {
    if HasLine(cart, item.id, item.size) then
      assert HasLine(Merged(cart, item), item.id, item.size) by {
        var i :| 0 <= i < |cart| && Matches(cart[i], item.id, item.size);
        assert Matches(Merged(cart, item)[i], item.id, item.size);
      }
      Merged(cart, item)
    else
      assert Matches((cart + [item])[|cart|], item.id, item.size);
      cart + [item]
  }

  /** `removeFromCart`: the lines that do not match, in their order. */
  function Removed(cart: seq<CartItem>, id: Id, size: string): (r: seq<CartItem>)
    ensures forall x :: x in r <==> x in cart && !Matches(x, id, size)
    ensures |r| <= |cart|
  {
    if cart == [] then []
    else (if Matches(cart[0], id, size) then [] else [cart[0]]) + Removed(cart[1..], id, size)
  }

  /** `Math.max(0, quantity)`. */
  function Max0(q: int): (r: int)
    ensures r >= 0 && r >= q
    ensures r == q || r == 0
  {
    if q > 0 then q else 0
  }

  /** `updateQuantity`: matching lines take the clamped quantity. */
  function WithQuantity(cart: seq<CartItem>, id: Id, size: string, q: int): (r: seq<CartItem>)
    ensures |r| == |cart|
    ensures forall i :: 0 <= i < |cart| ==>
      r[i] == if Matches(cart[i], id, size) then cart[i].(quantity := Max0(q)) else cart[i]
  {
    if cart == [] then []
    else
      [if Matches(cart[0], id, size) then cart[0].(quantity := Max0(q)) else cart[0]]
      + WithQuantity(cart[1..], id, size, q)
  }

  /** `cart.reduce((total, item) => total + item.price * item.quantity, 0)`. */
  function Subtotal(cart: seq<CartItem>): int {
    if cart == [] then 0 else cart[0].price * cart[0].quantity + Subtotal(cart[1..])
  }

  /** The prices of the lines with a given key, added up. */
  function MatchingPrices(cart: seq<CartItem>, id: Id, size: string): int {
    if cart == [] then 0
    else (if Matches(cart[0], id, size) then cart[0].price else 0) + MatchingPrices(cart[1..], id, size)
  }

  /** The value of the lines with a given key. */
  function MatchingValue(cart: seq<CartItem>, id: Id, size: string): int {
    if cart == [] then 0
    else
      var here := if Matches(cart[0], id, size) then cart[0].price * cart[0].quantity else 0;
      here + MatchingValue(cart[1..], id, size)
  }

  // ----- the provider -----

  class CartStore {
    var cart: seq<CartItem>

    constructor()
      ensures cart == []
    {
      cart := [];
    }

    method AddToCart(item: CartItem)
      modifies this
      ensures cart == Added(old(cart), item)
      ensures old(Unique(cart)) ==> Unique(cart)
    {
      AddedUnique(cart, item);
      cart := Added(cart, item);
    }

    method RemoveFromCart(id: Id, size: string)
      modifies this
      ensures cart == Removed(old(cart), id, size)
      ensures !HasLine(cart, id, size)
      ensures old(Unique(cart)) ==> Unique(cart)
    {
      RemovedUnique(cart, id, size);
      cart := Removed(cart, id, size);
    }

    method UpdateQuantity(id: Id, size: string, quantity: int)
      modifies this
      ensures cart == WithQuantity(old(cart), id, size, quantity)
      ensures old(Unique(cart)) ==> Unique(cart)
      ensures old(NonNegativeQuantities(cart)) ==> NonNegativeQuantities(cart)
    {
      WithQuantityKeys(cart, id, size, quantity);
      cart := WithQuantity(cart, id, size, quantity);
    }

    method ClearCart()
      modifies this
      ensures cart == [] && Subtotal(cart) == 0
    {
      cart := [];
    }

    /** The sum of price times quantity, never negative for a cart of non-negative lines. */
    function CalculateSubtotal(): (subtotal: int)
      reads this
      ensures cart == [] ==> subtotal == 0
      ensures NonNegativePrices(cart) && NonNegativeQuantities(cart) ==> subtotal >= 0
      ensures subtotal == Subtotal(cart)
    {
      SubtotalNonNegative(cart);
      Subtotal(cart)
    }

    /** No shipping or other costs are added. */
    function CalculateTotal(): (total: int)
      reads this
      ensures total == CalculateSubtotal()
    {
      var subtotal := CalculateSubtotal();
      subtotal
    }
  }

  // ----- keys -----

  /** A numeric id and its decimal string name the same line. */
  lemma NumericAndStringIdsAgree(n: int, item: CartItem)
    ensures Matches(item, NumId(n), item.size) <==> Matches(item, StrId(IntToString(n)), item.size)
  {
  }

  lemma {:induction false} NatToStringInjective(a: nat, b: nat)
    requires NatToString(a) == NatToString(b)
    ensures a == b
    decreases a
  {
    var s := NatToString(a);
    if a >= 10 && b >= 10 {
      assert s[..|s| - 1] == NatToString(a / 10) && s[..|s| - 1] == NatToString(b / 10);
      NatToStringInjective(a / 10, b / 10);
      assert DigitChar(a % 10) == DigitChar(b % 10);
    }
  }

  /** Two numeric ids give the same key only when they are the same number. */
  lemma NumericIdsDistinct(a: int, b: int)
    requires IdString(NumId(a)) == IdString(NumId(b))
    ensures a == b
  {
    var s := IdString(NumId(a));
    if a < 0 && b < 0 {
      assert s[1..] == NatToString(-a) && s[1..] == NatToString(-b);
      NatToStringInjective(-a, -b);
    } else if a >= 0 && b >= 0 {
      NatToStringInjective(a, b);
    } else {
      SignChar(a);
      SignChar(b);
      assert false;
    }
  }

  lemma SignChar(n: int)
    ensures IntToString(n) != [] && (IntToString(n)[0] == '-' <==> n < 0)
  {
  }

  // ----- addToCart -----

  /** A line with a new key is appended; the earlier lines stay as they were. */
  lemma AddNewKeyAppends(cart: seq<CartItem>, item: CartItem)
    requires !HasLine(cart, item.id, item.size)
    ensures Added(cart, item) == cart + [item]
    ensures Subtotal(Added(cart, item)) == Subtotal(cart) + item.price * item.quantity
  {
    SubtotalConcat(cart, [item]);
  }

  /**
    A line with an existing key is merged: the length stays, the matching line gains
    `item.quantity` and keeps its price, name and image, and every other line is unchanged.
  */
  lemma AddExistingMerges(cart: seq<CartItem>, item: CartItem)
    requires HasLine(cart, item.id, item.size)
    ensures |Added(cart, item)| == |cart|
    ensures forall i :: 0 <= i < |cart| && Matches(cart[i], item.id, item.size) ==>
      var line := Added(cart, item)[i];
      line.quantity == cart[i].quantity + item.quantity
      && line.price == cart[i].price && line.name == cart[i].name && line.image == cart[i].image
      && line.id == cart[i].id && line.size == cart[i].size
    ensures forall i :: 0 <= i < |cart| && !Matches(cart[i], item.id, item.size) ==> Added(cart, item)[i] == cart[i]
  {
  }

  lemma AddedUnique(cart: seq<CartItem>, item: CartItem)
    ensures Unique(cart) ==> Unique(Added(cart, item))
  {
    if Unique(cart) && !HasLine(cart, item.id, item.size) {
      var r := cart + [item];
      forall i, j | 0 <= i < j < |r| ensures Key(r[i]) != Key(r[j]) {
        if j == |cart| {
          assert !Matches(cart[i], item.id, item.size);
        }
      }
    }
  }

  /** A merge raises the subtotal by `item.quantity` times the matching lines' prices. */
  lemma {:induction false} MergedSubtotal(cart: seq<CartItem>, item: CartItem)
    ensures Subtotal(Merged(cart, item)) == Subtotal(cart) + item.quantity * MatchingPrices(cart, item.id, item.size)
  {
    if cart != [] {
      MergedSubtotal(cart[1..], item);
      var line := cart[0];
      assert Merged(cart, item)[1..] == Merged(cart[1..], item);
      if Matches(line, item.id, item.size) {
        Distribute(line.price, line.quantity, item.quantity);
        Distribute(item.quantity, line.price, MatchingPrices(cart[1..], item.id, item.size));
      }
    }
  }

  /** In a cart without duplicate keys the matched prices are the one line's price. */
  lemma {:induction false} UniqueMatchingPrices(cart: seq<CartItem>, k: int)
    requires Unique(cart) && 0 <= k < |cart|
    ensures MatchingPrices(cart, cart[k].id, cart[k].size) == cart[k].price
    ensures MatchingValue(cart, cart[k].id, cart[k].size) == cart[k].price * cart[k].quantity
  {
    var id, size := cart[k].id, cart[k].size;
    if k == 0 {
      NoMatchInRest(cart, 0);
    } else {
      assert !Matches(cart[0], id, size) by {
        assert Key(cart[0]) != Key(cart[k]);
      }
      assert cart[1..][k - 1] == cart[k];
      UniqueMatchingPrices(cart[1..], k - 1);
    }
  }

  lemma NoMatchInRest(cart: seq<CartItem>, k: int)
    requires Unique(cart) && 0 <= k < |cart|
    ensures MatchingPrices(cart[k + 1..], cart[k].id, cart[k].size) == 0
    ensures MatchingValue(cart[k + 1..], cart[k].id, cart[k].size) == 0
  {
    var rest := cart[k + 1..];
    forall i | 0 <= i < |rest| ensures !Matches(rest[i], cart[k].id, cart[k].size) {
      assert rest[i] == cart[k + 1 + i];
    }
    NoMatchesZero(rest, cart[k].id, cart[k].size);
  }

  lemma {:induction false} NoMatchesZero(cart: seq<CartItem>, id: Id, size: string)
    requires forall i :: 0 <= i < |cart| ==> !Matches(cart[i], id, size)
    ensures MatchingPrices(cart, id, size) == 0 && MatchingValue(cart, id, size) == 0
  {
    if cart != [] {
      assert !Matches(cart[0], id, size);
      NoMatchesZero(cart[1..], id, size);
    }
  }

  /** With unique keys, merging into line `k` raises the subtotal by that line's price times `item.quantity`. */
  lemma AddExistingSubtotal(cart: seq<CartItem>, item: CartItem, k: int)
    requires Unique(cart) && 0 <= k < |cart| && Matches(cart[k], item.id, item.size)
    ensures Subtotal(Added(cart, item)) == Subtotal(cart) + cart[k].price * item.quantity
  {
    assert HasLine(cart, item.id, item.size);
    assert Added(cart, item) == Merged(cart, item);
    MergedSubtotal(cart, item);
    UniqueMatchingPrices(cart, k);
    MatchingAgree(cart, cart[k].id, cart[k].size, item.id, item.size);
    assert item.quantity * cart[k].price == cart[k].price * item.quantity;
  }

  /** With unique keys, the lines matching line `k`'s key are line `k` alone. */
  lemma KeyedLine(cart: seq<CartItem>, k: int, id: Id, size: string)
    requires Unique(cart) && 0 <= k < |cart| && Matches(cart[k], id, size)
    ensures MatchingPrices(cart, id, size) == cart[k].price
    ensures MatchingValue(cart, id, size) == cart[k].price * cart[k].quantity
  {
    UniqueMatchingPrices(cart, k);
    MatchingAgree(cart, cart[k].id, cart[k].size, id, size);
  }

  /** The matched lines depend only on the key, not on how the id is spelled. */
  lemma {:induction false} MatchingAgree(cart: seq<CartItem>, id1: Id, size1: string, id2: Id, size2: string)
    requires IdString(id1) == IdString(id2) && size1 == size2
    ensures MatchingPrices(cart, id1, size1) == MatchingPrices(cart, id2, size2)
    ensures MatchingValue(cart, id1, size1) == MatchingValue(cart, id2, size2)
    ensures Removed(cart, id1, size1) == Removed(cart, id2, size2)
  {
    if cart != [] {
      MatchingAgree(cart[1..], id1, size1, id2, size2);
    }
  }

  // ----- removeFromCart -----

  /** Removal works line by line: it keeps the order of what remains. */
  lemma {:induction false} RemovedConcat(a: seq<CartItem>, b: seq<CartItem>, id: Id, size: string)
    ensures Removed(a + b, id, size) == Removed(a, id, size) + Removed(b, id, size)
  {
    if a == [] {
      assert a + b == b;
    } else {
      assert (a + b)[1..] == a[1..] + b;
      RemovedConcat(a[1..], b, id, size);
    }
  }

  /** Removing twice is removing once. */
  lemma {:induction false} RemovedIdempotent(cart: seq<CartItem>, id: Id, size: string)
    ensures Removed(Removed(cart, id, size), id, size) == Removed(cart, id, size)
  {
    if cart != [] {
      RemovedIdempotent(cart[1..], id, size);
      var rest := Removed(cart[1..], id, size);
      if !Matches(cart[0], id, size) {
        assert Removed(cart, id, size) == [cart[0]] + rest;
        RemovedConcat([cart[0]], rest, id, size);
        assert [cart[0]][1..] == [];
        assert Removed([cart[0]], id, size) == [cart[0]];
        assert Removed(Removed(cart, id, size), id, size) == [cart[0]] + Removed(rest, id, size);
      } else {
        assert Removed(cart, id, size) == [] + rest;
        assert [] + rest == rest;
      }
    }
  }

  /** Removing a key the cart does not hold changes nothing. */
  lemma {:induction false} RemovedAbsent(cart: seq<CartItem>, id: Id, size: string)
    requires !HasLine(cart, id, size)
    ensures Removed(cart, id, size) == cart
  {
    if cart != [] {
      assert !Matches(cart[0], id, size);
      assert !HasLine(cart[1..], id, size) by {
        forall i | 0 <= i < |cart[1..]| ensures !Matches(cart[1..][i], id, size) {
          assert cart[1..][i] == cart[i + 1];
        }
      }
      RemovedAbsent(cart[1..], id, size);
    }
  }

  /** Removal takes off exactly the value of the matching lines. */
  lemma {:induction false} RemovedSubtotal(cart: seq<CartItem>, id: Id, size: string)
    ensures Subtotal(Removed(cart, id, size)) == Subtotal(cart) - MatchingValue(cart, id, size)
  {
    if cart != [] {
      RemovedSubtotal(cart[1..], id, size);
      var head := if Matches(cart[0], id, size) then [] else [cart[0]];
      SubtotalConcat(head, Removed(cart[1..], id, size));
    }
  }

  /** With unique keys, removing line `k`'s key lowers the subtotal by that line's value. */
  lemma RemoveExistingSubtotal(cart: seq<CartItem>, id: Id, size: string, k: int)
    requires Unique(cart) && 0 <= k < |cart| && Matches(cart[k], id, size)
    ensures Subtotal(Removed(cart, id, size)) == Subtotal(cart) - cart[k].price * cart[k].quantity
  {
    RemovedSubtotal(cart, id, size);
    UniqueMatchingPrices(cart, k);
    MatchingAgree(cart, cart[k].id, cart[k].size, id, size);
  }

  lemma UniqueCons(x: CartItem, t: seq<CartItem>)
    ensures Unique([x] + t) <==> Unique(t) && forall y :: y in t ==> Key(y) != Key(x)
  {
    var r := [x] + t;
    assert forall i :: 0 <= i < |t| ==> r[i + 1] == t[i];
    if Unique(t) && forall y :: y in t ==> Key(y) != Key(x) {
      forall i, j | 0 <= i < j < |r| ensures Key(r[i]) != Key(r[j]) {
        if i == 0 {
          assert r[j] in t;
        } else {
          assert r[i] == t[i - 1] && r[j] == t[j - 1];
        }
      }
    }
    if Unique(r) {
      forall y | y in t ensures Key(y) != Key(x) {
        var j :| 0 <= j < |t| && t[j] == y;
        assert r[0] == x && r[j + 1] == y;
        assert Key(r[0]) != Key(r[j + 1]);
      }
      forall i, j | 0 <= i < j < |t| ensures Key(t[i]) != Key(t[j]) {
        assert r[i + 1] == t[i] && r[j + 1] == t[j];
      }
    }
  }

  lemma {:induction false} RemovedUnique(cart: seq<CartItem>, id: Id, size: string)
    ensures Unique(cart) ==> Unique(Removed(cart, id, size))
    ensures !HasLine(Removed(cart, id, size), id, size)
  {
    var r := Removed(cart, id, size);
    forall i | 0 <= i < |r| ensures !Matches(r[i], id, size) {
      assert r[i] in r;
    }
    if cart != [] && Unique(cart) {
      var rest := cart[1..];
      assert cart == [cart[0]] + rest;
      UniqueCons(cart[0], rest);
      RemovedUnique(rest, id, size);
      var t := Removed(rest, id, size);
      if !Matches(cart[0], id, size) {
        assert r == [cart[0]] + t;
        UniqueCons(cart[0], t);
      }
    }
  }

  // ----- updateQuantity -----

  lemma WithQuantityKeys(cart: seq<CartItem>, id: Id, size: string, q: int)
    ensures Unique(cart) ==> Unique(WithQuantity(cart, id, size, q))
    ensures NonNegativeQuantities(cart) ==> NonNegativeQuantities(WithQuantity(cart, id, size, q))
  {
    var r := WithQuantity(cart, id, size, q);
    assert forall i :: 0 <= i < |r| ==> Key(r[i]) == Key(cart[i]);
  }

  /** Setting a quantity never yields a negative one and never drops a line. */
  lemma WithQuantityClamps(cart: seq<CartItem>, id: Id, size: string, q: int)
    ensures |WithQuantity(cart, id, size, q)| == |cart|
    ensures forall i :: 0 <= i < |cart| && Matches(cart[i], id, size) ==>
      WithQuantity(cart, id, size, q)[i].quantity == (if q > 0 then q else 0) >= 0
    ensures forall i :: 0 <= i < |cart| && !Matches(cart[i], id, size) ==> WithQuantity(cart, id, size, q)[i] == cart[i]
  {
  }

  /** The subtotal moves by the difference between the new and the old value of the matching lines. */
  lemma {:induction false} WithQuantitySubtotal(cart: seq<CartItem>, id: Id, size: string, q: int)
    ensures Subtotal(WithQuantity(cart, id, size, q))
         == Subtotal(cart) - MatchingValue(cart, id, size) + Max0(q) * MatchingPrices(cart, id, size)
  {
    if cart != [] {
      var h, rest := cart[0], cart[1..];
      var m := Max0(q);
      WithQuantitySubtotal(rest, id, size, q);
      var w := WithQuantity(cart, id, size, q);
      assert w[1..] == WithQuantity(rest, id, size, q);
      assert Subtotal(w) == w[0].price * w[0].quantity + Subtotal(w[1..]);
      if Matches(h, id, size) {
        assert w[0].price == h.price && w[0].quantity == m;
        Distribute(m, h.price, MatchingPrices(rest, id, size));
      } else {
        assert w[0] == h;
      }
    }
  }

  /** With unique keys, setting line `k`'s quantity moves the subtotal by its price times the change. */
  lemma UpdateExistingSubtotal(cart: seq<CartItem>, id: Id, size: string, q: int, k: int)
    requires Unique(cart) && 0 <= k < |cart| && Matches(cart[k], id, size)
    ensures Subtotal(WithQuantity(cart, id, size, q))
         == Subtotal(cart) + cart[k].price * (Max0(q) - cart[k].quantity)
  {
    WithQuantitySubtotal(cart, id, size, q);
    KeyedLine(cart, k, id, size);
    PriceTimesChange(Subtotal(WithQuantity(cart, id, size, q)), Subtotal(cart), MatchingValue(cart, id, size),
                     MatchingPrices(cart, id, size), cart[k].price, cart[k].quantity, Max0(q));
  }

  /** Proof helper: distributivity for the subtotal lemmas. */
  lemma Distribute(m: int, x: int, y: int)
    ensures m * (x + y) == x * m + m * y
  {
  }

  /** Proof helper: the arithmetic step of `UpdateExistingSubtotal`. */
  lemma PriceTimesChange(after: int, total: int, value: int, prices: int, p: int, before: int, m: int)
    requires after == total - value + m * prices
    requires value == p * before && prices == p
    ensures after == total + p * (m - before)
  {
    assert m * p == p * m;
    assert p * (m - before) == p * m - p * before;
  }

  // ----- subtotal -----

  /** A cart of lines with non-negative prices and quantities has a non-negative subtotal. */
  lemma {:induction false} SubtotalNonNegative(cart: seq<CartItem>)
    ensures cart == [] ==> Subtotal(cart) == 0
    ensures NonNegativePrices(cart) && NonNegativeQuantities(cart) ==> Subtotal(cart) >= 0
  {
    if cart != [] && NonNegativePrices(cart) && NonNegativeQuantities(cart) {
      SubtotalNonNegative(cart[1..]);
      assert NonNegativePrices(cart[1..]) && NonNegativeQuantities(cart[1..]) by {
        forall i | 0 <= i < |cart| - 1 ensures cart[1..][i] == cart[i + 1] { }
      }
      assert cart[0].price * cart[0].quantity >= 0;
    }
  }

  lemma {:induction false} SubtotalConcat(a: seq<CartItem>, b: seq<CartItem>)
    ensures Subtotal(a + b) == Subtotal(a) + Subtotal(b)
  {
    if a == [] {
      assert a + b == b;
    } else {
      assert (a + b)[1..] == a[1..] + b;
      SubtotalConcat(a[1..], b);
    }
  }
}
