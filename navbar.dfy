/**
  The navigation bar: the cart badge, the signed-in user's initials and the
  menu, cart and sign-out flags.
*/
module Navbar {
  import opened Wrappers
  import opened Strings
  import opened Cart

  /** `cart.reduce((total, item) => total + item.quantity, 0)`. */
  function CartItemCount(cart: seq<CartItem>): int {
    if cart == [] then 0 else cart[0].quantity + CartItemCount(cart[1..])
  }

  /** The badge is rendered for `cartItemCount > 0`. */
  predicate ShowBadge(cart: seq<CartItem>): (shown: bool)
    ensures shown ==> cart != []
  {
    CartItemCount(cart) > 0
  }

  /** `s.charAt(0)`: the first character, or `''`. */
  function FirstChar(s: string): (r: string)
    ensures |r| <= 1
    ensures s != [] ==> r == [s[0]]
    ensures s == [] ==> r == []
  {
    if s == [] then [] else s[..1]
  }

  /**
    `displayName ? first(words[0]) + (first(words[1]) || '') : 'U'`, the words
    being `displayName.split(' ')`.
  */
  function Initials(displayName: Option<string>): (r: string)
    ensures |r| <= 2
    ensures displayName.None? || displayName.value == [] ==> r == "U"
    ensures forall i :: 0 <= i < |r| && displayName.Some? && displayName.value != [] ==> r[i] != ' '
  {
    if displayName.None? || displayName.value == [] then "U"
    else
      var words := Split(displayName.value, ' ');
      assert words[0] != [] ==> words[0][0] != ' ';
      assert |words| > 1 && words[1] != [] ==> words[1][0] != ' ';
      FirstChar(words[0]) + (if |words| > 1 then FirstChar(words[1]) else [])
  }

  /** Open, cart and sign-out flags of the bar. */
  class NavbarState {
    var isMenuOpen: bool
    var isCartOpen: bool
    var isSigningOut: bool

    constructor()
      ensures !isMenuOpen && !isCartOpen && !isSigningOut
    {
      isMenuOpen := false;
      isCartOpen := false;
      isSigningOut := false;
    }

    method ToggleMenu()
      modifies this
      ensures isMenuOpen == !old(isMenuOpen)
      ensures isCartOpen == old(isCartOpen) && isSigningOut == old(isSigningOut)
    {
      isMenuOpen := !isMenuOpen;
    }

    method ToggleCart()
      modifies this
      ensures isCartOpen == !old(isCartOpen)
      ensures isMenuOpen == old(isMenuOpen) && isSigningOut == old(isSigningOut)
    {
      isCartOpen := !isCartOpen;
    }

    /** The start of `handleSignOut`; the sign-out button is disabled meanwhile. */
    method BeginSignOut()
      modifies this
      ensures isSigningOut
      ensures isMenuOpen == old(isMenuOpen) && isCartOpen == old(isCartOpen)
    {
      isSigningOut := true;
    }

    /** The `finally` of `handleSignOut`, reached whether or not signing out failed. */
    method EndSignOut()
      modifies this
      ensures !isSigningOut
      ensures isMenuOpen == old(isMenuOpen) && isCartOpen == old(isCartOpen)
    {
      isSigningOut := false;
    }
  }

  // ----- properties -----

  lemma {:induction false} ItemCountConcat(a: seq<CartItem>, b: seq<CartItem>)
    ensures CartItemCount(a + b) == CartItemCount(a) + CartItemCount(b)
  {
    if a == [] {
      assert a + b == b;
    } else {
      assert (a + b)[1..] == a[1..] + b;
      ItemCountConcat(a[1..], b);
    }
  }

  /** Merging into lines that do not match leaves them as they are. */
  lemma MergedNoMatch(cart: seq<CartItem>, item: CartItem)
    requires !HasLine(cart, item.id, item.size)
    ensures Merged(cart, item) == cart
  {
  }

  /** Merging into a cart with one matching line adds `item.quantity` to the count. */
  lemma {:induction false} MergedCount(cart: seq<CartItem>, item: CartItem)
    requires Unique(cart) && HasLine(cart, item.id, item.size)
    ensures CartItemCount(Merged(cart, item)) == CartItemCount(cart) + item.quantity
  {
    var rest := cart[1..];
    assert Merged(cart, item)[1..] == Merged(rest, item);
    if Matches(cart[0], item.id, item.size) {
      HeadMatchIsOnly(cart, item);
      MergedNoMatch(rest, item);
    } else {
      LineInRest(cart, item);
      MergedCount(rest, item);
    }
  }

  /** A matching line that is not the head lies in the rest, which keeps its keys unique. */
  lemma LineInRest(cart: seq<CartItem>, item: CartItem)
    requires Unique(cart) && HasLine(cart, item.id, item.size) && !Matches(cart[0], item.id, item.size)
    ensures Unique(cart[1..]) && HasLine(cart[1..], item.id, item.size)
  {
    var rest := cart[1..];
    var i :| 0 <= i < |cart| && Matches(cart[i], item.id, item.size);
    assert rest[i - 1] == cart[i];
    forall a, b | 0 <= a < b < |rest| ensures Key(rest[a]) != Key(rest[b]) {
      assert rest[a] == cart[a + 1] && rest[b] == cart[b + 1];
    }
  }

  lemma HeadMatchIsOnly(cart: seq<CartItem>, item: CartItem)
    requires Unique(cart) && cart != [] && Matches(cart[0], item.id, item.size)
    ensures !HasLine(cart[1..], item.id, item.size)
  {
    var rest := cart[1..];
    forall i | 0 <= i < |rest| ensures !Matches(rest[i], item.id, item.size) {
      assert rest[i] == cart[i + 1];
      assert Key(cart[0]) != Key(cart[i + 1]);
    }
  }

  /**
    Adding an item to a cart without duplicate keys raises the badge count by the
    item's quantity, whether it is merged or appended.
  */
  lemma AddedCount(cart: seq<CartItem>, item: CartItem)
    requires Unique(cart)
    ensures CartItemCount(Added(cart, item)) == CartItemCount(cart) + item.quantity
  {
    if HasLine(cart, item.id, item.size) {
      MergedCount(cart, item);
    } else {
      ItemCountConcat(cart, [item]);
    }
  }

  /** With no negative quantities, the badge shows exactly when some line has a positive quantity. */
  lemma {:induction false} BadgeIffPositiveLine(cart: seq<CartItem>)
    requires NonNegativeQuantities(cart)
    ensures CartItemCount(cart) >= 0
    ensures ShowBadge(cart) <==> exists i :: 0 <= i < |cart| && cart[i].quantity > 0
  {
    if cart != [] {
      BadgeIffPositiveLine(cart[1..]);
      if CartItemCount(cart[1..]) > 0 {
        var i :| 0 <= i < |cart[1..]| && cart[1..][i].quantity > 0;
        assert cart[i + 1].quantity > 0;
      }
      if exists i :: 0 <= i < |cart| && cart[i].quantity > 0 {
        var i :| 0 <= i < |cart| && cart[i].quantity > 0;
        if i > 0 {
          assert cart[1..][i - 1].quantity > 0;
        }
      }
    }
  }

  lemma {:induction false} SplitWithoutSeparator(a: string, sep: char)
    requires sep !in a
    ensures Split(a, sep) == [a]
  {
    if a != [] {
      SplitWithoutSeparator(a[1..], sep);
      assert [a[0]] + a[1..] == a;
    }
  }

  /** A word free of the separator is split off as the first part. */
  lemma {:induction false} SplitAfterWord(a: string, sep: char, t: string)
    requires sep !in a
    ensures Split(a + [sep] + t, sep) == [a] + Split(t, sep)
  {
    var s := a + [sep] + t;
    if a == [] {
      assert s[1..] == t;
    } else {
      assert s[1..] == a[1..] + [sep] + t;
      SplitAfterWord(a[1..], sep, t);
      assert [a[0]] + a[1..] == a;
    }
  }

  /** A one-word name gives its first letter. */
  lemma InitialsOneWord(name: string)
    requires name != [] && ' ' !in name
    ensures Initials(Some(name)) == [name[0]]
  {
    SplitWithoutSeparator(name, ' ');
  }

  /** `first second` gives the two first letters. */
  lemma InitialsTwoWords(first: string, second: string)
    requires first != [] && second != [] && ' ' !in first && ' ' !in second
    ensures Initials(Some(first + " " + second)) == [first[0], second[0]]
  {
    SplitAfterWord(first, ' ', second);
    SplitWithoutSeparator(second, ' ');
  }

  /** Words after the second are ignored. */
  lemma InitialsIgnoreLaterWords(first: string, second: string, rest: string)
    requires first != [] && ' ' !in first && ' ' !in second
    ensures Initials(Some(first + " " + second + " " + rest)) == Initials(Some(first + " " + second))
  {
    assert first + " " + second + " " + rest == first + [' '] + (second + [' '] + rest);
    SplitAfterWord(first, ' ', second + [' '] + rest);
    SplitAfterWord(second, ' ', rest);
    SplitAfterWord(first, ' ', second);
    SplitWithoutSeparator(second, ' ');
  }

  /** A name of spaces only is truthy, yet yields no initials at all. */
  lemma InitialsOfBlankName()
    ensures Initials(Some(" ")) == ""
  {
    assert " " == [] + [' '] + [];
    SplitAfterWord([], ' ', []);
  }
}
