/**
  The checkout page: flat shipping by method, one fixed discount code, the order
  total, the ordered checks run before payment and the Pay button's enablement.
*/
module Checkout {
  import opened Wrappers
  import opened Cart

  const ExpressShipping := 150
  const StandardShipping := 50
  const DiscountCode := "SUMMER10"
  const DiscountAmount := 100

  const InvalidCode := "Invalid discount code."
  const EmptyCart := "Your cart is empty. Please add items before proceeding to checkout."
  const TermsNotAgreed := "Please agree to the terms and conditions before proceeding."
  const MissingCardDetails := "Please fill in all card details before proceeding."
  const PaymentFailed := "Failed to process payment. Please try again."

  /** `shippingMethod === 'express' ? 150 : 50`. */
  function ShippingCost(shippingMethod: string): (cost: int)
    ensures shippingMethod == "express" ==> cost == ExpressShipping
    ensures shippingMethod != "express" ==> cost == StandardShipping
  {
    if shippingMethod == "express" then 150 else 50
  }

  /**
    `subtotal + shippingCost - discount`, the subtotal being the cart's `calculateTotal()`:
    the subtotal less the discount, plus between 50 and 150 for shipping.
  */
  function TotalAmount(cart: seq<CartItem>, shippingMethod: string, discount: int): (total: int)
    ensures Subtotal(cart) - discount + StandardShipping <= total <= Subtotal(cart) - discount + ExpressShipping
  {
    Subtotal(cart) + ShippingCost(shippingMethod) - discount
  }

  /** The discount after applying `code`: only the exact code sets it, to 100; it never stacks. */
  function DiscountAfter(code: string, discount: int): (d: int)
    ensures d == DiscountAmount || d == discount
    ensures code == DiscountCode ==> d == DiscountAmount
    ensures code != DiscountCode ==> d == discount
  {
    if code == DiscountCode then DiscountAmount else discount
  }

  /** The first failing check of `handleSubmitOrder`, in the order they run. */
  function SubmitError(cart: seq<CartItem>, agreeToTerms: bool,
                       cardNumber: string, cardExpiry: string, cardCVC: string, cardHolder: string): (e: Option<string>)
    ensures e.None? <==>
      cart != [] && agreeToTerms && cardNumber != "" && cardExpiry != "" && cardCVC != "" && cardHolder != ""
    ensures cart == [] ==> e == Some(EmptyCart)
    ensures cart != [] && !agreeToTerms ==> e == Some(TermsNotAgreed)
    ensures cart != [] && agreeToTerms && e.Some? ==> e == Some(MissingCardDetails)
  {
    if |cart| == 0 then Some(EmptyCart)
    else if !agreeToTerms then Some(TermsNotAgreed)
    else if cardNumber == "" || cardExpiry == "" || cardCVC == "" || cardHolder == "" then Some(MissingCardDetails)
    else None
  }

  /** `disabled={!agreeToTerms || cart.length === 0 || isSubmitting}`. */
  predicate PayDisabled(agreeToTerms: bool, cart: seq<CartItem>, isSubmitting: bool): (disabled: bool)
    ensures isSubmitting ==> disabled
    ensures !disabled ==> SubmitError(cart, agreeToTerms, "", "", "", "") == Some(MissingCardDetails)
    ensures agreeToTerms && |cart| > 0 && !isSubmitting ==> !disabled
  {
    !agreeToTerms || |cart| == 0 || isSubmitting
  }

  class CheckoutPage {
    var shippingMethod: string
    var discountCode: string
    var discount: int
    var agreeToTerms: bool
    var cardNumber: string
    var cardExpiry: string
    var cardCVC: string
    var cardHolder: string
    var isSubmitting: bool
    var error: Option<string>

    constructor()
      ensures shippingMethod == "standard" && discountCode == "" && discount == 0
      ensures !agreeToTerms && !isSubmitting && error == None
      ensures cardNumber == "" && cardExpiry == "" && cardCVC == "" && cardHolder == ""
    {
      shippingMethod := "standard";
      discountCode := "";
      discount := 0;
      agreeToTerms := false;
      cardNumber := "";
      cardExpiry := "";
      cardCVC := "";
      cardHolder := "";
      isSubmitting := false;
      error := None;
    }

    function Total(cart: seq<CartItem>): int
      reads this
    {
      TotalAmount(cart, shippingMethod, discount)
    }

    /** `handleApplyDiscount`: the valid code sets the discount; any other sets the error. */
    method ApplyDiscount()
      modifies this
      ensures discount == DiscountAfter(discountCode, old(discount))
      ensures discountCode == DiscountCode ==> error == old(error)
      ensures discountCode != DiscountCode ==> error == Some(InvalidCode)
      ensures discountCode == old(discountCode) && shippingMethod == old(shippingMethod)
      ensures agreeToTerms == old(agreeToTerms) && isSubmitting == old(isSubmitting)
      ensures cardNumber == old(cardNumber) && cardExpiry == old(cardExpiry)
      ensures cardCVC == old(cardCVC) && cardHolder == old(cardHolder)
    {
      if discountCode == "SUMMER10" {
        discount := 100;
      } else {
        error := Some("Invalid discount code.");
      }
    }

    /**
      The synchronous part of `handleSubmitOrder`: a failing check sets its message and
      stops with `isSubmitting` untouched; otherwise submission starts with no error.
    */
    method SubmitOrder(cart: seq<CartItem>) returns (started: bool)
      modifies this
      ensures var e := SubmitError(cart, agreeToTerms, cardNumber, cardExpiry, cardCVC, cardHolder);
        (started <==> e.None?)
        && (e.Some? ==> error == e && isSubmitting == old(isSubmitting))
        && (e.None? ==> error == None && isSubmitting)
      ensures discount == old(discount) && discountCode == old(discountCode) && shippingMethod == old(shippingMethod)
      ensures agreeToTerms == old(agreeToTerms)
      ensures cardNumber == old(cardNumber) && cardExpiry == old(cardExpiry)
      ensures cardCVC == old(cardCVC) && cardHolder == old(cardHolder)
    {
      if |cart| == 0 {
        error := Some("Your cart is empty. Please add items before proceeding to checkout.");
        return false;
      }
      if !agreeToTerms {
        error := Some("Please agree to the terms and conditions before proceeding.");
        return false;
      }
      if cardNumber == "" || cardExpiry == "" || cardCVC == "" || cardHolder == "" {
        error := Some("Please fill in all card details before proceeding.");
        return false;
      }
      isSubmitting := true;
      error := None;
      return true;
    }

    /**
      The rest of `handleSubmitOrder` once the payment step settles: success redirects to
      the order page, failure sets the error, and `isSubmitting` is cleared either way.
    */
    method FinishSubmit(failed: bool) returns (redirect: Option<string>)
      modifies this
      ensures !isSubmitting
      ensures failed ==> redirect == None && error == Some(PaymentFailed)
      ensures !failed ==> redirect == Some("/order-success") && error == old(error)
      ensures discount == old(discount) && discountCode == old(discountCode) && shippingMethod == old(shippingMethod)
      ensures agreeToTerms == old(agreeToTerms)
      ensures cardNumber == old(cardNumber) && cardExpiry == old(cardExpiry)
      ensures cardCVC == old(cardCVC) && cardHolder == old(cardHolder)
    {
      if failed {
        error := Some("Failed to process payment. Please try again.");
        redirect := None;
      } else {
        redirect := Some("/order-success");
      }
      isSubmitting := false;
    }
  }

  // ----- properties -----

  /** Applying a code twice is applying it once: the discount never stacks. */
  lemma DiscountIdempotent(code: string, discount: int)
    ensures DiscountAfter(code, DiscountAfter(code, discount)) == DiscountAfter(code, discount)
    ensures DiscountAfter(code, discount) == DiscountAmount <==> code == DiscountCode || discount == DiscountAmount
  {
  }

  /** The code is matched exactly: a different case, or surrounding spaces, leave the discount alone. */
  lemma DiscountCaseSensitive(discount: int)
    ensures DiscountAfter("summer10", discount) == discount
    ensures DiscountAfter("SUMMER10 ", discount) == discount
  {
    assert "summer10"[0] != DiscountCode[0];
    assert |"SUMMER10 "| != |DiscountCode|;
  }

  /** A line with a new key raises the total by its own value, whatever the shipping and discount. */
  lemma TotalOfNewLine(cart: seq<CartItem>, item: CartItem, shippingMethod: string, discount: int)
    requires !HasLine(cart, item.id, item.size)
    ensures TotalAmount(Added(cart, item), shippingMethod, discount)
         == TotalAmount(cart, shippingMethod, discount) + item.price * item.quantity
  {
    AddNewKeyAppends(cart, item);
  }

  /** Adding to the existing line `k` raises the total by that line's price times the added quantity. */
  lemma TotalOfMergedLine(cart: seq<CartItem>, item: CartItem, k: int, shippingMethod: string, discount: int)
    requires Unique(cart) && 0 <= k < |cart| && Matches(cart[k], item.id, item.size)
    ensures TotalAmount(Added(cart, item), shippingMethod, discount)
         == TotalAmount(cart, shippingMethod, discount) + cart[k].price * item.quantity
  {
    AddExistingSubtotal(cart, item, k);
  }

  /** Entering the code again leaves the total as it was. */
  lemma TotalCodeReentered(cart: seq<CartItem>, shippingMethod: string, code: string, discount: int)
    ensures TotalAmount(cart, shippingMethod, DiscountAfter(code, DiscountAfter(code, discount)))
         == TotalAmount(cart, shippingMethod, DiscountAfter(code, discount))
  {
    DiscountIdempotent(code, discount);
  }

  /**
    From the page's initial discount of 0, the total is never negative once the lines
    are non-negative and the subtotal reaches 50, the discount less standard shipping.
  */
  lemma TotalNonNegative(cart: seq<CartItem>, shippingMethod: string, code: string)
    requires NonNegativePrices(cart) && NonNegativeQuantities(cart)
    requires Subtotal(cart) >= DiscountAmount - StandardShipping
    ensures TotalAmount(cart, shippingMethod, DiscountAfter(code, 0)) >= 0
    ensures code != DiscountCode ==> TotalAmount(cart, shippingMethod, DiscountAfter(code, 0)) >= StandardShipping
  {
  }

  /** Below that bound the code makes the total negative: a single line priced 20 shows -30. */
  lemma NegativeTotalPossible()
    ensures TotalAmount([CartItem(NumId(1), "Sample", 20, 1, "M", "")], "standard", DiscountAfter(DiscountCode, 0)) == -30
  {
    var cart := [CartItem(NumId(1), "Sample", 20, 1, "M", "")];
    assert cart[1..] == [];
    assert Subtotal(cart) == 20;
  }

  /**
    When the Pay button is enabled the cart and terms checks pass, so the only
    message a click can produce is the missing-card one.
  */
  lemma EnabledPayReachesCardCheck(cart: seq<CartItem>, agreeToTerms: bool, isSubmitting: bool,
                                   cardNumber: string, cardExpiry: string, cardCVC: string, cardHolder: string)
    requires !PayDisabled(agreeToTerms, cart, isSubmitting)
    ensures var e := SubmitError(cart, agreeToTerms, cardNumber, cardExpiry, cardCVC, cardHolder);
      e == None || e == Some(MissingCardDetails)
    ensures !isSubmitting
  {
  }
}
