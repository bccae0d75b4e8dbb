# AMARE swimwear shop: a Dafny model of its core logic

The AMARE shop is a Next.js web store for swimwear. Its logic is spread over many
small pieces. This project models those pieces and proves what each one promises:

- **Cart store** (`Cart`). `CartProvider` holds the cart, an ordered list of lines
  keyed by `(id.toString(), size)`. It adds with merging, removes, updates
  quantities, clears and totals.
- **Signature generator** (`SignatureGeneration`). The
  `/api/generate-payfast-signature` route builds the canonical string for the
  payment gateway and hashes it. It sorts the fields, skips `signature` and
  `passphrase`, writes `key=value&` with the value passed through
  `encodeURIComponent` and `%20` rewritten to `+`, and always appends
  `passphrase=…`.
- **Notification verifier** (`PaymentNotification`). The
  `/api/payment-notification` route rebuilds the string differently. It drops only
  `signature`, joins `key=value` with `&`, keeps plain `encodeURIComponent`, and
  appends `&passphrase=…` only when a passphrase is configured. It answers 400 when
  the digest differs from the posted signature, otherwise 200.
- **Comparing the two strings** (`CanonicalStrings`). States exactly when the two
  routes' strings coincide.
- **A worked example** (`SignatureExample`). One concrete request and the string it
  yields.
- **Value encoding** (`UriEncoding`). `encodeURIComponent` as ECMA-262 defines it.
  Characters outside the unreserved set `A-Z a-z 0-9 - _ . ! ~ * ' ( )` are written
  as UTF-8 bytes in `%XY` form (section 2.1 of RFC 3986). Also modelled: the
  left-to-right `%20` to `+` replacement.
- **Checkout** (`Checkout`). Flat shipping, the single discount code, the order
  total, the ordered submit checks and the Pay button's enablement.
- **Shop page** (`Shop`). Average ratings, adding a review to one product, the list
  on display and its ordering, and the add-to-cart guard with its reset.
- **Navigation bar** (`Navbar`). The cart badge, the user's initials, and the menu,
  cart and sign-out flags.
- **Sign-in page** (`Auth`). Password rules, the phone pattern and formatter,
  first-letter capitalisation, the order of the sign-up checks, and the page a
  signed-in user is sent to.
- **Password strength meter** (`PasswordStrength`). The 0–5 score, its label and
  colour, and the five bar segments.
- **Profile-completion prompt** (`ProfileCompletion`). The 12.5-per-field
  percentage, its rounding, and when the prompt shows.
- **Review form** (`ReviewForm`). Star rating, comment, submit enablement and the
  reset after submitting.
- **Home page** (`HomePage`). The hero and review carousels, the review dots, the
  first-visit welcome dialog and the alternating background video.
- **Shared helpers.** `Strings` covers character classes, JavaScript whitespace,
  `trim`, `split`, `join`, and the default sort with its properties. JavaScript's default
  sort compares UTF-16 code units; the model compares characters, which agrees with it on
  the Basic Multilingual Plane (see "Left out").
  `Wrappers` provides `Option`.

Each piece that holds state is a class: `CartStore`, `CheckoutPage`, `ShopPage`,
`NavbarState`, `CompletionPrompt`, `ReviewFormState` and `HomePageState`. Their
methods say the whole new state in terms of specification functions. Each handler
that updates a local variable step by step is a method proved against a
specification function:

- `SignatureGeneration.GenerateSignature` with its `SignedPairs` loop;
- `ProfileCompletion.CompletionPercentage`, a loop over the eight fields;
- `PasswordStrength.CalculateStrength`, a running score incremented by five tests
  (straight-line code, no loop).

Pure expressions of the source are functions, and the properties are lemmas about
those functions.

Several things are parameters or inputs:

- MD5 (RFC 1321) is a parameter `md5: string -> string`, and no proof depends on
  what it computes.
- A request body is a `map<string, string>` plus `keyOrder`, the order in which
  `Object.keys` lists its fields.
- The configured passphrase is an `Option<string>`.
- Results of network calls enter the handlers as arguments: fetched reviews, the
  review the backend returned, whether a request succeeded, and the stored profile
  document.

Two behaviours of the source are modelled as written:

- The background video has no `src` attribute; it plays through a `<source>` child.
  So the first `ended` event reads an empty `src`, which does not end in
  `video.mp4`, and the first video plays again before the two start alternating
  (`HomePage.FirstEndReplaysFirstVideo`).
- Email sign-up stores the phone number as `phoneNumber`, but the completion
  prompt counts a field named `phone`. A fresh account therefore stands at 3 of 8
  fields, shown as 38%, and is prompted (`ProfileCompletion.EmailSignUpCompletion`).

## Model

| member | source | states |
|---|---|---|
| Cart.CartStore.constructor | src/contexts/CartContext.tsx:27 | the cart starts empty |
| Cart.CartStore.AddToCart | src/contexts/CartContext.tsx:48-61 | the new cart is the old one with the item merged into its matching line, or appended when no line has its key; key uniqueness is preserved |
| Cart.CartStore.RemoveFromCart | src/contexts/CartContext.tsx:64-68 | the new cart is the old one without the lines of that key, after which no line has the key; uniqueness is preserved |
| Cart.CartStore.UpdateQuantity | src/contexts/CartContext.tsx:70-76 | the new cart is the old one with matching lines set to `max(0, q)`; uniqueness and non-negative quantities are preserved |
| Cart.CartStore.ClearCart | src/contexts/CartContext.tsx:78-80 | the cart becomes empty and its subtotal 0 |
| Cart.CartStore.CalculateTotal | src/contexts/CartContext.tsx:86-90 | the total equals the subtotal: no shipping or other cost is added |
| Cart.Added | src/contexts/CartContext.tsx:48-61 | afterwards a line has the item's key; the cart grows by one exactly when no line had it; lines of other keys are unchanged |
| Cart.Max0 | src/contexts/CartContext.tsx:73 | `Math.max(0, q)`: at least 0 and at least `q`, and equal to one of them |
| Cart.IntToString | src/contexts/CartContext.tsx:51 | `toString` of an integer is non-empty, starts with `-` exactly for a negative number, and is otherwise decimal digits |
| Cart.IdString | src/contexts/CartContext.tsx:51 | a string id is its own string form |
| Cart.Subtotal | src/contexts/CartContext.tsx:82-84 | the sum of `price * quantity` over the lines (no contract of its own; see `Cart.SubtotalNonNegative` and `Cart.SubtotalConcat`) |
| Cart.SubtotalNonNegative | src/contexts/CartContext.tsx:82-84 | the empty cart totals 0; with non-negative prices and quantities the subtotal is never negative |
| Cart.CartStore.CalculateSubtotal | src/contexts/CartContext.tsx:82-84 | the sum of `price * quantity` over the lines: 0 for the empty cart and never negative for non-negative lines |
| Cart.Merged | src/contexts/CartContext.tsx:54-58 | same length; every matching line gains `item.quantity` with all its other fields kept; every other line is unchanged |
| Cart.Removed | src/contexts/CartContext.tsx:65-67 | a line is kept exactly when it was in the cart and does not match the key; the cart never grows |
| Cart.WithQuantity | src/contexts/CartContext.tsx:71-75 | same length; matching lines take the clamped quantity with their other fields kept; other lines are unchanged |
| Cart.NatToString | src/contexts/CartContext.tsx:51 | `toString` of a whole number is a non-empty string of decimal digits |
| Cart.NatToStringInjective | src/contexts/CartContext.tsx:51 | different numbers have different decimal strings |
| Cart.NumericIdsDistinct | src/contexts/CartContext.tsx:51 | two numeric ids give the same key only when they are the same number |
| Cart.NumericAndStringIdsAgree | src/contexts/CartContext.tsx:50-51 | numeric id `n` and the string id of its decimal form match exactly the same lines |
| Cart.MatchingAgree | src/contexts/CartContext.tsx:51 | ids with the same string form select the same lines for pricing and removal |
| Cart.AddNewKeyAppends | src/contexts/CartContext.tsx:59-60 | with a new key the item is appended after the unchanged lines, and the subtotal rises by `item.price * item.quantity` |
| Cart.AddExistingMerges | src/contexts/CartContext.tsx:53-58 | with an existing key the length stays; the matching line gains `item.quantity` and keeps its id, size, price, name and image; other lines are unchanged |
| Cart.AddedUnique | src/contexts/CartContext.tsx:50-60 | adding keeps "no two lines share a key" |
| Cart.MergedSubtotal | src/contexts/CartContext.tsx:54-58 | merging raises the subtotal by `item.quantity` times the prices of the matching lines |
| Cart.AddExistingSubtotal | src/contexts/CartContext.tsx:53-58 | with unique keys, merging into line `k` raises the subtotal by that line's own price times `item.quantity`, not the item's price |
| Cart.RemovedIdempotent | src/contexts/CartContext.tsx:64-68 | removing a key twice is removing it once |
| Cart.RemovedAbsent | src/contexts/CartContext.tsx:64-68 | removing a key that no line has leaves the cart as it was |
| Cart.RemovedConcat | src/contexts/CartContext.tsx:65-67 | removal works line by line: it distributes over concatenation, so order is kept |
| Cart.RemovedSubtotal | src/contexts/CartContext.tsx:64-68 | removal lowers the subtotal by exactly the value of the removed lines |
| Cart.RemoveExistingSubtotal | src/contexts/CartContext.tsx:64-68 | with unique keys, removing line `k`'s key lowers the subtotal by that line's `price * quantity` |
| Cart.RemovedUnique | src/contexts/CartContext.tsx:64-68 | removal keeps uniqueness and leaves no line with the key |
| Cart.WithQuantityKeys | src/contexts/CartContext.tsx:70-76 | updating a quantity keeps uniqueness and non-negative quantities |
| Cart.WithQuantityClamps | src/contexts/CartContext.tsx:73 | matching lines get `q` when positive and 0 otherwise; no line is removed; other lines are unchanged |
| Cart.WithQuantitySubtotal | src/contexts/CartContext.tsx:70-76 | the subtotal loses the old value of the matching lines and gains their prices times the clamped quantity |
| Cart.UpdateExistingSubtotal | src/contexts/CartContext.tsx:70-76 | with unique keys, setting line `k` moves the subtotal by its price times the change in quantity |
| Cart.SubtotalConcat | src/contexts/CartContext.tsx:82-84 | the subtotal of two carts placed end to end is the sum of their subtotals |
| SignatureGeneration.IncludedKeys | src/app/api/generate-payfast-signature/route.ts:10-15 | the signed keys are sorted, and a key is signed exactly when it is a field other than `signature` and `passphrase` |
| SignatureGeneration.ConfiguredPassphrase | src/app/api/generate-payfast-signature/route.ts:21 | an unset passphrase is the empty string; a set one is taken as it is |
| SignatureGeneration.StringToHash | src/app/api/generate-payfast-signature/route.ts:10-22 | the hashed string always ends with `passphrase=` and the encoded passphrase, even when it is empty |
| SignatureGeneration.GenerateSignature | src/app/api/generate-payfast-signature/route.ts:6-31 | the handler returns `md5` of exactly the canonical string, for any enumeration order of the fields |
| SignatureGeneration.SignedPairs | src/app/api/generate-payfast-signature/route.ts:14-18 | the loop over the sorted keys produces the `key=value&` pairs of the keys not skipped, in order |
| SignatureGeneration.Pair | src/app/api/generate-payfast-signature/route.ts:16 | a pair starts with the key and `=`, and ends with `&` |
| SignatureGeneration.Pairs | src/app/api/generate-payfast-signature/route.ts:13-18 | the pairs of any key list are empty or end with `&` |
| SignatureGeneration.PassphraseTerm | src/app/api/generate-payfast-signature/route.ts:21-22 | the term starts with `passphrase=`, and is exactly that with no passphrase configured |
| SignatureGeneration.SignedPair | src/app/api/generate-payfast-signature/route.ts:16 | one pair is the key unencoded, `=`, the value encoded with spaces as `+`, and `&` |
| SignatureGeneration.StringToHashParts | src/app/api/generate-payfast-signature/route.ts:13-22 | the hashed string is the pairs of the signed keys followed by the passphrase term |
| SignatureGeneration.ClosingTerm | src/app/api/generate-payfast-signature/route.ts:21-22 | the pairs plus `passphrase=` and `encodeURIComponent(process.env.PAYFAST_PASSPHRASE \|\| '')` are the hashed string |
| SignatureGeneration.PairsStep | src/app/api/generate-payfast-signature/route.ts:14-17 | one loop turn appends the key's pair exactly when the key is not skipped |
| SignatureGeneration.SkippedFieldsIgnored | src/app/api/generate-payfast-signature/route.ts:15 | deleting the `signature` and `passphrase` fields, whatever their values, leaves the hashed string unchanged |
| SignatureGeneration.KeyOrderIrrelevant | src/app/api/generate-payfast-signature/route.ts:10 | two enumeration orders of the same fields give the same hashed string |
| SignatureExample.ExampleStringToHash | src/app/api/generate-payfast-signature/route.ts:10-22 | `item_name=A B, amount=5.00` with passphrase `pw` hashes `amount=5.00&item_name=A+B&passphrase=pw` |
| SignatureExample.ExampleKeys | src/app/api/generate-payfast-signature/route.ts:10 | fields listed item name first are signed in the order `amount, item_name` |
| SignatureExample.ExamplePairs | src/app/api/generate-payfast-signature/route.ts:16 | the two pairs read `amount=5.00&item_name=A+B&`, each followed by `&` |
| SignatureExample.ItemNamePair | src/app/api/generate-payfast-signature/route.ts:16 | the space in `A B` is written `+` |
| SignatureExample.ExamplePassphraseTerm | src/app/api/generate-payfast-signature/route.ts:22 | the passphrase `pw` closes the string as `passphrase=pw` |
| PaymentNotification.SignedKeys | src/app/api/payment-notification/route.ts:10-12 | the verifier's keys are sorted, and a key is kept exactly when it is a field other than `signature`; a posted `passphrase` field is kept |
| PaymentNotification.Fields | src/app/api/payment-notification/route.ts:13 | one `key=` plus the plainly encoded value per signed key, in order |
| PaymentNotification.DataString | src/app/api/payment-notification/route.ts:10-14 | the data string is empty exactly when no key other than `signature` is posted |
| PaymentNotification.VerificationString | src/app/api/payment-notification/route.ts:16 | `&passphrase=` and the encoded passphrase are appended exactly when the passphrase is non-empty |
| PaymentNotification.Verify | src/app/api/payment-notification/route.ts:17-33 | the signature is invalid exactly when `signature` is missing or differs from the digest; otherwise the payment is reported complete exactly when `payment_status` is `COMPLETE` |
| PaymentNotification.Respond | src/app/api/payment-notification/route.ts:19-35 | status 400 with `Invalid signature` exactly for an invalid signature, otherwise 200 with the acknowledgement |
| PaymentNotification.HandleNotification | src/app/api/payment-notification/route.ts:4-36 | the response is 400 exactly when the posted signature is missing or differs from the digest of the verification string |
| PaymentNotification.MissingSignatureRejected | src/app/api/payment-notification/route.ts:19-22 | a notification without `signature` is always rejected with 400 |
| PaymentNotification.AcknowledgementIgnoresStatus | src/app/api/payment-notification/route.ts:25-35 | complete and pending payments get the same 200 acknowledgement |
| PaymentNotification.FieldEnd | src/app/api/payment-notification/route.ts:13 | a field is never empty and never ends with `&` |
| PaymentNotification.NoTrailingAmpersand | src/app/api/payment-notification/route.ts:10-14 | the joined data string never ends with `&` |
| PaymentNotification.FieldKeepsSpaceEscape | src/app/api/payment-notification/route.ts:13 | a value with a space keeps a `%20` in its field, and its encoding holds no `+` |
| CanonicalStrings.CanonicalStringsCoincide | src/app/api/payment-notification/route.ts:10-16 | with no posted `passphrase` field, the generator's and the verifier's strings are equal exactly when the passphrase is non-empty, some field besides `signature` is present and no signed value holds a space |
| CanonicalStrings.PostedPassphraseCollision | src/app/api/payment-notification/route.ts:11 | a posted empty `passphrase` field with no passphrase configured makes both strings `passphrase=`, so the equivalence above needs its condition |
| CanonicalStrings.KeyedStrings | src/app/api/payment-notification/route.ts:10-16 | without a posted `passphrase` field both strings are written over the same sorted keys and the same encoded passphrase |
| CanonicalStrings.SameKeys | src/app/api/payment-notification/route.ts:10-12 | without a posted `passphrase` field both routes sign the same keys in the same order |
| CanonicalStrings.SignedKeysAreFields | src/app/api/payment-notification/route.ts:10-11 | the verifier signs exactly the posted fields other than `signature` |
| CanonicalStrings.PairsJoin | src/app/api/payment-notification/route.ts:14 | with no space in any value, the generator's pairs are the verifier's fields joined by `&`, plus one final `&` |
| CanonicalStrings.AgreeWithoutSpace | src/app/api/payment-notification/route.ts:14-16 | in that case the two strings, each closed by its passphrase term, are equal |
| CanonicalStrings.DifferWithoutPassphrase | src/app/api/payment-notification/route.ts:16 | without a passphrase the generator's string, closed by a bare `passphrase=`, never equals the verifier's joined fields |
| CanonicalStrings.BareTermsDiffer | src/app/api/payment-notification/route.ts:16 | with no signed field the strings differ in their first character |
| CanonicalStrings.DifferWithSpace | src/app/api/payment-notification/route.ts:13 | a space in a signed value makes the strings differ |
| CanonicalStrings.AmpersandCounts | src/app/api/payment-notification/route.ts:14 | the generator writes one `&` per pair, the verifier one fewer, besides those in key names |
| CanonicalStrings.PercentCounts | src/app/api/payment-notification/route.ts:13 | the verifier writes one `%` more than the generator for each space in the values |
| UriEncoding.IsUnreserved | src/app/api/generate-payfast-signature/route.ts:16 | the characters `encodeURIComponent` leaves as they are, `A-Z a-z 0-9 - _ . ! ~ * ' ( )` (no contract; see `UriEncoding.UnreservedUnchanged` and `UriEncoding.EncodedShape`) |
| UriEncoding.EncodeURIComponent | src/app/api/generate-payfast-signature/route.ts:16 | `encodeURIComponent`, character by character (no contract of its own; see `UriEncoding.EncodeConcat`, `UriEncoding.EncodedShape` and `UriEncoding.PercentCount`) |
| UriEncoding.FormEncode | src/app/api/generate-payfast-signature/route.ts:16 | the value encoding with a space as `+` (no contract of its own; `UriEncoding.ReplaceOfEncode` proves it equal to the replacement applied to `encodeURIComponent`) |
| UriEncoding.ReplacePercent20 | src/app/api/generate-payfast-signature/route.ts:16 | `.replace(/%20/g, '+')`, left to right without overlap (no contract of its own; see `UriEncoding.ReplaceOfEncode` and `UriEncoding.FormEncodeEscapes`) |
| UriEncoding.Utf8 | src/app/api/generate-payfast-signature/route.ts:16 | one to four bytes per character, a single byte exactly for ASCII, and that byte is the code point |
| UriEncoding.ReplaceOfEncode | src/app/api/generate-payfast-signature/route.ts:16 | replacing every `%20` of `encodeURIComponent(v)` by `+` is the same as encoding `v` with spaces as `+` |
| UriEncoding.UnreservedUnchanged | src/app/api/generate-payfast-signature/route.ts:16 | a value made only of unreserved characters is left as it is by both encoders |
| UriEncoding.EncodeConcat | src/app/api/generate-payfast-signature/route.ts:16 | both encoders work character by character: they distribute over concatenation |
| UriEncoding.EncodedShape | src/app/api/payment-notification/route.ts:13 | encoded text holds only unreserved characters, `%` and (spaces as `+`) `+`; plain encoding never emits `+` |
| UriEncoding.FormEncodeEscapes | src/app/api/generate-payfast-signature/route.ts:16 | after the replacement no `%20` escape is left in the encoded value |
| UriEncoding.FormEncodeHasNoSpace | src/app/api/generate-payfast-signature/route.ts:16 | a generator value never holds a literal space or a `%20` |
| UriEncoding.EncodeKeepsSpaceEscape | src/app/api/payment-notification/route.ts:13 | plain encoding never emits `+`, and a value with a space reads `%20` somewhere |
| UriEncoding.FormEncodeWithoutSpace | src/app/api/payment-notification/route.ts:13 | for a value without spaces the two encodings agree |
| UriEncoding.PercentCount | src/app/api/payment-notification/route.ts:13 | plain encoding has exactly one `%` more than the generator's for each space |
| Strings.Sort | src/app/api/generate-payfast-signature/route.ts:10 | the default sort returns a sorted permutation of its input |
| Strings.SortedUnique | src/app/api/generate-payfast-signature/route.ts:10 | two sorted arrangements of the same strings are identical |
| Strings.SortOrderIndependent | src/app/api/generate-payfast-signature/route.ts:10 | the sorted keys depend only on which keys there are, not on their order |
| Strings.LeTotal | src/app/api/generate-payfast-signature/route.ts:10 | any two strings are comparable in code-point order |
| Strings.LeAntisymmetric | src/app/api/generate-payfast-signature/route.ts:10 | strings ordered both ways are equal |
| Strings.LeTransitive | src/app/api/generate-payfast-signature/route.ts:10 | code-point order is transitive |
| Strings.Join | src/app/api/payment-notification/route.ts:14 | `join`: the parts with the separator between them (no contract of its own; `Strings.Split` states the round trip) |
| Strings.Without | src/app/api/payment-notification/route.ts:11 | the filter keeps exactly the elements not dropped, never adding any |
| Strings.WithoutSorted | src/app/api/generate-payfast-signature/route.ts:14-15 | skipping keys of a sorted list leaves it sorted |
| Strings.WithoutSort | src/app/api/payment-notification/route.ts:10-12 | filtering then sorting equals sorting then filtering, as the two routes do |
| Strings.Trim | src/app/auth/page.tsx:80 | the trimmed string is empty exactly when every character is whitespace |
| Strings.Split | src/components/Navbar.tsx:105 | `split` gives at least one part, no part holds the separator, and joining the parts restores the string |
| Checkout.ShippingCost | src/app/checkout/page.tsx:87 | 150 for `express` and 50 for any other method |
| Checkout.SubmitError | src/app/checkout/page.tsx:92-105 | no error exactly when the cart is non-empty, terms are agreed and all four card fields are filled; otherwise the first failing check, in the order cart, terms, card |
| Checkout.CheckoutPage.constructor | src/app/checkout/page.tsx:41-51 | standard shipping, no code, no discount, terms not agreed, empty card fields, not submitting, no error |
| Checkout.CheckoutPage.ApplyDiscount | src/app/checkout/page.tsx:76-85 | the exact code sets the discount to 100; any other sets the invalid-code error and keeps the discount; nothing else changes |
| Checkout.CheckoutPage.SubmitOrder | src/app/checkout/page.tsx:91-108 | a failing check sets its message and stops with `isSubmitting` untouched; otherwise the error is cleared and submission starts |
| Checkout.CheckoutPage.FinishSubmit | src/app/checkout/page.tsx:112-123 | `isSubmitting` is cleared either way; success redirects to `/order-success`, failure sets the payment error |
| Checkout.DiscountIdempotent | src/app/checkout/page.tsx:78-79 | applying a code twice is applying it once; the discount is 100 exactly after the valid code or when it already was |
| Checkout.DiscountCaseSensitive | src/app/checkout/page.tsx:78 | a lower-case code or one with a trailing space leaves the discount alone |
| Checkout.TotalAmount | src/app/checkout/page.tsx:87-89 | the total is the subtotal less the discount plus between 50 and 150 for shipping |
| Checkout.DiscountAfter | src/app/checkout/page.tsx:76-85 | the exact code `SUMMER10` sets the discount to 100; any other code keeps it unchanged |
| Checkout.PayDisabled | src/app/checkout/page.tsx:469 | the button is disabled while submitting and enabled once terms are agreed, the cart is non-empty and nothing is submitting; when enabled, a click with empty card fields fails only on the card check |
| Checkout.TotalOfNewLine | src/app/checkout/page.tsx:87-89 | adding a line with a new key raises the total by the line's price times its quantity, whatever the shipping and discount |
| Checkout.TotalOfMergedLine | src/app/checkout/page.tsx:87-89 | adding to the existing line `k` raises the total by that line's price times the added quantity |
| Checkout.TotalCodeReentered | src/app/checkout/page.tsx:76-89 | entering the code again leaves the total unchanged |
| Checkout.TotalNonNegative | src/app/checkout/page.tsx:87-89 | from the initial discount of 0, with non-negative lines and a subtotal of at least 50, the total is never negative, and without the code it is at least 50 |
| Checkout.NegativeTotalPossible | src/app/checkout/page.tsx:89 | with the code applied, a cart with one line priced 20 has the total -30 |
| Checkout.EnabledPayReachesCardCheck | src/app/checkout/page.tsx:469 | with the Pay button enabled nothing is being submitted, and a click can fail only on the card fields |
| Shop.AverageRating | src/app/shop/page.tsx:140-142 | 0 without reviews; otherwise the average times the count is the sum of ratings |
| Shop.WithFetchedReviews | src/app/shop/page.tsx:137-143 | a product takes the fetched reviews and their average, all other fields kept |
| Shop.WithAddedReview | src/app/shop/page.tsx:224-237 | same length; products with the id get the review, the others are unchanged |
| Shop.ReviewToAdd | src/app/shop/page.tsx:203-207 | the review is by `anonymous` when there is no user or its id is empty, else by the user's id; its name is `Anonymous User` when there is no user or the name is empty, else the user's name; rating and comment are kept |
| Shop.BeforeTotal | src/app/shop/page.tsx:267-279 | under every sort key and order, any two products are comparable |
| Shop.BeforeTransitive | src/app/shop/page.tsx:267-279 | the comparators are transitive |
| Shop.InsertBy | src/app/shop/page.tsx:265-279 | inserting into a sorted list gives a sorted list with the element added |
| Shop.SortProducts | src/app/shop/page.tsx:265-279 | the result is a permutation of the input, sorted by the comparator |
| Shop.ShopPage.constructor | src/app/shop/page.tsx:103-111 | the four catalogue products, nothing selected, quantity 1, sorted by rating descending, no search results, no error |
| Shop.ShopPage.SortedProducts | src/app/shop/page.tsx:265-279 | a sorted permutation of the search results if there are any, else of the products |
| Shop.ShopPage.AddToCart | src/app/shop/page.tsx:179-193 | with a product and a size chosen, one line with the id as a string is added and size, quantity and selection are reset; otherwise nothing changes |
| Shop.ShopPage.ToggleFullScreen | src/app/shop/page.tsx:195-197 | flips the full-screen flag only |
| Shop.ShopPage.HandleSearch | src/app/shop/page.tsx:261-263 | stores the search results only |
| Shop.ShopPage.AddReview | src/app/shop/page.tsx:199-259 | on success the matching products, and the selected one if it matches, get the review and the error is cleared; on failure only the error is set |
| Shop.WithReview | src/app/shop/page.tsx:227-233 | the review goes last, the new average is the plain average of the new list, and every other field is kept |
| Shop.SumRatings | src/app/shop/page.tsx:141 | the ratings added up (no contract of its own; see `Shop.RatingsBounded`) |
| Shop.RatingsBounded | src/app/shop/page.tsx:140-142 | `n` reviews rated 1 to 5 add up to between `n` and `5 n` |
| Shop.Displayed | src/app/shop/page.tsx:265-266 | the search results when there are any, else the products; empty only when both are |
| Shop.Before | src/app/shop/page.tsx:267-279 | for each sort key, `a` may precede `b` exactly when its rating, price or name is at least `b`'s for `desc` and at most `b`'s for `asc`, names compared in code-point order |
| Shop.AddedReviewTouchesOneProduct | src/app/shop/page.tsx:224-237 | the count and order of products stay; non-matching products are unchanged; a matching one keeps id, name and price and gains the review last |
| Shop.AverageAfterReview | src/app/shop/page.tsx:230-232 | the new average times the new count is the old total plus the new rating |
| Shop.AverageBounded | src/app/shop/page.tsx:140-142 | reviews rated 1 to 5 average between 1 and 5 |
| Shop.PriceOrder | src/app/shop/page.tsx:272-273 | prices are non-decreasing for `asc` and non-increasing for `desc` |
| Shop.RatingOrder | src/app/shop/page.tsx:268-271 | average ratings are non-decreasing for `asc` and non-increasing for `desc` |
| Shop.SortedIsDisplayed | src/app/shop/page.tsx:265-267 | the sorted list is a permutation of the search results when there are any, otherwise of the products |
| Navbar.FirstChar | src/components/Navbar.tsx:105 | `charAt(0)`: the first character, or empty for an empty string |
| Navbar.Initials | src/components/Navbar.tsx:105 | at most two characters, no space among them, and `U` when there is no name or it is empty |
| Navbar.CartItemCount | src/components/Navbar.tsx:29-31 | the quantities added up (no contract of its own; see `Navbar.ItemCountConcat` and `Navbar.AddedCount`) |
| Navbar.ShowBadge | src/components/Navbar.tsx:127 | the badge shows only for a non-empty cart |
| Navbar.NavbarState.constructor | src/components/Navbar.tsx:21-27 | menu closed, cart closed, not signing out |
| Navbar.NavbarState.ToggleMenu | src/components/Navbar.tsx:53-55 | flips the menu flag only, so two toggles restore it |
| Navbar.NavbarState.ToggleCart | src/components/Navbar.tsx:57-59 | flips the cart flag only, so two toggles restore it |
| Navbar.NavbarState.BeginSignOut | src/components/Navbar.tsx:62 | sets the signing-out flag only |
| Navbar.NavbarState.EndSignOut | src/components/Navbar.tsx:68-70 | clears the signing-out flag only, whether or not signing out failed |
| Navbar.ItemCountConcat | src/components/Navbar.tsx:30 | the item count adds up over concatenated carts |
| Navbar.AddedCount | src/components/Navbar.tsx:30 | with unique keys, adding an item raises the count by its quantity, merged or appended |
| Navbar.MergedCount | src/components/Navbar.tsx:30 | merging into the one matching line raises the count by the item's quantity |
| Navbar.BadgeIffPositiveLine | src/components/Navbar.tsx:127 | with no negative quantities, the badge shows exactly when some line has a positive quantity |
| Navbar.SplitAfterWord | src/components/Navbar.tsx:105 | a word followed by a space splits off as the first part |
| Navbar.InitialsOneWord | src/components/Navbar.tsx:105 | a one-word name gives its first letter only |
| Navbar.InitialsTwoWords | src/components/Navbar.tsx:105 | `first second` gives the first letters of both |
| Navbar.InitialsIgnoreLaterWords | src/components/Navbar.tsx:105 | words after the second do not change the initials |
| Navbar.InitialsOfBlankName | src/components/Navbar.tsx:105 | the name `" "` is truthy yet gives empty initials |
| Auth.PasswordError | src/app/auth/page.tsx:49-68 | no error exactly when the length is 8 to 16 and there is an uppercase letter, a digit and a listed special character; otherwise the first failing rule, in the order length, uppercase, number, special character |
| Auth.IsValidPhone | src/app/auth/page.tsx:71-74 | valid exactly when the pattern matches one of its two ways: at least 10 characters from `[\d\s-]`, or a `+` followed by at least 10 such characters |
| Auth.PhoneSignNotCounted | src/app/auth/page.tsx:72 | the `+` is not one of the ten: `+123456789` is refused and `+1234567890` accepted |
| Auth.Grouped | src/app/auth/page.tsx:199-209 | three digits or fewer are kept as they are; at most 12 characters; every character is `-` or one of the digits |
| Auth.Digits | src/app/auth/page.tsx:198 | removing non-digits leaves only digits and never lengthens the string |
| Auth.FormatPhoneNumber | src/app/auth/page.tsx:197-210 | the output holds only digits and `-` and has at most 12 characters |
| Auth.FormattedDigits | src/app/auth/page.tsx:197-210 | the formatted number holds the typed digits in order, up to the tenth |
| Auth.FormatIdempotent | src/app/auth/page.tsx:197-215 | formatting a formatted number changes nothing |
| Auth.FormattedValidIffEightDigits | src/app/auth/page.tsx:72 | a formatted number passes the phone pattern exactly when at least 8 digits were typed |
| Auth.UpperAscii | src/app/auth/page.tsx:226 | a lower-case letter becomes upper-case; any other character is kept |
| Auth.Capitalize | src/app/auth/page.tsx:225-227 | same length; only the first character is upper-cased; the rest is kept |
| Auth.CapitalizeIdempotent | src/app/auth/page.tsx:225-227 | capitalising twice is capitalising once, and the empty string stays empty |
| Auth.SignUpError | src/app/auth/page.tsx:80-103 | no error exactly when both trimmed names are non-empty, the phone is valid, the password is accepted and confirmed; otherwise the first failing check, in the order names, phone, password, confirmation |
| Auth.PhoneCheckedBeforePassword | src/app/auth/page.tsx:86-97 | a bad phone number is reported even when the password is also bad |
| Auth.BlankNameRefused | src/app/auth/page.tsx:80-84 | a first name of spaces is refused before anything else |
| Auth.RedirectTarget | src/app/auth/page.tsx:40-45 | `/` plus the `redirect` parameter when it is present and non-empty, else `/profile` |
| PasswordStrength.CalculateStrength | src/components/PasswordStrengthMeter.tsx:8-16 | the score is the number of the five criteria met, between 0 and 5 |
| PasswordStrength.Strength | src/components/PasswordStrengthMeter.tsx:8-16 | the score lies in 0..5 and is 5 exactly when the password has 8 characters, a lower-case letter, an upper-case letter, a digit and one of `$@#&!` |
| PasswordStrength.Color | src/components/PasswordStrengthMeter.tsx:20-36 | scores 0 to 5 get a colour; anything else is gray |
| PasswordStrength.Label | src/components/PasswordStrengthMeter.tsx:38-54 | scores 0 to 5 get a label; anything else gets none |
| PasswordStrength.SegmentsFrom | src/components/PasswordStrengthMeter.tsx:59-63 | a segment is coloured exactly when its index is at most the score |
| PasswordStrength.StrengthRange | src/components/PasswordStrengthMeter.tsx:8-16 | the score lies in 0..5 and is 0 for the empty password |
| PasswordStrength.StrengthMonotone | src/components/PasswordStrengthMeter.tsx:10-14 | typing one more character never lowers the score |
| PasswordStrength.AcceptedIsAtLeastMedium | src/components/PasswordStrengthMeter.tsx:10-13 | a password the sign-up rules accept scores at least 3, labelled Medium or better |
| PasswordStrength.AcceptedYetMedium | src/components/PasswordStrengthMeter.tsx:14 | `ABCDEFG1%` is accepted by the sign-up rules but scores only 3, since `%` is not in the meter's set |
| PasswordStrength.ColorFollowsLabel | src/components/PasswordStrengthMeter.tsx:20-54 | two scores share a colour exactly when they share a label, which is when they are equal or both at most 1 |
| PasswordStrength.ColouredFrom | src/components/PasswordStrengthMeter.tsx:59-63 | the segments from any index on hold as many coloured ones as the score reaches |
| PasswordStrength.SegmentsColoured | src/components/PasswordStrengthMeter.tsx:59-63 | exactly `strength` of the five segments are coloured |
| ProfileCompletion.SetCount | src/components/ProfileCompletionPrompt.tsx:26-29 | the number of set fields never exceeds the number listed |
| ProfileCompletion.CompletionPercentage | src/components/ProfileCompletionPrompt.tsx:25-29 | the loop yields 12.5 times the number of listed fields that are set, between 0 and 100 |
| ProfileCompletion.Round | src/components/ProfileCompletionPrompt.tsx:30 | `Math.round`: the nearest integer, halves rounded up |
| ProfileCompletion.CompletionPrompt.constructor | src/components/ProfileCompletionPrompt.tsx:16-17 | completion 0, prompt hidden |
| ProfileCompletion.CompletionPrompt.CheckProfileCompletion | src/components/ProfileCompletionPrompt.tsx:19-36 | without a user nothing changes; a missing document shows the prompt; otherwise the rounded percentage is stored and the prompt shows exactly when a field is missing |
| ProfileCompletion.CompletionPrompt.HandleDismiss | src/components/ProfileCompletionPrompt.tsx:45-47 | hides the prompt, keeping the completion |
| ProfileCompletion.CompletionValues | src/components/ProfileCompletionPrompt.tsx:30 | the stored completion is one of 0, 13, 25, 38, 50, 63, 75, 88, 100, and 100 only with all eight fields |
| ProfileCompletion.CompletionMonotone | src/components/ProfileCompletionPrompt.tsx:30 | more set fields never give a lower completion |
| ProfileCompletion.UnlistedIgnored | src/components/ProfileCompletionPrompt.tsx:26-28 | a field outside the eight listed never changes the count |
| ProfileCompletion.NameAndEmailCount | src/components/ProfileCompletionPrompt.tsx:26-29 | a document with only names and email set counts 3 |
| ProfileCompletion.EmailSignUpCompletion | src/components/ProfileCompletionPrompt.tsx:25-31 | the document written by email sign-up counts 3 fields, is shown as 38% and is prompted |
| ReviewForm.ReviewFormState.constructor | src/components/ReviewForm.tsx:14-15 | rating 0, empty comment, nothing submitted |
| ReviewForm.ReviewFormState.SelectStar | src/components/ReviewForm.tsx:37-44 | clicking star `k` sets the rating to `k`; stars up to `k` are highlighted |
| ReviewForm.ReviewFormState.SetComment | src/components/ReviewForm.tsx:53 | typing replaces the comment only |
| ReviewForm.ReviewFormState.HandleSubmit | src/components/ReviewForm.tsx:18-25 | with a user, one submission of the current rating and comment followed by a reset to 0 and empty; without one, nothing |
| ReviewForm.SubmitDisabled | src/components/ReviewForm.tsx:61 | enabled exactly when a star is chosen and the comment has a non-whitespace character |
| ReviewForm.HighlightedCount | src/components/ReviewForm.tsx:41 | of the stars from any index on, those up to the rating are highlighted |
| ReviewForm.StarsShowRating | src/components/ReviewForm.tsx:37-45 | exactly `rating` of the five stars are highlighted |
| ReviewForm.EnabledMeansRated | src/components/ReviewForm.tsx:61 | an enabled submit button means a star is chosen and the comment has a non-whitespace character |
| HomePage.Next | src/app/home-page.tsx:124 | the next index stays in `[0, n)` |
| HomePage.Prev | src/app/home-page.tsx:284 | the previous index stays in `[0, n)` |
| HomePage.Advance | src/app/home-page.tsx:122-127 | repeated advances stay in `[0, n)` |
| HomePage.HomePageState.constructor | src/app/home-page.tsx:115-117 | first hero and first review, dialog closed, the stored visit flag as read |
| HomePage.HomePageState.NextHero | src/app/home-page.tsx:292-297 | the hero index becomes `(i + 1) % 3`, nothing else changes |
| HomePage.HomePageState.PrevHero | src/app/home-page.tsx:280-286 | the hero index becomes `(i - 1 + 3) % 3`, nothing else changes |
| HomePage.HomePageState.NextReview | src/app/home-page.tsx:129-136 | the review index becomes `(i + 1) % 5`, nothing else changes |
| HomePage.HomePageState.SelectReview | src/app/home-page.tsx:415-424 | clicking dot `k` shows review `k`, and dot `d` is active exactly when `d == k` |
| HomePage.HomePageState.CheckFirstVisit | src/app/home-page.tsx:138-144 | the dialog opens exactly when no visit was stored, and the visit is stored in the same step |
| HomePage.HomePageState.CloseWelcome | src/app/home-page.tsx:564 | closes the dialog only |
| HomePage.HomePageState.HandleVideoEnd | src/app/home-page.tsx:180-189 | the source becomes the next video, always one of the two |
| HomePage.NextVideoSrc | src/app/home-page.tsx:180-189 | a source ending in `video.mp4` is followed by the second video, any other by the first |
| HomePage.NextValue | src/app/home-page.tsx:124 | next wraps from the last index to 0 and otherwise adds one |
| HomePage.PrevValue | src/app/home-page.tsx:284 | previous wraps from 0 to the last index and otherwise subtracts one |
| HomePage.NextPrevInverse | src/app/home-page.tsx:280-297 | back after forward, and forward after back, return to the slide |
| HomePage.AdvanceIsModulo | src/app/home-page.tsx:122-127 | `k` advances from `i` land on `(i + k) % n` |
| HomePage.FullCycle | src/app/home-page.tsx:122-127 | `n` advances return to the starting slide |
| HomePage.ReviewCycle | src/app/home-page.tsx:129-136 | five advances bring back the review on show |
| HomePage.ActiveDots | src/app/home-page.tsx:415-424 | of the dots from any index on, only the current one is active |
| HomePage.OneDotActive | src/app/home-page.tsx:415-424 | exactly one of the five dots is active |
| HomePage.VideosAlternate | src/app/home-page.tsx:180-189 | the first video is followed by the second and the second by the first |
| HomePage.FirstEndReplaysFirstVideo | src/app/home-page.tsx:309-320 | the empty initial source is followed by the first video |

## Left out

- Network and backend calls are not modelled: Firebase authentication, Firestore, the reviews API and the payment request. Their results are arguments of the handlers.
- Storage is not modelled: the cart's and the welcome flag's `localStorage` reads and writes. The welcome flag is a boolean field.
- Timing is not modelled: intervals, timeouts, loaders and the simulated payment delay. Only the state changes they trigger are.
- MD5 is the parameter `md5`, and no property depends on what it computes.
- JSON and form-data parsing are not modelled, nor how `Object.fromEntries` treats duplicate keys. The input is a map of string values plus its key order.
- Non-string JSON values in a signature request are not modelled.
- `encodeURIComponent` is modelled on Unicode code points. JavaScript strings are UTF-16, so a lone surrogate, which makes `encodeURIComponent` throw, cannot occur in the model.
- Shop.SortProducts: stated as sorted and a permutation. Stability is not stated, although the insertion sort is stable. `localeCompare` for the name sort is replaced by code-point order.
- Strings are sequences of Unicode scalar values, whereas JavaScript strings are sequences of UTF-16 code units. Outside the Basic Multilingual Plane this changes `.length` (`Auth.PasswordError`, `PasswordStrength.CalculateStrength`), `charAt(0)` (`Navbar.FirstChar`, `Auth.Capitalize`) and the default sort (`Strings.Sort`). For example `"Aa1!😀😀😀😀"` has length 8 in the model and 12 in JavaScript, so the model accepts it and JavaScript rejects it as too long.
- Prices, quantities, ratings and numeric ids are whole numbers (`int`). `Cart.IntToString` writes only whole numbers, so a fractional price or id, or the exponent form JavaScript uses from `1e21` on, is not reproduced.
- Checkout.TotalAmount: the source does not keep the total non-negative. Applying the code below a subtotal of 50 gives a negative total (`Checkout.NegativeTotalPossible`), so the bound in `Checkout.TotalNonNegative` is stated only above it.
- `toUpperCase` and regular-expression `\s` are taken over ASCII and JavaScript's whitespace set. Unicode case mapping is not modelled.
- Product fields that no modelled operation reads or changes are left out: description, hover image, category and tags.
- The search bar's Fuse.js ranking is not modelled. Its results enter `Shop.ShopPage.HandleSearch` as a list.
- The cart modal is a view over the cart and is not modelled.
- The refetch of reviews after a review is added is not part of `Shop.ShopPage.AddReview`. Its effect is `Shop.WithFetchedReviews` with the fetched list.
- The `payment_status` branch only logs. The model reports the branch in `PaymentNotification.Verify`, and the response ignores it.
- Profile document values other than strings are not modelled; a field counts when present and non-empty.
- The meter's label colour, obtained by rewriting `bg-` to `text-`, is not modelled.
- Loading flags and toasts are not modelled.
- The video element resolves `src` to an absolute URL. The model stores the path; this does not change the `endsWith` test.
- The review form's "please log in" view is not modelled. Without a user, submitting changes nothing.
- CanonicalStrings.CanonicalStringsCoincide: the equivalence is stated for notifications without a posted `passphrase` field, because with one it fails (`CanonicalStrings.PostedPassphraseCollision`).
