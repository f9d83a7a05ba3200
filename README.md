# Coupon engine and cart model

A Dafny model of the core of a coupon service for a shopping cart. It has three parts:

- **Coupon eligibility and selection** (`coupon_logic.dfy`, module `CouponLogic`). The cart
  aggregates (value, distinct categories, item count) are modelled as pure functions, and so
  are the ten eligibility predicates and their conjunction. The discount calculator covers
  FLAT (clamped to the cart value), PERCENT (with an optional cap) and any other type (zero).
  The comparator ranks coupons by higher discount, then earlier end date, then smaller code.
  The selector sorts with that comparator and takes the head. The service's post-fetch step
  filters the candidates, picks the winner and builds the response record.
- **Cart documents** (`cart_model.dfy`, module `CartModel`). A class `CartDocument` holds the
  stored items and totals. Its `PreSave` method is the pre-save hook: two folds recompute
  `totalValue` and `totalItems`, and the hook stamps `lastUpdated`.
- **Cart endpoints** (`cart_controller.dfy`, module `CartController`). A class
  `CartCollection` holds the collection as a map from user id to `CartDocument`. Its methods
  model the item-list logic of add-to-cart, update-item, remove-item, clear-cart and
  get-cart. The product lookup result and the clock are parameters. Each method is proved
  against a specification function (`AddEffect`, `UpdateEffect`, `RemoveEffect`), which gives
  the outcome and every user's item list afterwards. Lemmas state what those functions mean:
  merge or append, a single-line update, removal of every line for a product, and no change
  on any rejection. A stored line's product id is an `ObjectId`, whose string form has its
  hex digits in lower case, while the lookups compare it with the id exactly as the request
  gives it. The model keeps both: `StoredIdOf` lowers the id of a new line, and
  `UpperCaseIdNeverMatches` shows that an id with upper-case digits never finds its line, so
  adding it twice gives two lines for one product.

`cart_lines.dfy` holds the cart line record shared by all three parts. `wrappers.dfy` holds
an `Option` type. `scenarios.dfy` works through concrete coupons, users and carts.

Conventions:
- Money is `real` and timestamps are `int`.
- Coupon codes are compared character by character, in Unicode code-point order. This is
  also UTF-16 code-unit order for codes without characters above U+FFFF.
- An optional rule field is "no constraint" when it is absent, zero or false, as in
  JavaScript truthiness. An empty list is also "no constraint".
- The model follows the code. A discount is usually expected never to exceed the cart
  value, but the code does not bound a PERCENT value. So `DiscountWithinCartValue` needs
  `discountValue <= 100` as a premise, and `PercentAboveHundredExceedsCart` shows the excess.

## Model

| member | source | states |
|---|---|---|
| CouponLogic.CartValueAppend | src/services/couponLogic.js:12-15 | the cart value of `cart + [line]` is the cart value plus `unitPrice * quantity` of the new line (so it is the sum over all lines, 0 for an empty cart) |
| CouponLogic.CartValueReplace | src/services/couponLogic.js:12-15 | replacing one line changes the cart value by the difference of the two line totals |
| CouponLogic.CartValueNonNegative | src/services/couponLogic.js:12-15 | with non-negative prices and positive quantities the cart value is not negative; it is also the stored `totalValue` (src/models/Cart.js:16-20), so that is not negative either |
| CouponLogic.CartCategories | src/services/couponLogic.js:17-20 | a category is listed iff some line has it, and no category is listed twice |
| CouponLogic.TotalItemsAppend | src/services/couponLogic.js:22-25 | appending a line adds its quantity to the item count |
| CouponLogic.DiscountTypeRoundTrip | src/services/couponLogic.js:96-107 | reading a type name and writing it back gives the same name; every type other than an unrecognised "FLAT" or "PERCENT" (which no name produces) survives the opposite round trip |
| CouponLogic.DateWindowInclusive | src/services/couponLogic.js:28-29 | the window includes both its start and its end, and a coupon outside it is never eligible |
| CouponLogic.UsageLimitBlocksAtLimit | src/services/couponLogic.js:31-32 | a truthy per-user limit blocks the coupon once the usage count reaches it, and fewer uses never turn an eligible coupon ineligible |
| CouponLogic.CategoryRule | src/services/couponLogic.js:60-71 | the category rule holds iff (the applicable list is empty or some line's category is in it) and (the excluded list is empty or no line's category is in it); an empty cart fails a non-empty applicable list |
| CouponLogic.AddingRulesNeverWidens | src/services/couponLogic.js:78-90 | filling in rule fields that were unconstrained never makes an ineligible coupon eligible |
| CouponLogic.FalsyRulesImposeNothing | src/services/couponLogic.js:78-90 | when every rule field is empty, absent, zero or false, a coupon is eligible iff it is in its date window and within its usage limit |
| CouponLogic.ProfileRulesExclude | src/services/couponLogic.js:34-52 | a set tier list, minimum lifetime spend, minimum order count, first-order flag or country list excludes every user who fails it |
| CouponLogic.MoreSpendNeverHurts | src/services/couponLogic.js:38-40 | raising the user's lifetime spend never makes an eligible coupon ineligible |
| CouponLogic.OrderHistoryRules | src/services/couponLogic.js:42-48 | more orders keep a minimum-orders rule satisfied; with a truthy first-order flag any order excludes the user; that flag together with a minimum of at least 1 order admits nobody |
| CouponLogic.CartThresholds | src/services/couponLogic.js:54-58 | a set minimum cart value or minimum item count excludes every cart below it; adding a well-formed line never breaks either threshold (the item-count rule is at lines 73-75) |
| CouponLogic.FlatDiscountCappedByCart | src/services/couponLogic.js:96-97 | a FLAT discount is the face value when the cart covers it and the cart value otherwise, never more than either |
| CouponLogic.PercentDiscountCap | src/services/couponLogic.js:100-104 | a PERCENT discount is `cartValue * discountValue / 100`, clamped to a truthy cap; a cap of 0 or none leaves it unclamped |
| CouponLogic.UnrecognizedTypeGivesZero | src/services/couponLogic.js:107 | an unrecognised discount type gives 0 |
| CouponLogic.DiscountWithinCartValue | src/services/couponLogic.js:93-108 | on a well-formed cart, with non-negative values and PERCENT at most 100, the discount lies between 0 and the cart value |
| CouponLogic.PercentAboveHundredExceedsCart | src/services/couponLogic.js:100-104 | a PERCENT value above 100 with no truthy cap gives a discount larger than a positive cart value |
| CouponLogic.CompareCodes | src/services/couponLogic.js:127 | the code comparison returns -1, 0 or 1, and 0 exactly when the codes are equal |
| CouponLogic.CompareCodesIsLex | src/services/couponLogic.js:127 | the comparison is negative iff the first code is lexicographically smaller: after a common prefix it ends first or has the smaller character |
| CouponLogic.CompareCodesAntisymmetric | src/services/couponLogic.js:127 | swapping the codes negates the comparison |
| CouponLogic.CompareCodesTransitive | src/services/couponLogic.js:127 | the code order is transitive |
| CouponLogic.CompareCouponsMatchesKey | src/services/couponLogic.js:111-128 | the comparator puts `a` first (result <= 0) iff `a` ranks first by the key (higher discount, then earlier end date, then smaller code) |
| CouponLogic.CompareCouponsAntisymmetric | src/services/couponLogic.js:111-128 | swapping the coupons negates the comparator |
| CouponLogic.CompareCouponsTransitive | src/services/couponLogic.js:111-128 | the comparator's order is transitive |
| CouponLogic.InsertSorted | src/services/couponLogic.js:132 | inserting into a sorted list keeps it sorted and adds exactly that coupon |
| CouponLogic.SortCouponsCorrect | src/services/couponLogic.js:132 | the sort returns a permutation of its input, ordered by the comparator |
| CouponLogic.SelectBestCoupon | src/services/couponLogic.js:130-134 | no winner iff there are no eligible coupons; otherwise the winner is one of them and ranks first against every one of them |
| CouponLogic.UnusedCouponPassesLimit | src/services/couponLogic.js:176 | a coupon the user never used passes the usage limit iff the limit is falsy or positive; a recorded count is checked as it stands |
| CouponLogic.EligibleCoupons | src/services/couponLogic.js:172-180 | a coupon is kept iff it is a candidate and passes all ten predicates with its own usage count |
| CouponLogic.RoundToCents | src/services/couponLogic.js:195 | the rounded discount is a whole number of cents, within half a cent of the exact amount (half-up) |
| CouponLogic.FindBestCoupon | src/services/couponLogic.js:137-197 | null iff no candidate is eligible; otherwise the result of an eligible candidate that ranks first among all eligible candidates: its summary, its rounded discount and the cart value less the unrounded discount |
| CartModel.CartDocument.constructor | src/models/Cart.js:27-46 | a new document holds the given user and items, zero totals, and `lastUpdated` set to now |
| CartModel.CartDocument.PreSave | src/models/Cart.js:52-58 | the hook leaves the items alone, sets `totalValue` to the cart value the coupon engine computes, `totalItems` to the sum of quantities, and `lastUpdated` to now |
| CartModel.TotalItemsAtLeastLineCount | src/models/Cart.js:10-15 | with every quantity at least 1, the item count is at least the number of lines, and 0 for no lines |
| CartController.FindIndex | src/controllers/cartController.js:95-97 | the index of the first line for the product, or -1 exactly when no line is for it |
| CartController.WithoutProduct | src/controllers/cartController.js:242-245 | the kept lines are exactly the lines for other products; the length is unchanged exactly when no line was for the product, and then the list is unchanged |
| CartController.StoredIdOfIsStoredForm | src/models/Cart.js:5-9 | a stored product id has no upper-case letter, and an id is stored unchanged iff it has none |
| CartController.WithoutProductKeepsInvariant | src/controllers/cartController.js:242-245 | removing lines keeps the lines well formed and their ids in stored form |
| CartController.WithoutProductAppend | src/controllers/cartController.js:243-245 | the filter keeps the surviving lines in their order: filtering `items + [line]` is filtering `items`, then `line` if it is for another product |
| CartController.ReplaceKeepsInvariant | src/controllers/cartController.js:111 | replacing a line by a well-formed line for the same product keeps the lines well formed and their ids in stored form |
| CartController.AppendKeepsInvariant | src/controllers/cartController.js:114-119 | appending a well-formed line with a stored-form id keeps the lines well formed and their ids in stored form |
| CartController.UpperCaseIdNeverMatches | src/controllers/cartController.js:95-97 | an id with an upper-case letter matches no stored line: the lookup gives -1 and the filter keeps every line (the same comparison is at lines 175-177 and 243-245) |
| CartController.AddKeepsDistinctForStoredFormIds | src/controllers/cartController.js:95-119 | for ids already in lower case, a successful add keeps one line per product |
| CartController.FailuresChangeNothing | src/controllers/cartController.js:59-252 | every rejected add, update or remove leaves every cart as it was |
| CartController.AddCreatesSingleLineCart | src/controllers/cartController.js:82-92 | a user without a cart gets a cart with exactly one line: the lower-cased id, the requested quantity at the product's current price and category; no other cart changes |
| CartController.AddMergesIntoExistingLine | src/controllers/cartController.js:95-111 | adding a product whose id matches a line (the first such line) raises that line's quantity by the requested amount and keeps its stored price, adds no line and changes no other line; the value grows by the requested units at the stored price; when the stock cannot cover the merged quantity it is rejected and nothing changes |
| CartController.MergeRaisesValue | src/controllers/cartController.js:101-111 | raising one line's quantity by `q` raises the cart value by `q` units at that line's stored price |
| CartController.AddAppendsNewLine | src/controllers/cartController.js:112-119 | adding a product whose id matches no line appends one line at the end, under the lower-cased id, with the product's price and category, and value and item count grow accordingly |
| CartController.UpdateSetsOneLine | src/controllers/cartController.js:175-201 | a positive quantity for a product in the cart sets the quantity of its first line and refreshes its price, and changes nothing else; without enough stock nothing changes |
| CartController.UpdateZeroOrMissing | src/controllers/cartController.js:162-184 | quantity 0 behaves exactly as removal; a missing cart or a product not in the cart is not found, and nothing changes |
| CartController.RemoveDropsEveryLine | src/controllers/cartController.js:242-267 | not found iff no line is for the product; the cart is deleted iff every line is; otherwise the saved cart holds exactly the lines for other products |
| CartController.CartCollection.GetCart | src/controllers/cartController.js:11-52 | the stored lines, totals and last-save time of the user's cart, or no lines, zero totals and no time when there is none; the totals agree with the lines |
| CartController.CartCollection.AddToCart | src/controllers/cartController.js:55-123 | outcome and new item lists are those of `AddEffect`; the stored-cart invariant is kept, and a saved cart is stamped with now; every other user's document is the same object with the same `lastUpdated`; a rejected request leaves the collection and every `lastUpdated` as they were |
| CartController.CartCollection.AddToStoredCart | src/controllers/cartController.js:93-122 | for a user with a cart, the outcome and item lists are those of `AddEffect`; the document is stamped with now when saved and untouched when rejected; no other document changes |
| CartController.CartCollection.UpdateCartItem | src/controllers/cartController.js:151-203 | outcome and new item lists are those of `UpdateEffect`; the stored-cart invariant is kept, and a saved cart is stamped with now; a deleted cart is removed from the collection; every other user's document is the same object with the same `lastUpdated`; a rejected request leaves the collection and every `lastUpdated` as they were |
| CartController.CartCollection.RemoveFromCart | src/controllers/cartController.js:231-269 | outcome and new item lists are those of `RemoveEffect`; the stored-cart invariant is kept, and a saved cart is stamped with now; a deleted cart is removed from the collection; every other user's document is the same object with the same `lastUpdated`; a rejected request leaves the collection and every `lastUpdated` as they were |
| CartController.CartCollection.ClearCart | src/controllers/cartController.js:297-307 | an existing cart is deleted and only that entry leaves the collection; without one the result is not found and nothing changes |
| Scenarios.FlatCouponOnLargeCart | src/services/couponLogic.js:93-97 | a flat 100 coupon with minimum cart value 500 on a cart worth 1200 gives discount 100 and final amount 1100 |
| Scenarios.TierExcludesSilver | src/services/couponLogic.js:34-36 | a coupon for GOLD and PLATINUM users is not eligible for a SILVER user |
| Scenarios.PercentCouponCapped | src/services/couponLogic.js:100-104 | a 20 percent coupon capped at 1000 on a cart worth 10000 gives 1000 and final amount 9000 |
| Scenarios.SmallerCodeBreaksTie | src/services/couponLogic.js:126-127 | of two coupons with equal discount and end date, `AAA10` beats `BBB10` |
| Scenarios.UsedUpCouponExcluded | src/services/couponLogic.js:31-32 | a coupon limited to one use per user is not eligible after one use |
| Scenarios.UpperCaseIdAddedTwice | src/controllers/cartController.js:95-119 | adding `ABCDEF0123456789ABCDEF01` twice gives two lines stored as `abcdef0123456789abcdef01`, and removing by the upper-case id reports the item missing |
| Scenarios.LowerCaseIdAddedTwice | src/controllers/cartController.js:95-111 | adding the lower-case id twice gives one line of two units |

The stored-cart invariant (`CartCollection.Valid`) says the following for every stored
document:
- it is filed under its own user id;
- its lines are the ones in the ghost map `carts`;
- it has at least one line;
- every line has quantity at least 1 and a non-negative price;
- every line's product id is in its stored (lower-case) form;
- its totals equal the cart value and the item count of its lines.

## Left out

- Database access: the coupon query (active and in its date window) and the usage
  aggregation in `findBestCoupon` are parameters (the candidate list and a map from coupon id
  to count). The Mongo reads, writes and deletes of the cart endpoints become updates of the
  in-memory collection.
- Response shaping: `populate`, the per-item transformation and the JSON bodies are left
  out. An endpoint's result is its outcome (saved, deleted, or an error with its status).
- The request schemas are modelled only as their bounds: a 24-hex-digit product id, an add
  quantity of 1 to 100 (default 1), an update quantity of 0 to 100. They are not modelled as
  Joi's type coercion and integer checks. A rejected request is the `InvalidRequest` error.
- An `ObjectId` is modelled by its string form: the request id with its capital letters
  lowered (a valid id has no capitals other than `A` to `F`). Its twelve-byte binary value is not modelled.
- Floating point: money is exact `real`. `Math.round(x * 100) / 100` is half-up rounding on
  exact values.
- `localeCompare` is modelled as code-point order. Locale-aware collation can order some
  codes differently.
- `new Date(...)` parsing is left out: dates are integer timestamps, and `now` is a parameter.
- `R.sort` is modelled as a stable insertion sort. Since the comparator is a consistent
  total preorder, any stable sort gives the same list.
- The never-called `next` in the pre-save hook (src/models/Cart.js:58) and the rest of
  Mongoose's save pipeline (schema validation, timestamps) are not part of this model.
- Concurrency between requests is not modelled: each method runs alone.
- The unused `pipeAsync` helper, the product and coupon controllers, the routes, the app
  setup, the configuration and the seed scripts are not part of this model.
- CouponLogic.DiscountWithinCartValue: requires `discountValue <= 100` for PERCENT coupons,
  because neither the calculator nor the coupon schema bounds it.
  `CouponLogic.PercentAboveHundredExceedsCart` proves that without this premise the
  discount can exceed the cart value.
- CartController.CartCollection.AddToCart: requires the looked-up product's price to be
  non-negative, as the product schema demands (src/models/Product.js:19-23).
- CartController.CartCollection.UpdateCartItem: requires the same of its product.
