/** The coupon eligibility and selection engine: cart aggregates, the ten eligibility
    predicates, the discount calculator and the ranking that picks the best coupon.
    Everything here is a pure function of its arguments; the coupon catalogue and the
    per-user usage counts arrive as parameters. */
module CouponLogic {
  import opened Wrappers
  import opened CartLines

  // ---------------------------------------------------------------------------
  // Coupons and users

  /** The `discountType` string: "FLAT", "PERCENT", or any other string, which the
      calculator does not recognise. `ParseDiscountType` builds `Unrecognized` only for
      names other than the two recognised ones. */
  datatype DiscountType = Flat | Percent | Unrecognized(name: string)

  function ParseDiscountType(name: string): (t: DiscountType)
    ensures t.Unrecognized? ==> t.name != "FLAT" && t.name != "PERCENT"
  {
    if name == "FLAT" then Flat
    else if name == "PERCENT" then Percent
    else Unrecognized(name)
  }

  /** The string a coupon document holds for a discount type. */
  function DiscountTypeName(t: DiscountType): string
  {
    match t
    case Flat => "FLAT"
    case Percent => "PERCENT"
    case Unrecognized(name) => name
  }

  /** Reading a type name and writing it back gives the same name, and every type
      that a name can produce survives the opposite round trip. */
  lemma DiscountTypeRoundTrip(name: string, t: DiscountType)
    ensures DiscountTypeName(ParseDiscountType(name)) == name
    ensures (t != Unrecognized("FLAT") && t != Unrecognized("PERCENT"))
              ==> ParseDiscountType(DiscountTypeName(t)) == t
  {
  }

  /** The `eligibility` sub-document. An empty list or an absent (or zero) number
      imposes no constraint. */
  datatype EligibilityRules = EligibilityRules(
    allowedUserTiers: seq<string>,
    minLifetimeSpend: Option<real>,
    minOrdersPlaced: Option<int>,
    firstOrderOnly: Option<bool>,
    allowedCountries: seq<string>,
    minCartValue: Option<real>,
    applicableCategories: seq<string>,
    excludedCategories: seq<string>,
    minItemsCount: Option<int>)

  datatype Coupon = Coupon(
    id: string,
    code: string,
    description: string,
    discountType: DiscountType,
    discountValue: real,
    maxDiscountAmount: Option<real>,
    startDate: int,
    endDate: int,
    usageLimitPerUser: Option<int>,
    eligibility: EligibilityRules,
    isActive: bool)

  datatype UserContext = UserContext(
    userId: string,
    userTier: string,
    country: string,
    lifetimeSpend: real,
    ordersPlaced: int)

  /** The fields of the winning coupon that the caller receives. */
  datatype CouponSummary = CouponSummary(
    code: string,
    description: string,
    discountType: DiscountType,
    discountValue: real,
    maxDiscountAmount: Option<real>,
    endDate: int)

  datatype BestCoupon = BestCoupon(coupon: CouponSummary, discountAmount: real, finalAmount: real)

  // JavaScript truthiness of an optional field: absent, zero and false are all falsy.
  predicate TruthyReal(o: Option<real>) { o.Some? && o.value != 0.0 }
  predicate TruthyInt(o: Option<int>) { o.Some? && o.value != 0 }
  predicate TruthyFlag(o: Option<bool>) { o.Some? && o.value }

  // ---------------------------------------------------------------------------
  // Cart aggregates

  function LineTotal(line: CartLine): real
  {
    line.unitPrice * line.quantity as real
  }

  /** The sum of the line totals (a map followed by a sum). */
  function CartValue(cart: seq<CartLine>): real
  {
    if cart == [] then 0.0 else LineTotal(cart[0]) + CartValue(cart[1..])
  }

  /** The sum of the quantities. */
  function TotalItemsCount(cart: seq<CartLine>): int
  {
    if cart == [] then 0 else cart[0].quantity + TotalItemsCount(cart[1..])
  }

  /** The distinct categories of the cart, each at its first occurrence. */
  function CartCategories(cart: seq<CartLine>): (cats: seq<string>)
    ensures forall c :: c in cats <==> exists i :: 0 <= i < |cart| && cart[i].category == c
    ensures forall i, j :: 0 <= i < j < |cats| ==> cats[i] != cats[j]
  {
    if cart == [] then []
    else
      var init := CartCategories(cart[..|cart| - 1]);
      var last := cart[|cart| - 1].category;
      assert forall i :: 0 <= i < |cart| - 1 ==> cart[..|cart| - 1][i] == cart[i];
      if last in init then init else init + [last]
  }

  /** Appending a line adds its total: the left-to-right fold and the sum agree. */
  lemma {:induction false} CartValueAppend(cart: seq<CartLine>, line: CartLine)
    ensures CartValue(cart + [line]) == CartValue(cart) + LineTotal(line)
  {
    if cart != [] {
      assert (cart + [line])[1..] == cart[1..] + [line];
      CartValueAppend(cart[1..], line);
    }
  }

  /** Appending a line adds its quantity to the item count. */
  lemma {:induction false} TotalItemsAppend(cart: seq<CartLine>, line: CartLine)
    ensures TotalItemsCount(cart + [line]) == TotalItemsCount(cart) + line.quantity
  {
    if cart != [] {
      assert (cart + [line])[1..] == cart[1..] + [line];
      TotalItemsAppend(cart[1..], line);
    }
  }

  /** Replacing one line changes the cart value by the difference of the two line totals. */
  lemma {:induction false} CartValueReplace(cart: seq<CartLine>, k: int, line: CartLine)
    requires 0 <= k < |cart|
    ensures CartValue(cart[k := line]) == CartValue(cart) - LineTotal(cart[k]) + LineTotal(line)
  {
    if k > 0 {
      assert cart[k := line][1..] == cart[1..][k - 1 := line];
      CartValueReplace(cart[1..], k - 1, line);
    }
  }

  lemma {:induction false} CartValueNonNegative(cart: seq<CartLine>)
    requires WellFormedCart(cart)
    ensures CartValue(cart) >= 0.0
  {
    if cart != [] {
      assert WellFormedLine(cart[0]);
      CartValueNonNegative(cart[1..]);
    }
  }

  // ---------------------------------------------------------------------------
  // The ten eligibility predicates

  predicate ValidateDateRange(now: int, c: Coupon)
  {
    c.startDate <= now <= c.endDate
  }

  predicate ValidateUsageLimit(usageCount: int, c: Coupon)
  {
    !TruthyInt(c.usageLimitPerUser) || usageCount < c.usageLimitPerUser.value
  }

  predicate ValidateUserTier(ctx: UserContext, c: Coupon)
  {
    c.eligibility.allowedUserTiers == [] || ctx.userTier in c.eligibility.allowedUserTiers
  }

  predicate ValidateLifetimeSpend(ctx: UserContext, c: Coupon)
  {
    !TruthyReal(c.eligibility.minLifetimeSpend) || ctx.lifetimeSpend >= c.eligibility.minLifetimeSpend.value
  }

  predicate ValidateOrdersPlaced(ctx: UserContext, c: Coupon)
  {
    !TruthyInt(c.eligibility.minOrdersPlaced) || ctx.ordersPlaced >= c.eligibility.minOrdersPlaced.value
  }

  predicate ValidateFirstOrder(ctx: UserContext, c: Coupon)
  {
    !TruthyFlag(c.eligibility.firstOrderOnly) || ctx.ordersPlaced == 0
  }

  predicate ValidateCountry(ctx: UserContext, c: Coupon)
  {
    c.eligibility.allowedCountries == [] || ctx.country in c.eligibility.allowedCountries
  }

  predicate ValidateCartValue(cart: seq<CartLine>, c: Coupon)
  {
    !TruthyReal(c.eligibility.minCartValue) || CartValue(cart) >= c.eligibility.minCartValue.value
  }

  predicate ValidateCategories(cart: seq<CartLine>, c: Coupon)
  {
    var cats := CartCategories(cart);
    var applicable := c.eligibility.applicableCategories;
    var excluded := c.eligibility.excludedCategories;
    && (applicable == [] || exists cat :: cat in cats && cat in applicable)
    && (excluded == [] || !exists cat :: cat in cats && cat in excluded)
  }

  predicate ValidateItemsCount(cart: seq<CartLine>, c: Coupon)
  {
    !TruthyInt(c.eligibility.minItemsCount) || TotalItemsCount(cart) >= c.eligibility.minItemsCount.value
  }

  /** All ten predicates, against one snapshot of the user, cart, usage count and time. */
  predicate Eligible(ctx: UserContext, cart: seq<CartLine>, usageCount: int, now: int, c: Coupon)
  {
    && ValidateDateRange(now, c)
    && ValidateUsageLimit(usageCount, c)
    && ValidateUserTier(ctx, c)
    && ValidateLifetimeSpend(ctx, c)
    && ValidateOrdersPlaced(ctx, c)
    && ValidateFirstOrder(ctx, c)
    && ValidateCountry(ctx, c)
    && ValidateCartValue(cart, c)
    && ValidateCategories(cart, c)
    && ValidateItemsCount(cart, c)
  }

  /** The window is closed at both ends, and a coupon outside it is never eligible. */
  lemma DateWindowInclusive(ctx: UserContext, cart: seq<CartLine>, usageCount: int, now: int, c: Coupon)
    ensures c.startDate <= c.endDate ==> ValidateDateRange(c.startDate, c) && ValidateDateRange(c.endDate, c)
    ensures now < c.startDate || c.endDate < now ==> !Eligible(ctx, cart, usageCount, now, c)
  {
  }

  /** A positive limit blocks the coupon once the user has used it that many times,
      and fewer uses never make an eligible coupon ineligible. */
  lemma UsageLimitBlocksAtLimit(ctx: UserContext, cart: seq<CartLine>, usageCount: int, now: int, c: Coupon)
    ensures (TruthyInt(c.usageLimitPerUser) && usageCount >= c.usageLimitPerUser.value)
              ==> !Eligible(ctx, cart, usageCount, now, c)
    ensures forall fewer :: (fewer <= usageCount && Eligible(ctx, cart, usageCount, now, c))
              ==> Eligible(ctx, cart, fewer, now, c)
  {
  }

  /** The category rule stated over the cart's lines: some line is in the applicable
      list (when there is one) and no line is in the excluded list (when there is one). */
  lemma CategoryRule(cart: seq<CartLine>, c: Coupon)
    ensures ValidateCategories(cart, c) <==>
      && (c.eligibility.applicableCategories == []
          || exists i :: 0 <= i < |cart| && cart[i].category in c.eligibility.applicableCategories)
      && (c.eligibility.excludedCategories == []
          || forall i :: 0 <= i < |cart| ==> cart[i].category !in c.eligibility.excludedCategories)
    ensures cart == [] && c.eligibility.applicableCategories != [] ==> !ValidateCategories(cart, c)
  {
    var cats := CartCategories(cart);
    var applicable := c.eligibility.applicableCategories;
    var excluded := c.eligibility.excludedCategories;
    if exists i :: 0 <= i < |cart| && cart[i].category in applicable {
      var i :| 0 <= i < |cart| && cart[i].category in applicable;
      assert cart[i].category in cats;
    }
    if exists i :: 0 <= i < |cart| && cart[i].category in excluded {
      var i :| 0 <= i < |cart| && cart[i].category in excluded;
      assert cart[i].category in cats;
    }
  }

  /** `strict` is `loose` with zero or more rule fields filled in where `loose` had none. */
  ghost predicate AddsRules(loose: Coupon, strict: Coupon)
  {
    var a := loose.eligibility;
    var b := strict.eligibility;
    && strict == loose.(usageLimitPerUser := strict.usageLimitPerUser, eligibility := b)
    && (!TruthyInt(loose.usageLimitPerUser) || strict.usageLimitPerUser == loose.usageLimitPerUser)
    && (a.allowedUserTiers == [] || b.allowedUserTiers == a.allowedUserTiers)
    && (!TruthyReal(a.minLifetimeSpend) || b.minLifetimeSpend == a.minLifetimeSpend)
    && (!TruthyInt(a.minOrdersPlaced) || b.minOrdersPlaced == a.minOrdersPlaced)
    && (!TruthyFlag(a.firstOrderOnly) || b.firstOrderOnly == a.firstOrderOnly)
    && (a.allowedCountries == [] || b.allowedCountries == a.allowedCountries)
    && (!TruthyReal(a.minCartValue) || b.minCartValue == a.minCartValue)
    && (a.applicableCategories == [] || b.applicableCategories == a.applicableCategories)
    && (a.excludedCategories == [] || b.excludedCategories == a.excludedCategories)
    && (!TruthyInt(a.minItemsCount) || b.minItemsCount == a.minItemsCount)
  }

  /** Adding rules never makes an ineligible coupon eligible. */
  lemma AddingRulesNeverWidens(ctx: UserContext, cart: seq<CartLine>, usageCount: int, now: int,
                               loose: Coupon, strict: Coupon)
    requires AddsRules(loose, strict)
    ensures Eligible(ctx, cart, usageCount, now, strict) ==> Eligible(ctx, cart, usageCount, now, loose)
  {
  }

  /** Every rule field is empty, absent, zero or false. */
  predicate ImposesNothing(e: EligibilityRules)
  {
    && e.allowedUserTiers == []
    && !TruthyReal(e.minLifetimeSpend)
    && !TruthyInt(e.minOrdersPlaced)
    && !TruthyFlag(e.firstOrderOnly)
    && e.allowedCountries == []
    && !TruthyReal(e.minCartValue)
    && e.applicableCategories == []
    && e.excludedCategories == []
    && !TruthyInt(e.minItemsCount)
  }

  /** With no rule set, only the date window and the usage limit can hold a coupon back. */
  lemma FalsyRulesImposeNothing(ctx: UserContext, cart: seq<CartLine>, usageCount: int, now: int, c: Coupon)
    requires ImposesNothing(c.eligibility)
    ensures Eligible(ctx, cart, usageCount, now, c) <==>
              ValidateDateRange(now, c) && ValidateUsageLimit(usageCount, c)
  {
  }

  /** Each profile rule, once set, excludes every user who fails it. */
  lemma ProfileRulesExclude(ctx: UserContext, cart: seq<CartLine>, usageCount: int, now: int, c: Coupon)
    ensures var e := c.eligibility;
      (e.allowedUserTiers != [] && ctx.userTier !in e.allowedUserTiers) ==> !Eligible(ctx, cart, usageCount, now, c)
    ensures var e := c.eligibility;
      (TruthyReal(e.minLifetimeSpend) && ctx.lifetimeSpend < e.minLifetimeSpend.value)
        ==> !Eligible(ctx, cart, usageCount, now, c)
    ensures var e := c.eligibility;
      (TruthyInt(e.minOrdersPlaced) && ctx.ordersPlaced < e.minOrdersPlaced.value)
        ==> !Eligible(ctx, cart, usageCount, now, c)
    ensures var e := c.eligibility;
      (TruthyFlag(e.firstOrderOnly) && ctx.ordersPlaced != 0) ==> !Eligible(ctx, cart, usageCount, now, c)
    ensures var e := c.eligibility;
      (e.allowedCountries != [] && ctx.country !in e.allowedCountries) ==> !Eligible(ctx, cart, usageCount, now, c)
  {
  }

  /** A larger lifetime spend never costs a user a coupon. */
  lemma MoreSpendNeverHurts(ctx: UserContext, cart: seq<CartLine>, usageCount: int, now: int, c: Coupon,
                            spend: real)
    requires spend >= ctx.lifetimeSpend
    ensures Eligible(ctx, cart, usageCount, now, c) ==> Eligible(ctx.(lifetimeSpend := spend), cart, usageCount, now, c)
  {
  }

  /** More orders keep a minimum-orders rule satisfied, but any order at all fails a
      first-order-only coupon; the two rules together, with a minimum of at least 1,
      admit nobody. */
  lemma OrderHistoryRules(ctx: UserContext, cart: seq<CartLine>, usageCount: int, now: int, c: Coupon,
                          orders: int)
    requires orders >= ctx.ordersPlaced
    ensures ValidateOrdersPlaced(ctx, c) ==> ValidateOrdersPlaced(ctx.(ordersPlaced := orders), c)
    ensures (TruthyFlag(c.eligibility.firstOrderOnly) && orders > 0)
              ==> !Eligible(ctx.(ordersPlaced := orders), cart, usageCount, now, c)
    ensures (&& TruthyFlag(c.eligibility.firstOrderOnly)
             && TruthyInt(c.eligibility.minOrdersPlaced)
             && c.eligibility.minOrdersPlaced.value >= 1)
              ==> !Eligible(ctx, cart, usageCount, now, c)
  {
  }

  /** Each cart threshold, once set, excludes every cart below it; adding a well-formed
      line never breaks either threshold. */
  lemma {:induction false} CartThresholds(cart: seq<CartLine>, line: CartLine, ctx: UserContext, usageCount: int,
                                          now: int, c: Coupon)
    requires WellFormedLine(line)
    ensures (TruthyReal(c.eligibility.minCartValue) && CartValue(cart) < c.eligibility.minCartValue.value)
              ==> !Eligible(ctx, cart, usageCount, now, c)
    ensures (TruthyInt(c.eligibility.minItemsCount) && TotalItemsCount(cart) < c.eligibility.minItemsCount.value)
              ==> !Eligible(ctx, cart, usageCount, now, c)
    ensures ValidateCartValue(cart, c) ==> ValidateCartValue(cart + [line], c)
    ensures ValidateItemsCount(cart, c) ==> ValidateItemsCount(cart + [line], c)
  {
    CartValueAppend(cart, line);
    TotalItemsAppend(cart, line);
    assert LineTotal(line) >= 0.0 by {
      assert line.quantity as real >= 1.0 && line.unitPrice >= 0.0;
    }
  }

  // ---------------------------------------------------------------------------
  // Discount calculator

  function Min(a: real, b: real): real
  {
    if a <= b then a else b
  }

  function CalculateDiscount(c: Coupon, cart: seq<CartLine>): real
  {
    DiscountOn(c, CartValue(cart))
  }

  /** The discount `c` gives on a cart worth `cartValue`. */
  function DiscountOn(c: Coupon, cartValue: real): real
  {
    match c.discountType
    case Flat => Min(c.discountValue, cartValue)
    case Percent =>
      var discount := cartValue * (c.discountValue / 100.0);
      if TruthyReal(c.maxDiscountAmount) then Min(discount, c.maxDiscountAmount.value) else discount
    case Unrecognized(_) => 0.0
  }

  /** A FLAT coupon gives its face value, but never more than the cart is worth. */
  lemma FlatDiscountCappedByCart(c: Coupon, cart: seq<CartLine>)
    requires c.discountType == Flat
    ensures CalculateDiscount(c, cart) <= CartValue(cart)
    ensures CalculateDiscount(c, cart) <= c.discountValue
    ensures c.discountValue > CartValue(cart) ==> CalculateDiscount(c, cart) == CartValue(cart)
    ensures c.discountValue <= CartValue(cart) ==> CalculateDiscount(c, cart) == c.discountValue
  {
  }

  /** A PERCENT coupon takes its share of the cart; a non-zero cap clamps it and a
      cap of zero (or none) leaves it alone. */
  lemma PercentDiscountCap(c: Coupon, cart: seq<CartLine>)
    requires c.discountType == Percent
    ensures var raw := CartValue(cart) * c.discountValue / 100.0;
      && (!TruthyReal(c.maxDiscountAmount) ==> CalculateDiscount(c, cart) == raw)
      && (TruthyReal(c.maxDiscountAmount) ==> CalculateDiscount(c, cart) <= c.maxDiscountAmount.value)
      && ((TruthyReal(c.maxDiscountAmount) && raw > c.maxDiscountAmount.value)
            ==> CalculateDiscount(c, cart) == c.maxDiscountAmount.value)
      && ((TruthyReal(c.maxDiscountAmount) && raw <= c.maxDiscountAmount.value)
            ==> CalculateDiscount(c, cart) == raw)
  {
  }

  lemma UnrecognizedTypeGivesZero(c: Coupon, cart: seq<CartLine>)
    requires c.discountType.Unrecognized?
    ensures CalculateDiscount(c, cart) == 0.0
  {
  }

  /** On a well-formed cart and coupon, the discount lies between zero and the cart
      value, provided a PERCENT coupon is at most 100 percent. */
  lemma DiscountWithinCartValue(c: Coupon, cart: seq<CartLine>)
    requires WellFormedCart(cart)
    requires c.discountValue >= 0.0
    requires c.maxDiscountAmount.Some? ==> c.maxDiscountAmount.value >= 0.0
    requires c.discountType == Percent ==> c.discountValue <= 100.0
    ensures 0.0 <= CalculateDiscount(c, cart) <= CartValue(cart)
  {
    CartValueNonNegative(cart);
    DiscountOnWithin(c, CartValue(cart));
  }

  lemma DiscountOnWithin(c: Coupon, v: real)
    requires v >= 0.0
    requires c.discountValue >= 0.0
    requires c.maxDiscountAmount.Some? ==> c.maxDiscountAmount.value >= 0.0
    requires c.discountType == Percent ==> c.discountValue <= 100.0
    ensures 0.0 <= DiscountOn(c, v) <= v
  {
    if c.discountType == Percent {
      var f := c.discountValue / 100.0;
      ScaleWithin(v, f);
      var d := v * f;
      assert 0.0 <= d <= v;
      if TruthyReal(c.maxDiscountAmount) {
        assert DiscountOn(c, v) == Min(d, c.maxDiscountAmount.value);
      } else {
        assert DiscountOn(c, v) == d;
      }
    }
  }

  /** Scaling a non-negative amount by a fraction in [0, 1] keeps it within [0, amount]. */
  lemma ScaleWithin(v: real, f: real)
    requires v >= 0.0 && 0.0 <= f <= 1.0
    ensures 0.0 <= v * f <= v
  {
    assert v - v * f == v * (1.0 - f);
  }

  /** Nothing in the calculator bounds a PERCENT coupon by the cart value: above 100
      percent and without a cap, the discount exceeds what the cart is worth. */
  lemma PercentAboveHundredExceedsCart(c: Coupon, cart: seq<CartLine>)
    requires c.discountType == Percent && c.discountValue > 100.0
    requires !TruthyReal(c.maxDiscountAmount)
    requires CartValue(cart) > 0.0
    ensures CalculateDiscount(c, cart) > CartValue(cart)
  {
    var v := CartValue(cart);
    var f := c.discountValue / 100.0;
    assert CalculateDiscount(c, cart) == v * f;
    assert f > 1.0;
    var excess := f - 1.0;
    assert v * f == v + v * excess;
    assert v * excess > 0.0;
    assert CalculateDiscount(c, cart) > v;
  }

  // ---------------------------------------------------------------------------
  // Ranking

  /** Ordinal comparison of two codes: negative, zero or positive. `CompareCodesIsLex`
      shows the order is the lexicographic one of `LexLess`. */
  function CompareCodes(a: string, b: string): (r: int)
    ensures -1 <= r <= 1
    ensures r == 0 <==> a == b
  {
    if a == [] && b == [] then 0
    else if a == [] then -1
    else if b == [] then 1
    else if a[0] < b[0] then -1
    else if a[0] > b[0] then 1
    else
      assert a == [a[0]] + a[1..] && b == [b[0]] + b[1..];
      CompareCodes(a[1..], b[1..])
  }

  /** `a` comes strictly before `b` in lexicographic order: after a common prefix, `a`
      ends while `b` goes on, or `a` has the smaller character. */
  ghost predicate LexLess(a: string, b: string)
  {
    exists k :: 0 <= k <= |a| && k <= |b| && a[..k] == b[..k]
      && ((k == |a| && k < |b|) || (k < |a| && k < |b| && a[k] < b[k]))
  }

  /** Two codes with the same first character are ordered as their remainders are. */
  lemma LexLessTails(a: string, b: string)
    requires a != [] && b != [] && a[0] == b[0]
    ensures LexLess(a, b) <==> LexLess(a[1..], b[1..])
  {
    if LexLess(a, b) {
      var k :| 0 <= k <= |a| && k <= |b| && a[..k] == b[..k]
        && ((k == |a| && k < |b|) || (k < |a| && k < |b| && a[k] < b[k]));
      assert k > 0;
      assert a[1..][..k - 1] == a[..k][1..] == b[..k][1..] == b[1..][..k - 1];
    }
    if LexLess(a[1..], b[1..]) {
      var k :| 0 <= k <= |a[1..]| && k <= |b[1..]| && a[1..][..k] == b[1..][..k]
        && ((k == |a[1..]| && k < |b[1..]|) || (k < |a[1..]| && k < |b[1..]| && a[1..][k] < b[1..][k]));
      assert a[..k + 1] == [a[0]] + a[1..][..k];
      assert b[..k + 1] == [b[0]] + b[1..][..k];
    }
  }

  /** The code comparison is negative exactly when the first code is lexicographically
      smaller. */
  lemma {:induction false} CompareCodesIsLex(a: string, b: string)
    ensures CompareCodes(a, b) < 0 <==> LexLess(a, b)
  {
    if a == [] && b != [] {
      assert a[..0] == b[..0];
    } else if a != [] && b != [] {
      if a[0] < b[0] {
        assert a[..0] == b[..0];
      } else if a[0] == b[0] {
        LexLessTails(a, b);
        CompareCodesIsLex(a[1..], b[1..]);
      }
    }
  }

  lemma {:induction false} CompareCodesAntisymmetric(a: string, b: string)
    ensures CompareCodes(a, b) == -CompareCodes(b, a)
  {
    if a != [] && b != [] && a[0] == b[0] {
      CompareCodesAntisymmetric(a[1..], b[1..]);
    }
  }

  lemma {:induction false} CompareCodesTransitive(a: string, b: string, c: string)
    requires CompareCodes(a, b) <= 0 && CompareCodes(b, c) <= 0
    ensures CompareCodes(a, c) <= 0
  {
    if a != [] && b != [] && c != [] && a[0] == b[0] == c[0] {
      CompareCodesTransitive(a[1..], b[1..], c[1..]);
    }
  }

  /** The comparator handed to the sort: negative when `a` goes first. Higher discount
      first, then the earlier end date, then the smaller code. */
  function CompareCoupons(cart: seq<CartLine>, a: Coupon, b: Coupon): real
  {
    var discountA := CalculateDiscount(a, cart);
    var discountB := CalculateDiscount(b, cart);
    if discountB != discountA then discountB - discountA
    else if a.endDate != b.endDate then (a.endDate - b.endDate) as real
    else CompareCodes(a.code, b.code) as real
  }

  /** The ranking key (-discount, endDate, code), compared lexicographically: `w` is at
      least as good as `c`. */
  ghost predicate RanksFirst(cart: seq<CartLine>, w: Coupon, c: Coupon)
  {
    var dw := CalculateDiscount(w, cart);
    var dc := CalculateDiscount(c, cart);
    || dw > dc
    || (dw == dc && w.endDate < c.endDate)
    || (dw == dc && w.endDate == c.endDate && CompareCodes(w.code, c.code) <= 0)
  }

  /** The comparator orders exactly as the ranking key does. */
  lemma CompareCouponsMatchesKey(cart: seq<CartLine>, a: Coupon, b: Coupon)
    ensures CompareCoupons(cart, a, b) <= 0.0 <==> RanksFirst(cart, a, b)
  {
  }

  lemma CompareCouponsAntisymmetric(cart: seq<CartLine>, a: Coupon, b: Coupon)
    ensures CompareCoupons(cart, a, b) == -CompareCoupons(cart, b, a)
  {
    CompareCodesAntisymmetric(a.code, b.code);
  }

  lemma CompareCouponsTransitive(cart: seq<CartLine>, a: Coupon, b: Coupon, c: Coupon)
    requires CompareCoupons(cart, a, b) <= 0.0 && CompareCoupons(cart, b, c) <= 0.0
    ensures CompareCoupons(cart, a, c) <= 0.0
  {
    var da, db, dc := CalculateDiscount(a, cart), CalculateDiscount(b, cart), CalculateDiscount(c, cart);
    if da == db == dc && a.endDate == b.endDate == c.endDate {
      CompareCodesTransitive(a.code, b.code, c.code);
    }
  }

  ghost predicate SortedBy(cart: seq<CartLine>, s: seq<Coupon>)
  {
    forall i, j :: 0 <= i < j < |s| ==> CompareCoupons(cart, s[i], s[j]) <= 0.0
  }

  /** Puts `x` before the first element it does not rank behind. */
  function Insert(cart: seq<CartLine>, x: Coupon, s: seq<Coupon>): seq<Coupon>
  {
    if s == [] then [x]
    else if CompareCoupons(cart, x, s[0]) <= 0.0 then [x] + s
    else [s[0]] + Insert(cart, x, s[1..])
  }

  /** A stable sort by the comparator: of two equally ranked coupons the earlier one
      stays first. */
  function SortCoupons(cart: seq<CartLine>, coupons: seq<Coupon>): seq<Coupon>
  {
    if coupons == [] then [] else Insert(cart, coupons[0], SortCoupons(cart, coupons[1..]))
  }

  lemma SortedHeadFirst(cart: seq<CartLine>, s: seq<Coupon>)
    requires SortedBy(cart, s) && s != []
    ensures forall y :: y in s ==> CompareCoupons(cart, s[0], y) <= 0.0
  {
    forall y | y in s
      ensures CompareCoupons(cart, s[0], y) <= 0.0
    {
      var k :| 0 <= k < |s| && s[k] == y;
      if k == 0 {
        CompareCouponsAntisymmetric(cart, y, y);
      }
    }
  }

  /** Prepending an element that ranks no worse than the head keeps a list sorted. */
  lemma ConsSorted(cart: seq<CartLine>, x: Coupon, s: seq<Coupon>)
    requires SortedBy(cart, s)
    requires forall y :: y in s ==> CompareCoupons(cart, x, y) <= 0.0
    ensures SortedBy(cart, [x] + s)
  {
    var r := [x] + s;
    forall i, j | 0 <= i < j < |r|
      ensures CompareCoupons(cart, r[i], r[j]) <= 0.0
    {
      if i == 0 {
        assert r[j] == s[j - 1] && s[j - 1] in s;
      } else {
        assert r[i] == s[i - 1] && r[j] == s[j - 1];
      }
    }
  }

  lemma {:induction false} InsertSorted(cart: seq<CartLine>, x: Coupon, s: seq<Coupon>)
    requires SortedBy(cart, s)
    ensures SortedBy(cart, Insert(cart, x, s))
    ensures multiset(Insert(cart, x, s)) == multiset(s) + multiset{x}
  {
    if s == [] {
    } else if CompareCoupons(cart, x, s[0]) <= 0.0 {
      SortedHeadFirst(cart, s);
      forall y | y in s
        ensures CompareCoupons(cart, x, y) <= 0.0
      {
        CompareCouponsTransitive(cart, x, s[0], y);
      }
      ConsSorted(cart, x, s);
    } else {
      var rest := Insert(cart, x, s[1..]);
      TailSorted(cart, s);
      InsertSorted(cart, x, s[1..]);
      CompareCouponsAntisymmetric(cart, x, s[0]);
      SortedHeadFirst(cart, s);
      assert s == [s[0]] + s[1..];
      BoundPassesToPermutation(cart, s[0], s[1..], x, rest);
      ConsSorted(cart, s[0], rest);
    }
  }

  /** Dropping the head of a sorted list leaves it sorted. */
  lemma TailSorted(cart: seq<CartLine>, s: seq<Coupon>)
    requires SortedBy(cart, s) && s != []
    ensures SortedBy(cart, s[1..])
  {
    forall i, j | 0 <= i < j < |s[1..]|
      ensures CompareCoupons(cart, s[1..][i], s[1..][j]) <= 0.0
    {
      assert s[1..][i] == s[i + 1] && s[1..][j] == s[j + 1];
    }
  }

  /** If `h` ranks no worse than every element of `s` and than `x`, it ranks no worse
      than every element of any rearrangement of `s` with `x` added. */
  lemma BoundPassesToPermutation(cart: seq<CartLine>, h: Coupon, s: seq<Coupon>, x: Coupon, r: seq<Coupon>)
    requires forall y :: y in [h] + s ==> CompareCoupons(cart, h, y) <= 0.0
    requires CompareCoupons(cart, h, x) <= 0.0
    requires multiset(r) == multiset(s) + multiset{x}
    ensures forall y :: y in r ==> CompareCoupons(cart, h, y) <= 0.0
  {
    forall y | y in r
      ensures CompareCoupons(cart, h, y) <= 0.0
    {
      assert y in multiset(r);
      if y != x {
        assert y in multiset(s);
        assert y in [h] + s;
      }
    }
  }

  /** The sort yields a permutation of its input, ordered by the comparator. */
  lemma {:induction false} SortCouponsCorrect(cart: seq<CartLine>, coupons: seq<Coupon>)
    ensures SortedBy(cart, SortCoupons(cart, coupons))
    ensures multiset(SortCoupons(cart, coupons)) == multiset(coupons)
  {
    if coupons != [] {
      SortCouponsCorrect(cart, coupons[1..]);
      InsertSorted(cart, coupons[0], SortCoupons(cart, coupons[1..]));
      assert coupons == [coupons[0]] + coupons[1..];
    }
  }

  /** The head of the sorted list: the coupon with the highest discount, then the
      earliest end date, then the smallest code. */
  function SelectBestCoupon(cart: seq<CartLine>, eligible: seq<Coupon>): (best: Option<Coupon>)
    ensures best.None? <==> eligible == []
    ensures best.Some? ==> best.value in eligible
    ensures best.Some? ==> forall c :: c in eligible ==> RanksFirst(cart, best.value, c)
  {
    var sorted := SortCoupons(cart, eligible);
    SortCouponsCorrect(cart, eligible);
    assert forall c :: c in eligible <==> c in sorted by {
      forall c ensures c in eligible <==> c in sorted {
        assert c in eligible <==> c in multiset(eligible);
        assert c in sorted <==> c in multiset(sorted);
      }
    }
    if sorted == [] then None
    else
      SortedHeadFirst(cart, sorted);
      Some(sorted[0])
  }

  // ---------------------------------------------------------------------------
  // Selection over the fetched candidates

  /** A coupon without a usage record has been used zero times. */
  function UsageCount(usage: map<string, int>, couponId: string): int
  {
    if couponId in usage then usage[couponId] else 0
  }

  /** A coupon the user has never used counts as used zero times, so it passes the
      usage limit exactly when the limit is falsy or positive; a recorded count is
      checked as it stands. */
  lemma UnusedCouponPassesLimit(usage: map<string, int>, c: Coupon)
    ensures c.id !in usage ==>
      (ValidateUsageLimit(UsageCount(usage, c.id), c) <==>
        (!TruthyInt(c.usageLimitPerUser) || c.usageLimitPerUser.value > 0))
    ensures c.id in usage ==>
      (ValidateUsageLimit(UsageCount(usage, c.id), c) <==> ValidateUsageLimit(usage[c.id], c))
  {
  }

  /** The candidates that pass every predicate, each with its own usage count. */
  function EligibleCoupons(ctx: UserContext, cart: seq<CartLine>, usage: map<string, int>, now: int,
                           coupons: seq<Coupon>): (eligible: seq<Coupon>)
    ensures forall c :: c in eligible <==>
      c in coupons && Eligible(ctx, cart, UsageCount(usage, c.id), now, c)
  {
    if coupons == [] then []
    else
      var rest := EligibleCoupons(ctx, cart, usage, now, coupons[1..]);
      assert forall c :: c in coupons <==> c == coupons[0] || c in coupons[1..];
      if Eligible(ctx, cart, UsageCount(usage, coupons[0].id), now, coupons[0]) then [coupons[0]] + rest
      else rest
  }

  /** Half-up rounding to two decimals, as `Math.round(x * 100) / 100` does on exact values. */
  function RoundToCents(amount: real): (rounded: real)
    ensures amount - 0.005 < rounded <= amount + 0.005
    ensures (rounded * 100.0).Floor as real == rounded * 100.0
  {
    var cents := (amount * 100.0 + 0.5).Floor;
    assert (cents as real) * 100.0 / 100.0 == cents as real;
    cents as real / 100.0
  }

  function Summarize(c: Coupon): CouponSummary
  {
    CouponSummary(c.code, c.description, c.discountType, c.discountValue, c.maxDiscountAmount, c.endDate)
  }

  /** What the caller receives for the winner `w`: its summary, its discount rounded to
      cents, and the cart value less the unrounded discount. */
  function ResultFor(cart: seq<CartLine>, w: Coupon): BestCoupon
  {
    var discountAmount := CalculateDiscount(w, cart);
    BestCoupon(Summarize(w), RoundToCents(discountAmount), CartValue(cart) - discountAmount)
  }

  /** The post-fetch part of the service: absent exactly when no candidate is eligible;
      otherwise the result for an eligible candidate that ranks first among all eligible
      candidates. */
  function FindBestCoupon(ctx: UserContext, cart: seq<CartLine>, activeCoupons: seq<Coupon>,
                          usage: map<string, int>, now: int): (r: Option<BestCoupon>)
    ensures r.None? <==>
      forall c :: c in activeCoupons ==> !Eligible(ctx, cart, UsageCount(usage, c.id), now, c)
    ensures r.Some? ==> exists w ::
      && w in activeCoupons
      && Eligible(ctx, cart, UsageCount(usage, w.id), now, w)
      && r.value == ResultFor(cart, w)
      && forall c :: c in activeCoupons && Eligible(ctx, cart, UsageCount(usage, c.id), now, c)
           ==> RanksFirst(cart, w, c)
  {
    if activeCoupons == [] then None
    else
      var eligible := EligibleCoupons(ctx, cart, usage, now, activeCoupons);
      if eligible == [] then
        assert forall c :: c in activeCoupons ==> !Eligible(ctx, cart, UsageCount(usage, c.id), now, c);
        None
      else
        assert eligible[0] in eligible;
        var best := SelectBestCoupon(cart, eligible).value;
        assert best in activeCoupons && Eligible(ctx, cart, UsageCount(usage, best.id), now, best);
        Some(ResultFor(cart, best))
  }
}
