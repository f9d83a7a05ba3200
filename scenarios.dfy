/** Worked examples of the engine on concrete coupons, users and carts. */
module Scenarios {
  import opened Wrappers
  import opened CartLines
  import opened CouponLogic
  import opened CartController

  const NoRules := EligibilityRules([], None, None, None, [], None, [], [], None)

  function FlatCoupon(id: string, code: string, value: real, endDate: int, rules: EligibilityRules): Coupon
  {
    Coupon(id, code, "", Flat, value, None, 0, endDate, None, rules, true)
  }

  const Silver := UserContext("u1", "SILVER", "IN", 6000.0, 3)
  const Platinum := UserContext("u1", "PLATINUM", "IN", 6000.0, 3)

  /** A cart of two units at 600, worth 1200. */
  const Cart1200 := [CartLine("p1", 2, 600.0, "electronics")]

  /** A cart of one unit at 10000. */
  const Cart10000 := [CartLine("p2", 1, 10000.0, "electronics")]

  const Premium20 := Coupon("c2", "PREMIUM20", "", Percent, 20.0, Some(1000.0), 0, 100, None,
    NoRules.(allowedUserTiers := ["GOLD", "PLATINUM"], minLifetimeSpend := Some(5000.0)), true)

  /** A flat 100 coupon with a minimum cart value of 500 on a cart worth 1200: the
      discount is 100 and the final amount 1100. */
  lemma FlatCouponOnLargeCart()
    ensures var flat := FlatCoupon("c1", "FLAT100", 100.0, 100, NoRules.(minCartValue := Some(500.0)));
      FindBestCoupon(Silver, Cart1200, [flat], map[], 50)
        == Some(BestCoupon(Summarize(flat), 100.0, 1100.0))
  {
    var flat := FlatCoupon("c1", "FLAT100", 100.0, 100, NoRules.(minCartValue := Some(500.0)));
    assert CartValue(Cart1200) == 1200.0;
    assert Eligible(Silver, Cart1200, 0, 50, flat);
    assert RoundToCents(100.0) == 100.0 by {
      assert (100.0 * 100.0 + 0.5).Floor == 10000;
    }
  }

  /** A tier-restricted coupon is not eligible for a user outside the allowed tiers. */
  lemma TierExcludesSilver()
    ensures FindBestCoupon(Silver, Cart10000, [Premium20], map[], 50) == None
  {
    assert !ValidateUserTier(Silver, Premium20);
  }

  /** A 20 percent coupon on a cart of 10000 is clamped to its cap of 1000. */
  lemma PercentCouponCapped()
    ensures FindBestCoupon(Platinum, Cart10000, [Premium20], map[], 50)
      == Some(BestCoupon(Summarize(Premium20), 1000.0, 9000.0))
  {
    assert CartValue(Cart10000) == 10000.0;
    assert CalculateDiscount(Premium20, Cart10000) == 1000.0;
    assert Eligible(Platinum, Cart10000, 0, 50, Premium20);
    assert RoundToCents(1000.0) == 1000.0 by {
      assert (1000.0 * 100.0 + 0.5).Floor == 100000;
    }
  }

  /** Equal discounts and equal end dates: the smaller code wins. */
  lemma SmallerCodeBreaksTie()
    ensures var bbb := FlatCoupon("c3", "BBB10", 100.0, 100, NoRules);
      var aaa := FlatCoupon("c4", "AAA10", 100.0, 100, NoRules);
      SelectBestCoupon(Cart1200, [bbb, aaa]) == Some(aaa)
  {
    var bbb := FlatCoupon("c3", "BBB10", 100.0, 100, NoRules);
    var aaa := FlatCoupon("c4", "AAA10", 100.0, 100, NoRules);
    assert CompareCodes("BBB10", "AAA10") == 1;
    assert !RanksFirst(Cart1200, bbb, aaa);
  }

  /** A coupon limited to one use per user is not eligible once it has been used once. */
  lemma UsedUpCouponExcluded()
    ensures var welcome := Coupon("c5", "WELCOME10", "", Flat, 10.0, None, 0, 100, Some(1), NoRules, true);
      FindBestCoupon(Platinum, Cart1200, [welcome], map["c5" := 1], 50) == None
  {
  }

  const Keyboard := Product(50.0, "electronics", 10, true)
  const UpperId := "ABCDEF0123456789ABCDEF01"
  const LowerId := "abcdef0123456789abcdef01"

  lemma StoredFormOfUpperId()
    ensures ValidProductId(UpperId) && !InStoredForm(UpperId) && StoredIdOf(UpperId) == LowerId
  {
    assert UpperId[0] == 'A';
    forall i | 0 <= i < 24
      ensures IsHexDigit(UpperId[i]) && StoredIdOf(UpperId)[i] == LowerId[i]
    {
    }
  }

  /** The same upper-case id added twice gives two lines for one product, both under
      the lower-case id, and removing by the id the request used finds nothing. */
  lemma UpperCaseIdAddedTwice()
    ensures var (o1, c1) := AddEffect(map[], "u1", UpperId, Some(1), Some(Keyboard));
      var (o2, c2) := AddEffect(c1, "u1", UpperId, Some(1), Some(Keyboard));
      && o1 == Saved && o2 == Saved
      && c2["u1"] == [CartLine(LowerId, 1, 50.0, "electronics"), CartLine(LowerId, 1, 50.0, "electronics")]
      && RemoveEffect(c2, "u1", UpperId) == (Failed(ItemNotFound), c2)
  {
    StoredFormOfUpperId();
    var line := CartLine(LowerId, 1, 50.0, "electronics");
    assert InStoredForm(LowerId) by {
      StoredIdOfIsStoredForm(UpperId);
    }
    UpperCaseIdNeverMatches([line], UpperId);
    UpperCaseIdNeverMatches([line, line], UpperId);
  }

  /** The same id added twice in lower case merges into one line of two units. */
  lemma LowerCaseIdAddedTwice()
    ensures var (o1, c1) := AddEffect(map[], "u1", LowerId, Some(1), Some(Keyboard));
      var (o2, c2) := AddEffect(c1, "u1", LowerId, Some(1), Some(Keyboard));
      && o1 == Saved && o2 == Saved
      && c2["u1"] == [CartLine(LowerId, 2, 50.0, "electronics")]
  {
    StoredFormOfUpperId();
    assert ValidProductId(LowerId) by {
      forall i | 0 <= i < 24
        ensures IsHexDigit(LowerId[i])
      {
      }
    }
    assert StoredIdOf(LowerId) == LowerId by {
      StoredIdOfIsStoredForm(UpperId);
      StoredIdOfIsStoredForm(LowerId);
    }
  }
}
