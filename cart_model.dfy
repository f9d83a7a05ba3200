/** A stored cart document and the totals its pre-save hook recomputes. */
module CartModel {
  import opened CartLines
  import opened CouponLogic

  class CartDocument {
    const userId: string
    var items: seq<CartLine>
    var totalValue: real
    var totalItems: int
    var lastUpdated: int

    /** A new document takes the schema defaults: zero totals, stamped with `now`. */
    constructor (userId: string, items: seq<CartLine>, now: int)
      ensures this.userId == userId && this.items == items
      ensures totalValue == 0.0 && totalItems == 0 && lastUpdated == now
    {
      this.userId := userId;
      this.items := items;
      totalValue := 0.0;
      totalItems := 0;
      lastUpdated := now;
    }

    /** The pre-save hook: folds the items into `totalValue` and `totalItems` from a
        start of zero, and stamps `lastUpdated`. The value fold agrees with the cart
        value the coupon engine computes. */
    method PreSave(now: int)
      modifies this
      ensures items == old(items)
      ensures totalValue == CartValue(items)
      ensures totalItems == TotalItemsCount(items)
      ensures lastUpdated == now
    {
      var lines := items;
      var value := 0.0;
      var i := 0;
      while i < |lines|
        invariant 0 <= i <= |lines| && items == lines
        invariant value == CartValue(lines[..i])
      {
        CartValueAppend(lines[..i], lines[i]);
        assert lines[..i + 1] == lines[..i] + [lines[i]];
        value := value + lines[i].unitPrice * lines[i].quantity as real;
        i := i + 1;
      }
      assert lines[..i] == lines;

      var count := 0;
      i := 0;
      while i < |lines|
        invariant 0 <= i <= |lines| && items == lines
        invariant count == TotalItemsCount(lines[..i])
      {
        TotalItemsAppend(lines[..i], lines[i]);
        assert lines[..i + 1] == lines[..i] + [lines[i]];
        count := count + lines[i].quantity;
        i := i + 1;
      }
      assert lines[..i] == lines;

      totalValue := value;
      totalItems := count;
      lastUpdated := now;
    }
  }

  /** Every line holds at least one unit, so the item count is at least the number of
      lines; an empty list counts zero. */
  lemma {:induction false} TotalItemsAtLeastLineCount(items: seq<CartLine>)
    requires WellFormedCart(items)
    ensures TotalItemsCount(items) >= |items|
    ensures items == [] ==> TotalItemsCount(items) == 0
  {
    if items != [] {
      assert WellFormedLine(items[0]);
      TotalItemsAtLeastLineCount(items[1..]);
    }
  }
}
