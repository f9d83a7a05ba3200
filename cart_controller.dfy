/** The item-list logic of the cart endpoints: add or merge a line, set a line's
    quantity, remove a product, clear or read a cart. The cart collection is a map from
    user id to stored document; the product lookup arrives as a parameter. */
module CartController {
  import opened Wrappers
  import opened CartLines
  import opened CartModel
  import CouponLogic

  /** What the product lookup finds for an id (absent when no such product). */
  datatype Product = Product(price: real, category: string, stock: int, isActive: bool)

  datatype CartError =
    | InvalidRequest       // 400: the request body fails its schema
    | ProductUnavailable   // 404: product not found or insufficient stock
    | InsufficientStock    // 400: stock cannot cover the requested quantity
    | CartNotFound         // 404
    | ItemNotFound         // 404

  datatype CartOutcome = Saved | Deleted | Failed(error: CartError)

  predicate IsHexDigit(ch: char)
  {
    '0' <= ch <= '9' || 'a' <= ch <= 'f' || 'A' <= ch <= 'F'
  }

  /** The add request's product id: 24 hexadecimal digits. */
  predicate ValidProductId(s: string)
  {
    |s| == 24 && forall i :: 0 <= i < |s| ==> IsHexDigit(s[i])
  }

  /** The add request's quantity defaults to 1 when it is left out. */
  function AddQuantity(quantity: Option<int>): int
  {
    if quantity.Some? then quantity.value else 1
  }

  /** The product query: the product exists, is active and has `quantity` in stock. */
  predicate InStock(product: Option<Product>, quantity: int)
  {
    product.Some? && product.value.isActive && product.value.stock >= quantity
  }

  /** The lower-case form of a letter; any other character is left as it is. */
  function LowerChar(ch: char): char
  {
    if 'A' <= ch <= 'Z' then (ch as int + 32) as char else ch
  }

  /** The string form of a stored product id. A line's id is cast to an `ObjectId` when
      the cart is saved, and an `ObjectId` prints its hexadecimal digits in lower case,
      so a line stores the request's id with its letters lowered. */
  function StoredIdOf(productId: string): string
  {
    seq(|productId|, i requires 0 <= i < |productId| => LowerChar(productId[i]))
  }

  predicate InStoredForm(s: string)
  {
    forall i :: 0 <= i < |s| ==> !('A' <= s[i] <= 'Z')
  }

  /** A stored id is in lower case, and an id is stored as given exactly when it has no
      upper-case letter. */
  lemma StoredIdOfIsStoredForm(productId: string)
    ensures InStoredForm(StoredIdOf(productId))
    ensures StoredIdOf(productId) == productId <==> InStoredForm(productId)
  {
    if !InStoredForm(productId) {
      var i :| 0 <= i < |productId| && 'A' <= productId[i] <= 'Z';
      assert StoredIdOf(productId)[i] != productId[i];
    }
  }

  /** No line holds the same product id twice. The source does not keep this for ids
      with upper-case letters; see `AddKeepsDistinctForStoredFormIds`. */
  ghost predicate DistinctProducts(items: seq<CartLine>)
  {
    forall i, j :: 0 <= i < j < |items| ==> items[i].productId != items[j].productId
  }

  /** The lines of a stored cart: well formed, with ids in their stored form. */
  ghost predicate StoredLines(items: seq<CartLine>)
  {
    WellFormedCart(items) && forall k :: 0 <= k < |items| ==> InStoredForm(items[k].productId)
  }

  /** The index of the first line for `productId`, or -1 when there is none. */
  function FindIndex(items: seq<CartLine>, productId: string): (i: int)
    ensures -1 <= i < |items|
    ensures i == -1 <==> forall k :: 0 <= k < |items| ==> items[k].productId != productId
    ensures i >= 0 ==> items[i].productId == productId
    ensures i >= 0 ==> forall k :: 0 <= k < i ==> items[k].productId != productId
  {
    if items == [] then -1
    else if items[0].productId == productId then 0
    else
      var rest := FindIndex(items[1..], productId);
      assert forall k :: 1 <= k < |items| ==> items[1..][k - 1] == items[k];
      if rest == -1 then -1 else rest + 1
  }

  /** The lines not for `productId`, in their order. Its length is unchanged exactly
      when no line was for `productId`, and then it is the list itself. */
  function WithoutProduct(items: seq<CartLine>, productId: string): (kept: seq<CartLine>)
    ensures forall line :: line in kept <==> line in items && line.productId != productId
    ensures |kept| <= |items|
    ensures |kept| == |items| <==> forall k :: 0 <= k < |items| ==> items[k].productId != productId
    ensures |kept| == |items| ==> kept == items
  {
    if items == [] then []
    else
      var rest := WithoutProduct(items[1..], productId);
      assert forall k :: 1 <= k < |items| ==> items[1..][k - 1] == items[k];
      assert forall line :: line in items <==> line == items[0] || line in items[1..];
      if items[0].productId == productId then rest
      else
        assert items == [items[0]] + items[1..];
        [items[0]] + rest
  }

  /** Removing lines keeps the lines of a stored cart well formed and in stored form. */
  lemma WithoutProductKeepsInvariant(items: seq<CartLine>, productId: string)
    requires StoredLines(items)
    ensures StoredLines(WithoutProduct(items, productId))
  {
    var kept := WithoutProduct(items, productId);
    forall k | 0 <= k < |kept|
      ensures WellFormedLine(kept[k]) && InStoredForm(kept[k].productId)
    {
      assert kept[k] in kept;
      var j :| 0 <= j < |items| && items[j] == kept[k];
    }
  }

  /** The kept lines stay in their order: filtering a list with one more line at the end
      keeps what it kept before, then that line if it is for another product. */
  lemma {:induction false} WithoutProductAppend(items: seq<CartLine>, line: CartLine, productId: string)
    ensures WithoutProduct(items + [line], productId)
      == WithoutProduct(items, productId) + (if line.productId == productId then [] else [line])
  {
    if items == [] {
      assert [line][1..] == [];
    } else {
      assert (items + [line])[1..] == items[1..] + [line];
      WithoutProductAppend(items[1..], line, productId);
    }
  }

  /** Replacing a line by a well-formed line for the same product keeps the lines of a
      stored cart well formed and in stored form. */
  lemma ReplaceKeepsInvariant(items: seq<CartLine>, i: int, line: CartLine)
    requires StoredLines(items) && 0 <= i < |items|
    requires WellFormedLine(line) && line.productId == items[i].productId
    ensures StoredLines(items[i := line])
  {
  }

  /** Appending a well-formed line with a stored-form id keeps the lines of a stored cart
      well formed and in stored form. */
  lemma AppendKeepsInvariant(items: seq<CartLine>, line: CartLine)
    requires StoredLines(items) && WellFormedLine(line) && InStoredForm(line.productId)
    ensures StoredLines(items + [line])
  {
  }

  /** What every stored cart satisfies: it has lines, each well formed with its id in
      stored form, and totals that agree with them. */
  ghost predicate StoredCart(d: CartDocument)
    reads d
  {
    && d.items != []
    && StoredLines(d.items)
    && d.totalValue == CouponLogic.CartValue(d.items)
    && d.totalItems == CouponLogic.TotalItemsCount(d.items)
  }

  /** The outcome of adding `quantity` of `productId` to the cart of `userId`, and the
      collection's item lists afterwards. */
  function AddEffect(carts: map<string, seq<CartLine>>, userId: string, productId: string,
                     quantity: Option<int>, product: Option<Product>): (CartOutcome, map<string, seq<CartLine>>)
  {
    var q := AddQuantity(quantity);
    if !(ValidProductId(productId) && 1 <= q <= 100) then (Failed(InvalidRequest), carts)
    else if !InStock(product, q) then (Failed(ProductUnavailable), carts)
    else
      var line := CartLine(StoredIdOf(productId), q, product.value.price, product.value.category);
      if userId !in carts then (Saved, carts[userId := [line]])
      else
        var items := carts[userId];
        var i := FindIndex(items, productId);
        if i > -1 then
          var merged := items[i].quantity + q;
          if product.value.stock < merged then (Failed(InsufficientStock), carts)
          else (Saved, carts[userId := items[i := items[i].(quantity := merged)]])
        else (Saved, carts[userId := items + [line]])
  }

  /** The outcome of removing every line for `productId` from the cart of `userId`. */
  function RemoveEffect(carts: map<string, seq<CartLine>>, userId: string, productId: string)
    : (CartOutcome, map<string, seq<CartLine>>)
  {
    if userId !in carts then (Failed(CartNotFound), carts)
    else
      var kept := WithoutProduct(carts[userId], productId);
      if |kept| == |carts[userId]| then (Failed(ItemNotFound), carts)
      else if |kept| == 0 then (Deleted, carts - {userId})
      else (Saved, carts[userId := kept])
  }

  /** The outcome of setting the quantity of `productId` in the cart of `userId`; zero
      removes the product. */
  function UpdateEffect(carts: map<string, seq<CartLine>>, userId: string, productId: string,
                        quantity: Option<int>, product: Option<Product>): (CartOutcome, map<string, seq<CartLine>>)
  {
    if !(quantity.Some? && 0 <= quantity.value <= 100) then (Failed(InvalidRequest), carts)
    else if quantity.value == 0 then RemoveEffect(carts, userId, productId)
    else if userId !in carts then (Failed(CartNotFound), carts)
    else
      var items := carts[userId];
      var i := FindIndex(items, productId);
      if i == -1 then (Failed(ItemNotFound), carts)
      else if !InStock(product, quantity.value) then (Failed(InsufficientStock), carts)
      else (Saved, carts[userId := items[i := items[i].(quantity := quantity.value, unitPrice := product.value.price)]])
  }

  lemma FindIndexOfFirst(items: seq<CartLine>, productId: string, k: int)
    requires 0 <= k < |items| && items[k].productId == productId
    requires forall j :: 0 <= j < k ==> items[j].productId != productId
    ensures FindIndex(items, productId) == k
  {
  }

  /** A rejected request leaves every cart as it was. */
  lemma FailuresChangeNothing(carts: map<string, seq<CartLine>>, userId: string, productId: string,
                              quantity: Option<int>, product: Option<Product>)
    ensures (AddEffect(carts, userId, productId, quantity, product).0.Failed?)
              ==> AddEffect(carts, userId, productId, quantity, product).1 == carts
    ensures (UpdateEffect(carts, userId, productId, quantity, product).0.Failed?)
              ==> UpdateEffect(carts, userId, productId, quantity, product).1 == carts
    ensures RemoveEffect(carts, userId, productId).0.Failed? ==> RemoveEffect(carts, userId, productId).1 == carts
  {
  }

  /** A user without a cart gets a new cart holding exactly one line: the requested
      quantity at the product's current price and category, under the stored id. */
  lemma AddCreatesSingleLineCart(carts: map<string, seq<CartLine>>, userId: string, productId: string,
                                 quantity: Option<int>, product: Option<Product>)
    requires userId !in carts
    requires ValidProductId(productId) && 1 <= AddQuantity(quantity) <= 100
    requires InStock(product, AddQuantity(quantity))
    ensures var (outcome, after) := AddEffect(carts, userId, productId, quantity, product);
      && outcome == Saved
      && after == carts[userId := after[userId]]
      && |after[userId]| == 1
      && after[userId][0].productId == StoredIdOf(productId)
      && after[userId][0].quantity == AddQuantity(quantity)
      && after[userId][0].unitPrice == product.value.price
      && after[userId][0].category == product.value.category
  {
  }

  /** Adding a product whose id matches a line of the cart merges into the first such
      line: the quantity grows by the requested amount, the stored unit price stays, no
      line is added and no other line changes, so the cart value grows by the requested
      units at the stored price. When the stock cannot cover the merged quantity,
      nothing changes. */
  lemma AddMergesIntoExistingLine(carts: map<string, seq<CartLine>>, userId: string, productId: string,
                                  quantity: Option<int>, product: Option<Product>, k: int)
    requires userId in carts
    requires 0 <= k < |carts[userId]| && carts[userId][k].productId == productId
    requires forall j :: 0 <= j < k ==> carts[userId][j].productId != productId
    requires ValidProductId(productId) && 1 <= AddQuantity(quantity) <= 100
    requires InStock(product, AddQuantity(quantity))
    ensures var items, q := carts[userId], AddQuantity(quantity);
      var (outcome, after) := AddEffect(carts, userId, productId, quantity, product);
      if product.value.stock < items[k].quantity + q then
        outcome == Failed(InsufficientStock) && after == carts
      else
        && outcome == Saved
        && after == carts[userId := after[userId]]
        && |after[userId]| == |items|
        && after[userId][k] == items[k].(quantity := items[k].quantity + q)
        && (forall j :: 0 <= j < |items| && j != k ==> after[userId][j] == items[j])
        && CouponLogic.CartValue(after[userId]) == CouponLogic.CartValue(items) + items[k].unitPrice * q as real
  {
    var items, q := carts[userId], AddQuantity(quantity);
    FindIndexOfFirst(items, productId, k);
    var merged := items[k].(quantity := items[k].quantity + q);
    MergeRaisesValue(items, k, q);
    assert AddEffect(carts, userId, productId, quantity, product)
      == if product.value.stock < items[k].quantity + q then (Failed(InsufficientStock), carts)
         else (Saved, carts[userId := items[k := merged]]);
  }

  /** Raising one line's quantity by `q` adds `q` units at that line's price to the cart value. */
  lemma MergeRaisesValue(items: seq<CartLine>, k: int, q: int)
    requires 0 <= k < |items|
    ensures CouponLogic.CartValue(items[k := items[k].(quantity := items[k].quantity + q)])
      == CouponLogic.CartValue(items) + items[k].unitPrice * q as real
  {
    CouponLogic.CartValueReplace(items, k, items[k].(quantity := items[k].quantity + q));
    MergedLineTotal(items[k], q);
  }

  /** Raising a line's quantity by `q` adds `q` units at its price to its total. */
  lemma MergedLineTotal(line: CartLine, q: int)
    ensures CouponLogic.LineTotal(line.(quantity := line.quantity + q))
      == CouponLogic.LineTotal(line) + line.unitPrice * q as real
  {
    var n := line.quantity as real;
    assert line.unitPrice * (n + q as real) == line.unitPrice * n + line.unitPrice * q as real;
  }

  /** Adding a product whose id matches no line appends one line at the end, under the
      stored id, at the product's current price and category; value and item count grow
      accordingly. */
  lemma AddAppendsNewLine(carts: map<string, seq<CartLine>>, userId: string, productId: string,
                          quantity: Option<int>, product: Option<Product>)
    requires userId in carts
    requires forall j :: 0 <= j < |carts[userId]| ==> carts[userId][j].productId != productId
    requires ValidProductId(productId) && 1 <= AddQuantity(quantity) <= 100
    requires InStock(product, AddQuantity(quantity))
    ensures var items, q := carts[userId], AddQuantity(quantity);
      var (outcome, after) := AddEffect(carts, userId, productId, quantity, product);
      && outcome == Saved
      && after == carts[userId := after[userId]]
      && |after[userId]| == |items| + 1
      && after[userId][..|items|] == items
      && after[userId][|items|] == CartLine(StoredIdOf(productId), q, product.value.price, product.value.category)
      && CouponLogic.CartValue(after[userId]) == CouponLogic.CartValue(items) + product.value.price * q as real
      && CouponLogic.TotalItemsCount(after[userId]) == CouponLogic.TotalItemsCount(items) + q
  {
    var items, q := carts[userId], AddQuantity(quantity);
    var line := CartLine(StoredIdOf(productId), q, product.value.price, product.value.category);
    CouponLogic.CartValueAppend(items, line);
    CouponLogic.TotalItemsAppend(items, line);
    assert (items + [line])[..|items|] == items;
  }

  /** A positive quantity for a product in the cart sets the quantity of its first line
      and refreshes that line's unit price to the product's current price; nothing else
      changes. Without enough stock nothing changes at all. */
  lemma UpdateSetsOneLine(carts: map<string, seq<CartLine>>, userId: string, productId: string,
                          quantity: Option<int>, product: Option<Product>, k: int)
    requires quantity.Some? && 1 <= quantity.value <= 100
    requires userId in carts
    requires 0 <= k < |carts[userId]| && carts[userId][k].productId == productId
    requires forall j :: 0 <= j < k ==> carts[userId][j].productId != productId
    ensures var items := carts[userId];
      var (outcome, after) := UpdateEffect(carts, userId, productId, quantity, product);
      if !InStock(product, quantity.value) then
        outcome == Failed(InsufficientStock) && after == carts
      else
        && outcome == Saved
        && after == carts[userId := after[userId]]
        && |after[userId]| == |items|
        && after[userId][k] == items[k].(quantity := quantity.value, unitPrice := product.value.price)
        && (forall j :: 0 <= j < |items| && j != k ==> after[userId][j] == items[j])
  {
    FindIndexOfFirst(carts[userId], productId, k);
  }

  /** A quantity of zero removes the product; a product the cart does not hold is not
      found; a missing cart is not found. */
  lemma UpdateZeroOrMissing(carts: map<string, seq<CartLine>>, userId: string, productId: string,
                            quantity: Option<int>, product: Option<Product>)
    ensures quantity == Some(0) ==>
      UpdateEffect(carts, userId, productId, quantity, product) == RemoveEffect(carts, userId, productId)
    ensures (quantity.Some? && 1 <= quantity.value <= 100 && userId !in carts) ==>
      UpdateEffect(carts, userId, productId, quantity, product) == (Failed(CartNotFound), carts)
    ensures (quantity.Some? && 1 <= quantity.value <= 100 && userId in carts
             && forall j :: 0 <= j < |carts[userId]| ==> carts[userId][j].productId != productId) ==>
      UpdateEffect(carts, userId, productId, quantity, product) == (Failed(ItemNotFound), carts)
  {
  }

  /** Removal drops every line for the product and keeps the others. It is not found
      exactly when no line is for the product, and the cart is deleted exactly when
      every line is. */
  lemma RemoveDropsEveryLine(carts: map<string, seq<CartLine>>, userId: string, productId: string)
    requires userId in carts
    ensures var items, (outcome, _) := carts[userId], RemoveEffect(carts, userId, productId);
      outcome == Failed(ItemNotFound) <==> forall j :: 0 <= j < |items| ==> items[j].productId != productId
    ensures var items, (outcome, _) := carts[userId], RemoveEffect(carts, userId, productId);
      outcome == Deleted <==> (items != [] && forall j :: 0 <= j < |items| ==> items[j].productId == productId)
    ensures var (outcome, after) := RemoveEffect(carts, userId, productId);
      outcome == Deleted ==> after == carts - {userId}
    ensures var (outcome, after) := RemoveEffect(carts, userId, productId);
      outcome == Saved ==>
        && after == carts[userId := after[userId]]
        && forall line :: line in after[userId] <==> line in carts[userId] && line.productId != productId
  {
    var items := carts[userId];
    var kept := WithoutProduct(items, productId);
    if kept == [] {
      forall j | 0 <= j < |items|
        ensures items[j].productId == productId
      {
        assert items[j] in items;
      }
    } else {
      assert kept[0] in items;
      var k :| 0 <= k < |items| && items[k] == kept[0];
      assert items[k].productId != productId;
    }
  }

  /** A request id with an upper-case letter never equals a stored id: the lookup finds
      no line and the filter keeps every line. So adding such an id appends a new line
      even when the cart already holds that product, and updating or removing it
      reports that the item is missing. */
  lemma UpperCaseIdNeverMatches(items: seq<CartLine>, productId: string)
    requires StoredLines(items) && !InStoredForm(productId)
    ensures FindIndex(items, productId) == -1
    ensures WithoutProduct(items, productId) == items
  {
    assert forall j :: 0 <= j < |items| ==> items[j].productId != productId by {
      forall j | 0 <= j < |items|
        ensures items[j].productId != productId
      {
        assert InStoredForm(items[j].productId);
      }
    }
    NoMatchKeepsAll(items, productId);
  }

  lemma {:induction false} NoMatchKeepsAll(items: seq<CartLine>, productId: string)
    requires forall j :: 0 <= j < |items| ==> items[j].productId != productId
    ensures WithoutProduct(items, productId) == items
  {
    if items != [] {
      NoMatchKeepsAll(items[1..], productId);
    }
  }

  /** Ids already in lower case keep one line per product: a successful add of such an
      id to a cart with distinct ids leaves its ids distinct. */
  lemma AddKeepsDistinctForStoredFormIds(carts: map<string, seq<CartLine>>, userId: string, productId: string,
                                         quantity: Option<int>, product: Option<Product>)
    requires InStoredForm(productId)
    requires userId in carts ==> DistinctProducts(carts[userId])
    ensures var (outcome, after) := AddEffect(carts, userId, productId, quantity, product);
      outcome == Saved ==> DistinctProducts(after[userId])
  {
    StoredIdOfIsStoredForm(productId);
  }

  class CartCollection {
    var docs: map<string, CartDocument>
    /** Each user's item list: the public view of the collection. */
    ghost var carts: map<string, seq<CartLine>>

    ghost predicate Valid()
      reads this, docs.Values
    {
      && docs.Keys == carts.Keys
      && forall u :: u in docs ==> docs[u].userId == u && docs[u].items == carts[u] && StoredCart(docs[u])
    }

    constructor ()
      ensures Valid() && carts == map[]
    {
      docs := map[];
      carts := map[];
    }

    /** The cart of `userId` with its stored totals and the time it was last saved, or
        an empty cart with zero totals and no time. */
    method GetCart(userId: string) returns (items: seq<CartLine>, totalValue: real, totalItems: int,
                                            lastUpdated: Option<int>)
      requires Valid()
      ensures items == if userId in carts then carts[userId] else []
      ensures totalValue == CouponLogic.CartValue(items) && totalValue >= 0.0
      ensures totalItems == CouponLogic.TotalItemsCount(items) && totalItems >= |items|
      ensures lastUpdated == if userId in docs then Some(docs[userId].lastUpdated) else None
    {
      if userId !in docs {
        return [], 0.0, 0, None;
      }
      var doc := docs[userId];
      items, totalValue, totalItems := doc.items, doc.totalValue, doc.totalItems;
      lastUpdated := Some(doc.lastUpdated);
      CouponLogic.CartValueNonNegative(items);
      TotalItemsAtLeastLineCount(items);
    }

    method AddToCart(userId: string, productId: string, quantity: Option<int>, product: Option<Product>, now: int)
      returns (outcome: CartOutcome)
      requires Valid()
      requires product.Some? ==> product.value.price >= 0.0
      modifies this, docs.Values
      ensures Valid()
      ensures (outcome, carts) == AddEffect(old(carts), userId, productId, quantity, product)
      ensures outcome == Saved ==> userId in docs && docs[userId].lastUpdated == now
      ensures forall u :: u in old(docs) && u != userId ==>
                u in docs && docs[u] == old(docs[u]) && docs[u].lastUpdated == old(docs[u].lastUpdated)
      ensures outcome.Failed? ==>
                docs == old(docs) && forall u :: u in docs ==> docs[u].lastUpdated == old(docs[u].lastUpdated)
    {
      var q := AddQuantity(quantity);
      if !(ValidProductId(productId) && 1 <= q <= 100) {
        return Failed(InvalidRequest);
      }
      if !InStock(product, q) {
        return Failed(ProductUnavailable);
      }
      var p := product.value;
      StoredIdOfIsStoredForm(productId);
      var line := CartLine(StoredIdOf(productId), q, p.price, p.category);
      if userId !in docs {
        CreateCart(userId, line, now);
        outcome := Saved;
      } else {
        outcome := AddToStoredCart(docs[userId], productId, quantity, product, line, now);
      }
    }

    /** The add path for a user who already has a cart: merge into the first line whose
        id matches when the stock covers the merged quantity, or append `line`. */
    method AddToStoredCart(doc: CartDocument, productId: string, quantity: Option<int>, product: Option<Product>,
                           line: CartLine, now: int)
      returns (outcome: CartOutcome)
      requires Valid() && doc.userId in docs && docs[doc.userId] == doc
      requires ValidProductId(productId) && 1 <= AddQuantity(quantity) <= 100 && InStock(product, AddQuantity(quantity))
      requires product.value.price >= 0.0 && InStoredForm(line.productId)
      requires line == CartLine(StoredIdOf(productId), AddQuantity(quantity), product.value.price, product.value.category)
      modifies this, doc
      ensures Valid() && docs == old(docs)
      ensures (outcome, carts) == AddEffect(old(carts), doc.userId, productId, quantity, product)
      ensures outcome == Saved ==> doc.lastUpdated == now
      ensures outcome.Failed? ==> doc.lastUpdated == old(doc.lastUpdated)
      ensures forall u :: u in docs && u != doc.userId ==> docs[u].lastUpdated == old(docs[u].lastUpdated)
    {
      var items := doc.items;
      var i := FindIndex(items, productId);
      if i > -1 {
        var newQuantity := items[i].quantity + line.quantity;
        if product.value.stock < newQuantity {
          return Failed(InsufficientStock);
        }
        ReplaceKeepsInvariant(items, i, items[i].(quantity := newQuantity));
        items := items[i := items[i].(quantity := newQuantity)];
      } else {
        AppendKeepsInvariant(items, line);
        items := items + [line];
      }
      assert AddEffect(old(carts), doc.userId, productId, quantity, product) == (Saved, old(carts)[doc.userId := items]);
      SaveItems(doc, items, now);
      outcome := Saved;
    }

    method UpdateCartItem(userId: string, productId: string, quantity: Option<int>, product: Option<Product>, now: int)
      returns (outcome: CartOutcome)
      requires Valid()
      requires product.Some? ==> product.value.price >= 0.0
      modifies this, docs.Values
      ensures Valid()
      ensures (outcome, carts) == UpdateEffect(old(carts), userId, productId, quantity, product)
      ensures outcome == Saved ==> userId in docs && docs[userId].lastUpdated == now
      ensures outcome == Deleted ==> docs == old(docs) - {userId}
      ensures forall u :: u in old(docs) && u != userId ==>
                u in docs && docs[u] == old(docs[u]) && docs[u].lastUpdated == old(docs[u].lastUpdated)
      ensures outcome.Failed? ==>
                docs == old(docs) && forall u :: u in docs ==> docs[u].lastUpdated == old(docs[u].lastUpdated)
    {
      if !(quantity.Some? && 0 <= quantity.value <= 100) {
        return Failed(InvalidRequest);
      }
      var q := quantity.value;
      if q == 0 {
        outcome := RemoveFromCart(userId, productId, now);
        return;
      }
      if userId !in docs {
        return Failed(CartNotFound);
      }
      var doc := docs[userId];
      var i := FindIndex(doc.items, productId);
      if i == -1 {
        return Failed(ItemNotFound);
      }
      if !InStock(product, q) {
        return Failed(InsufficientStock);
      }
      var line := doc.items[i].(quantity := q, unitPrice := product.value.price);
      ReplaceKeepsInvariant(doc.items, i, line);
      SaveItems(doc, doc.items[i := line], now);
      outcome := Saved;
    }

    method RemoveFromCart(userId: string, productId: string, now: int) returns (outcome: CartOutcome)
      requires Valid()
      modifies this, docs.Values
      ensures Valid()
      ensures (outcome, carts) == RemoveEffect(old(carts), userId, productId)
      ensures outcome == Saved ==> userId in docs && docs[userId].lastUpdated == now
      ensures outcome == Deleted ==> docs == old(docs) - {userId}
      ensures forall u :: u in old(docs) && u != userId ==>
                u in docs && docs[u] == old(docs[u]) && docs[u].lastUpdated == old(docs[u].lastUpdated)
      ensures outcome.Failed? ==>
                docs == old(docs) && forall u :: u in docs ==> docs[u].lastUpdated == old(docs[u].lastUpdated)
    {
      if userId !in docs {
        return Failed(CartNotFound);
      }
      var doc := docs[userId];
      var initialLength := |doc.items|;
      WithoutProductKeepsInvariant(doc.items, productId);
      var kept := WithoutProduct(doc.items, productId);
      if |kept| == initialLength {
        return Failed(ItemNotFound);
      }
      if |kept| == 0 {
        docs := docs - {userId};
        carts := carts - {userId};
        return Deleted;
      }
      SaveItems(doc, kept, now);
      outcome := Saved;
    }

    /** Stores a new document for `userId` holding the single line `line`; no stored
        document changes. */
    method CreateCart(userId: string, line: CartLine, now: int)
      requires Valid() && userId !in docs && WellFormedLine(line) && InStoredForm(line.productId)
      modifies this
      ensures Valid()
      ensures carts == old(carts)[userId := [line]]
      ensures userId in docs && docs[userId].lastUpdated == now
      ensures forall u :: u in old(docs) ==> u in docs && docs[u] == old(docs[u])
    {
      var doc := new CartDocument(userId, [line], now);
      doc.PreSave(now);
      docs := docs[userId := doc];
      carts := carts[userId := [line]];
    }

    /** Writes a new item list into the stored document `doc` and saves it, which
        reruns the pre-save hook; no other document changes. */
    method SaveItems(doc: CartDocument, items: seq<CartLine>, now: int)
      requires Valid() && doc.userId in docs && docs[doc.userId] == doc
      requires items != [] && StoredLines(items)
      modifies this, doc
      ensures Valid()
      ensures docs == old(docs) && carts == old(carts)[doc.userId := items]
      ensures doc.items == items && doc.lastUpdated == now
      ensures forall u :: u in docs && u != doc.userId ==> docs[u].lastUpdated == old(docs[u].lastUpdated)
    {
      doc.items := items;
      doc.PreSave(now);
      carts := carts[doc.userId := items];
    }

    method ClearCart(userId: string) returns (outcome: CartOutcome)
      requires Valid()
      modifies this
      ensures Valid()
      ensures userId in old(carts) ==> outcome == Deleted && carts == old(carts) - {userId}
      ensures userId !in old(carts) ==> outcome == Failed(CartNotFound) && carts == old(carts)
      ensures docs == old(docs) - {userId}
      ensures forall u :: u in docs ==> docs[u].lastUpdated == old(docs[u].lastUpdated)
    {
      if userId !in docs {
        return Failed(CartNotFound);
      }
      docs := docs - {userId};
      carts := carts - {userId};
      outcome := Deleted;
    }
  }
}
