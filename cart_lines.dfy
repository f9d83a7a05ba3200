/** The line-item record shared by a stored cart (the `cartItemSchema` of the cart model)
    and by the cart a client sends to coupon selection. */
module CartLines {

  datatype CartLine = CartLine(productId: string, quantity: int, unitPrice: real, category: string)

  /** The schema bounds on one line: at least one unit, and a price that is not negative. */
  predicate WellFormedLine(line: CartLine)
  {
    line.quantity >= 1 && line.unitPrice >= 0.0
  }

  predicate WellFormedCart(cart: seq<CartLine>)
  {
    forall i :: 0 <= i < |cart| ==> WellFormedLine(cart[i])
  }
}
