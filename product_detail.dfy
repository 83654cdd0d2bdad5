/** The product page: lookup by id, the quantity stepper, add-to-cart and the discount
    badge (src/pages/ProductDetail.tsx). */
module ProductDetail {
  import opened Wrappers
  import opened Types
  import opened Text

  /** `Math.max(minOrder, q - 1)`. */
  function Decremented(minOrder: int, q: int): (r: int)
    ensures r >= minOrder && r >= q - 1
    ensures r == q - 1 || r == minOrder
  {
    if q - 1 < minOrder then minOrder else q - 1
  }

  /** `Math.min(stock, q + 1)`. */
  function Incremented(stock: int, q: int): (r: int)
    ensures r <= stock && r <= q + 1
    ensures r == q + 1 || r == stock
  {
    if q + 1 > stock then stock else q + 1
  }

  /** The stepper keeps a quantity that lies between the minimum order and the stock
      inside that range. */
  lemma StepperKeepsRange(minOrder: int, stock: int, q: int)
    requires minOrder <= q <= stock
    ensures minOrder <= Decremented(minOrder, q) <= stock
    ensures minOrder <= Incremented(stock, q) <= stock
  {
  }

  /** A decrement undoes an increment that was not capped, above the minimum order. */
  lemma StepperInverse(minOrder: int, stock: int, q: int)
    requires minOrder <= q < stock
    ensures Decremented(minOrder, Incremented(stock, q)) == q
  {
  }

  /** `discount`: the percentage saved on the original price, rounded half up; 0 when
      there is no (non-zero) original price. */
  function Discount(p: Product): (r: int)
    ensures !HasOriginalPrice(p) ==> r == 0
    ensures HasOriginalPrice(p) ==>
      var o := p.originalPrice.value;
      (r as real) - 1.0 / 2.0 <= (o - p.price) / o * 100.0 < (r as real) + 1.0 / 2.0
  {
    if HasOriginalPrice(p) then
      var o := p.originalPrice.value;
      RoundHalfUp((o - p.price) / o * 100.0)
    else 0
  }

  /** For a price between nothing and the original price, the discount is a percentage. */
  lemma DiscountBounds(p: Product)
    requires HasOriginalPrice(p) && p.originalPrice.value > 0.0
    requires 0.0 <= p.price <= p.originalPrice.value
    ensures 0 <= Discount(p) <= 100
  {
    var o := p.originalPrice.value;
    var y := (o - p.price) / o * 100.0;
    assert 0.0 <= (o - p.price) / o <= 1.0;
    RoundHalfUpMonotone(0.0, y);
    RoundHalfUpMonotone(y, 100.0);
    RoundHalfUpUnique(0.0, 0);
    RoundHalfUpUnique(100.0, 100);
  }

  /** The `-n%` badge is shown only for a positive discount. */
  predicate ShowsBadge(p: Product)
  {
    Discount(p) > 0
  }

  /** For a positive original price, the badge shows exactly when the saving rounds to at
      least one percent, that is when the price is at most 99.5% of the original price. */
  lemma BadgeExactly(p: Product)
    requires p.originalPrice.Some? && p.originalPrice.value > 0.0
    ensures ShowsBadge(p) <==> p.price <= p.originalPrice.value * (199.0 / 200.0)
  {
    var o := p.originalPrice.value;
    var y := (o - p.price) / o * 100.0;
    var t := p.price / o;
    assert t * o == p.price;
    Quotient(o - p.price, o, 1.0 - t);
    assert y == 100.0 - t * 100.0;
    if p.price <= o * (199.0 / 200.0) {
      assert t <= 199.0 / 200.0;
      assert y >= 1.0 / 2.0;
    } else {
      assert t > 199.0 / 200.0;
      assert y < 1.0 / 2.0;
    }
  }

  lemma Quotient(a: real, o: real, q: real)
    requires o != 0.0 && q * o == a
    ensures a / o == q
  {
  }

  /** The state of the product page: only the stepper quantity. The product is looked up
      afresh in the live catalogue on every render, so each button takes the current
      product list and the route id. */
  class DetailPage {
    var quantity: int

    /** The stepper starts at 1. */
    constructor ()
      ensures quantity == 1
    {
      quantity := 1;
    }

    /** The minus button (present only when the product is found in the current list). */
    method Decrement(products: seq<Product>, id: string)
      requires FindProduct(products, id).Some?
      modifies this
      ensures quantity == Decremented(FindProduct(products, id).value.minOrder, old(quantity))
    {
      var product := FindProduct(products, id).value;
      quantity := Decremented(product.minOrder, quantity);
    }

    /** The plus button (present only when the product is found in the current list). */
    method Increment(products: seq<Product>, id: string)
      requires FindProduct(products, id).Some?
      modifies this
      ensures quantity == Incremented(FindProduct(products, id).value.stock, old(quantity))
    {
      var product := FindProduct(products, id).value;
      quantity := Incremented(product.stock, quantity);
    }

    /** `handleAddToCart`: the cart receives the product found in the current list and the
        stepper quantity as it stands; on the not-found view there is nothing to add. */
    method AddToCart(products: seq<Product>, id: string) returns (added: Option<CartItem>)
      ensures FindProduct(products, id).None? ==> added == None
      ensures FindProduct(products, id).Some? ==>
        added == Some(CartItem(FindProduct(products, id).value, quantity))
      ensures added.Some? ==> added.value.product in products && added.value.product.id == id
    {
      var product := FindProduct(products, id);
      if product.Some? {
        added := Some(CartItem(product.value, quantity));
      } else {
        added := None;
      }
    }
  }
}
