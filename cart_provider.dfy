/** The cart provider: the object that holds the current list of products and
    replaces it on every add, increment and decrement. */
module CartHook {
  import opened Cart
  import opened CartProperties

  class CartProvider {
    /** The products in the cart, in display order. */
    var products: seq<Product>

    /** The invariant every list the provider builds keeps: one line per id,
        no negative quantity. */
    ghost predicate Valid()
      reads this
    {
      Unique(products) && NonNegative(products)
    }

    /** The provider starts with an empty cart. */
    constructor ()
      ensures products == [] && Valid()
    {
      products := [];
    }

    method AddToCart(item: Product)
      modifies this
      ensures products == Cart.AddToCart(old(products), item)
      ensures old(Valid()) ==> Valid()
    {
      if Valid() {
        AddToCartKeepsUnique(products, item);
        AddToCartKeepsNonNegative(products, item);
      }
      products := Cart.AddToCart(products, item);
    }

    method Increment(id: string)
      modifies this
      ensures products == Cart.Increment(old(products), id)
      ensures old(Valid()) ==> Valid()
    {
      if Valid() {
        IncrementKeepsUnique(products, id);
        IncrementKeepsNonNegative(products, id);
      }
      products := Cart.Increment(products, id);
    }

    method Decrement(id: string)
      modifies this
      ensures products == Cart.Decrement(old(products), id)
      ensures old(Valid()) ==> Valid()
    {
      if Valid() {
        DecrementKeepsUnique(products, id);
        DecrementKeepsNonNegative(products, id);
      }
      products := Cart.Decrement(products, id);
    }
  }

  /** A session against a fresh provider: add a product twice, then decrement
      it three times. The quantities seen are 1, 2, 1 and 0, and the third
      decrement empties the cart. */
  method AddTwiceDecrementThrice(p: Product) returns (quantities: seq<int>, emptied: bool)
    ensures quantities == [1, 2, 1, 0]
    ensures emptied
  {
    var one, two, zero := p.(quantity := 1), p.(quantity := 2), p.(quantity := 0);
    AddTwiceDecrementThriceTrace(p);

    var cart := new CartProvider();
    cart.AddToCart(p);
    assert cart.products == [one];
    quantities := [cart.products[0].quantity];
    cart.AddToCart(p);
    assert cart.products == [two];
    quantities := quantities + [cart.products[0].quantity];
    cart.Decrement(p.id);
    assert cart.products == [one];
    quantities := quantities + [cart.products[0].quantity];
    cart.Decrement(p.id);
    assert cart.products == [zero];
    quantities := quantities + [cart.products[0].quantity];
    cart.Decrement(p.id);
    emptied := cart.products == [];
  }
}
