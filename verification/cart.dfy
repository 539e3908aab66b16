/** The shopping cart: product ids in the order they were added, repeats kept. */
module ShoppingCart {
  import opened Common

  datatype Cart = Cart(items: seq<ProductId>)

  /** A fresh cart holds nothing. */
  function Empty(): (c: Cart)
    ensures |c.items| == 0
  {
    Cart([])
  }

  /** `add_to_cart`: the product goes to the end, even when it is already there. */
  function Add(c: Cart, p: ProductId): (r: Cart)
    ensures |r.items| == |c.items| + 1
    ensures r.items[..|c.items|] == c.items && r.items[|c.items|] == p
  {
    Cart(c.items + [p])
  }

  /** `clear_cart`: every product goes. */
  function Clear(c: Cart): (r: Cart)
    ensures forall p :: p !in r.items
  {
    Empty()
  }

  /** Adding raises the product's multiplicity by one and leaves every other product's alone. */
  lemma AddCounts(c: Cart, p: ProductId, q: ProductId)
    ensures multiset(Add(c, p).items)[q] == multiset(c.items)[q] + (if q == p then 1 else 0)
  {
    assert Add(c, p).items == c.items + [p];
  }
}
