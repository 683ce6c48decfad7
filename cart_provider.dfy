/** The cart provider: the object that owns the `products` list and applies
    the three commands to it, one at a time. */
module CartHook {
  import opened Cart

  class CartProvider {
    /** The current line items, as consumers of the cart see them. */
    var products: seq<Product>

    /** The provider starts with an empty cart. */
    constructor ()
      ensures products == []
    {
      products := [];
    }

    /** Hydration: if storage held a snapshot, it replaces the cart as it is.
        Reading storage and parsing the snapshot happen outside the model;
        `parsed` is their outcome (None when nothing was stored). */
    method Load(parsed: Option<seq<Product>>)
      modifies this
      ensures products == if parsed.Some? then parsed.value else old(products)
    {
      if parsed.Some? {
        products := parsed.value;
      }
    }

    /** `increment(id)`: copy the list, raise the quantity of the item found. */
    method Increment(id: string)
      modifies this
      ensures products == AfterIncrement(old(products), id)
      ensures !HasId(old(products), id) ==> products == old(products)
      ensures Valid(old(products)) ==> Valid(products)
    {
      IncrementPreservesValid(products, id);
      var found := Find(products, id);
      if found.Some? {
        var i := found.value;
        var newProducts := products;
        newProducts := newProducts[i := newProducts[i].(quantity := newProducts[i].quantity + 1)];
        products := newProducts;
      }
    }

    /** `decrement(id)`: drop the item found if its quantity is 1, otherwise
        lower its quantity. */
    method Decrement(id: string)
      modifies this
      ensures products == AfterDecrement(old(products), id)
      ensures !HasId(old(products), id) ==> products == old(products)
      ensures Valid(old(products)) ==> Valid(products)
    {
      DecrementPreservesValid(products, id);
      var found := Find(products, id);
      var newProducts := products;
      if found.Some? {
        var i := found.value;
        if products[i].quantity == 1 {
          newProducts := Without(products, id);
        } else {
          newProducts := newProducts[i := newProducts[i].(quantity := newProducts[i].quantity - 1)];
        }
        products := newProducts;
      }
    }

    /** `addToCart(item)`: a product already in the cart is incremented;
        a new one is appended with quantity 1. */
    method AddToCart(item: ProductInfo)
      modifies this
      ensures products == AfterAddToCart(old(products), item)
      ensures HasId(old(products), item.id) ==> |products| == |old(products)|
      ensures Valid(old(products)) ==> Valid(products)
    {
      AddToCartPreservesValid(products, item);
      var found := Find(products, item.id);
      if found.Some? {
        Increment(products[found.value].id);
        return;
      }
      products := Append(products, item);
    }
  }

  /** A client session: what a caller can conclude from the contracts alone. */
  method Session() {
    var cart := new CartProvider();
    var widget := ProductInfo("A", "Widget", "widget.png", 10);
    var a1 := Product("A", "Widget", "widget.png", 10, 1);
    var a2 := a1.(quantity := 2);

    cart.AddToCart(widget);
    assert cart.products == [a1];

    cart.Increment("Z");
    assert cart.products == [a1];

    cart.AddToCart(widget);
    assert cart.products == [a2];

    cart.Decrement("A");
    assert cart.products == [a1];

    cart.Decrement("A");
    assert cart.products == [];
  }
}
