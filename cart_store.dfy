/** The cart provider's state holder (`CartProvider` in src/hooks/cart.tsx):
    one `products` list, replaced wholesale by `updateCart`. Each mutator
    looks the id up, copies the list into a fresh array, writes at most one
    slot of the copy and hands the copy on. */
module CartHook {
  import opened CartModel
  import CartLemmas

  /** The spread copy `[...s]`: a fresh array holding the elements of `s`. */
  method CopyOf(s: seq<Product>) returns (a: array<Product>)
    ensures fresh(a) && a[..] == s
  {
    a := new Product[|s|](i requires 0 <= i < |s| => s[i]);
  }

  class CartStore {
    /** The canonical cart, as held by `useState`. */
    var products: seq<Product>

    /** `useState<Product[]>([])`: the cart starts empty. */
    constructor ()
      ensures products == []
      ensures WellFormed(products)
    {
      products := [];
    }

    /** `updateCart`: the held list becomes `newProducts`. Writing it to
        storage is not part of this model. */
    method UpdateCart(newProducts: seq<Product>)
      modifies this
      ensures products == newProducts
    {
      products := newProducts;
    }

    /** `addToCart`: bump the quantity of the product with the candidate's id,
        or append the candidate with quantity 1. */
    method AddToCart(newProduct: Candidate)
      modifies this
      ensures products == AddToCartNext(old(products), newProduct)
      ensures old(WellFormed(products)) ==> WellFormed(products)
    {
      ghost var before := products;
      var index := FindIndex(products, newProduct.id);
      var newProducts := CopyOf(products);
      if index >= 0 {
        var product := products[index];
        newProducts[index] := product.(quantity := product.quantity + 1);
      } else {
        newProducts := CopyOf(products + [NewLine(newProduct)]);
      }
      UpdateCart(newProducts[..]);
      if WellFormed(before) {
        CartLemmas.AddToCartPreservesWellFormed(before, newProduct);
      }
    }

    /** `increment`: raise the quantity of the product with `id` by one. An
        unknown id makes the source throw, so it is excluded. */
    method Increment(id: string)
      requires Contains(products, id)
      modifies this
      ensures products == IncrementNext(old(products), id)
      ensures old(WellFormed(products)) ==> WellFormed(products)
    {
      ghost var before := products;
      var index := FindIndex(products, id);
      var product := products[index];
      var newProducts := CopyOf(products);
      newProducts[index] := product.(quantity := product.quantity + 1);
      UpdateCart(newProducts[..]);
      if WellFormed(before) {
        CartLemmas.IncrementPreservesWellFormed(before, id);
      }
    }

    /** `decrement`, as the code is written: above quantity 1 lower it by
        one; otherwise the discarded `slice` leaves the copy as it was. */
    method Decrement(id: string)
      requires Contains(products, id)
      modifies this
      ensures products == DecrementNext(old(products), id)
      ensures old(WellFormed(products)) ==> WellFormed(products)
    {
      ghost var before := products;
      var index := FindIndex(products, id);
      var product := products[index];
      var newProducts := CopyOf(products);
      if product.quantity > 1 {
        newProducts[index] := product.(quantity := product.quantity - 1);
      }
      UpdateCart(newProducts[..]);
      if WellFormed(before) {
        CartLemmas.DecrementPreservesWellFormed(before, id);
      }
    }

    /** The corrected `decrement`, separate from the one above: at quantity 1
        or below the matched product is spliced out of the copy. */
    method DecrementIntended(id: string)
      requires Contains(products, id)
      modifies this
      ensures products == DecrementIntendedNext(old(products), id)
      ensures old(WellFormed(products)) ==> WellFormed(products)
    {
      ghost var before := products;
      var index := FindIndex(products, id);
      var product := products[index];
      var newProducts := CopyOf(products);
      if product.quantity > 1 {
        newProducts[index] := product.(quantity := product.quantity - 1);
      } else {
        newProducts := CopyOf(products[..index] + products[index + 1..]);
      }
      UpdateCart(newProducts[..]);
      if WellFormed(before) {
        CartLemmas.DecrementIntendedPreservesWellFormed(before, id);
      }
    }
  }

  /** A client of the store: from an empty cart, adding "a" twice gives "a"
      with quantity 2; two decrements then leave "a" with quantity 1 as the
      code is written, and an empty cart with the corrected decrement. */
  method WalkthroughClient(c: Candidate) returns (asWritten: seq<Product>, intended: seq<Product>)
    requires c.id == "a"
    ensures asWritten == [NewLine(c)]
    ensures intended == []
  {
    CartLemmas.Walkthrough(c);
    var store := new CartStore();
    store.AddToCart(c);
    store.AddToCart(c);
    store.Decrement("a");
    store.Decrement("a");
    asWritten := store.products;

    var fixed := new CartStore();
    fixed.AddToCart(c);
    fixed.AddToCart(c);
    fixed.DecrementIntended("a");
    fixed.DecrementIntended("a");
    intended := fixed.products;
  }
}
