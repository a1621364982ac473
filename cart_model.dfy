/** The cart's line items and the pure next-state computations behind the
    cart hook's three mutators (src/hooks/cart.tsx). Each operation looks a
    product up by id, copies the list and rewrites at most one slot. */
module CartModel {

  /** The price is a JavaScript number that the cart only copies. */
  type Price = real

  /** A line item of the cart (the `Product` record). */
  datatype Product = Product(
    id: string,
    title: string,
    image_url: string,
    price: Price,
    quantity: int)

  /** What `addToCart` receives: a product without its quantity. */
  datatype Candidate = Candidate(
    id: string,
    title: string,
    image_url: string,
    price: Price)

  /** Some line item carries `id`. */
  predicate Contains(products: seq<Product>, id: string)
  {
    exists i :: 0 <= i < |products| && products[i].id == id
  }

  /** No two line items share an id. */
  predicate UniqueIds(products: seq<Product>)
  {
    forall i, j :: 0 <= i < j < |products| ==> products[i].id != products[j].id
  }

  /** Every line item has quantity at least 1. */
  predicate PositiveQuantities(products: seq<Product>)
  {
    forall i :: 0 <= i < |products| ==> products[i].quantity >= 1
  }

  /** The cart invariant: ids distinct, quantities at least 1. */
  predicate WellFormed(products: seq<Product>)
  {
    UniqueIds(products) && PositiveQuantities(products)
  }

  /** `p` and `q` agree on every field but the quantity. */
  predicate SameExceptQuantity(p: Product, q: Product)
  {
    p.id == q.id && p.title == q.title && p.image_url == q.image_url && p.price == q.price
  }

  /** `after` has the length of `before` and equals it outside slot `k`. */
  predicate ChangedAtMost(before: seq<Product>, after: seq<Product>, k: int)
  {
    |after| == |before| &&
    forall j :: 0 <= j < |before| && j != k ==> after[j] == before[j]
  }

  /** `Array.prototype.findIndex` with the predicate `product.id === id`:
      the first index whose id matches, or -1 when none does. */
  function FindIndex(products: seq<Product>, id: string): (r: int)
    ensures -1 <= r < |products|
    ensures r >= 0 ==> products[r].id == id
    ensures forall j :: 0 <= j < r ==> products[j].id != id
    ensures r == -1 ==> forall j :: 0 <= j < |products| ==> products[j].id != id
    ensures r >= 0 <==> Contains(products, id)
  {
    if |products| == 0 then -1
    else if products[0].id == id then 0
    else
      var k := FindIndex(products[1..], id);
      if k == -1 then -1 else k + 1
  }

  /** The line item `addToCart` appends for a candidate not yet in the cart:
      every field of the candidate, with quantity 1. */
  function NewLine(c: Candidate): Product
  {
    Product(c.id, c.title, c.image_url, c.price, 1)
  }

  /** The list `addToCart(c)` hands to `updateCart`. A known id bumps the
      existing item's quantity and keeps its fields, ignoring the
      candidate's; an unknown id appends the candidate with quantity 1. */
  function AddToCartNext(products: seq<Product>, c: Candidate): (r: seq<Product>)
    ensures Contains(products, c.id) ==>
      var i := FindIndex(products, c.id);
      ChangedAtMost(products, r, i) &&
      SameExceptQuantity(r[i], products[i]) &&
      r[i].quantity == products[i].quantity + 1
    ensures !Contains(products, c.id) ==>
      |r| == |products| + 1 && r[..|products|] == products &&
      r[|products|].id == c.id && r[|products|].title == c.title &&
      r[|products|].image_url == c.image_url && r[|products|].price == c.price &&
      r[|products|].quantity == 1
  {
    var index := FindIndex(products, c.id);
    if index >= 0 then
      var product := products[index];
      products[index := product.(quantity := product.quantity + 1)]
    else
      products + [NewLine(c)]
  }

  /** The list `increment(id)` hands to `updateCart`. The source reads
      `products[-1].quantity` and throws for an unknown id, so the id must
      be present. */
  function IncrementNext(products: seq<Product>, id: string): (r: seq<Product>)
    requires Contains(products, id)
    ensures
      var i := FindIndex(products, id);
      ChangedAtMost(products, r, i) &&
      SameExceptQuantity(r[i], products[i]) &&
      r[i].quantity == products[i].quantity + 1
  {
    var index := FindIndex(products, id);
    var product := products[index];
    products[index := product.(quantity := product.quantity + 1)]
  }

  /** The list `decrement(id)` hands to `updateCart`, as the code is written:
      above 1 the quantity drops by one; otherwise the removal is a `slice`
      whose result is discarded, so the copy equals the input. The id must be
      present, as for `increment`. */
  function DecrementNext(products: seq<Product>, id: string): (r: seq<Product>)
    requires Contains(products, id)
    ensures
      var i := FindIndex(products, id);
      products[i].quantity > 1 ==>
        ChangedAtMost(products, r, i) &&
        SameExceptQuantity(r[i], products[i]) &&
        r[i].quantity == products[i].quantity - 1
    ensures products[FindIndex(products, id)].quantity <= 1 ==> r == products
  {
    var index := FindIndex(products, id);
    var product := products[index];
    if product.quantity > 1 then
      products[index := product.(quantity := product.quantity - 1)]
    else
      products
  }

  /** The evidently intended `decrement(id)`: the same as `DecrementNext`
      above quantity 1, and removal of the matched slot otherwise. */
  function DecrementIntendedNext(products: seq<Product>, id: string): (r: seq<Product>)
    requires Contains(products, id)
    ensures
      var i := FindIndex(products, id);
      products[i].quantity > 1 ==>
        ChangedAtMost(products, r, i) &&
        SameExceptQuantity(r[i], products[i]) &&
        r[i].quantity == products[i].quantity - 1
    ensures
      var i := FindIndex(products, id);
      products[i].quantity <= 1 ==>
        |r| == |products| - 1 &&
        r[..i] == products[..i] &&
        (forall j :: i <= j < |r| ==> r[j] == products[j + 1])
  {
    var index := FindIndex(products, id);
    var product := products[index];
    if product.quantity > 1 then
      products[index := product.(quantity := product.quantity - 1)]
    else
      var r := products[..index] + products[index + 1..];
      assert forall j :: index <= j < |r| ==> r[j] == products[index + 1..][j - index];
      r
  }
}
