/** Properties of the cart's next-state functions: the lookup picks the one
    matching slot, the cart invariant survives every operation, increment and
    decrement undo each other, and the written `decrement` never removes. */
module CartLemmas {
  import opened CartModel

  /** Any index that is a match with no match before it is what the lookup
      returns. */
  lemma FindIndexIsFirstMatch(products: seq<Product>, id: string, k: int)
    requires 0 <= k < |products| && products[k].id == id
    requires forall j :: 0 <= j < k ==> products[j].id != id
    ensures FindIndex(products, id) == k
  {
    assert Contains(products, id);
  }

  /** With unique ids, the slot every operation rewrites is the only slot
      carrying that id. */
  lemma FindIndexOnlyMatch(products: seq<Product>, id: string, k: int)
    requires UniqueIds(products)
    requires 0 <= k < |products| && products[k].id == id
    ensures FindIndex(products, id) == k
  {
    forall j | 0 <= j < k ensures products[j].id != id {
      assert products[j].id != products[k].id;
    }
    FindIndexIsFirstMatch(products, id, k);
  }

  /** The lookup depends only on the ids, position by position. */
  lemma FindIndexSameIds(before: seq<Product>, after: seq<Product>, id: string)
    requires |before| == |after|
    requires forall j :: 0 <= j < |before| ==> after[j].id == before[j].id
    ensures FindIndex(after, id) == FindIndex(before, id)
  {
    var k := FindIndex(before, id);
    if k >= 0 {
      FindIndexIsFirstMatch(after, id, k);
    } else {
      assert !Contains(after, id) by {
        forall j | 0 <= j < |after| ensures after[j].id != id {
          assert after[j].id == before[j].id;
        }
      }
    }
  }

  /** Rewriting one slot with a record of the same id and a quantity of at
      least 1 keeps the cart well formed. */
  lemma RewriteSlotPreservesWellFormed(before: seq<Product>, after: seq<Product>, k: int)
    requires WellFormed(before)
    requires 0 <= k < |before|
    requires ChangedAtMost(before, after, k)
    requires after[k].id == before[k].id && after[k].quantity >= 1
    ensures WellFormed(after)
  {
    forall i, j | 0 <= i < j < |after| ensures after[i].id != after[j].id {
      assert after[i].id == before[i].id && after[j].id == before[j].id;
    }
    forall i | 0 <= i < |after| ensures after[i].quantity >= 1 {
      if i != k {
        assert after[i] == before[i];
      }
    }
  }

  /** `addToCart` keeps ids unique and quantities at least 1. */
  lemma AddToCartPreservesWellFormed(products: seq<Product>, c: Candidate)
    requires WellFormed(products)
    ensures WellFormed(AddToCartNext(products, c))
  {
    var r := AddToCartNext(products, c);
    if Contains(products, c.id) {
      RewriteSlotPreservesWellFormed(products, r, FindIndex(products, c.id));
    } else {
      assert forall j :: 0 <= j < |products| ==> r[j] == products[j] by {
        forall j | 0 <= j < |products| ensures r[j] == products[j] {
          assert r[..|products|][j] == products[j];
        }
      }
      forall i, j | 0 <= i < j < |r| ensures r[i].id != r[j].id {
        if j == |products| {
          assert r[i] == products[i];
        }
      }
    }
  }

  /** `increment` keeps ids unique and quantities at least 1. */
  lemma IncrementPreservesWellFormed(products: seq<Product>, id: string)
    requires WellFormed(products) && Contains(products, id)
    ensures WellFormed(IncrementNext(products, id))
  {
    RewriteSlotPreservesWellFormed(products, IncrementNext(products, id), FindIndex(products, id));
  }

  /** `decrement`, as written, keeps ids unique and quantities at least 1. */
  lemma DecrementPreservesWellFormed(products: seq<Product>, id: string)
    requires WellFormed(products) && Contains(products, id)
    ensures WellFormed(DecrementNext(products, id))
  {
    var k := FindIndex(products, id);
    if products[k].quantity > 1 {
      RewriteSlotPreservesWellFormed(products, DecrementNext(products, id), k);
    }
  }

  /** The corrected `decrement` keeps ids unique and quantities at least 1. */
  lemma DecrementIntendedPreservesWellFormed(products: seq<Product>, id: string)
    requires WellFormed(products) && Contains(products, id)
    ensures WellFormed(DecrementIntendedNext(products, id))
  {
    var k := FindIndex(products, id);
    var r := DecrementIntendedNext(products, id);
    if products[k].quantity > 1 {
      RewriteSlotPreservesWellFormed(products, r, k);
    } else {
      assert forall j :: 0 <= j < |r| ==> r[j] == products[if j < k then j else j + 1] by {
        forall j | 0 <= j < |r| ensures r[j] == products[if j < k then j else j + 1] {
          if j < k {
            assert r[..k][j] == products[..k][j];
          }
        }
      }
      forall i, j | 0 <= i < j < |r| ensures r[i].id != r[j].id {
        var i', j' := if i < k then i else i + 1, if j < k then j else j + 1;
        assert i' < j' && r[i] == products[i'] && r[j] == products[j'];
      }
    }
  }

  /** `increment` then `decrement` on a present id whose quantity is at least
      1 gives back exactly the cart it started from. */
  lemma IncrementThenDecrement(products: seq<Product>, id: string)
    requires Contains(products, id)
    requires products[FindIndex(products, id)].quantity >= 1
    ensures Contains(IncrementNext(products, id), id)
    ensures DecrementNext(IncrementNext(products, id), id) == products
  {
    var k := FindIndex(products, id);
    var mid := IncrementNext(products, id);
    FindIndexSameIds(products, mid, id);
    var r := DecrementNext(mid, id);
    assert r[k] == products[k];
    assert forall j :: 0 <= j < |r| ==> r[j] == products[j];
  }

  /** `decrement` then `increment` on a present id whose quantity is above 1
      gives back exactly the cart it started from. */
  lemma DecrementThenIncrement(products: seq<Product>, id: string)
    requires Contains(products, id)
    requires products[FindIndex(products, id)].quantity > 1
    ensures Contains(DecrementNext(products, id), id)
    ensures IncrementNext(DecrementNext(products, id), id) == products
  {
    var k := FindIndex(products, id);
    var mid := DecrementNext(products, id);
    FindIndexSameIds(products, mid, id);
    var r := IncrementNext(mid, id);
    assert r[k] == products[k];
    assert forall j :: 0 <= j < |r| ==> r[j] == products[j];
  }

  /** The corrected `decrement` undoes `increment` just as the written one
      does. */
  lemma IncrementThenDecrementIntended(products: seq<Product>, id: string)
    requires Contains(products, id)
    requires products[FindIndex(products, id)].quantity >= 1
    ensures Contains(IncrementNext(products, id), id)
    ensures DecrementIntendedNext(IncrementNext(products, id), id) == products
  {
    var k := FindIndex(products, id);
    var mid := IncrementNext(products, id);
    FindIndexSameIds(products, mid, id);
    IncrementThenDecrement(products, id);
  }

  /** As written, `decrement` never shortens the cart and the id stays in it,
      whatever its quantity. */
  lemma DecrementNeverRemoves(products: seq<Product>, id: string)
    requires Contains(products, id)
    ensures |DecrementNext(products, id)| == |products|
    ensures Contains(DecrementNext(products, id), id)
  {
    var k := FindIndex(products, id);
    var r := DecrementNext(products, id);
    assert r[k].id == id;
  }

  /** As written, adding a new product and then decrementing it leaves the
      product in the cart with quantity 1 instead of restoring the cart. */
  lemma AddThenDecrementKeepsItem(products: seq<Product>, c: Candidate)
    requires !Contains(products, c.id)
    ensures Contains(AddToCartNext(products, c), c.id)
    ensures DecrementNext(AddToCartNext(products, c), c.id) == products + [NewLine(c)]
    ensures DecrementNext(AddToCartNext(products, c), c.id) != products
  {
    var mid := AddToCartNext(products, c);
    assert mid == products + [NewLine(c)];
    FindIndexIsFirstMatch(mid, c.id, |products|);
  }

  /** The corrected `decrement` at quantity 1 removes the item: the cart is
      one shorter and, ids being unique, no longer holds the id. */
  lemma DecrementIntendedRemoves(products: seq<Product>, id: string)
    requires UniqueIds(products) && Contains(products, id)
    requires products[FindIndex(products, id)].quantity <= 1
    ensures |DecrementIntendedNext(products, id)| == |products| - 1
    ensures !Contains(DecrementIntendedNext(products, id), id)
  {
    var k := FindIndex(products, id);
    var r := DecrementIntendedNext(products, id);
    forall j | 0 <= j < |r| ensures r[j].id != id {
      if j < k {
        assert r[..k][j] == products[j];
      } else {
        assert r[j] == products[j + 1];
        assert products[k].id != products[j + 1].id;
      }
    }
  }

  /** With the corrected `decrement`, adding a new product and decrementing
      it restores the cart. */
  lemma AddThenDecrementIntendedRestores(products: seq<Product>, c: Candidate)
    requires !Contains(products, c.id)
    ensures Contains(AddToCartNext(products, c), c.id)
    ensures DecrementIntendedNext(AddToCartNext(products, c), c.id) == products
  {
    var mid := AddToCartNext(products, c);
    assert mid == products + [NewLine(c)];
    FindIndexIsFirstMatch(mid, c.id, |products|);
    assert mid[..|products|] == products;
  }

  /** A cart holding "a" once; add "a", then
      decrement twice. The written code ends with "a" still in the cart,
      the corrected one with an empty cart. */
  lemma Walkthrough(c: Candidate)
    requires c.id == "a"
    ensures
      var start := [NewLine(c)];
      var added := AddToCartNext(start, c);
      var once := DecrementNext(added, "a");
      added == [NewLine(c).(quantity := 2)] &&
      once == start &&
      DecrementNext(once, "a") == start &&
      DecrementIntendedNext(DecrementIntendedNext(added, "a"), "a") == []
  {
    var start := [NewLine(c)];
    FindIndexIsFirstMatch(start, "a", 0);
    var added := AddToCartNext(start, c);
    assert added == [NewLine(c).(quantity := 2)];
    FindIndexIsFirstMatch(added, "a", 0);
  }
}
