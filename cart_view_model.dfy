/**
 * ViewModels/CartViewModel.cs: the cart page's total, the sum over the rows of
 * the product's current price times the quantity, a missing product counting 0.
 */
module CartViewModel {
  import opened Models
  import ProductService

  /** One row's share of the total: `(item.Product?.Price ?? 0) * item.Quantity`. */
  function LineAmount(item: CartItem, products: seq<Product>): Cents {
    ProductService.UnitPrice(products, item.productId) * item.quantity
  }

  /** `Items.Sum(i => (i.Product?.Price ?? 0) * i.Quantity)`. */
  function Total(items: seq<CartItem>, products: seq<Product>): Cents {
    if items == [] then 0 else LineAmount(items[0], products) + Total(items[1..], products)
  }

  /** A row whose product is missing adds nothing to the total, whatever its quantity. */
  lemma MissingProductCountsZero(items: seq<CartItem>, item: CartItem, products: seq<Product>)
    requires forall p :: p in products ==> p.id != item.productId
    ensures Total(items + [item], products) == Total(items, products)
    ensures Total([item] + items, products) == Total(items, products)
  {
    TotalAppend(items, [item], products);
    assert ([item] + items)[1..] == items;
  }

  /** The total is additive over concatenation. */
  lemma {:induction false} TotalAppend(a: seq<CartItem>, b: seq<CartItem>, products: seq<Product>)
    ensures Total(a + b, products) == Total(a, products) + Total(b, products)
  {
    if a == [] {
      assert a + b == b;
    } else {
      assert (a + b)[0] == a[0];
      assert (a + b)[1..] == a[1..] + b;
      TotalAppend(a[1..], b, products);
    }
  }

  /** Taking the row at `k` out of `b` leaves its line amount out of the total. */
  lemma TotalWithout(b: seq<CartItem>, k: nat, products: seq<Product>)
    requires k < |b|
    ensures Total(b, products) == LineAmount(b[k], products) + Total(b[..k] + b[k + 1..], products)
  {
    assert b == b[..k] + [b[k]] + b[k + 1..];
    TotalAppend(b[..k] + [b[k]], b[k + 1..], products);
    TotalAppend(b[..k], [b[k]], products);
    TotalAppend(b[..k], b[k + 1..], products);
    assert [b[k]][1..] == [];
  }

  /** Taking the row at `k` out of `b` takes one copy of it out of the multiset. */
  lemma MultisetWithout(b: seq<CartItem>, k: nat)
    requires k < |b|
    ensures multiset(b[..k] + b[k + 1..]) == multiset(b) - multiset{b[k]}
  {
    assert b == b[..k] + [b[k]] + b[k + 1..];
  }

  /** The total does not depend on the order of the rows. */
  lemma {:induction false} TotalPermutation(a: seq<CartItem>, b: seq<CartItem>, products: seq<Product>)
    requires multiset(a) == multiset(b)
    ensures Total(a, products) == Total(b, products)
    decreases |a|
  {
    if a == [] {
      assert |b| == |multiset(b)| == 0;
    } else {
      assert a[0] in multiset(b);
      var k :| 0 <= k < |b| && b[k] == a[0];
      MultisetWithout(b, k);
      assert a == [a[0]] + a[1..];
      assert multiset(a[1..]) == multiset(a) - multiset{a[0]};
      TotalPermutation(a[1..], b[..k] + b[k + 1..], products);
      TotalWithout(b, k, products);
    }
  }
}
