/** What happens to cart lines outside the cart endpoints: cascading deletes of a cart (or
    its user) and of a product, and a change of a product's price, which does not re-price
    the lines already saved. */
module Lifecycle {
  import opened Outcomes
  import opened Catalog
  import opened CartStore
  import opened CartViews
  import opened RowLemmas
  import opened CartProperties

  /** Deleting a user's cart, directly or through deleting the user, deletes its lines. */
  function DeleteCart(s: Store, u: UserId): (s': Store)
    ensures s'.carts == s.carts - {u} && s'.catalog == s.catalog
    ensures forall r :: r in s'.rows <==> r in s.rows && r.user != u
  {
    Store(s.catalog, s.carts - {u}, Filter(s.rows, NotOfCart(u)))
  }

  /** Deleting a product deletes every line that refers to it, in every cart. */
  function DeleteProduct(s: Store, p: ProductId): (s': Store)
    ensures p !in s'.catalog && s'.carts == s.carts
    ensures forall q :: q != p ==> (q in s'.catalog <==> q in s.catalog)
    ensures forall q :: q in s.catalog && q != p ==> s'.catalog[q] == s.catalog[q]
    ensures forall r :: r in s'.rows <==> r in s.rows && r.product != p
  {
    Store(s.catalog - {p}, s.carts, Filter(s.rows, NotOfProduct(p)))
  }

  /** Saving a product with a new price. Product has no save hook, so no line is touched. */
  function ChangeProductPrice(s: Store, p: ProductId, price: int): (s': Store)
    requires p in s.catalog
    ensures s'.rows == s.rows && s'.carts == s.carts
    ensures p in s'.catalog && s'.catalog[p].price == price
    ensures forall q :: q in s.catalog && q != p ==> q in s'.catalog && s'.catalog[q] == s.catalog[q]
  {
    s.(catalog := s.catalog[p := s.catalog[p].(price := price)])
  }

  lemma DeleteCartPreservesInvariants(s: Store, u: UserId)
    requires WellFormed(s) && PricesConsistent(s)
    ensures WellFormed(DeleteCart(s, u)) && PricesConsistent(DeleteCart(s, u))
  {
    FilterKeepsUnique(s.rows, NotOfCart(u));
    var a := DeleteCart(s, u).rows;
    assert forall i :: 0 <= i < |a| ==> a[i] in s.rows;
  }

  lemma DeleteProductPreservesInvariants(s: Store, p: ProductId)
    requires WellFormed(s) && PricesConsistent(s)
    ensures WellFormed(DeleteProduct(s, p)) && PricesConsistent(DeleteProduct(s, p))
  {
    FilterKeepsUnique(s.rows, NotOfProduct(p));
    var b := DeleteProduct(s, p).rows;
    assert forall i :: 0 <= i < |b| ==> b[i] in s.rows;
  }

  /** Both cascades keep every surviving row exactly as many times as before. */
  lemma CascadeCounts(s: Store, u: UserId, p: ProductId)
    ensures forall r :: multiset(DeleteCart(s, u).rows)[r] == if r.user != u then multiset(s.rows)[r] else 0
    ensures forall r :: multiset(DeleteProduct(s, p).rows)[r] == if r.product != p then multiset(s.rows)[r] else 0
  {
    FilterCounts(s.rows, NotOfCart(u));
    FilterCounts(s.rows, NotOfProduct(p));
  }

  /** A deleted cart leaves no line behind, and every other cart keeps its lines. */
  lemma DeleteCartCascades(s: Store, u: UserId)
    ensures CartRows(DeleteCart(s, u).rows, u) == []
    ensures forall v :: v != u ==> CartRows(DeleteCart(s, u).rows, v) == CartRows(s.rows, v)
  {
    FilterTwice(s.rows, NotOfCart(u), OfCart(u));
    forall v | v != u
      ensures CartRows(DeleteCart(s, u).rows, v) == CartRows(s.rows, v)
    {
      FilterTwice(s.rows, NotOfCart(u), OfCart(v));
    }
  }

  /** Changing the price of a product that some line with a positive quantity refers to
      keeps that line's price as it was saved, so consistent line prices stop being so. */
  lemma PriceChangeLeavesLinesStale(s: Store, p: ProductId, price: int, i: nat)
    requires p in s.catalog && PricesConsistent(s)
    requires i < |s.rows| && s.rows[i].product == p && s.rows[i].quantity >= 1
    requires price != s.catalog[p].price
    ensures ChangeProductPrice(s, p, price).rows[i].price == s.rows[i].price
    ensures !PricesConsistent(ChangeProductPrice(s, p, price))
  {
    var s' := ChangeProductPrice(s, p, price);
    var q := s.rows[i].quantity;
    assert s.rows[i].price == q * s.catalog[p].price;
    assert q * price != q * s.catalog[p].price by {
      if price < s.catalog[p].price {
        assert q * price < q * s.catalog[p].price;
      } else {
        assert q * price > q * s.catalog[p].price;
      }
    }
    assert s'.rows[i].price != s'.rows[i].quantity * s'.catalog[p].price;
  }

  /** The same on a concrete store: a line of two units at 100 keeps its price 200 when the
      unit price becomes 150. */
  lemma PriceChangeExample()
    ensures var s := Store(map[1 := Product("Product 1", "product_1", 100, "Category 1", "Subcategory 1")],
                           {7}, [Row(7, 1, 2, 200)]);
            var s' := ChangeProductPrice(s, 1, 150);
            && WellFormed(s) && PricesConsistent(s)
            && s'.rows[0].price == 200
            && !PricesConsistent(s')
  {
  }

  /** The next save of a line re-prices it at the current unit price: after an add, the
      caller's line for that product is consistent again, stale before or not. */
  lemma AddRepricesLine(s: Store, u: UserId, p: ProductId)
    requires AddToCart(s, u, p).result.Ok?
    ensures var rows' := AddToCart(s, u, p).store.rows;
            && Lookup(rows', u, p).Unique?
            && rows'[Lookup(rows', u, p).index].price
               == rows'[Lookup(rows', u, p).index].quantity * s.catalog[p].price
  {
    if Lookup(s.rows, u, p).Missing? {
      AddCreatesLine(s, u, p);
    } else {
      AddIncrementsLine(s, u, p);
    }
  }
}
