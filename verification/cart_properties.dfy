/** Properties of the cart endpoints: lines accumulate instead of duplicating, every error
    path has a fixed outcome, totals are sums over the caller's lines, and no request touches
    another user's cart. */
module CartProperties {
  import opened Outcomes
  import opened Catalog
  import opened CartStore
  import opened Serializers
  import opened CartViews
  import opened RowLemmas

  /** In a well-formed store a single-row lookup never finds several rows, so no cart
      request ends in MultipleObjectsReturned. */
  lemma NoDuplicateLines(s: Store, u: UserId, p: ProductId)
    requires WellFormed(s)
    ensures !Lookup(s.rows, u, p).Duplicated?
  {
  }

  /** Adding a product the cart has no line for appends exactly one line, with one unit
      priced at the unit price; the line started from quantity 0 and price 0. */
  lemma AddCreatesLine(s: Store, u: UserId, p: ProductId)
    requires p in s.catalog && Lookup(s.rows, u, p).Missing?
    ensures var o := AddToCart(s, u, p);
            && o.store.rows == s.rows + [Row(u, p, 1, s.catalog[p].price)]
            && o.result == Ok(LineView(s.catalog[p], 1, s.catalog[p].price))
            && Lookup(o.store.rows, u, p) == Unique(|s.rows|)
  {
  }

  /** Adding a product the cart already has a line for adds one unit to that line, in place:
      no row is added and every other row is left as it was. */
  lemma AddIncrementsLine(s: Store, u: UserId, p: ProductId)
    requires p in s.catalog && Lookup(s.rows, u, p).Unique?
    ensures var i := Lookup(s.rows, u, p).index;
            var q := s.rows[i].quantity + 1;
            var o := AddToCart(s, u, p);
            && o.store.rows == s.rows[i := Row(u, p, q, q * s.catalog[p].price)]
            && o.result == Ok(LineView(s.catalog[p], q, q * s.catalog[p].price))
            && Lookup(o.store.rows, u, p) == Unique(i)
  {
    var i := Lookup(s.rows, u, p).index;
    var rows' := AddToCart(s, u, p).store.rows;
    assert Key(rows'[i]) == (u, p);
    assert forall j :: 0 <= j < |rows'| && j != i ==> rows'[j] == s.rows[j];
  }

  /** A set-quantity that passes its checks overwrites the quantity of that one line,
      re-prices it, and answers with the saved line. */
  lemma SetQuantityUpdatesLine(s: Store, u: UserId, p: ProductId, body: PatchBody)
    requires p in s.catalog && Lookup(s.rows, u, p).Unique?
    requires ValidateBody(body).Ok?
    ensures var i := Lookup(s.rows, u, p).index;
            var n := body.quantity.n;
            var o := SetQuantity(s, u, p, body);
            && o.store.rows == s.rows[i := Row(u, p, n, n * s.catalog[p].price)]
            && o.result == Ok(LineViewOf(o.store.rows[i], s.catalog[p]))
            && Lookup(o.store.rows, u, p) == Unique(i)
  {
  }

  /** Removing deletes exactly the caller's line for that product and keeps the order of
      the rest. */
  lemma RemoveDeletesLine(s: Store, u: UserId, p: ProductId)
    requires p in s.catalog && Lookup(s.rows, u, p).Unique?
    ensures var i := Lookup(s.rows, u, p).index;
            var o := RemoveFromCart(s, u, p);
            o.result == Ok(()) && o.store.rows == s.rows[..i] + s.rows[i + 1..]
  {
  }

  /** With no line for (caller, product), set-quantity and remove fail with NotFound whatever
      the body holds, so the lookup wins over validation. No row changes; the only effect is
      the caller's cart being created. */
  lemma MissingLineIsNotFound(s: Store, u: UserId, p: ProductId, body: PatchBody)
    requires p !in s.catalog || Lookup(s.rows, u, p).Missing?
    ensures SetQuantity(s, u, p, body) == Outcome(EnsureCart(s, u), Err(NotFound))
    ensures RemoveFromCart(s, u, p) == Outcome(EnsureCart(s, u), Err(NotFound))
  {
  }

  /** An invalid body is refused before anything is saved: the line keeps its quantity and
      price, and the error is the validation error. */
  lemma InvalidQuantityChangesNothing(s: Store, u: UserId, p: ProductId, body: PatchBody)
    requires p in s.catalog && Lookup(s.rows, u, p).Unique?
    requires ValidateBody(body).Err?
    ensures SetQuantity(s, u, p, body)
            == Outcome(EnsureCart(s, u), Err(ValidateBody(body).error))
    ensures SetQuantity(s, u, p, body).result.error.ValidationError?
  {
  }

  /** Only product_quantity of the body is read: whatever else the client sends, product or
      line price included, the outcome is the same. A body that is not an object is refused
      before any field is read (ValidateBody). */
  lemma SetQuantityReadsOnlyQuantity(s: Store, u: UserId, p: ProductId, b1: PatchBody, b2: PatchBody)
    requires b1.JsonObject? && b2.JsonObject? && b1.quantity == b2.quantity
    ensures SetQuantity(s, u, p, b1) == SetQuantity(s, u, p, b2)
  {
  }

  /** A missing or null quantity is refused by the serializer's own check, and 0 already by
      the field's minimum. */
  lemma QuantityValidation(q: QuantityInput)
    ensures q.Omitted? || q.JsonNull? ==> ValidateQuantity(q) == Err(ValidationError(QuantityRequired))
    ensures q == Given(0) ==> ValidateQuantity(q) == Err(ValidationError(BelowMinimum))
  {
  }

  lemma AddLeavesOtherCarts(s: Store, u: UserId, p: ProductId, v: UserId)
    requires v != u
    ensures CartRows(AddToCart(s, u, p).store.rows, v) == CartRows(s.rows, v)
  {
    if p in s.catalog {
      match Lookup(s.rows, u, p)
      case Missing =>
        AppendRowSums(s.rows, Row(u, p, 1, s.catalog[p].price));
      case Duplicated =>
      case Unique(i) =>
        ReplaceRowSums(s.rows, i, AddToCart(s, u, p).store.rows[i]);
    }
  }

  lemma SetQuantityLeavesOtherCarts(s: Store, u: UserId, p: ProductId, body: PatchBody, v: UserId)
    requires v != u
    ensures CartRows(SetQuantity(s, u, p, body).store.rows, v) == CartRows(s.rows, v)
  {
    if SetQuantity(s, u, p, body).result.Ok? {
      var i := Lookup(s.rows, u, p).index;
      ReplaceRowSums(s.rows, i, SetQuantity(s, u, p, body).store.rows[i]);
    }
  }

  lemma RemoveLeavesOtherCarts(s: Store, u: UserId, p: ProductId, v: UserId)
    requires v != u
    ensures CartRows(RemoveFromCart(s, u, p).store.rows, v) == CartRows(s.rows, v)
  {
    if RemoveFromCart(s, u, p).result.Ok? {
      DeleteRowSums(s.rows, Lookup(s.rows, u, p).index);
    }
  }

  /** Every cart request leaves the other users' lines exactly as they were. */
  lemma OtherCartsUnchanged(s: Store, u: UserId, p: ProductId, body: PatchBody, v: UserId)
    requires v != u
    ensures CartRows(AddToCart(s, u, p).store.rows, v) == CartRows(s.rows, v)
    ensures CartRows(SetQuantity(s, u, p, body).store.rows, v) == CartRows(s.rows, v)
    ensures CartRows(RemoveFromCart(s, u, p).store.rows, v) == CartRows(s.rows, v)
    ensures CartRows(ClearCart(s, u).store.rows, v) == CartRows(s.rows, v)
  {
    AddLeavesOtherCarts(s, u, p, v);
    SetQuantityLeavesOtherCarts(s, u, p, body, v);
    RemoveLeavesOtherCarts(s, u, p, v);
    FilterTwice(s.rows, NotOfCart(u), OfCart(v));
  }

  /** Adding one unit raises the caller's total quantity by one and, with consistent line
      prices, the total price by the unit price. */
  lemma AddRaisesTotals(s: Store, u: UserId, p: ProductId)
    requires WellFormed(s) && PricesConsistent(s) && p in s.catalog
    ensures var after := CartRows(AddToCart(s, u, p).store.rows, u);
            && SumQuantity(after) == SumQuantity(CartRows(s.rows, u)) + 1
            && SumPrice(after) == SumPrice(CartRows(s.rows, u)) + s.catalog[p].price
  {
    var unit := s.catalog[p].price;
    match Lookup(s.rows, u, p)
    case Missing =>
      AppendRowSums(s.rows, Row(u, p, 1, unit));
    case Unique(i) =>
      var q := s.rows[i].quantity;
      assert s.rows[i].price == q * unit;
      assert (q + 1) * unit == q * unit + unit;
      ReplaceRowSums(s.rows, i, AddToCart(s, u, p).store.rows[i]);
  }

  /** Setting a quantity moves the caller's totals by the change of that one line. */
  lemma SetQuantityMovesTotals(s: Store, u: UserId, p: ProductId, body: PatchBody)
    requires SetQuantity(s, u, p, body).result.Ok?
    ensures var old_ := s.rows[Lookup(s.rows, u, p).index];
            var line := SetQuantity(s, u, p, body).result.value;
            var after := CartRows(SetQuantity(s, u, p, body).store.rows, u);
            && SumQuantity(after) == SumQuantity(CartRows(s.rows, u)) - old_.quantity + line.quantity
            && SumPrice(after) == SumPrice(CartRows(s.rows, u)) - old_.price + line.price
  {
    var i := Lookup(s.rows, u, p).index;
    ReplaceRowSums(s.rows, i, SetQuantity(s, u, p, body).store.rows[i]);
  }

  /** Removing a line lowers the caller's totals by exactly that line. */
  lemma RemoveLowersTotals(s: Store, u: UserId, p: ProductId)
    requires RemoveFromCart(s, u, p).result.Ok?
    ensures var gone := s.rows[Lookup(s.rows, u, p).index];
            var after := CartRows(RemoveFromCart(s, u, p).store.rows, u);
            && SumQuantity(after) == SumQuantity(CartRows(s.rows, u)) - gone.quantity
            && SumPrice(after) == SumPrice(CartRows(s.rows, u)) - gone.price
  {
    DeleteRowSums(s.rows, Lookup(s.rows, u, p).index);
  }

  /** Clearing deletes every line of the caller's cart, and doing it again changes nothing. */
  lemma ClearEmptiesCart(s: Store, u: UserId)
    ensures CartRows(ClearCart(s, u).store.rows, u) == []
    ensures ClearCart(ClearCart(s, u).store, u) == ClearCart(s, u)
  {
    FilterTwice(s.rows, NotOfCart(u), OfCart(u));
    FilterTwice(s.rows, NotOfCart(u), NotOfCart(u));
  }

  /** Removing the same line twice: the second request is NotFound. */
  lemma RemoveTwiceIsNotFound(s: Store, u: UserId, p: ProductId)
    requires RemoveFromCart(s, u, p).result.Ok?
    ensures var s' := RemoveFromCart(s, u, p).store;
            RemoveFromCart(s', u, p) == Outcome(s', Err(NotFound))
  {
  }

  /** Adding a product new to the cart and then removing it gives back the rows as they
      were; only the cart's creation remains. */
  lemma AddThenRemoveRestores(s: Store, u: UserId, p: ProductId)
    requires p in s.catalog && Lookup(s.rows, u, p).Missing?
    ensures RemoveFromCart(AddToCart(s, u, p).store, u, p) == Outcome(EnsureCart(s, u), Ok(()))
  {
  }

  lemma {:induction false} ListedSums(rows: seq<Row>, catalog: map<ProductId, Product>)
    requires ProductsKnown(rows, catalog)
    ensures ListedQuantity(Listing(rows, catalog)) == SumQuantity(rows)
    ensures ListedPrice(Listing(rows, catalog)) == SumPrice(rows)
    decreases |rows|
  {
    if |rows| > 0 {
      assert Listing(rows, catalog)[1..] == Listing(rows[1..], catalog);
      ListedSums(rows[1..], catalog);
    }
  }

  /** The totals of an existing, non-empty cart are the sums over the lines the same
      response lists. */
  lemma ViewTotalsMatchListing(s: Store, u: UserId)
    requires ProductsKnown(s.rows, s.catalog)
    requires u in s.carts && |CartRows(s.rows, u)| > 0
    ensures var v := ViewCart(s, u).result.value;
            && v.totalQuantity == Amount(ListedQuantity(v.products))
            && v.totalPrice == Amount(ListedPrice(v.products))
  {
    var lines := CartRows(s.rows, u);
    assert ProductsKnown(lines, s.catalog) by {
      forall k | 0 <= k < |lines|
        ensures lines[k].product in s.catalog
      {
        assert lines[k] in s.rows;
      }
    }
    ListedSums(lines, s.catalog);
  }

  /** The cart view lists the caller's lines and nothing else. */
  lemma ViewListsExactlyCartLines(s: Store, u: UserId)
    requires ForeignKeysHold(s)
    ensures var v := ViewCart(s, u).result.value;
            && (forall k :: 0 <= k < |v.products| ==>
                  exists i :: 0 <= i < |s.rows| && s.rows[i].user == u
                              && v.products[k] == LineViewOf(s.rows[i], s.catalog[s.rows[i].product]))
            && (forall i :: 0 <= i < |s.rows| && s.rows[i].user == u ==>
                  LineViewOf(s.rows[i], s.catalog[s.rows[i].product]) in v.products)
  {
    var lines := CartRows(s.rows, u);
    var v := ViewCart(s, u).result.value;
    if u in s.carts {
      forall k | 0 <= k < |v.products|
        ensures exists i :: 0 <= i < |s.rows| && s.rows[i].user == u
                            && v.products[k] == LineViewOf(s.rows[i], s.catalog[s.rows[i].product])
      {
        assert lines[k] in s.rows;
      }
      forall i | 0 <= i < |s.rows| && s.rows[i].user == u
        ensures LineViewOf(s.rows[i], s.catalog[s.rows[i].product]) in v.products
      {
        assert s.rows[i] in lines;
        var k :| 0 <= k < |lines| && lines[k] == s.rows[i];
        assert v.products[k] == LineViewOf(s.rows[i], s.catalog[s.rows[i].product]);
      }
    }
  }

  /** After a clear, the caller's cart exists and is empty, so both totals are null. */
  lemma ViewAfterClear(s: Store, u: UserId)
    requires ProductsKnown(s.rows, s.catalog)
    ensures ProductsKnown(ClearCart(s, u).store.rows, s.catalog)
    ensures ViewCart(ClearCart(s, u).store, u).result == Ok(CartView([], Null, Null))
  {
  }

  lemma AddPreservesInvariants(s: Store, u: UserId, p: ProductId)
    requires WellFormed(s) && PricesConsistent(s)
    ensures WellFormed(AddToCart(s, u, p).store) && PricesConsistent(AddToCart(s, u, p).store)
  {
  }

  lemma SetQuantityPreservesInvariants(s: Store, u: UserId, p: ProductId, body: PatchBody)
    requires WellFormed(s) && PricesConsistent(s)
    ensures WellFormed(SetQuantity(s, u, p, body).store)
    ensures PricesConsistent(SetQuantity(s, u, p, body).store)
  {
  }

  lemma RemovePreservesInvariants(s: Store, u: UserId, p: ProductId)
    requires WellFormed(s) && PricesConsistent(s)
    ensures WellFormed(RemoveFromCart(s, u, p).store)
    ensures PricesConsistent(RemoveFromCart(s, u, p).store)
  {
  }

  lemma ClearPreservesInvariants(s: Store, u: UserId)
    requires WellFormed(s) && PricesConsistent(s)
    ensures WellFormed(ClearCart(s, u).store) && PricesConsistent(ClearCart(s, u).store)
  {
    FilterKeepsUnique(s.rows, NotOfCart(u));
    var rows' := ClearCart(s, u).store.rows;
    assert forall i :: 0 <= i < |rows'| ==> rows'[i] in s.rows;
  }

  /** The worked example of the cart: a product priced 100 added twice, viewed, cleared. */
  lemma AddTwiceThenClearExample()
    ensures var s0 := Store(map[1 := Product("Product 1", "product_1", 100, "Category 1", "Subcategory 1")], {}, []);
            var a := AddToCart(s0, 7, 1);
            var b := AddToCart(a.store, 7, 1);
            var c := ClearCart(b.store, 7);
            && a.result.Ok? && a.result.value.quantity == 1 && a.result.value.price == 100
            && b.result.Ok? && b.result.value.quantity == 2 && b.result.value.price == 200
            && |b.store.rows| == 1
            && ViewCart(b.store, 7).result.value.totalQuantity == Amount(2)
            && ViewCart(b.store, 7).result.value.totalPrice == Amount(200)
            && ViewCart(c.store, 7).result.value == CartView([], Null, Null)
  {
  }
}
