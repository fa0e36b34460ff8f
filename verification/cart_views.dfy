/** The five cart endpoints. Each takes the store and the requesting user and returns the
    new store together with the response or the error. The store is returned on errors too:
    the caller's cart is created before anything else is looked up, and that creation is
    kept when the request then fails. */
module CartViews {
  import opened Outcomes
  import opened Catalog
  import opened CartStore
  import opened Serializers

  datatype Outcome<+T> = Outcome(store: Store, result: Result<T>)

  /** get-or-create of the caller's cart. */
  function EnsureCart(s: Store, u: UserId): (s': Store)
    ensures s'.carts == s.carts + {u}
    ensures s'.catalog == s.catalog && s'.rows == s.rows
  {
    if u in s.carts then s else s.(carts := s.carts + {u})
  }

  /** POST products/{p}/shopping_cart: get or create the caller's cart, look the product up,
      get or create the line and add one unit to it. */
  function AddToCart(s: Store, u: UserId, p: ProductId): (o: Outcome<LineView>)
    ensures o.store.catalog == s.catalog && o.store.carts == s.carts + {u}
    ensures p !in s.catalog ==> o == Outcome(EnsureCart(s, u), Err(NotFound))
    ensures o.result.Ok? ==>
              exists i :: 0 <= i < |o.store.rows| && Key(o.store.rows[i]) == (u, p)
                          && o.result.value == LineViewOf(o.store.rows[i], s.catalog[p])
    ensures o.result.Ok? <==> p in s.catalog && !Lookup(s.rows, u, p).Duplicated?
    ensures o.result == Err(NotFound) <==> p !in s.catalog
    ensures o.result.Err? ==> o.store == EnsureCart(s, u)
  {
    var s1 := EnsureCart(s, u);
    if p !in s1.catalog then Outcome(s1, Err(NotFound))
    else
      var product := s1.catalog[p];
      match Lookup(s1.rows, u, p)
      case Duplicated => Outcome(s1, Err(MultipleObjectsReturned))
      case Missing =>
        var created := NewLine(u, p, product.price);
        var line := Save(created.(quantity := created.quantity + 1), product.price);
        var rows' := s1.rows + [line];
        assert rows'[|s1.rows|] == line;
        Outcome(s1.(rows := rows'), Ok(LineViewOf(line, product)))
      case Unique(i) =>
        var line := Save(s1.rows[i].(quantity := s1.rows[i].quantity + 1), product.price);
        assert s1.rows[i := line][i] == line;
        Outcome(s1.(rows := s1.rows[i := line]), Ok(LineViewOf(line, product)))
  }

  /** PATCH products/{p}/shopping_cart: look the caller's line up, then validate the body,
      then overwrite the quantity and save. */
  function SetQuantity(s: Store, u: UserId, p: ProductId, body: PatchBody): (o: Outcome<LineView>)
    ensures o.store.catalog == s.catalog && o.store.carts == s.carts + {u}
    ensures |o.store.rows| == |s.rows|
    ensures o.result.Err? ==> o.store == EnsureCart(s, u)
    ensures o.result.Ok? <==> p in s.catalog && Lookup(s.rows, u, p).Unique?
                              && ValidateBody(body).Ok?
    ensures o.result.Ok? ==> o.result.value.quantity == body.quantity.n
    ensures o.result.Ok? ==> o.result.value.price == body.quantity.n * s.catalog[p].price
  {
    var s1 := EnsureCart(s, u);
    if p !in s1.catalog then Outcome(s1, Err(NotFound))
    else
      var product := s1.catalog[p];
      match Lookup(s1.rows, u, p)
      case Missing => Outcome(s1, Err(NotFound))
      case Duplicated => Outcome(s1, Err(MultipleObjectsReturned))
      case Unique(i) =>
        match ValidateBody(body)
        case Err(e) => Outcome(s1, Err(e))
        case Ok(q) =>
          var line := Save(s1.rows[i].(quantity := q), product.price);
          Outcome(s1.(rows := s1.rows[i := line]), Ok(LineViewOf(line, product)))
  }

  /** DELETE products/{p}/shopping_cart: look the caller's line up and delete it. */
  function RemoveFromCart(s: Store, u: UserId, p: ProductId): (o: Outcome<()>)
    ensures o.store.catalog == s.catalog && o.store.carts == s.carts + {u}
    ensures o.result.Err? ==> o.store == EnsureCart(s, u)
    ensures o.result.Ok? <==> p in s.catalog && Lookup(s.rows, u, p).Unique?
    ensures o.result.Ok? ==> |o.store.rows| == |s.rows| - 1
    ensures o.result.Ok? ==> forall i :: 0 <= i < |o.store.rows| ==> Key(o.store.rows[i]) != (u, p)
  {
    var s1 := EnsureCart(s, u);
    if p !in s1.catalog then Outcome(s1, Err(NotFound))
    else
      match Lookup(s1.rows, u, p)
      case Missing => Outcome(s1, Err(NotFound))
      case Duplicated => Outcome(s1, Err(MultipleObjectsReturned))
      case Unique(i) =>
        var rest := s1.rows[..i] + s1.rows[i + 1..];
        assert forall k :: 0 <= k < |rest| ==> rest[k] == s1.rows[if k < i then k else k + 1];
        Outcome(s1.(rows := rest), Ok(()))
  }

  /** GET shopping_cart: the caller's lines with the two aggregate totals. A cart that
      already exists is read with SUM annotations, which are NULL over no lines; a cart the
      request has just created carries no annotation, so both totals are left out. */
  function ViewCart(s: Store, u: UserId): (o: Outcome<CartView>)
    requires ProductsKnown(s.rows, s.catalog)
    ensures o.store == EnsureCart(s, u) && o.result.Ok?
    ensures u !in s.carts ==> o.result.value == CartView([], Absent, Absent)
    ensures u in s.carts ==>
              |o.result.value.products| == |CartRows(s.rows, u)|
              && (o.result.value.totalQuantity == Null <==> |CartRows(s.rows, u)| == 0)
              && (o.result.value.totalPrice == Null <==> |CartRows(s.rows, u)| == 0)
  {
    if u in s.carts then
      var lines := CartRows(s.rows, u);
      assert ProductsKnown(lines, s.catalog) by {
        forall k | 0 <= k < |lines|
          ensures lines[k].product in s.catalog
        {
          assert lines[k] in s.rows;
        }
      }
      var view := CartView(
        Listing(lines, s.catalog),
        Aggregate(lines, SumQuantity(lines)),
        Aggregate(lines, SumPrice(lines)));
      Outcome(s, Ok(view))
    else
      Outcome(EnsureCart(s, u), Ok(CartView([], Absent, Absent)))
  }

  /** DELETE shopping_cart: get or create the caller's cart and delete all its lines. */
  function ClearCart(s: Store, u: UserId): (o: Outcome<()>)
    ensures o.store.catalog == s.catalog && o.store.carts == s.carts + {u}
    ensures o.result.Ok?
    ensures forall r :: r in o.store.rows <==> r in s.rows && r.user != u
  {
    var s1 := EnsureCart(s, u);
    Outcome(s1.(rows := Filter(s1.rows, NotOfCart(u))), Ok(()))
  }
}
