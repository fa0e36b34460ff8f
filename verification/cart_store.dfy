/** The stored state behind the shopping cart: the catalog, the set of users that own a cart,
    and the CartItem table. */
module CartStore {
  import opened Outcomes
  import opened Catalog

  type UserId = nat

  /** One CartItem row. Its cart is named by the cart's owner, since a cart is one-to-one
      with its user. quantity is product_quantity, price the stored product_price. */
  datatype Row = Row(user: UserId, product: ProductId, quantity: nat, price: int)

  /** carts is a set because the one-to-one field admits at most one cart per user.
      rows is the CartItem table in insertion order. No database constraint makes
      (cart, product) unique; that is left to the get-or-create in the add operation. */
  datatype Store = Store(catalog: map<ProductId, Product>, carts: set<UserId>, rows: seq<Row>)

  /** The (cart, product) pair that the endpoints look a line up by. */
  function Key(r: Row): (key: (UserId, ProductId))
  {
    (r.user, r.product)
  }

  /** CartItem.save: the stored line price is recomputed from the quantity on every save. */
  function Save(r: Row, unitPrice: int): (saved: Row)
    ensures Key(saved) == Key(r) && saved.quantity == r.quantity
    ensures saved.price == r.quantity * unitPrice
  {
    r.(price := r.quantity * unitPrice)
  }

  /** The row get-or-create inserts for (u, p): the field defaults, then saved. */
  function NewLine(u: UserId, p: ProductId, unitPrice: int): (r: Row)
    ensures Key(r) == (u, p)
    ensures r.quantity == 0 && r.price == 0
  {
    Save(Row(u, p, 0, 0), unitPrice)
  }

  /** Index of the first row keyed (u, p), if any. */
  function FindLine(rows: seq<Row>, u: UserId, p: ProductId): (found: Option<nat>)
    ensures found.Some? ==> found.value < |rows| && Key(rows[found.value]) == (u, p)
    ensures found.Some? ==> forall j :: 0 <= j < found.value ==> Key(rows[j]) != (u, p)
    ensures found.None? <==> forall i :: 0 <= i < |rows| ==> Key(rows[i]) != (u, p)
    decreases |rows|
  {
    if |rows| == 0 then None
    else if Key(rows[0]) == (u, p) then Some(0)
    else
      match FindLine(rows[1..], u, p)
      case None => None
      case Some(k) => Some(k + 1)
  }

  /** What a lookup that expects exactly one row finds. */
  datatype LineLookup = Missing | Unique(index: nat) | Duplicated

  /** The single-row lookup of the line (u, p): absent, exactly one, or several rows. */
  function Lookup(rows: seq<Row>, u: UserId, p: ProductId): (l: LineLookup)
    ensures l.Missing? <==> forall i :: 0 <= i < |rows| ==> Key(rows[i]) != (u, p)
    ensures l.Unique? ==> l.index < |rows| && Key(rows[l.index]) == (u, p)
    ensures l.Unique? ==> forall j :: 0 <= j < |rows| && j != l.index ==> Key(rows[j]) != (u, p)
    ensures l.Duplicated? ==>
              exists i, j :: 0 <= i < j < |rows| && Key(rows[i]) == (u, p) && Key(rows[j]) == (u, p)
  {
    match FindLine(rows, u, p)
    case None => Missing
    case Some(i) =>
      match FindLine(rows[i + 1..], u, p)
      case None =>
        assert forall j :: i < j < |rows| ==> rows[j] == rows[i + 1..][j - i - 1];
        Unique(i)
      case Some(k) =>
        assert Key(rows[i + 1 + k]) == (u, p);
        Duplicated
  }

  /** The row filters the operations use, as the ORM's filter() would express them. */
  datatype RowFilter = OfCart(user: UserId) | NotOfCart(user: UserId) | NotOfProduct(product: ProductId)

  predicate Matches(f: RowFilter, r: Row)
  {
    match f
    case OfCart(u) => r.user == u
    case NotOfCart(u) => r.user != u
    case NotOfProduct(p) => r.product != p
  }

  /** The rows a filter keeps, in table order. */
  function Filter(rows: seq<Row>, f: RowFilter): (kept: seq<Row>)
    ensures |kept| <= |rows|
    ensures forall r :: r in kept <==> r in rows && Matches(f, r)
  {
    if |rows| == 0 then []
    else (if Matches(f, rows[0]) then [rows[0]] else []) + Filter(rows[1..], f)
  }

  /** The lines of u's cart: cart.cart_items.all(). */
  function CartRows(rows: seq<Row>, u: UserId): (lines: seq<Row>)
  {
    Filter(rows, OfCart(u))
  }

  /** SUM of product_quantity over some rows. */
  function SumQuantity(rows: seq<Row>): (total: int)
  {
    if |rows| == 0 then 0 else rows[0].quantity + SumQuantity(rows[1..])
  }

  /** SUM of product_price over some rows. */
  function SumPrice(rows: seq<Row>): (total: int)
  {
    if |rows| == 0 then 0 else rows[0].price + SumPrice(rows[1..])
  }

  /** No two rows share a (cart, product) key. */
  predicate UniqueLines(rows: seq<Row>)
  {
    forall i, j :: 0 <= i < j < |rows| ==> Key(rows[i]) != Key(rows[j])
  }

  /** Every row's product is in the catalog. */
  predicate ProductsKnown(rows: seq<Row>, catalog: map<ProductId, Product>)
  {
    forall i :: 0 <= i < |rows| ==> rows[i].product in catalog
  }

  /** Both foreign keys of every row resolve. */
  predicate ForeignKeysHold(s: Store)
  {
    && (forall i :: 0 <= i < |s.rows| ==> s.rows[i].user in s.carts)
    && ProductsKnown(s.rows, s.catalog)
  }

  /** Every row has been given at least one unit. */
  predicate QuantitiesPositive(rows: seq<Row>)
  {
    forall i :: 0 <= i < |rows| ==> rows[i].quantity >= 1
  }

  /** The state the cart operations keep. */
  predicate WellFormed(s: Store)
  {
    UniqueLines(s.rows) && ForeignKeysHold(s) && QuantitiesPositive(s.rows)
  }

  /** Every stored line price equals quantity times the product's current unit price.
      Saving a line establishes this for that line; changing a product's price does not
      touch its lines. */
  predicate PricesConsistent(s: Store)
  {
    forall i :: 0 <= i < |s.rows| && s.rows[i].product in s.catalog ==>
      s.rows[i].price == s.rows[i].quantity * s.catalog[s.rows[i].product].price
  }
}
