/** Request validation and response shapes of the cart endpoints. */
module Serializers {
  import opened Outcomes
  import opened Catalog
  import opened CartStore

  /** Upper end of the range of a positive small-integer column, which the framework turns
      into the max_value of the quantity field. */
  const SmallIntMax: int := 32767

  /** The product_quantity member of a set-quantity body, after JSON decoding. */
  datatype QuantityInput = Omitted | JsonNull | NotInteger | Given(n: int)

  /** A set-quantity request body: a JSON object with the quantity plus whatever else the
      client sent, or some other JSON value (a list, a string, a number). */
  datatype PatchBody = JsonObject(quantity: QuantityInput, otherFields: map<string, string>) | NonObject

  /** Field-level validation of product_quantity (nullable integer field, min 1, max
      SmallIntMax). None stands for "key absent or null" in the validated data. */
  function QuantityField(q: QuantityInput): (r: Result<Option<int>>)
    ensures r.Ok? && r.value.Some? ==> 1 <= r.value.value <= SmallIntMax
    ensures r.Ok? && r.value.Some? ==> q == Given(r.value.value)
    ensures r.Ok? && r.value.None? <==> q.Omitted? || q.JsonNull?
    ensures q.Given? && 1 <= q.n <= SmallIntMax ==> r == Ok(Some(q.n))
  {
    match q
    case Omitted => Ok(None)
    case JsonNull => Ok(None)
    case NotInteger => Err(ValidationError(NotAnInteger))
    case Given(n) =>
      if n < 1 then Err(ValidationError(BelowMinimum))
      else if n > SmallIntMax then Err(ValidationError(AboveMaximum))
      else Ok(Some(n))
  }

  /** The serializer's validate(): a missing or falsy quantity is refused, anything else is
      returned as it came. */
  function ValidateData(data: Option<int>): (r: Result<Option<int>>)
    ensures r.Ok? <==> data.Some? && data.value != 0
    ensures r.Ok? ==> r.value == data
    ensures r.Err? ==> r.error == ValidationError(QuantityRequired)
  {
    if data.None? || data.value == 0 then Err(ValidationError(QuantityRequired)) else Ok(data)
  }

  /** is_valid() on a set-quantity body: field validation, then validate(). */
  function ValidateQuantity(q: QuantityInput): (r: Result<nat>)
    ensures r.Ok? <==> q.Given? && 1 <= q.n <= SmallIntMax
    ensures r.Ok? ==> r.value == q.n
    ensures r.Err? ==> r.error.ValidationError?
  {
    match QuantityField(q)
    case Err(e) => Err(e)
    case Ok(data) =>
      match ValidateData(data)
      case Err(e) => Err(e)
      case Ok(checked) => Ok(checked.value)
  }

  /** is_valid() on the whole body: a body that is not an object is refused before any field
      is read; otherwise its quantity is validated. */
  function ValidateBody(body: PatchBody): (r: Result<nat>)
    ensures r.Ok? <==> body.JsonObject? && body.quantity.Given? && 1 <= body.quantity.n <= SmallIntMax
    ensures r.Ok? ==> r.value == body.quantity.n
    ensures body.NonObject? ==> r == Err(ValidationError(NotADictionary))
    ensures r.Err? ==> r.error.ValidationError?
  {
    match body
    case NonObject => Err(ValidationError(NotADictionary))
    case JsonObject(q, _) => ValidateQuantity(q)
  }

  /** CartItemSerializer: the nested product, product_quantity and product_price. */
  datatype LineView = LineView(product: Product, quantity: nat, price: int)

  function LineViewOf(r: Row, product: Product): (view: LineView)
  {
    LineView(product, r.quantity, r.price)
  }

  /** A cart total: omitted from the response, null, or a number. */
  datatype Total = Absent | Null | Amount(value: int)

  /** ShoppingCartSerializer: the listed lines and the two read-only totals. */
  datatype CartView = CartView(products: seq<LineView>, totalQuantity: Total, totalPrice: Total)

  /** The serialised lines of some rows, in the same order. */
  function Listing(rows: seq<Row>, catalog: map<ProductId, Product>): (views: seq<LineView>)
    requires ProductsKnown(rows, catalog)
    ensures |views| == |rows|
    ensures forall k :: 0 <= k < |rows| ==> views[k] == LineViewOf(rows[k], catalog[rows[k].product])
  {
    seq(|rows|, k requires 0 <= k < |rows| => LineViewOf(rows[k], catalog[rows[k].product]))
  }

  /** SUM over the listed quantities, computed from the response itself. */
  function ListedQuantity(views: seq<LineView>): (total: int)
  {
    if |views| == 0 then 0 else views[0].quantity + ListedQuantity(views[1..])
  }

  /** SUM over the listed line prices, computed from the response itself. */
  function ListedPrice(views: seq<LineView>): (total: int)
  {
    if |views| == 0 then 0 else views[0].price + ListedPrice(views[1..])
  }

  /** An SQL SUM over a cart's lines: NULL when there are none. */
  function Aggregate(lines: seq<Row>, sum: int): (total: Total)
  {
    if |lines| == 0 then Null else Amount(sum)
  }
}
