/** The part of the product catalog the cart reads: a product's serialised fields and its
    unit price. Prices are whole numbers here, not floats. */
module Catalog {
  import opened Outcomes

  type ProductId = nat

  /** A product as the cart endpoints serialise it; category and subcategory appear by name. */
  datatype Product = Product(
    name: string,
    slug: string,
    price: int,
    category: string,
    subcategory: string)

  /** The lower bound of Product.price's MinValueValidator. */
  const MinProductPrice: int := 1

  /** Validation of a product price, as a model form or full_clean applies it. */
  function ValidateProductPrice(price: int): (r: Result<int>)
    ensures r.Ok? <==> price >= MinProductPrice
    ensures r.Ok? ==> r.value == price
    ensures r.Err? ==> r.error == ValidationError(BelowMinimum)
  {
    if price < MinProductPrice then Err(ValidationError(BelowMinimum)) else Ok(price)
  }
}
