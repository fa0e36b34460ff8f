# Grocery store shopping cart — a Dafny model

This project models the per-user shopping cart of the grocery store backend. Each user has at
most one cart. A cart holds CartItem lines, each with a product, a quantity (`product_quantity`)
and a stored line price (`product_price`). Five endpoints act on the cart:

- add one unit of a product (POST `products/{id}/shopping_cart`);
- set a line's quantity (PATCH on the same route);
- remove a line (DELETE on the same route);
- view the cart with its totals (GET `shopping_cart`);
- clear the cart (DELETE `shopping_cart`).

The model also covers the cascading deletes of carts and products, and a change of a product's
price, which leaves saved line prices stale.

The state is `CartStore.Store`. It holds the catalog (`map<ProductId, Product>`), the set of
users that own a cart, and the CartItem table as a sequence of rows. A cart is named by its
user: the one-to-one field makes that a set.

The table is a sequence rather than a map keyed by (cart, product) because the source puts no
unique constraint on that pair. "At most one line per product" is kept only by the
get-or-create in the add endpoint. The model therefore proves it as a preserved invariant
(`CartStore.UniqueLines`). A lookup that finds several rows ends in `MultipleObjectsReturned`,
as the ORM's single-row get does. `CartProperties.NoDuplicateLines` shows this cannot happen
in a well-formed store.

Each endpoint is a pure function `Store -> Outcome<T>`, where an outcome is the new store plus
`Ok(response)` or `Err(NotFound | ValidationError(reason) | MultipleObjectsReturned)`. The store
comes back on errors too. Every endpoint first gets or creates the caller's cart, and only then
looks up the product and the line, so a failed request can still leave a newly created empty
cart behind.

Modules: `Outcomes` (result types), `Catalog` (product, price validator), `CartStore` (rows,
lookup, filter, sums, invariants), `RowLemmas` (filter and sum facts), `Serializers` (request
validation, response shapes), `CartViews` (the five endpoints), `CartProperties` (their
properties), `Lifecycle` (cascades, price changes).

The cart view takes no request body. Its totals are computed from the stored lines only, so a
client cannot supply them.

Three behaviours of the code are easy to miss, and the model follows the code in each:

- Adding a product that does not exist still creates the caller's cart before answering
  NotFound. Python evaluates the keyword arguments left to right, so the cart is fetched
  before the product.
- The two totals are left out of the response when the request itself has just created the
  cart. The fresh instance carries no SUM annotation, so the read-only fields are skipped.
  They are null for an existing cart with no lines, and the sums otherwise.
- A quantity of 0 is refused by the field's `min_value` of 1, which runs before the
  serializer's own check. That check is on falsiness, so it only sees missing and null
  quantities. Both give a ValidationError.

## Model

| member | source | states |
|---|---|---|
| Catalog.ValidateProductPrice | grocery_store/products/models.py:53 | a product price is accepted exactly when it is at least 1, and is then kept unchanged; otherwise a validation error |
| CartStore.Save | grocery_store/products/models.py:124-126 | saving a line keeps its cart, product and quantity and sets its stored price to quantity times the unit price |
| CartStore.NewLine | grocery_store/products/models.py:116-126 | a line that get-or-create inserts starts with quantity 0 and line price 0 |
| CartStore.Lookup | grocery_store/api/views.py:57-62 | a single-row lookup of (cart, product) is Missing exactly when no row has that key; Unique(i) gives the only row with it; Duplicated only when two rows share it |
| CartStore.Filter | grocery_store/api/views.py:172-175 | a row is in the result exactly when it is in the table and matches the filter, and the result is never longer than the table |
| RowLemmas.FilterCounts | grocery_store/api/views.py:172-175 | a filter keeps each matching row exactly as many times as the table holds it, and no other row |
| Serializers.QuantityField | grocery_store/products/models.py:116-121 | field validation passes a missing or null quantity through as absent, accepts every integer in 1..32767 unchanged, and refuses anything else |
| Serializers.ValidateData | grocery_store/api/serializers.py:73-76 | validated data is refused exactly when the quantity is missing or zero, and is otherwise returned unchanged |
| Serializers.ValidateQuantity | grocery_store/api/serializers.py:64-76 | a body is valid exactly when it carries an integer quantity in 1..32767, and then yields that quantity; every refusal is a ValidationError |
| Serializers.Listing | grocery_store/api/serializers.py:94-97 | the listing has one entry per cart line, in order, each being that line's product, quantity and line price |
| Serializers.ValidateBody | grocery_store/api/views.py:121-126 | a body that is not a JSON object is refused before any field is read; an object is valid exactly when its quantity is an integer in 1..32767 |
| CartViews.EnsureCart | grocery_store/api/views.py:51-55 | get-or-create of the caller's cart: afterwards the caller owns a cart, no other cart is added, and catalog and rows are unchanged |
| CartViews.AddToCart | grocery_store/api/views.py:110-119 | add creates the caller's cart, fails with NotFound exactly for an unknown product, and on success answers with the saved line for (caller, product) |
| CartViews.SetQuantity | grocery_store/api/views.py:120-128 | set-quantity succeeds exactly when the product exists, the caller has one line for it and the body is valid; the line then has the sent quantity priced at the unit price; any failure leaves the rows unchanged |
| CartViews.RemoveFromCart | grocery_store/api/views.py:129-130 | remove succeeds exactly when the caller has one line for the product; afterwards there is one row fewer and none for that key |
| CartViews.ViewCart | grocery_store/api/views.py:137-160 | view lists as many lines as the cart has; the totals are null exactly when an existing cart has no lines, and absent when the request created the cart |
| CartViews.ClearCart | grocery_store/api/views.py:171-176 | clear keeps exactly the rows of other users and always succeeds |
| CartProperties.NoDuplicateLines | grocery_store/api/views.py:112-115 | in a well-formed store a line lookup never finds two rows |
| CartProperties.AddCreatesLine | grocery_store/api/views.py:112-117 | adding a product without a line appends exactly one row, with quantity 1 and the unit price, and that row becomes the unique line |
| CartProperties.AddIncrementsLine | grocery_store/api/views.py:112-117 | adding a product that has a line raises that line's quantity by one in place and re-prices it; no row is added, no other row changes |
| CartProperties.SetQuantityUpdatesLine | grocery_store/api/serializers.py:78-80 | a valid set-quantity rewrites only that line, to the sent quantity at quantity times unit price, and answers with the saved line |
| CartProperties.RemoveDeletesLine | grocery_store/api/views.py:129 | remove deletes exactly the caller's line for that product and keeps the order of the rest |
| CartProperties.MissingLineIsNotFound | grocery_store/api/views.py:57-62 | with no line for (caller, product), set-quantity and remove answer NotFound for any body; the only change is the caller's cart being created |
| CartProperties.InvalidQuantityChangesNothing | grocery_store/api/views.py:121-127 | an invalid body is refused with its validation error before any save, so the line keeps its quantity and price |
| CartProperties.SetQuantityReadsOnlyQuantity | grocery_store/api/serializers.py:69-71 | two bodies with the same quantity give the same outcome, whatever other fields they carry |
| CartProperties.QuantityValidation | grocery_store/api/serializers.py:73-76 | missing and null quantities are refused by the serializer's own check, and 0 already by the field's minimum of 1 |
| CartProperties.OtherCartsUnchanged | grocery_store/api/views.py:51-62 | add, set-quantity, remove and clear leave every other user's lines exactly as they were |
| CartProperties.AddRaisesTotals | grocery_store/products/models.py:124-126 | with consistent prices, an add raises the caller's total quantity by 1 and total price by the unit price |
| CartProperties.SetQuantityMovesTotals | grocery_store/api/views.py:126-127 | a set-quantity moves the caller's totals by the change of that one line |
| CartProperties.RemoveLowersTotals | grocery_store/api/views.py:129-130 | a remove lowers the caller's totals by exactly the removed line |
| CartProperties.ClearEmptiesCart | grocery_store/api/views.py:172-175 | after a clear the caller's cart has no line, and clearing again changes nothing |
| CartProperties.RemoveTwiceIsNotFound | grocery_store/api/views.py:57-62 | removing the same line a second time answers NotFound and changes nothing |
| CartProperties.AddThenRemoveRestores | grocery_store/api/views.py:110-130 | adding a product new to the cart and then removing it restores the rows; only the cart's creation remains |
| CartProperties.ViewTotalsMatchListing | grocery_store/api/views.py:137-142 | the totals of a non-empty existing cart equal the sums of the quantities and line prices of the lines the same response lists |
| CartProperties.ViewListsExactlyCartLines | grocery_store/api/serializers.py:94-97 | every listed line is a line of the caller's cart, and every line of the caller's cart is listed |
| CartProperties.ViewAfterClear | grocery_store/api/views.py:171-176 | viewing a cart just cleared gives no lines and null totals |
| CartProperties.AddPreservesInvariants | grocery_store/api/views.py:112-117 | add keeps lines unique per (cart, product), foreign keys resolved, quantities positive and line prices consistent |
| CartProperties.SetQuantityPreservesInvariants | grocery_store/api/views.py:120-128 | set-quantity keeps the same invariants |
| CartProperties.RemovePreservesInvariants | grocery_store/api/views.py:129 | remove keeps the same invariants |
| CartProperties.ClearPreservesInvariants | grocery_store/api/views.py:171-175 | clear keeps the same invariants |
| CartProperties.AddTwiceThenClearExample | grocery_store/tests/conftest.py:20-28 | with a product priced 100, two adds give quantity 1 at 100, then 2 at 200 in one line; the view totals 2 and 200; after a clear the view is empty with null totals |
| Lifecycle.DeleteCart | grocery_store/products/models.py:105-110 | deleting a cart removes it and exactly the rows of that cart |
| Lifecycle.DeleteProduct | grocery_store/products/models.py:111-115 | deleting a product removes it, keeps every other product's record unchanged, and keeps exactly the rows that do not refer to it |
| Lifecycle.CascadeCounts | grocery_store/products/models.py:105-115 | both cascading deletes keep each surviving row as many times as before and drop every row of the deleted cart or product |
| Lifecycle.ChangeProductPrice | grocery_store/products/models.py:49-59 | saving a product's new price changes only that product and touches no cart row |
| Lifecycle.DeleteCartPreservesInvariants | grocery_store/products/models.py:105-110 | deleting a cart keeps the store well-formed and its prices consistent |
| Lifecycle.DeleteProductPreservesInvariants | grocery_store/products/models.py:111-115 | deleting a product keeps the store well-formed and its prices consistent |
| Lifecycle.DeleteCartCascades | grocery_store/products/models.py:89-93 | after deleting a cart, or its user, no line of it remains and every other cart keeps its lines |
| Lifecycle.PriceChangeLeavesLinesStale | grocery_store/products/models.py:124-126 | for every store with consistent prices, changing the price of a product that a line with a positive quantity refers to leaves that line's saved price as it was, and the prices are no longer consistent |
| Lifecycle.PriceChangeExample | grocery_store/products/models.py:124-126 | a concrete store: two units saved at 100 each keep the line price 200 after the unit price becomes 150 |
| Lifecycle.AddRepricesLine | grocery_store/products/models.py:124-126 | after an add, the one stored line for (caller, product) is priced at its quantity times the current unit price, however stale it was before |

## Left out

- Authentication, permissions, HTTP routing and status codes: every request comes from an authenticated user, and only the outcome classes are modelled.
- The catalog read endpoints and the nested category, subcategory and image serialisation only copy fields. The product's image list is not part of `Product`.
- Prices are integers, not floating-point numbers, so float rounding is not modelled.
- Concurrency: two simultaneous adds race on get-or-create then increment. The model is sequential.
- CartViews.AddToCart: increments without an upper bound. A storage-level check on the small-integer column, which some databases apply, is not modelled.
- Serializers.QuantityField: uses 32767, the default range of a positive small integer. A MySQL backend would use 65535.
- The JSON body is taken as already decoded. A body that is not an object is one case, `NonObject`. String-to-integer coercion is folded into `Given` and `NotInteger`.
- A null `product_quantity` in a stored row: the column allows it but none of these endpoints writes it, so a stored quantity is a `nat`.
- The order of the listed lines: the source gives no ordering, and the model lists them in insertion order.
- CartProperties.ViewListsExactlyCartLines: states membership in both directions, not multiplicity. Multiplicity follows from `UniqueLines` in a well-formed store.
- Lifecycle.ChangeProductPrice: does not run the price validator, because a plain ORM save does not run it. `Catalog.ValidateProductPrice` models the validator on its own.
- Image storage, the admin registrations, migrations and the user model (an opaque identifier here).
