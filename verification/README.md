# Storefront core in Dafny

A model of the core of a small Next.js storefront: products, carts, orders and reviews, stored in a Postgres database reached through Supabase. The model covers:

- the client-side cart that the `CartContext` provider keeps in React state;
- the server-side cart (`POST /api/cart`, one row per buyer and product);
- order placement (`POST /api/order`);
- order cancellation with restocking (`POST /api/order/cancel`);
- the review endpoints (`GET`/`POST`/`PUT`/`DELETE /api/review`);
- the catalog listing (`GET /api/products`);
- the products page's category menu and its category/search filter.

Every request handler is a pure function. Its inputs are the session's user id (`None` when there is no session), the request fields, a description of which database calls fail, and the database. It returns the HTTP status, the JSON body and the database afterwards. The database (`Store.Db`) holds the tables as maps and sequences. A single counter `nextId` stands in for the database's id generator. JavaScript's falsy checks (`!x`) are modelled by `Basics.Truthy`: the field must be present and must not be its type's falsy value. Database ids are at least 1, so for a numeric id the value 0 stands for every falsy value. The session's user id and the review listing's `product_id` query parameter are strings, and for them the falsy value is `""`.

The placement handler only reads stock and never writes it, while cancellation adds the quantities back. `OrderLifecycle.PlaceThenCancelRaisesStock` states the consequence. Cancellation's restock loop runs without a transaction. A failure at some line item leaves the status change and the restocks of every earlier line item in place, and the model keeps that behaviour as written (`OrderCancel.FailureKeepsPartialWrites`, `OrderCancel.PartialRestockExample`).

Modules, one per file:

| file | module | models |
|---|---|---|
| basics.dfy | `Basics` | `Option`, `Result`, truthiness, `||` defaults, `Array.prototype.filter` and its laws |
| store.dfy | `Store` | table rows, the database record, response bodies, shared table queries |
| cart_context.dfy | `CartContext` | the client cart reducer |
| cart_api.dfy | `CartApi` | the server cart dispatcher |
| order_place.dfy | `OrderPlace` | order placement |
| order_cancel.dfy | `OrderCancel` | order cancellation and restocking |
| order_lifecycle.dfy | `OrderLifecycle` | placement followed by cancellation |
| review_api.dfy | `ReviewApi` | review listing, creation, update and soft delete |
| catalog_api.dfy | `CatalogApi` | the catalog listing and its projection |
| products_page.dfy | `ProductsPage` | category menu and product filter |

## Model

| member | source | states |
|---|---|---|
| CartContext.IsProductInCart | context/CartContext.js:11-13 | true exactly when some cart line has the product's id |
| CartContext.GetProductQuantity | context/CartContext.js:69-72 | 0 for a product not in the cart; otherwise the quantity on that product's line |
| CartContext.QuantityZeroIffAbsent | context/CartContext.js:69-72 | in a cart whose quantities are all positive, the reported quantity is 0 exactly when the product is absent, and positive otherwise |
| CartContext.AddProduct | context/CartContext.js:15-31 | a new product is appended with quantity 1 and the other lines are kept; a product already present gets one more unit on its own line, and nothing else changes |
| CartContext.AddProductValid | context/CartContext.js:15-31 | adding keeps the cart free of duplicate ids and every quantity positive |
| CartContext.AddProductTotalItems | context/CartContext.js:15-31 | adding any product raises the item count by exactly one |
| CartContext.AddNewProductTotalPrice | context/CartContext.js:15-31 | adding a product not yet in the cart raises the total price by that product's price |
| CartContext.AddStock | context/CartContext.js:33-41 | the named product's line gains one unit and every other line is unchanged; a product not in the cart leaves the cart as it was |
| CartContext.AddStockValid | context/CartContext.js:33-41 | adding a unit keeps the cart free of duplicates with positive quantities |
| CartContext.AddStockTotalPrice | context/CartContext.js:33-41 | adding a unit raises the total price by the product's price when it is in the cart, and by 0 otherwise |
| CartContext.RemoveStock | context/CartContext.js:43-53 | the result has only positive quantities, keeps the order of the cart with one unit taken from the product, and keeps every line whose quantity is still positive |
| CartContext.RemoveStockEffect | context/CartContext.js:43-53 | a line above 1 loses one unit in place; a line at 1 is removed and the rest keep their order |
| CartContext.RemoveStockAbsent | context/CartContext.js:43-53 | removing a unit of a product not in a valid cart changes nothing |
| CartContext.RemoveStockValid | context/CartContext.js:43-53 | removing a unit keeps the cart free of duplicates with positive quantities |
| CartContext.RemoveStockUndoesAddStock | context/CartContext.js:33-53 | on a valid cart, removing a unit undoes adding one |
| CartContext.RemoveProduct | context/CartContext.js:55-59 | the product is gone, every other line is kept as often as it occurs, and the order is preserved |
| CartContext.RemoveProductValid | context/CartContext.js:55-59 | removing a product keeps the cart valid |
| CartContext.ClearCart | context/CartContext.js:61 | no product is in the cleared cart |
| CartContext.TotalItemsBump | context/CartContext.js:63-64 | changing one product's quantity by d changes the item count by d times the number of lines with that id |
| CartContext.TotalPriceBump | context/CartContext.js:66-67 | in a cart with unique ids, changing one product's quantity by d changes the total price by d times its price, and by 0 when it is absent |
| CartApi.FetchRow | app/api/cart/route.js:55-62 | the single-row fetch yields the stored quantity, the "no rows" error exactly when the row is missing, and a failure carrying the fault's own message when the call fails |
| CartApi.HandleCart | app/api/cart/route.js:9-211 | only the cart table changes, and only on 200; success needs a session and a known action; a product action changes only the caller's row for that product; positive quantities stay positive |
| CartApi.RequestErrors | app/api/cart/route.js:13-53 | no session gives 401, no action gives 400 "Invalid request data", an unknown action gives 400 "Invalid action", and a product action without a product id gives 400; none of these writes |
| CartApi.ClearCartDeletesOwnRows | app/api/cart/route.js:183-195 | clearCart deletes exactly the caller's rows and keeps every other buyer's rows |
| CartApi.AddProductEffect | app/api/cart/route.js:45-85 | addProduct raises an existing row by one or inserts the row with 1 |
| CartApi.AddStockEffect | app/api/cart/route.js:88-116 | addStock on a missing row answers 500 carrying the no-rows error and writes nothing; on an existing row it adds one |
| CartApi.RemoveStockEffect | app/api/cart/route.js:119-157 | removeStock lowers a quantity above 1, deletes a row at 1, and answers 500 for a missing row |
| CartApi.RemoveProductEffect | app/api/cart/route.js:160-180 | removeProduct deletes the caller's row for that product, whether or not it existed |
| CartApi.RemoveStockUndoesAddProduct | app/api/cart/route.js:45-157 | on a cart with positive quantities, removeStock after addProduct restores the database |
| Store.ItemsOfCounts | app/api/order/cancel/route.js:55-58 | the order's line items come back with every copy: each line item of the order as often as it is stored, and nothing of another order |
| OrderPlace.ValidateItems | app/api/order/route.js:68-86 | succeeds exactly when every item's product exists, is active and has enough stock; then it records each item with the price read; otherwise it names the first failing item |
| OrderPlace.LinesTotalMatches | app/api/order/route.js:130-135 | the stored line items carry the same sum of price × quantity as the validated items |
| OrderPlace.PlaceOrder | app/api/order/route.js:32-154 | 201 exactly when there is a session, the address is complete, the item list is non-empty, every item is orderable and no write fails; no session answers 401 "Unauthorized" with the database unchanged; 400 and 401 write nothing; products, reviews and buyers are never written |
| OrderPlace.SubtotalIsRequestTotal | app/api/order/route.js:63-86 | the accumulated subtotal equals the sum of current price × requested quantity |
| OrderPlace.PlacedOrderContents | app/api/order/route.js:88-154 | on 201 the order is pending, cash on delivery, charged 250 for delivery and totalled 250 + Σ price × quantity; there is one line item per requested item; the address is stored; the buyer's cart is emptied |
| OrderPlace.ValidationErrors | app/api/order/route.js:46-61 | an incomplete address or a missing/empty item list answers 400 with its message and writes nothing; an absent email is stored as null |
| OrderPlace.InvalidProductRejected | app/api/order/route.js:68-77 | an unorderable item at position k gives 400 "Invalid product: <id>" for an item at or before k, before any write |
| OrderPlace.LateFailureKeepsEarlierRows | app/api/order/route.js:105-151 | a 500 after the address insert leaves the address row in place |
| OrderPlace.PlaceKeepsFresh | app/api/order/route.js:88-137 | new rows get ids no existing row uses |
| OrderPlace.PlacedTotalMatchesLines | app/api/order/route.js:112-137 | the stored order total is 250 plus Σ price × quantity over the line items stored for that order |
| OrderCancel.AddQuantitiesStock | app/api/order/cancel/route.js:64-86 | restocking all line items raises each product's stock by the total quantity the items name for it; nothing else about products changes |
| OrderCancel.Restock | app/api/order/cancel/route.js:64-86 | the loop succeeds exactly when every line item's product exists and its fetch and write succeed; otherwise it stops at the first line item that fails, and the stock writes of every earlier line item remain |
| OrderCancel.CancelOrder | app/api/order/cancel/route.js:5-99 | only orders and products change; 200 exactly when the caller owns the pending order and every step succeeds; then the order is cancelled and each product's stock rises by its quantity on the order; restock faults are given per line item position |
| OrderCancel.NoSessionIsUnauthorized | app/api/order/cancel/route.js:10-12 | without a session user id the answer is 401 and nothing changes |
| OrderCancel.RejectsMissingOrForeignOrder | app/api/order/cancel/route.js:20-34 | a missing order id is 400; an order that does not exist or belongs to another buyer is 404; neither writes |
| OrderCancel.OnlyPendingCancels | app/api/order/cancel/route.js:37-42 | an order that is not pending is refused with 400 and nothing changes |
| OrderCancel.FailedUpdateChangesNothing | app/api/order/cancel/route.js:45-52 | a failed status update is 500 with no change |
| OrderCancel.FailureKeepsPartialWrites | app/api/order/cancel/route.js:55-86 | a later failure is 500, yet the order stays cancelled; a failed item fetch restocks nothing, and a failed restock keeps exactly the restocks of the line items before the first failing one |
| OrderCancel.CancelTwiceRestocksOnce | app/api/order/cancel/route.js:37-52 | a second cancellation is refused and does not restock again |
| OrderCancel.PartialRestockExample | app/api/order/cancel/route.js:64-86 | with two line items and the second's write failing, the answer is 500, the order is cancelled, the first product is restocked and the second is not |
| OrderCancel.CancelExample | app/api/order/cancel/route.js:64-91 | 3 units of a product with stock 5 come back as stock 8 |
| OrderLifecycle.LinesQuantity | app/api/order/route.js:130-135 | the stored line items name each product with the quantity the request asked for |
| OrderLifecycle.PlacedOrderRows | app/api/order/route.js:88-137 | after a 201 the new order is the buyer's pending order, its line items are exactly the validated request's lines, each naming a stored product, and products are untouched |
| OrderLifecycle.PlaceThenCancelRaisesStock | app/api/order/cancel/route.js:64-86 | an order placed and then cancelled leaves each product's stock higher than before by the ordered quantity, because placement never lowered it |
| ReviewApi.VisibleReviews | app/api/review/route.js:19-25 | the listing's rows are exactly the product's non-deleted reviews, in table order |
| ReviewApi.ListReviews | app/api/review/route.js:5-47 | 200 exactly when a product id is given, the query succeeds and every listed review has a buyer; the body holds one view per visible review with its buyer's name |
| ReviewApi.ListingNeedsProduct | app/api/review/route.js:9-14 | a missing product id is 400 |
| ReviewApi.CreateReview | app/api/review/route.js:50-76 | 201 exactly when there is a session, a product id and a rating, and the insert succeeds; then exactly one review is appended under a fresh id with the comment defaulting to "" |
| ReviewApi.CreatedReviewListed | app/api/review/route.js:66-72 | a created review appears last in its product's listing, with the author's name and the defaulted comment |
| ReviewApi.CreateKeepsFresh | app/api/review/route.js:66-68 | review ids stay unused by existing rows |
| ReviewApi.WritesNeedSession | app/api/review/route.js:51-54 | create, update and delete without a session answer 401 and change nothing |
| ReviewApi.UpdateReview | app/api/review/route.js:79-109 | only reviews change; a row changes only when it is the caller's own live review with that id; ids, owners, products and deletion marks never change |
| ReviewApi.UpdateTouchesOnlyOwnLiveReview | app/api/review/route.js:96-101 | an update rewrites the rating and comment of the caller's live review with that id and leaves every other row as it was |
| ReviewApi.DeleteReview | app/api/review/route.js:112-142 | only the caller's live review with that id is marked deleted; every other row is unchanged |
| ReviewApi.DeleteIdempotent | app/api/review/route.js:128-134 | deleting twice leaves the same table as deleting once |
| ReviewApi.DeletedReviewNotListed | app/api/review/route.js:128-134 | after a soft delete, the caller's review with that id no longer appears in any product's listing |
| CatalogApi.AverageRating | app/api/products/route.js:42-45 | no reviews give 5; otherwise the rating times the number of reviews is their sum |
| CatalogApi.FormatProduct | app/api/products/route.js:47-56 | id, name, description, price and stock are copied; the rating is the average of the joined ratings; a missing or empty category becomes "Uncategorized"; missing images become [] |
| CatalogApi.ListProducts | app/api/products/route.js:7-62 | a failed query is 500 "Failed to fetch products"; otherwise 200 with one projected product per selected row and `total` equal to their number |
| CatalogApi.ListedProductsAreLive | app/api/products/route.js:29-30 | every listed product is the projection of an active, non-deleted row |
| CatalogApi.LimitAppliedOnlyWhenValid | app/api/products/route.js:31 | a valid limit caps the listing; otherwise every active, non-deleted product is listed |
| CatalogApi.RatingWithinBounds | app/api/products/route.js:42-45 | when ratings lie between lo and hi (and 5 is within them), the listed rating does too |
| CatalogApi.RatingExamples | app/api/products/route.js:42-45 | ratings 4 and 5 give 4.5; no ratings give 5 |
| CatalogApi.LimitedListingIsPrefix | app/api/products/route.js:17-31 | whatever the limit, the listing is the start of the unlimited listing |
| CatalogApi.SoftDeleteKeepsCatalogRating | app/api/products/route.js:16-27 | a soft-deleted review still counts toward its product's catalog rating: a soft delete leaves the joined ratings and their average unchanged |
| CatalogApi.ProjectionDefaults | app/api/products/route.js:53-54 | the category falls back to "Uncategorized" exactly when the join gives no name or an empty one |
| ProductsPage.DistinctSpec | app/products/page.js:31 | the set-spread holds each value of the input once, no other value, ordered by first occurrence |
| ProductsPage.CategoriesSpec | app/products/page.js:31 | the menu starts with "All" and then lists each product category once, in order of first appearance |
| ProductsPage.FilterProducts | app/products/page.js:38-42 | the shown list keeps the products' order and holds exactly the products that match both the category and the search text, every copy of a matching product included |
| ProductsPage.AllAndEmptySearchKeepEverything | app/products/page.js:38-42 | with "All" and an empty search every product is shown |
| ProductsPage.ConstraintsOnlyNarrow | app/products/page.js:38-42 | choosing a category or typing a search never adds a product to the list |
| ProductsPage.FilterIsCategoryThenSearch | app/products/page.js:38-42 | filtering by category and then by search gives the same list as the combined test |
| ProductsPage.LowerNormalizes | app/products/page.js:40 | lower-casing leaves no ASCII capital, changes nothing else, and applying it twice is applying it once |
| ProductsPage.SearchIgnoresCase | app/products/page.js:40 | searching for a text or for its lower-cased form shows the same list, and names that differ only in case match the same searches |
| ProductsPage.IncludesEmpty | app/products/page.js:40 | every name includes the empty search text |

## Left out

- Authentication, the database client and error reporting are outside the model. The session is an input, the database is an explicit value, and each call that can fail is a fault parameter. Error logging has no effect on results and is dropped.
- Concurrency is not modelled. Each handler runs alone on one database state. Interleavings, such as two cancellations racing on the same stock value, are outside the model.
- Timestamps (`created_at`, `updated_at`, `deleted_at` values) are not modelled; a soft delete is a boolean mark.
- JSON parsing and connecting are not modelled; the request fields arrive already parsed. Where `req.json()` or `dbConnect()` runs inside `try` (placement and cancellation bodies, every call in the catalog listing), a failure would end in the handler's generic 500, such as the catalog's "Internal server error" (app/api/products/route.js:63-67); the model takes no such failure as input. Where it runs outside `try`, the failure is thrown out of the handler and no response is built: the cart's body and connection (app/api/cart/route.js:24 and :33), every review handler's connection and body (app/api/review/route.js:16, :57, :63, :87, :93, :120, :126), placement's connection (app/api/order/route.js:33) and cancellation's connection (app/api/order/cancel/route.js:6). The model has no such outcome.
- `parseInt` of the catalog limit arrives as an optional integer.
- Database row order is table order. Sequences keep rows in insertion order; the database promises no order without `order by`.
- Ids are drawn from one counter shared by all tables, an abstraction of the database's identity columns.
- Prices, stock and ratings are integers. The cart table is a map with one row per (buyer, product) pair, which assumes the table's key makes that pair unique.
- CatalogApi.ListProducts: each catalog row arrives with its `reviews (rating)` join already made. The join brings the ratings of soft-deleted reviews too (app/api/products/route.js:16 and :27), and the model admits that only through `CatalogApi.JoinedRatings` and `CatalogApi.SoftDeleteKeepsCatalogRating`; the listing itself does not take the reviews table.
- OrderCancel.CancelOrder: restock faults are given by line item position. A product's fetch and its write are not told apart, since either one stops the loop with the same 500.
- The page's fetch of `/api/products`, its React state and its rendering are left out; only the derivations on lines 31 and 38-42 are modelled.
- The `GET` handlers of orders and of the cart's product list are not part of this model; neither is the auth route.
- CatalogApi.AverageRating: the mean is exact. The source rounds it with `toFixed(2)` and parses the result back to a float, and floating point is not modelled.
- ProductsPage.Lower: ASCII only. JavaScript's Unicode case mapping is not modelled.
- OrderPlace.ValidateItems: the requested quantity is taken as given. The source checks it only against stock, so zero or negative quantities pass, and the model keeps that.
- The placement's product fetch can fail in other ways than a missing row; all of them lead to the same 400, so a missing product stands for all of them.
