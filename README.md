# Shop-IT storefront core, modelled in Dafny

Shop-IT is an e-commerce storefront: an Express REST API over MongoDB and a
React client. Most of it is glue. This project models the in-memory logic in
three places:

- **Product reviews and images** (`server/routes/product.js`):
  - The review handler works as an upsert by user. It edits the user's review
    in place or appends a new one, then recomputes `rating` and `numOfReviews`.
  - The review-delete handler filters a review out and recomputes both
    counters.
  - Product create, update and delete turn the `images` field into a list,
    upload it to the image host, and destroy the old images.
- **Order fulfilment and order queries** (`server/routes/order.js`):
  - The admin status update is refused once an order is `"Delivered"`.
  - Otherwise it decrements stock per line item, with no floor, sets the
    status and stamps `deliveredAt`.
  - The module also models the admin total, the "my orders" filter, and
    get/delete by id.
- **The client route guard** (`client/src/components/routes/ProtectedRoute.js`):
  a decision over `loading`, `isAuthanticated`, `isAdmin` and `user.role`.

Layout, one module per file:

- `values.dfy` (`Values`): JavaScript division results (`Num`: finite,
  ±Infinity, NaN) and handler outcomes (`Outcome`, `Failure`).
- `lists.dfy` (`Lists`): the fold both route files use to add up ratings
  and order totals (`Sum`), and the keyed filter behind the review delete and
  the order delete (`Without`), with their lemmas.
- `catalog.dfy` (`Catalog`): products, reviews and images. It holds the pure
  list functions the product routes apply, with their lemmas.
- `sales.dfy` (`Sales`): orders, stock decrements, totals and filters, with
  their lemmas.
- `store.dfy` (`Store`): the document store as class `Db`. It holds a product
  map (id to record), the order list in store order, and the log of
  image-host calls. `Db.Valid()` is the invariant every handler keeps:
  - each product has one review per user, unique review ids and
    `numOfReviews == |reviews|`;
  - every stored image carries a public id the host log has already issued;
  - order ids are unique.
- `product_routes.dfy`, `order_routes.dfy`: the handlers as methods on `Db`.
  Each method's `ensures` gives the whole new state in terms of the
  specification functions above.
- `protected_route.dfy` (`ProtectedRoute`): the guard as a function.

In these places the code does something other than what its own names,
guards and error messages suggest (the status names, the `"Delivered"`
guard, the 404 on get and delete), and the model follows the code:

- A status update on a missing order fails with a TypeError on
  `order.orderStatus`, not with a not-found error.
- `deliveredAt` is stamped for every accepted status, not only for
  `"Delivered"`.
- The code enforces no order among statuses: an order can go from `"Shipped"`
  back to `"Processing"`. Only `"Delivered"` is final.
- The review-delete rating is not the mean of the remaining reviews (see
  Findings).

## Model

| member | source | states |
|---|---|---|
| `Values.Divide` | server/routes/product.js:213-215 | JS division by a list length: with a non-zero length the quotient times the length is the numerator; with length zero the result is NaN, +Infinity or -Infinity by the numerator's sign |
| `Lists.Sum` | server/routes/product.js:213-215 | the left-to-right `reduce` sum from 0; it is non-negative when every term is |
| `Lists.SumAppend` | server/routes/product.js:213-215 | the sum over two concatenated lists is the sum of the two sums |
| `Catalog.SumRatings` | server/routes/product.js:214 | the `reduce` over the review ratings; non-negative when every rating is |
| `Catalog.MeanWithinBounds` | server/routes/product.js:213-215 | the sum-over-length of ratings that all lie in [lo, hi] is finite and lies in [lo, hi] |
| `Catalog.EditReviews` | server/routes/product.js:202-207 | the `forEach` edit keeps the list length and every review's id, user and name |
| `Catalog.UpsertReviews` | server/routes/product.js:197-211 | the list after the upsert keeps every stored review's id and user at its index and grows by at most one entry, which is the new review |
| `Catalog.UpsertProduct` | server/routes/product.js:197-215 | the product after the upsert has a non-empty review list and differs from the stored one only in reviews, rating and review count |
| `Catalog.UpsertEditsInPlace` | server/routes/product.js:197-207 | if the user already has a review, the list keeps its length, that user's entries get the new comment and rating with their other fields kept, other entries are unchanged, and `numOfReviews` is not reassigned |
| `Catalog.UpsertAppends` | server/routes/product.js:208-211 | if the user has no review, the new review is appended at the end and `numOfReviews` becomes the new length |
| `Catalog.UpsertLeavesOthers` | server/routes/product.js:202-206 | a review of another user keeps its index and its content after an upsert |
| `Catalog.UpsertKeepsOneReviewPerUser` | server/routes/product.js:197-211 | if every user had at most one review before an upsert, that still holds afterwards, and the user now has one |
| `Catalog.UpsertRatingIsMean` | server/routes/product.js:213-215 | after an upsert the list is non-empty, the rating is finite, and rating × length equals the sum of all ratings |
| `Catalog.UpsertRatingInRange` | server/routes/product.js:213-215 | if the stored ratings and the new rating are on the 1–5 scale, the recomputed rating is too |
| `Catalog.UpsertKeepsUniqueReviewIds` | server/routes/product.js:201-211 | unique review ids stay unique after an upsert when the new review's id is fresh |
| `Catalog.UpsertKeepsWellFormed` | server/routes/product.js:197-215 | an upsert whose new review carries a fresh id keeps one review per user, unique review ids and a review count equal to the list length |
| `Catalog.WithoutReview` | server/routes/product.js:248-250 | the delete filter returns no longer a list, none of whose reviews has the given id |
| `Lists.Without` | server/routes/order.js:155 | the keyed removal returns no longer a list, none of whose elements has the given key |
| `Lists.WithoutMembers` | server/routes/product.js:248-250 | after the filter, an element is in the list iff it was there before and its key differs from the given one |
| `Lists.WithoutAt` | server/routes/product.js:248-250 | with unique keys, removing the key found at index k yields the list without index k, the others in their original order |
| `Lists.WithoutAbsent` | server/routes/product.js:248-250 | removing a key no element carries leaves the list unchanged |
| `Lists.WithoutAppend` | server/routes/product.js:248-250 | the filter of a concatenation is the concatenation of the filters, so it never reorders |
| `Lists.WithoutKeepsUniqueKeys` | server/routes/product.js:248-250 | any key unique before the filter (the reviewer, the review id, the order id) is unique after it |
| `Catalog.WithoutReviewRatingsWithin` | server/routes/product.js:248-250 | ratings within [lo, hi] stay within [lo, hi] after the filter |
| `Catalog.RemoveReview` | server/routes/product.js:248-256 | as written: only reviews, rating and count change; the count is the filtered length; no remaining review has the id; and on a non-empty remainder the rating times the new count is the sum of the ratings before filtering |
| `Catalog.IntendedRemoveReview` | server/routes/product.js:248-256 | corrected: the same list and count, and on a non-empty remainder the rating times the new count is the sum of the remaining ratings |
| `Catalog.RemoveReviewKeepsWellFormed` | server/routes/product.js:248-252 | after review delete, `numOfReviews` is the filtered length, and one review per user and unique review ids still hold (as written and corrected) |
| `Catalog.RemoveReviewAt` | server/routes/product.js:248-250 | with unique review ids, deleting the id found at index k leaves exactly the other reviews, in their order |
| `Catalog.RemoveReviewOvershoots` | server/routes/product.js:254-256 | as written, deleting the review at index k leaves exactly the other reviews and a count one lower, and stores the remaining ratings' sum PLUS the deleted rating, divided by the new count; with no review left and a positive rating, it stores +Infinity |
| `Catalog.RemoveReviewCounterexample` | server/routes/product.js:254-256 | ratings 4 and 2, delete the 2: as written the stored rating is 6, and the corrected rating is 4 |
| `Catalog.IntendedRemoveIsMean` | server/routes/product.js:254-256 | the corrected rating, on a non-empty remainder, is the mean of the remaining reviews and stays on the 1–5 scale |
| `Catalog.ImageList` | server/routes/product.js:115-120 | a string `images` becomes a one-element list, a list stays as it is, and a missing field stays `undefined` (None) |
| `Catalog.HostedImages` | server/routes/product.js:129-138 | the upload loop's links: one per file, with that file's address and a public id in the range of the calls it makes |
| `Catalog.HostedImagesInOrder` | server/routes/product.js:129-138 | the upload loop yields one link per input file, in input order, with distinct public ids issued after the earlier host calls |
| `ProductRoutes.CreatedProduct` | server/routes/product.js:76-80 | the created product carries the uploaded links and the requesting user, and starts well-formed |
| `ProductRoutes.Patched` | server/routes/product.js:142-146 | a product update leaves reviews, rating and review count alone and keeps a product well-formed |
| `ProductRoutes.UploadAll` | server/routes/product.js:64-75 | the links are exactly the hosted images of the files in order; the host log grows by one upload per file; nothing else changes |
| `ProductRoutes.DestroyAll` | server/routes/product.js:166-170 | the host log grows by one destroy per stored image, in order; nothing else changes |
| `ProductRoutes.CreateProduct` | server/routes/product.js:57-80 | without an `images` field the handler fails (`images.length` of undefined) with nothing changed; otherwise it stores the product with the uploaded links under the new id |
| `ProductRoutes.GetProduct` | server/routes/product.js:92-96 | 404 "Product not found" iff the id is missing; otherwise the stored product |
| `ProductRoutes.UpdateProduct` | server/routes/product.js:111-146 | a missing product gives 404 with nothing changed. With no `images` field, no host call is made and the old images are kept. Otherwise all old images are destroyed, the new ones uploaded in order and stored |
| `ProductRoutes.DeleteProduct` | server/routes/product.js:160-172 | a missing product gives 404. Otherwise one destroy call per image goes to the host (none for a product with no images), then the product is removed |
| `ProductRoutes.PutReview` | server/routes/product.js:186-219 | a missing product gives a TypeError with nothing changed. Otherwise the stored product becomes the upsert of the review (the `find` and `forEach` loops), and with the fresh review id the store invariant holds |
| `ProductRoutes.GetReviews` | server/routes/product.js:232-236 | the product's review list; a TypeError iff the product is missing |
| `ProductRoutes.DeleteReviews` | server/routes/product.js:246-270 | a missing product gives a TypeError with nothing changed. Otherwise the product becomes the as-written review delete, the store invariant holds, and when a review has the id, exactly that review leaves the list and the others keep their order |
| `Store.Db.UploadImage` | server/routes/product.js:67-74 | an upload appends one call to the host log, changes no record and returns a public id that no stored image carries |
| `Store.Db.DestroyImage` | server/routes/product.js:123-125 | a destroy appends one call to the host log and changes no record |
| `Sales.StockDecremented` | server/routes/order.js:163-171 | one stock update: the product set is the same, other products are untouched, and the named product differs only in a stock lowered by the quantity |
| `Sales.ApplyItems` | server/routes/order.js:123-125 | all line items' stock updates keep the product set and change no field but the stock |
| `Sales.QuantityOf` | server/routes/order.js:123-125 | the total quantity ordered of a product: 0 when no line item refers to it, non-negative when all quantities are |
| `Sales.ApplyItemsStock` | server/routes/order.js:123-125 | after all line items' stock updates, the product set is the same and each product differs only in stock, lowered by the total quantity ordered of it (no floor, so possibly negative) |
| `Sales.UnreferencedProductsUnchanged` | server/routes/order.js:123-125 | a product referenced by no line item keeps its record |
| `Sales.TwoItemsExample` | server/routes/order.js:163-171 | 2 of A and 1 of B lower A by 2 and B by 1; a stock of 1 becomes -1 |
| `Sales.TotalPrice` | server/routes/order.js:98-101 | the admin total: non-negative when every order's total is |
| `Sales.OrdersOf` | server/routes/order.js:79-81 | every order in the owner filter belongs to the requester |
| `Sales.OrdersOfMembers` | server/routes/order.js:79-81 | an order is in the owner filter iff it is in the store and belongs to the requester |
| `Sales.IndexOf` | server/routes/order.js:117 | the lookup finds an order with the id, or reports that none has it |
| `Sales.RemovingAnOrder` | server/routes/order.js:155 | removing the order at index k removes exactly it, keeps the rest in order with unique ids, and lowers the admin total by its price |
| `OrderRoutes.GetOrder` | server/routes/order.js:55-64 | 404 "Order not found with this id: …" iff no order has the id; otherwise an order with that id |
| `OrderRoutes.MyOrders` | server/routes/order.js:79-81 | exactly the stored orders whose `user` is the requester |
| `OrderRoutes.AdminOrders` | server/routes/order.js:96-107 | the order list is returned unchanged, and `totalAmount` is the sum of `totalPrice` over it (the accumulation loop) |
| `OrderRoutes.UpdateStock` | server/routes/order.js:163-171 | the product's stock drops by the quantity with no floor; a missing product changes nothing |
| `OrderRoutes.UpdateOrder` | server/routes/order.js:117-130 | a missing order gives a TypeError. A `"Delivered"` order gives 400 and leaves stock and orders unchanged. Otherwise every line item's stock is decremented, the status becomes the requested one and `deliveredAt` is stamped, whatever the status |
| `OrderRoutes.DeleteOrder` | server/routes/order.js:144-155 | a missing order gives 404 with nothing changed; otherwise only the named order leaves the store |
| `ProtectedRoute.Render` | client/src/components/routes/ProtectedRoute.js:9-19 | nothing unless `loading` is literally `false`; `/login` iff loaded and `isAuthanticated` is literally `false`; `/` iff loaded, not logged out, an admin route and a role other than `"admin"`; a throw there when the user is missing; otherwise the component |
| `ProtectedRoute.LoginRedirectFirst` | client/src/components/routes/ProtectedRoute.js:13-18 | the login redirect does not depend on the admin flag or the user, so it comes before the admin check |
| `ProtectedRoute.NonAdminRouteAdmitsAllButFalse` | client/src/components/routes/ProtectedRoute.js:13-19 | on a non-admin route, a loaded guard renders the component for every `isAuthanticated` other than literal `false` |
| `ProtectedRoute.AdminRouteNarrows` | client/src/components/routes/ProtectedRoute.js:16-19 | if an admin route renders the component, the same route without the admin flag does too |

## Findings

| source | as written | input that shows it | evidently intended | confidence | as-written member | corrected member |
|---|---|---|---|---|---|---|
| server/routes/product.js:254-256 | the new rating sums `product.reviews` (the list before filtering) but divides by `reviews.length` (the list after filtering) | two reviews rated 4 and 2; delete the one rated 2: stored rating 6, off the 1–5 scale (and +Infinity when the last review is deleted) | the mean of the remaining reviews, 4 | high; not executed | `Catalog.RemoveReviewCounterexample` | `Catalog.IntendedRemoveIsMean` |

The handler model `ProductRoutes.DeleteReviews` keeps the as-written
computation (`Catalog.RemoveReview`), because it models what the route
stores. `Catalog.IntendedRemoveReview` is the corrected definition, and the
properties above are proved about both.

## Left out

- MongoDB persistence: `findById`, `find`, `create`, `save`,
  `findByIdAndUpdate` and `remove` become reads and updates of the maps and
  lists in `Store.Db`. Schema validation (`runValidators`), casting of stored
  values (a NaN or Infinity rating) and `populate("user", …)` are not modelled.
- The product model file `server/models/product.js` is not part of this
  model. A created product is assumed to start with no reviews, rating 0 and
  count 0.
- Request bodies are reduced to the fields this logic reads. A product body
  has `name`, `price`, `stock` and `images`. A body that also sets `reviews`,
  `rating` or `numOfReviews` (which `create` and `findByIdAndUpdate` would
  store) is not modelled.
- Id generation: the fresh `_id` Mongoose gives a pushed review or a created
  product is a parameter (`reviewId`, `newId`) that the caller supplies, unused
  by the stored records.
- Type coercion: `Number(rating)` in the review handler and the raw `rating`
  it assigns on the edit branch are both taken as a number given by the
  caller.
- Product listing (`GET /products` with `APIFeatures` search, filter and
  pagination) and `GET /admin/products`: `utils/apiFeatures` is not part of
  this model.
- The image host: upload and destroy are entries in a call log, and an upload
  returns the call's number as its public id. The store starts with a log that
  has issued every stored image's id. Real ids and URLs, host
  failures, and the folder option are not modelled.
- `POST /order/new`: a direct insert of the request body with `paidAt`. It has
  no logic of its own and is not modelled.
- Concurrency: the stock updates run in an unawaited `forEach(async …)` that
  races with `order.save()`. The model runs them one after the other, before
  the status is set, and all or nothing. That hides two effects of the code:
  - Two line items for the same product both load the old stock, and the
    last `save` wins. The stock then drops by one item's quantity, not by the
    sum that `Sales.ApplyItemsStock` states.
  - If `order.save()` fails, the stock decrements still apply while the status
    and `deliveredAt` stay as they were.
- A stock update for a missing product throws inside that unawaited callback
  and the handler never sees it. The model leaves the store unchanged. The
  process-level effect of the unhandled rejection is not modelled.
- Floating point: ratings, prices and totals are `real`. Division results are
  `Values.Num` without rounding.
- The middleware (`isAuthanticated`, `authorizeRoles`, `catchAsyncErrors`) and
  the error middleware are not part of this model. Handlers are modelled for
  a caller who has passed the checks. A `TypeError` result stands for an error
  whose HTTP status the error middleware decides.
- `ProtectedRoute`: route matching (`{...rest}`) and the props passed to the
  component are not modelled. `user` is reduced to missing, or an object with
  a `role` value.
- The rest of the repository is not modelled: `server/routes/auth.js`
  (bcrypt, SHA-256 reset tokens, JWT cookies, email), `server/routes/payment.js`
  (Stripe), `server/app.js`, `client/src/store.js` and the React views.
