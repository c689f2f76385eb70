# Bidbay auction API: route handlers

A model of the request handlers of the Bidbay auction marketplace backend
(`backend/routes/bid.ts`, `backend/routes/product.ts`, `backend/routes/user.ts`).

- **Bid creation** (`POST /api/products/:productId/bids`) checks the coerced
  price first, then looks the product up, then records a bid owned by the
  authenticated caller and echoes it with status 201. The errors come in a
  fixed order: 400 with details `['price']`, then 404 `Product not found`.
  `BidRoutes.HandleBid` gives the handler's answer and the bid it creates
  as a function of the product table and the request. `BidRoutes.PostBid`
  runs the handler against the shared `Orm.Store` object. It is proved to
  answer what `HandleBid` says, to change only the bid table, and to keep the
  store invariant `Orm.Store.Valid`. That invariant says every stored bid has
  a price greater than zero and refers to an existing product.
- **Reads** are pure functions over the store's tables.
  - `GET /api/products` works on the result of `findAll`: `None` stands for
    null, otherwise a sequence of rows.
  - `GET /api/products/:productId` and `GET /api/users/:userId` look a record
    up by id in a map.
  - Both product reads use the same projection. That projection keeps every
    column except `sellerId`, plus the included seller and bids.
- **Stubs**: `DELETE /api/bids/:bidId`, `PUT /api/products/:productId` and
  `DELETE /api/products/:productId` answer status 600 with an empty body and
  change nothing.

Inputs the handlers get from outside are parameters of the model:
- the caller's id, which the authentication middleware supplies;
- the value of `Date.now()`;
- the id the store gives a new bid, which must not be in use yet;
- the price already coerced by unary `+`, as a `JsNumber.Number`. That is
  NaN, +Infinity, -Infinity or a finite real.

About the code as written:
- The guard at `backend/routes/bid.ts:15` accepts +Infinity, and so does the
  model (`BidRoutes.InfinityIsAccepted`).
- These files implement no ownership checks, admin override, cascading
  deletion, field validation or product creation. The handlers that would
  hold them are 600 stubs or empty, so the model has none of that logic.

## Model

| member | source | states |
|---|---|---|
| `Orm.Find` | backend/routes/bid.ts:23-25 | find-by-id yields a record exactly when the id is a key of the table, and then that key's record |
| `Orm.Store.CreateBid` | backend/routes/bid.ts:34 | `Bid.create` adds the record under its fresh id, so the table grows by exactly one; products and users are unchanged |
| `BidRoutes.RejectsPrice` | backend/routes/bid.ts:15 | the guard lets through exactly +Infinity and the finite prices above zero; NaN, -Infinity, zero and negative prices are rejected |
| `BidRoutes.Echo` | backend/routes/bid.ts:36-44 | the 201 body carries the created bid's id, productId, price, date and bidderId |
| `BidRoutes.HandleBid` | backend/routes/bid.ts:13-44 | 400 with details `['price']` iff the price is NaN or not greater than 0, whatever the store holds; 404 `Product not found` iff the price is valid and the product is missing; otherwise 201 and exactly one bid. That bid has the path's productId, the caller as bidder, the validated price (greater than 0) and the supplied time, and the body echoes it; no other status occurs |
| `BidRoutes.Record` | backend/routes/bid.ts:34 | the bid table after a step: unchanged when no bid is created, otherwise the old keys plus the new bid's id, which holds the new bid, with every other bid kept |
| `BidRoutes.RecordAddsOnlyTheCreatedBid` | backend/routes/bid.ts:15-34 | a 400 or 404 leaves the bid table unchanged; a 201 adds exactly the fresh id, keeps every other bid and grows the table by one |
| `BidRoutes.HandleBidPreservesConsistency` | backend/routes/bid.ts:15-34 | if every stored bid has a price greater than 0 and names an existing product, that still holds after the handler |
| `BidRoutes.ValidationPrecedesLookup` | backend/routes/bid.ts:15-27 | a rejected price gets the same 400 and creates nothing, from any two stores, including one that lacks the product |
| `BidRoutes.InfinityIsAccepted` | backend/routes/bid.ts:15 | +Infinity passes the price guard: for an existing product the bid is created with 201 |
| `BidRoutes.PostBid` | backend/routes/bid.ts:12-45 | run against the store, the handler answers what `HandleBid` gives. It records only the bid `HandleBid` creates, and only on 201, when the table grows by one. Products and users are untouched, and `Valid` is preserved |
| `BidRoutes.DeleteBid` | backend/routes/bid.ts:8-10 | always answers 600 with no body; it cannot modify the store |
| `ProductRoutes.Project` | backend/routes/product.ts:18-28 | the projection copies id, name, description, category, originalPrice, pictureUrl and endDate from the product, and seller and bids from the included associations, each unchanged |
| `ProductRoutes.ProjectKeepsAllButSellerId` | backend/routes/product.ts:18-28 | corollary of `Project`: two rows project alike exactly when they differ at most in the `sellerId` column, the one column the projection drops |
| `ProductRoutes.ProjectAll` | backend/routes/product.ts:18-28 | `products.map(...)` gives one projection per row, in the same order |
| `ProductRoutes.ListProducts` | backend/routes/product.ts:8-31 | 404 `No products found` exactly when the fetch yields null; otherwise 200 with exactly one projection per fetched row in order, so an empty collection gives 200 and `[]` |
| `ProductRoutes.GetProduct` | backend/routes/product.ts:33-55 | 404 `Product not found` exactly when the id is not in the table; otherwise 200 with the list's projection of that row (the object literal at lines 44-54 has the same fields as the list's) |
| `ProductRoutes.GetAgreesWithList` | backend/routes/product.ts:18-54 | over a listing of the whole table, every get answer for an existing id is an element of the list answer, and every list element is what get answers for its id |
| `ProductRoutes.UpdateProduct` | backend/routes/product.ts:63-65 | always answers 600 with no body |
| `ProductRoutes.DeleteProduct` | backend/routes/product.ts:67-69 | always answers 600 with no body |
| `UserRoutes.Project` | backend/routes/user.ts:19-27 | the 200 body copies id, username, email and admin from the user record, and products and bids exactly as fetched |
| `UserRoutes.GetUser` | backend/routes/user.ts:6-29 | exactly one of 404 and 200 is produced. 404 `User not found` exactly when the id is not in the table. On 200 the body has the record's id, username, email and admin, and its products and bids exactly as fetched |

## Left out

- Express routing and the response object: a handler's effect is a `Http.Response` of a status and a body.
- JSON serialisation, and how the ORM stores numbers and dates. The 201 body echoes the bid as it was given to `Bid.create`.
- Sequelize queries and their `include` joins. A product row carries its seller summary and bid summaries as the store supplies them, and a user row carries its products and bids. So creating a bid does not refresh the bid summaries inside product rows.
- The authentication middleware (`authMiddleware`) is not part of this model. The caller's id is a parameter, and an unauthenticated request never reaches the handler.
- Unary `+` coercion of the request body. The handler takes the coerced number. No float parsing, formatting or rounding is modelled.
- `Date.now()` and the ORM's id generation: they are parameters, and the new id must be unused in the bid table.
- `POST /api/products` (backend/routes/product.ts:59-61): its handler is empty and sends no response, so it has no behaviour to state.
- async/await, concurrent requests and storage failures: each handler runs to completion on its own, and no query fails.
