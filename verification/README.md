# Order creation (CreateOrderService) in Dafny

This project models the order-placement workflow of a small e-commerce
backend, `CreateOrderService.execute`. Given a customer id and a list of
requested `(product id, quantity)` lines, the service:

1. rejects an unknown customer ("Customer not found");
2. reads the requested products from the product repository in one batch;
3. walks the requested lines in order. For each line it takes the first fetched
   product with that id. It fails if there is none ("inexistent product") or if
   that product's stock is below the requested quantity ("Quantity unavailable").
   Otherwise it appends one order line `(product id, price, quantity)` and one
   stock update `(product id, stock - requested)`;
4. stores the order, then writes the stock updates, and returns the stored order.

Layout:

- `orders.dfy`, module `Orders`: the values (request lines, fetched snapshots,
  order lines, stock updates, orders, the three errors). It also holds the pure
  meaning of the per-line loop: `Find` (the first snapshot with an id),
  `CheckLine` (one line) and `Assemble` (the whole request, stopping at the
  first failing line), with lemmas about them.
- `catalog.dfy`, module `Catalog`: the product catalog as a map from id to price
  and stock. `Fetch` is the batch read and `ApplyUpdates` the stock write, with
  lemmas about what each one reads and changes.
- `service.dfy`, module `Service`: `BuildOrder`, the per-line loop as a method
  proved equal to `Assemble`. Lemmas restate the outcome in catalog terms.
  The class `CreateOrderService` holds the three repositories' state (customers,
  catalog, stored orders) and a ghost trace of the repository calls. Its
  `Execute` is proved to fail with nothing stored or written, or to store the
  order first and write the stocks second. Four client methods walk through
  worked examples.

Quantities are unbounded integers. The service checks nothing about their
sign, and neither does the model. Prices are only copied, never computed on.

Behaviours of the code the model keeps:

- Each requested line yields its own stock update. Updates are not combined
  per product.
- Duplicate product ids are not aggregated. Each line is checked against the
  stock that was fetched, not against a running total.
- A product id that matches several snapshots uses the first match.
- Requested quantities are not required to be positive.

## Model

| member | source | states |
|---|---|---|
| `Orders.Find` | src/modules/orders/services/CreateOrderService.ts:49-51 | finds nothing exactly when no snapshot has the id; otherwise returns the first snapshot with that id |
| `Orders.CheckLine` | src/modules/orders/services/CreateOrderService.ts:49-70 | a line fails with a missing product exactly when no snapshot has its id, and never with a customer error. It fails with a shortage exactly when the first snapshot with its id has less stock than requested, so a quantity equal to the stock passes. When it passes, its stock covers the request, the order line carries the request id and quantity and the first matching snapshot's price, and the update sets stock minus requested, which is non-negative |
| `Orders.Assemble` | src/modules/orders/services/CreateOrderService.ts:48-71 | on success there is exactly one order line and one update per requested line |
| `Orders.AssembleOkIff` | src/modules/orders/services/CreateOrderService.ts:48-71 | a request is accepted exactly when every line passes on its own (all-or-nothing, no running total) |
| `Orders.AssembledLine` | src/modules/orders/services/CreateOrderService.ts:49-70 | on success, order line i and update i come from request line i and the first snapshot with its id, in input order; that snapshot's stock covers the request |
| `Orders.AssembleErrIff` | src/modules/orders/services/CreateOrderService.ts:48-59 | a request fails with error e exactly when some line fails with e and every line before it passes, so the first failing line in input order decides the error |
| `Orders.AssemblePrefixErr` | src/modules/orders/services/CreateOrderService.ts:53-59 | once a prefix of the request fails, the whole request fails with the same error (the throw ends the loop) |
| `Orders.RepeatedLineAccepted` | src/modules/orders/services/CreateOrderService.ts:48-64 | appending a copy of one of its lines to an accepted request keeps it accepted |
| `Orders.SameProductSameSnapshot` | src/modules/orders/services/CreateOrderService.ts:49-64 | two accepted lines for the same product get the same price, and both updates are computed from the same fetched stock |
| `Orders.DuplicateLinesOverAllocate` | src/modules/orders/services/CreateOrderService.ts:57-64 | with a stock of 5, two lines of 3 units of one product are both accepted and both set the stock to 2 |
| `Catalog.Fetch` | src/modules/orders/services/CreateOrderService.ts:40 | the batch read returns only requested products that the catalog holds, with the catalog's price and stock, and no product twice |
| `Catalog.FetchCovers` | src/modules/orders/services/CreateOrderService.ts:40 | every requested product that the catalog holds is in the batch |
| `Catalog.FetchFind` | src/modules/orders/services/CreateOrderService.ts:40-51 | looking a product up in the batch gives the catalog's record exactly when the product was requested and exists, and nothing otherwise |
| `Catalog.ApplyUpdate` | src/modules/orders/services/CreateOrderService.ts:74 | one update sets the named product's stock, keeps its price and leaves every other product alone |
| `Catalog.ApplyUpdates` | src/modules/orders/services/CreateOrderService.ts:74 | writing updates keeps the set of products and every price |
| `Catalog.ApplyUpdatesUntouched` | src/modules/orders/services/CreateOrderService.ts:74 | a product that no update names keeps its record |
| `Catalog.ApplyUpdatesOnce` | src/modules/orders/services/CreateOrderService.ts:74 | a product named by exactly one update ends with that update's stock |
| `Catalog.ApplyUpdatesNonNegative` | src/modules/orders/services/CreateOrderService.ts:74 | updates that carry non-negative stocks keep every stock non-negative |
| `Service.BuildOrder` | src/modules/orders/services/CreateOrderService.ts:42-71 | the loop over the request returns exactly the outcome `Assemble` specifies: the first line's error, or all order lines and updates in order |
| `Service.FailureStopsAssembly` | src/modules/orders/services/CreateOrderService.ts:53-59 | when the lines before i pass and line i fails, the whole request fails with line i's error |
| `Service.PlacementLineCheck` | src/modules/orders/services/CreateOrderService.ts:40-59 | against the fetched batch, a line fails with a missing product exactly when the catalog lacks it, and with a shortage exactly when the catalog stock is below the requested quantity. It passes when the requested quantity equals the stock |
| `Service.PlacementOkIff` | src/modules/orders/services/CreateOrderService.ts:40-59 | a request is accepted exactly when every line names a catalog product whose stock covers it |
| `Service.PlacementLine` | src/modules/orders/services/CreateOrderService.ts:40-70 | on acceptance, order line i carries request i's id and quantity and the catalog price; update i sets catalog stock minus requested |
| `Service.StockAfterPlacement` | src/modules/orders/services/CreateOrderService.ts:57-74 | after an accepted request is written, a product named by one line has its old stock minus the requested quantity |
| `Service.UntouchedAfterPlacement` | src/modules/orders/services/CreateOrderService.ts:61-74 | after an accepted request is written, products it does not name are unchanged |
| `Service.UpdatesNameRequestedProducts` | src/modules/orders/services/CreateOrderService.ts:61-64 | on acceptance, update i names the product of request line i |
| `Service.PlacementKeepsStockNonNegative` | src/modules/orders/services/CreateOrderService.ts:57-74 | writing an accepted request's updates never makes a stock negative |
| `Service.CreateOrderService.constructor` | src/modules/orders/services/CreateOrderService.ts:24-31 | the service starts over the given customers and catalog, with no orders and no repository calls |
| `Service.CreateOrderService.FindCustomerById` | src/modules/orders/services/CreateOrderService.ts:34 | reports whether the customer exists and records the lookup |
| `Service.CreateOrderService.FindAllById` | src/modules/orders/services/CreateOrderService.ts:40 | returns the catalog's batch for the ids and records the read |
| `Service.CreateOrderService.Create` | src/modules/orders/services/CreateOrderService.ts:73 | stores the order under the next id, returns that stored order, and records the call |
| `Service.CreateOrderService.UpdateQuantities` | src/modules/orders/services/CreateOrderService.ts:74 | writes the updates to the catalog and records the call |
| `Service.CreateOrderService.Execute` | src/modules/orders/services/CreateOrderService.ts:33-77 | an unknown customer fails with only the customer lookup made. A failing line returns its error with no order stored and no stock written. Otherwise the order is stored first, then the stocks are written, and the stored order is returned. A non-negative catalog stays non-negative |

## Left out

- Dependency injection, decorators and constructor wiring (lines 1 and 22-31): the three repositories become the state of the `CreateOrderService` class.
- async/await and the Promise result: the repository calls run strictly in sequence, recorded by the ghost call trace.
- Concurrent orders racing on the same product: this depends on the database's isolation and is outside this code.
- Repository implementations, which are not part of this model. `findAllById` becomes `Catalog.Fetch`, one snapshot per distinct requested product held by the catalog. Its order in the real store is unspecified, which does not matter because product ids are unique in the catalog. `findAllById` is given the requested ids (`Catalog.Ids`) rather than the request objects. `ordersRepository.create` numbers orders by position. `updateQuantity` becomes applying the updates one after another (`Catalog.ApplyUpdates`).
- Service.StockAfterPlacement: states the resulting stock only for a product named by one request line. How the real product repository resolves two updates for the same product is not part of this model.
- Failures raised by the repositories themselves (for example storage unavailable), which the service lets propagate: every repository call succeeds in the model. So the model does not capture a failed stock write after a stored order.
- Prices are JavaScript numbers: they are modelled as reals that are only copied. Quantities are modelled as unbounded integers, without floating-point rounding, NaN or non-integer values.
- Error message text and HTTP status: only the three error kinds are distinguished.
- The customer entity carried into the stored order: only its id is kept.
