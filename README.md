# Order creation, modelled in Dafny

This project models the order-creation use case of a small Node.js sales API
(`CreateOrderService.execute`). The use case takes a customer id and a list of
requested `{id, quantity}` lines. It:

- looks the customer up and stops if there is none;
- fetches all requested products from the catalog in one bulk lookup;
- walks the request in order. Each line is matched to the first catalog
  product with the same id. The whole request is refused at the first line
  whose product is missing, or whose requested quantity exceeds the stock.
  Otherwise the line gets an order line that copies the catalog price, and a
  stock update of catalog stock minus requested quantity;
- writes all stock updates in one call, then creates the order from the
  customer and the order lines.

Everything is in one module, `CreateOrderService`, in
`create_order_service.dfy`:

- Data: the request line, catalog product, order line, stock update, order
  and error kind as datatypes. Prices and quantities are `int`.
- Specification functions: `FindProduct` is the catalog lookup (the source's
  `Array.prototype.find`). `PriceLine` handles one request line. `PlanOrder`
  handles the whole request, line by line in request order, and the first
  failing line decides the error.
- `PriceRequest` is the source's loop as a method with a `while` loop. It
  appends to two sequences and returns early on the first rejected line. It
  is proved equal to `PlanOrder`.
- `Execute` is the whole use case. The three repositories are replaced by
  what they answer: the customer lookup as an `Option`, the bulk product
  lookup as a sequence. Every repository call the use case makes is returned,
  in order, as a trace of `Call` values. The all-or-nothing behaviour is
  stated on that trace: a failure never reaches the stock write or the order
  creation.
- Lemmas: a request is accepted exactly when every line is accepted. A
  refused request fails with the error of its first refused line. On
  success, line `i` of the order and of the stock updates is fixed by request
  line `i` and its catalog product, and the new stock is never negative.
  Duplicate lines for one product are each checked against the original
  catalog stock. Worked examples cover a catalog with one product.

Behaviour of the code that the model keeps as it is:

- The use case does not check that requested quantities are positive. A zero
  or negative quantity is accepted, and a negative one raises the stock
  (`ExampleNegativeQuantityAccepted`).
- Every line is checked against the stock the bulk lookup returned, not a
  running total. So two lines for one product can together order more than
  is in stock (`DuplicateLinesShareCatalogStock`,
  `ExampleDuplicateLinesOversell`).
- The model's `Order` is the value handed to `ordersRepository.create`.

## Model

| member | source | states |
|---|---|---|
| `CreateOrderService.Execute` | src/modules/orders/services/CreateOrderService.ts:37-87 | With no customer, the result is CustomerNotFound and the customer lookup is the only call. If some line is refused, the result is that line's error and the only calls are the customer and product lookups. Otherwise the order holds the customer and the planned lines, and the calls are the customer lookup, the product lookup, one stock write of the planned updates and one order creation. On any failure only lookups were made. |
| `CreateOrderService.RequestedIds` | src/modules/orders/services/CreateOrderService.ts:44-46 | The bulk lookup is asked for one id per request line, in request order. |
| `CreateOrderService.FindProduct` | src/modules/orders/services/CreateOrderService.ts:51-53 | A found product is an element of the lookup result and has the requested id. Nothing is found exactly when no entry has that id. |
| `CreateOrderService.FindProductReturnsFirstMatch` | src/modules/orders/services/CreateOrderService.ts:51-53 | When several entries share the id, the first one is returned. |
| `CreateOrderService.PriceLine` | src/modules/orders/services/CreateOrderService.ts:51-76 | One line is accepted exactly when its product was found and its quantity is at most the stock. A refused line fails with ProductNotFound when the product is missing and with InsufficientStock otherwise. An accepted line yields an order line with the requested id and quantity and the catalog price, and a stock update of the catalog stock minus the requested quantity, which is never negative. |
| `CreateOrderService.PlanOrder` | src/modules/orders/services/CreateOrderService.ts:48-77 | An accepted request yields exactly one order line and one stock update per request line. |
| `CreateOrderService.PlanSucceedsIff` | src/modules/orders/services/CreateOrderService.ts:50-63 | A request is accepted if and only if every one of its lines is accepted. |
| `CreateOrderService.PlanFailsAtFirstRejectedLine` | src/modules/orders/services/CreateOrderService.ts:50-63 | If line k is the first refused line, the request fails with line k's error, whatever the later lines are. |
| `CreateOrderService.PlanFailureHasFirstRejectedLine` | src/modules/orders/services/CreateOrderService.ts:50-63 | Every refused request has a first refused line, and its error is the request's error. |
| `CreateOrderService.PlanLineAt` | src/modules/orders/services/CreateOrderService.ts:59-76 | In an accepted request, order line i has request line i's id and quantity and the matched catalog price. Stock update i sets that id to the catalog stock minus the requested quantity, which is at least 0. |
| `CreateOrderService.DuplicateLinesShareCatalogStock` | src/modules/orders/services/CreateOrderService.ts:50-76 | Two lines for the same product are each decremented from the same catalog stock, not from a running total. |
| `CreateOrderService.PlanSingleLine` | src/modules/orders/services/CreateOrderService.ts:50-77 | A one-line request succeeds or fails exactly as its line does, and on success yields that line's order line and stock update. |
| `CreateOrderService.PriceRequest` | src/modules/orders/services/CreateOrderService.ts:48-77 | The loop returns exactly `PlanOrder` of the request. |
| `CreateOrderService.ExampleOrderWithinStock` | src/modules/orders/services/CreateOrderService.ts:59-76 | With P1 at price 10 and stock 5, ordering 3 gives the line {P1, 10, 3} and new stock 2. |
| `CreateOrderService.ExampleOrderEmptiesStock` | src/modules/orders/services/CreateOrderService.ts:59-76 | Ordering exactly the stock is accepted and leaves stock 0. |
| `CreateOrderService.ExampleOrderBeyondStock` | src/modules/orders/services/CreateOrderService.ts:59-63 | Ordering 6 of a stock of 5 fails with InsufficientStock. |
| `CreateOrderService.ExampleUnknownProduct` | src/modules/orders/services/CreateOrderService.ts:51-57 | A line for a product the lookup did not return fails with ProductNotFound, even after an accepted line. |
| `CreateOrderService.ExampleNegativeQuantityAccepted` | src/modules/orders/services/CreateOrderService.ts:59-76 | A negative requested quantity passes the stock check and raises the stock. |
| `CreateOrderService.ExampleDuplicateLinesOversell` | src/modules/orders/services/CreateOrderService.ts:50-76 | Two lines of 3 against a stock of 5 are both accepted, and both updates set the stock to 2. |

## Left out

- Dependency injection and the decorators (lines 1, 26-35) are wiring, not behaviour.
- `async`/`await` is left out. Each repository call is one step in the call trace, in the order the source makes them.
- The repository implementations and the persistence entity are left out. The answers of the customer and product lookups are parameters of `Execute`. The stock write and the order creation are recorded as calls, not carried out. No later stock level is modelled, so the model cannot state that repeating a request decrements the stock twice.
- The bulk product lookup result is any sequence: the model does not assume that the catalog returns only products with requested ids.
- `AppError` messages and their mapping to HTTP responses are left out. Errors are the three kinds CustomerNotFound, ProductNotFound and InsufficientStock.
- Prices and quantities are JavaScript numbers in the source and `int` here. Prices are only copied, never computed. Fractional, NaN or infinite quantities are not modelled. Neither is the rounding of whole-number quantities above 2^53 in the subtraction stock minus requested quantity: the sign of the stock check survives the rounding, but the stored new stock can be rounded.
- Two concurrent requests can both pass the stock check for the same product and oversell it. There is also no transaction between the stock write and the order creation. Both are concurrency and persistence concerns that a sequential model cannot capture.
