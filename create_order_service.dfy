/*
 * Model of the order-creation use case: check that the customer exists,
 * price every requested line against the products the catalog returned,
 * refuse the whole request at the first missing product or the first line
 * that asks for more than the stock, and only then write the new stock
 * levels and create the order.
 *
 * The three repositories are not modelled; what they answer is passed in
 * (the customer lookup as an Option, the bulk product lookup as a sequence),
 * and every repository call the use case makes is recorded, in order, in the
 * trace that Execute returns.
 */
module CreateOrderService {

  datatype Option<T> = None | Some(value: T)

  /** The three ways the use case refuses a request. */
  datatype OrderError = CustomerNotFound | ProductNotFound | InsufficientStock

  datatype Result<T> = Success(value: T) | Failure(error: OrderError)

  /** One requested line: a product id and the quantity asked for. */
  datatype RequestedProduct = RequestedProduct(id: string, quantity: int)

  /** A product as the catalog returns it: id, unit price and stock. */
  datatype CatalogProduct = CatalogProduct(id: string, price: int, quantity: int)

  /** A line of the order, with the price copied from the catalog. */
  datatype OrderLine = OrderLine(productId: string, price: int, quantity: int)

  /** The new stock level of one product. */
  datatype StockUpdate = StockUpdate(id: string, quantity: int)

  /** Only the existence of the customer matters to the use case. */
  datatype Customer = Customer(id: string)

  /** What is handed to the order repository. */
  datatype Order = Order(customer: Customer, lines: seq<OrderLine>)

  /** The order lines and stock updates built from a whole request. */
  datatype Plan = Plan(lines: seq<OrderLine>, updates: seq<StockUpdate>)

  /** A repository call, as recorded in the trace. */
  datatype Call =
    | FindCustomer(customerId: string)
    | FindProducts(ids: seq<string>)
    | UpdateQuantity(updates: seq<StockUpdate>)
    | CreateOrder(order: Order)

  /** The ids the bulk product lookup is asked for, one per requested line. */
  function RequestedIds(products: seq<RequestedProduct>): (ids: seq<string>)
    ensures |ids| == |products|
    ensures forall i :: 0 <= i < |products| ==> ids[i] == products[i].id
  {
    seq(|products|, i requires 0 <= i < |products| => products[i].id)
  }

  /**
   * The catalog product whose id equals `id`: the first such entry when
   * there are several, None when there is none.
   */
  function FindProduct(found: seq<CatalogProduct>, id: string): (r: Option<CatalogProduct>)
    ensures r.Some? ==> r.value in found && r.value.id == id
    ensures r.None? <==> forall j :: 0 <= j < |found| ==> found[j].id != id
  {
    if found == [] then None
    else if found[0].id == id then Some(found[0])
    else FindProduct(found[1..], id)
  }

  /** A requested line passes when its product was found and its stock covers it. */
  predicate LineAccepted(found: seq<CatalogProduct>, item: RequestedProduct)
  {
    var p := FindProduct(found, item.id);
    p.Some? && item.quantity <= p.value.quantity
  }

  /**
   * The error a rejected line raises: the same choice as PriceLine's two
   * failure branches, stated on its own so that the plan lemmas can name it.
   */
  function Rejection(found: seq<CatalogProduct>, item: RequestedProduct): OrderError
  {
    if FindProduct(found, item.id).None? then ProductNotFound else InsufficientStock
  }

  /**
   * Prices one requested line: the order line copies the catalog price, and
   * the stock update is the catalog stock minus the requested quantity.
   */
  function PriceLine(found: seq<CatalogProduct>, item: RequestedProduct): (r: Result<(OrderLine, StockUpdate)>)
    ensures r.Success? <==> LineAccepted(found, item)
    ensures r.Failure? ==> r.error == Rejection(found, item)
    ensures r.Success? ==>
              var p := FindProduct(found, item.id).value;
              r.value.0 == OrderLine(item.id, p.price, item.quantity) &&
              r.value.1 == StockUpdate(item.id, p.quantity - item.quantity) &&
              r.value.1.quantity >= 0
  {
    match FindProduct(found, item.id)
    case None => Failure(ProductNotFound)
    case Some(p) =>
      if p.quantity - item.quantity < 0 then Failure(InsufficientStock)
      else Success((OrderLine(item.id, p.price, item.quantity), StockUpdate(item.id, p.quantity - item.quantity)))
  }

  /**
   * The order lines and stock updates of a whole request, built line by line
   * in request order; the first line that fails decides the error.
   */
  function PlanOrder(found: seq<CatalogProduct>, items: seq<RequestedProduct>): (r: Result<Plan>)
    ensures r.Success? ==> |r.value.lines| == |items| && |r.value.updates| == |items|
    decreases |items|
  {
    if items == [] then Success(Plan([], []))
    else
      match PlanOrder(found, items[..|items| - 1])
      case Failure(e) => Failure(e)
      case Success(plan) =>
        match PriceLine(found, items[|items| - 1])
        case Failure(e) => Failure(e)
        case Success(priced) => Success(Plan(plan.lines + [priced.0], plan.updates + [priced.1]))
  }

  /** The first catalog entry with the requested id is the one used. */
  lemma {:induction false} FindProductReturnsFirstMatch(found: seq<CatalogProduct>, id: string, k: nat)
    requires k < |found| && found[k].id == id
    requires forall j :: 0 <= j < k ==> found[j].id != id
    ensures FindProduct(found, id) == Some(found[k])
  {
    if k > 0 {
      FindProductReturnsFirstMatch(found[1..], id, k - 1);
    }
  }

  /** A request is accepted exactly when every one of its lines is. */
  lemma {:induction false} PlanSucceedsIff(found: seq<CatalogProduct>, items: seq<RequestedProduct>)
    ensures PlanOrder(found, items).Success? <==>
            forall i :: 0 <= i < |items| ==> LineAccepted(found, items[i])
    decreases |items|
  {
    if items != [] {
      var prefix := items[..|items| - 1];
      PlanSucceedsIff(found, prefix);
      assert forall i :: 0 <= i < |prefix| ==> prefix[i] == items[i];
    }
  }

  /**
   * A rejected request fails with the error of its first rejected line:
   * every line before it is accepted, and no later line matters.
   */
  lemma {:induction false} PlanFailsAtFirstRejectedLine(found: seq<CatalogProduct>, items: seq<RequestedProduct>, k: nat)
    requires k < |items| && !LineAccepted(found, items[k])
    requires forall j :: 0 <= j < k ==> LineAccepted(found, items[j])
    ensures PlanOrder(found, items) == Failure(Rejection(found, items[k]))
    decreases |items|
  {
    var prefix := items[..|items| - 1];
    if k < |items| - 1 {
      assert prefix[k] == items[k];
      PlanFailsAtFirstRejectedLine(found, prefix, k);
    } else {
      PlanSucceedsIff(found, prefix);
      assert forall i :: 0 <= i < |prefix| ==> prefix[i] == items[i];
    }
  }

  /** A failing request has a first rejected line, and its error is the request's error. */
  lemma PlanFailureHasFirstRejectedLine(found: seq<CatalogProduct>, items: seq<RequestedProduct>)
    requires PlanOrder(found, items).Failure?
    ensures exists k :: 0 <= k < |items| && !LineAccepted(found, items[k]) &&
              (forall j :: 0 <= j < k ==> LineAccepted(found, items[j])) &&
              PlanOrder(found, items).error == Rejection(found, items[k])
  {
    PlanSucceedsIff(found, items);
    var k := 0;
    while LineAccepted(found, items[k])
      invariant 0 <= k < |items|
      invariant forall j :: 0 <= j < k ==> LineAccepted(found, items[j])
      invariant exists m :: k <= m < |items| && !LineAccepted(found, items[m])
      decreases |items| - k
    {
      k := k + 1;
    }
    PlanFailsAtFirstRejectedLine(found, items, k);
  }

  /**
   * Line i of an accepted request: the order line carries the requested id
   * and quantity and the matched catalog price, and the stock update sets
   * that product to its catalog stock minus the requested quantity, which is
   * never negative.
   */
  lemma {:induction false} PlanLineAt(found: seq<CatalogProduct>, items: seq<RequestedProduct>, i: nat)
    requires PlanOrder(found, items).Success? && i < |items|
    ensures FindProduct(found, items[i].id).Some?
    ensures var p := FindProduct(found, items[i].id).value;
            var plan := PlanOrder(found, items).value;
            plan.lines[i] == OrderLine(items[i].id, p.price, items[i].quantity) &&
            plan.updates[i] == StockUpdate(items[i].id, p.quantity - items[i].quantity) &&
            plan.updates[i].quantity >= 0
    decreases |items|
  {
    var prefix := items[..|items| - 1];
    if i < |items| - 1 {
      assert prefix[i] == items[i];
      PlanLineAt(found, prefix, i);
    }
  }

  /**
   * Two lines for the same product are each checked against, and decremented
   * from, the stock the catalog returned, not a running total: both stock
   * updates plus their requested quantities equal the same catalog stock.
   */
  lemma DuplicateLinesShareCatalogStock(found: seq<CatalogProduct>, items: seq<RequestedProduct>, i: nat, j: nat)
    requires PlanOrder(found, items).Success? && i < |items| && j < |items|
    requires items[i].id == items[j].id
    ensures var plan := PlanOrder(found, items).value;
            plan.updates[i].quantity + items[i].quantity == plan.updates[j].quantity + items[j].quantity
  {
    PlanLineAt(found, items, i);
    PlanLineAt(found, items, j);
  }

  /** A one-line request is decided by that line alone. */
  lemma PlanSingleLine(found: seq<CatalogProduct>, item: RequestedProduct)
    ensures PriceLine(found, item).Failure? ==>
              PlanOrder(found, [item]) == Failure(PriceLine(found, item).error)
    ensures PriceLine(found, item).Success? ==>
              var priced := PriceLine(found, item).value;
              PlanOrder(found, [item]) == Success(Plan([priced.0], [priced.1]))
  {
    assert [item][..0] == [];
    if PriceLine(found, item).Success? {
      var priced := PriceLine(found, item).value;
      assert [] + [priced.0] == [priced.0];
      assert [] + [priced.1] == [priced.1];
    }
  }

  /*
   * Worked examples on a catalog holding product P1 at price 10 with 5 in
   * stock.
   */
  const P1Catalog: seq<CatalogProduct> := [CatalogProduct("P1", 10, 5)]

  /** Ordering 3 of P1 gives one line at the catalog price and leaves 2 in stock. */
  lemma ExampleOrderWithinStock()
    ensures PlanOrder(P1Catalog, [RequestedProduct("P1", 3)]) ==
            Success(Plan([OrderLine("P1", 10, 3)], [StockUpdate("P1", 2)]))
  {
    PlanSingleLine(P1Catalog, RequestedProduct("P1", 3));
  }

  /** Ordering all 5 of P1 is accepted and leaves the stock at 0. */
  lemma ExampleOrderEmptiesStock()
    ensures PlanOrder(P1Catalog, [RequestedProduct("P1", 5)]) ==
            Success(Plan([OrderLine("P1", 10, 5)], [StockUpdate("P1", 0)]))
  {
    PlanSingleLine(P1Catalog, RequestedProduct("P1", 5));
  }

  /** Ordering 6 of P1 is refused for insufficient stock. */
  lemma ExampleOrderBeyondStock()
    ensures PlanOrder(P1Catalog, [RequestedProduct("P1", 6)]) == Failure(InsufficientStock)
  {
  }

  /** An unknown product is refused, even after an accepted line. */
  lemma ExampleUnknownProduct()
    ensures PlanOrder(P1Catalog, [RequestedProduct("P1", 1), RequestedProduct("P2", 1)]) ==
            Failure(ProductNotFound)
  {
  }

  /** A negative requested quantity is not refused; it raises the stock. */
  lemma ExampleNegativeQuantityAccepted()
    ensures PlanOrder(P1Catalog, [RequestedProduct("P1", -2)]) ==
            Success(Plan([OrderLine("P1", 10, -2)], [StockUpdate("P1", 7)]))
  {
    PlanSingleLine(P1Catalog, RequestedProduct("P1", -2));
  }

  /**
   * Two lines of 3 for P1 are each checked against the 5 in stock, so the
   * request is accepted although it asks for 6, and both updates set the
   * stock to 2.
   */
  lemma ExampleDuplicateLinesOversell()
    ensures PlanOrder(P1Catalog, [RequestedProduct("P1", 3), RequestedProduct("P1", 3)]) ==
            Success(Plan([OrderLine("P1", 10, 3), OrderLine("P1", 10, 3)],
                         [StockUpdate("P1", 2), StockUpdate("P1", 2)]))
  {
    var line := RequestedProduct("P1", 3);
    PlanSingleLine(P1Catalog, line);
    assert [line, line][..1] == [line];
    assert [OrderLine("P1", 10, 3)] + [OrderLine("P1", 10, 3)] == [OrderLine("P1", 10, 3), OrderLine("P1", 10, 3)];
    assert [StockUpdate("P1", 2)] + [StockUpdate("P1", 2)] == [StockUpdate("P1", 2), StockUpdate("P1", 2)];
  }

  /**
   * The loop of the use case: walks the request in order, refusing it at the
   * first line without a catalog product or with too little stock, and
   * otherwise appending one order line and one stock update per request line.
   */
  method PriceRequest(found: seq<CatalogProduct>, products: seq<RequestedProduct>) returns (r: Result<Plan>)
    ensures r == PlanOrder(found, products)
  {
    var lines: seq<OrderLine> := [];
    var updates: seq<StockUpdate> := [];
    var i := 0;
    while i < |products|
      invariant 0 <= i <= |products|
      invariant forall j :: 0 <= j < i ==> LineAccepted(found, products[j])
      invariant PlanOrder(found, products[..i]) == Success(Plan(lines, updates))
    {
      var product := products[i];
      assert products[..i + 1][..i] == products[..i];
      var foundProduct := FindProduct(found, product.id);
      if foundProduct.None? {
        PlanFailsAtFirstRejectedLine(found, products, i);
        return Failure(ProductNotFound);
      }
      if foundProduct.value.quantity - product.quantity < 0 {
        PlanFailsAtFirstRejectedLine(found, products, i);
        return Failure(InsufficientStock);
      }
      lines := lines + [OrderLine(product.id, foundProduct.value.price, product.quantity)];
      updates := updates + [StockUpdate(product.id, foundProduct.value.quantity - product.quantity)];
      i := i + 1;
    }
    assert products[..i] == products;
    r := Success(Plan(lines, updates));
  }

  /**
   * The use case. `customer` is what the customer lookup answers for
   * `customerId`; `foundProducts` is what the bulk product lookup answers
   * when it is asked. `calls` records every repository call made, in order:
   * a missing customer stops everything after the customer lookup, a
   * rejected line stops everything after the product lookup, and the stock
   * write and the order creation happen only for a fully accepted request.
   */
  method Execute(customerId: string, products: seq<RequestedProduct>,
                 customer: Option<Customer>, foundProducts: seq<CatalogProduct>)
    returns (result: Result<Order>, calls: seq<Call>)
    ensures result.Failure? ==> forall c :: c in calls ==> c.FindCustomer? || c.FindProducts?
    ensures customer.None? ==>
              result == Failure(CustomerNotFound) && calls == [FindCustomer(customerId)]
    ensures customer.Some? && PlanOrder(foundProducts, products).Failure? ==>
              result == Failure(PlanOrder(foundProducts, products).error) &&
              calls == [FindCustomer(customerId), FindProducts(RequestedIds(products))]
    ensures customer.Some? && PlanOrder(foundProducts, products).Success? ==>
              var plan := PlanOrder(foundProducts, products).value;
              result == Success(Order(customer.value, plan.lines)) &&
              calls == [FindCustomer(customerId), FindProducts(RequestedIds(products)),
                        UpdateQuantity(plan.updates), CreateOrder(result.value)]
  {
    calls := [FindCustomer(customerId)];
    if customer.None? {
      return Failure(CustomerNotFound), calls;
    }
    calls := calls + [FindProducts(RequestedIds(products))];
    var planned := PriceRequest(foundProducts, products);
    if planned.Failure? {
      return Failure(planned.error), calls;
    }
    calls := calls + [UpdateQuantity(planned.value.updates)];
    var order := Order(customer.value, planned.value.lines);
    calls := calls + [CreateOrder(order)];
    result := Success(order);
  }
}
