/**
 * The order-creation service: it checks the customer, reads the requested
 * products in one batch, validates and assembles the order line by line, then
 * stores the order and writes the new stocks back to the catalog.
 */
module Service {
  import opened Orders
  import opened Catalog

  /**
   * The per-line loop of the service: walks the request in order, looks each
   * product up among the snapshots, stops at the first missing product or
   * stock shortage, and otherwise appends one update and one order line.
   */
  method BuildOrder(request: seq<RequestLine>, snapshots: seq<Snapshot>) returns (r: Result<Assembly>)
    ensures r == Assemble(request, snapshots)
  {
    var lines: seq<OrderLine> := [];
    var updates: seq<QuantityUpdate> := [];
    var i := 0;
    while i < |request|
      invariant 0 <= i <= |request|
      invariant Assemble(request[..i], snapshots) == Ok(Assembly(lines, updates))
    {
      var line := request[i];
      var item := Find(snapshots, line.id);
      if item.None? {
        FailureStopsAssembly(request, snapshots, i);
        return Err(ProductNotFound);
      }
      if item.value.quantity < line.quantity {
        FailureStopsAssembly(request, snapshots, i);
        return Err(QuantityUnavailable);
      }
      updates := updates + [QuantityUpdate(item.value.id, item.value.quantity - line.quantity)];
      lines := lines + [OrderLine(item.value.id, item.value.price, line.quantity)];
      assert request[..i + 1][..i] == request[..i];
      i := i + 1;
    }
    assert request[..i] == request;
    return Ok(Assembly(lines, updates));
  }

  /** When the lines before `i` pass and line `i` fails, the request fails with line `i`'s error. */
  lemma {:induction false} FailureStopsAssembly(request: seq<RequestLine>, snapshots: seq<Snapshot>, i: nat)
    requires i < |request|
    requires Assemble(request[..i], snapshots).Ok?
    requires CheckLine(request[i], snapshots).Err?
    ensures Assemble(request, snapshots) == Err(CheckLine(request[i], snapshots).error)
  {
    assert request[..i + 1][..i] == request[..i];
    AssemblePrefixErr(request, snapshots, i + 1);
  }

  /**
   * Against the batch fetched for the request, a line fails with a missing
   * product exactly when the catalog lacks it, and with a stock shortage
   * exactly when the catalog holds it with less stock than requested.
   */
  lemma {:induction false} PlacementLineCheck(catalog: map<Id, Stock>, request: seq<RequestLine>, k: int)
    requires 0 <= k < |request|
    ensures
      var id := request[k].id;
      var check := CheckLine(request[k], Fetch(catalog, Ids(request)));
      && (check == Err(ProductNotFound) <==> id !in catalog)
      && (check == Err(QuantityUnavailable) <==> id in catalog && catalog[id].quantity < request[k].quantity)
      && (check.Ok? <==> id in catalog && request[k].quantity <= catalog[id].quantity)
  {
    assert Ids(request)[k] == request[k].id;
    FetchFind(catalog, Ids(request), request[k].id);
  }

  /** A request is accepted exactly when every line names a catalog product with enough stock. */
  lemma {:induction false} PlacementOkIff(catalog: map<Id, Stock>, request: seq<RequestLine>)
    ensures Assemble(request, Fetch(catalog, Ids(request))).Ok? <==>
      forall i :: 0 <= i < |request| ==>
        request[i].id in catalog && request[i].quantity <= catalog[request[i].id].quantity
  {
    AssembleOkIff(request, Fetch(catalog, Ids(request)));
    forall i | 0 <= i < |request| {
      PlacementLineCheck(catalog, request, i);
    }
  }

  /**
   * On acceptance, order line `i` copies the catalog price of requested line
   * `i`'s product and its quantity, and update `i` sets that product's stock to
   * the catalog stock minus the requested quantity.
   */
  lemma {:induction false} PlacementLine(catalog: map<Id, Stock>, request: seq<RequestLine>, i: int)
    requires Assemble(request, Fetch(catalog, Ids(request))).Ok?
    requires 0 <= i < |request|
    ensures request[i].id in catalog
    ensures
      var a := Assemble(request, Fetch(catalog, Ids(request))).value;
      var stock := catalog[request[i].id];
      && request[i].quantity <= stock.quantity
      && a.lines[i] == OrderLine(request[i].id, stock.price, request[i].quantity)
      && a.updates[i] == QuantityUpdate(request[i].id, stock.quantity - request[i].quantity)
  {
    assert Ids(request)[i] == request[i].id;
    FetchFind(catalog, Ids(request), request[i].id);
    AssembledLine(request, Fetch(catalog, Ids(request)), i);
  }

  /**
   * After an accepted request's updates are written, a product requested by
   * exactly one line has its old stock minus the requested quantity.
   */
  lemma {:induction false} StockAfterPlacement(catalog: map<Id, Stock>, request: seq<RequestLine>, k: int)
    requires Assemble(request, Fetch(catalog, Ids(request))).Ok?
    requires 0 <= k < |request|
    requires forall j :: 0 <= j < |request| && j != k ==> request[j].id != request[k].id
    ensures request[k].id in catalog
    ensures
      var a := Assemble(request, Fetch(catalog, Ids(request))).value;
      ApplyUpdates(catalog, a.updates)[request[k].id].quantity ==
        catalog[request[k].id].quantity - request[k].quantity
  {
    var snapshots := Fetch(catalog, Ids(request));
    var a := Assemble(request, snapshots).value;
    forall j | 0 <= j < |request| ensures a.updates[j].id == request[j].id {
      AssembledLine(request, snapshots, j);
    }
    PlacementLine(catalog, request, k);
    ApplyUpdatesOnce(catalog, a.updates, k);
  }

  /** After an accepted request's updates are written, products it did not name are unchanged. */
  lemma {:induction false} UntouchedAfterPlacement(catalog: map<Id, Stock>, request: seq<RequestLine>, snapshots: seq<Snapshot>, id: Id)
    requires Assemble(request, snapshots).Ok?
    requires id in catalog
    requires forall j :: 0 <= j < |request| ==> request[j].id != id
    ensures ApplyUpdates(catalog, Assemble(request, snapshots).value.updates)[id] == catalog[id]
  {
    UpdatesNameRequestedProducts(request, snapshots);
    ApplyUpdatesUntouched(catalog, Assemble(request, snapshots).value.updates, id);
  }

  /** On acceptance, update `j` names the product of requested line `j`. */
  lemma {:induction false} UpdatesNameRequestedProducts(request: seq<RequestLine>, snapshots: seq<Snapshot>)
    requires Assemble(request, snapshots).Ok?
    ensures forall j :: 0 <= j < |request| ==> Assemble(request, snapshots).value.updates[j].id == request[j].id
  {
    forall j | 0 <= j < |request| ensures Assemble(request, snapshots).value.updates[j].id == request[j].id {
      AssembledLine(request, snapshots, j);
    }
  }

  /** Writing an accepted request's updates never makes a stock negative. */
  lemma {:induction false} PlacementKeepsStockNonNegative(catalog: map<Id, Stock>, request: seq<RequestLine>)
    requires StockNonNegative(catalog)
    requires Assemble(request, Fetch(catalog, Ids(request))).Ok?
    ensures
      var a := Assemble(request, Fetch(catalog, Ids(request))).value;
      StockNonNegative(ApplyUpdates(catalog, a.updates))
  {
    var a := Assemble(request, Fetch(catalog, Ids(request))).value;
    forall j | 0 <= j < |request| ensures a.updates[j].quantity >= 0 {
      PlacementLine(catalog, request, j);
    }
    ApplyUpdatesNonNegative(catalog, a.updates);
  }

  /** A call the service makes to one of its repositories, in the order made. */
  datatype Call =
    | FindCustomer(customerId: Id)
    | FindProducts(ids: seq<Id>)
    | CreateOrder(order: Order)
    | UpdateQuantity(updates: seq<QuantityUpdate>)

  /**
   * The service together with the state of the three repositories it uses:
   * the known customers, the product catalog and the stored orders. `trace`
   * records the repository calls made, in order.
   */
  class CreateOrderService {
    var customers: set<Id>
    var catalog: map<Id, Stock>
    var orders: seq<Order>
    ghost var trace: seq<Call>

    /** The order store numbers orders by their position, so no two stored orders share an id. */
    ghost predicate Valid()
      reads this
      ensures Valid() ==> forall i, j :: 0 <= i < j < |orders| ==> orders[i].id != orders[j].id
    {
      forall i :: 0 <= i < |orders| ==> orders[i].id == i
    }

    constructor (customers: set<Id>, catalog: map<Id, Stock>)
      ensures Valid()
      ensures this.customers == customers && this.catalog == catalog
      ensures orders == [] && trace == []
    {
      this.customers := customers;
      this.catalog := catalog;
      orders := [];
      trace := [];
    }

    /** The customer repository's lookup. */
    method FindCustomerById(customerId: Id) returns (found: bool)
      modifies this`trace
      ensures found <==> customerId in customers
      ensures trace == old(trace) + [FindCustomer(customerId)]
    {
      found := customerId in customers;
      trace := trace + [FindCustomer(customerId)];
    }

    /** The product repository's batch read. */
    method FindAllById(ids: seq<Id>) returns (snapshots: seq<Snapshot>)
      modifies this`trace
      ensures snapshots == Fetch(catalog, ids)
      ensures trace == old(trace) + [FindProducts(ids)]
    {
      snapshots := Fetch(catalog, ids);
      trace := trace + [FindProducts(ids)];
    }

    /** The order repository's insert: stores the order under the next id and returns it. */
    method Create(customerId: Id, lines: seq<OrderLine>) returns (order: Order)
      requires Valid()
      modifies this`orders, this`trace
      ensures Valid()
      ensures order == Order(|old(orders)|, customerId, lines)
      ensures orders == old(orders) + [order]
      ensures trace == old(trace) + [CreateOrder(order)]
    {
      order := Order(|orders|, customerId, lines);
      orders := orders + [order];
      trace := trace + [CreateOrder(order)];
    }

    /** The product repository's stock write. */
    method UpdateQuantities(updates: seq<QuantityUpdate>)
      modifies this`catalog, this`trace
      ensures catalog == ApplyUpdates(old(catalog), updates)
      ensures trace == old(trace) + [UpdateQuantity(updates)]
    {
      catalog := ApplyUpdates(catalog, updates);
      trace := trace + [UpdateQuantity(updates)];
    }

    /**
     * Places an order. An unknown customer fails before any product is read; a
     * failing line fails before anything is stored or written; otherwise the
     * order is stored first, the new stocks are written second, and the stored
     * order is returned.
     */
    method Execute(customerId: Id, request: seq<RequestLine>) returns (r: Result<Order>)
      requires Valid()
      modifies this`orders, this`catalog, this`trace
      ensures Valid()
      ensures customerId !in customers ==>
        && r == Err(CustomerNotFound)
        && orders == old(orders) && catalog == old(catalog)
        && trace == old(trace) + [FindCustomer(customerId)]
      ensures customerId in customers ==>
        match Assemble(request, Fetch(old(catalog), Ids(request)))
        case Err(e) =>
          && r == Err(e)
          && orders == old(orders) && catalog == old(catalog)
          && trace == old(trace) + [FindCustomer(customerId), FindProducts(Ids(request))]
        case Ok(a) =>
          && r == Ok(Order(|old(orders)|, customerId, a.lines))
          && orders == old(orders) + [r.value]
          && catalog == ApplyUpdates(old(catalog), a.updates)
          && trace == old(trace) + [FindCustomer(customerId), FindProducts(Ids(request)),
                                    CreateOrder(r.value), UpdateQuantity(a.updates)]
      ensures StockNonNegative(old(catalog)) ==> StockNonNegative(catalog)
    {
      var found := FindCustomerById(customerId);
      if !found {
        return Err(CustomerNotFound);
      }
      var snapshots := FindAllById(Ids(request));
      var assembled := BuildOrder(request, snapshots);
      if assembled.Err? {
        return Err(assembled.error);
      }
      var order := Create(customerId, assembled.value.lines);
      ghost var before := catalog;
      UpdateQuantities(assembled.value.updates);
      if StockNonNegative(before) {
        PlacementKeepsStockNonNegative(before, request);
      }
      return Ok(order);
    }
  }

  /** A client: customer C1 orders 3 of the 5 units of P1 (price 10); 2 remain. */
  method AcceptedOrderScenario()
  {
    var service := new CreateOrderService({"C1"}, map["P1" := Stock(10.0, 5)]);
    var request := [RequestLine("P1", 3)];
    PlacementOkIff(service.catalog, request);
    PlacementLine(service.catalog, request, 0);
    StockAfterPlacement(service.catalog, request, 0);
    ghost var a := Assemble(request, Fetch(service.catalog, Ids(request))).value;
    assert a.lines == [OrderLine("P1", 10.0, 3)];
    var r := service.Execute("C1", request);
    assert r == Ok(Order(0, "C1", [OrderLine("P1", 10.0, 3)]));
    assert service.catalog["P1"] == Stock(10.0, 2);
  }

  /** A client: ordering 9 of the 5 units of P1 fails and leaves the stock at 5. */
  method ShortageScenario()
  {
    var service := new CreateOrderService({"C1"}, map["P1" := Stock(10.0, 5)]);
    var request := [RequestLine("P1", 9)];
    PlacementLineCheck(service.catalog, request, 0);
    AssembleErrIff(request, Fetch(service.catalog, Ids(request)), QuantityUnavailable);
    assert FailsFirstAt(request, Fetch(service.catalog, Ids(request)), 0, QuantityUnavailable);
    var r := service.Execute("C1", request);
    assert r == Err(QuantityUnavailable);
    assert service.catalog["P1"] == Stock(10.0, 5) && service.orders == [];
  }

  /** A client: a request naming the unknown product P2 fails, despite a valid first line. */
  method UnknownProductScenario()
  {
    var service := new CreateOrderService({"C1"}, map["P1" := Stock(10.0, 5)]);
    var request := [RequestLine("P1", 1), RequestLine("P2", 1)];
    PlacementLineCheck(service.catalog, request, 0);
    PlacementLineCheck(service.catalog, request, 1);
    AssembleErrIff(request, Fetch(service.catalog, Ids(request)), ProductNotFound);
    assert FailsFirstAt(request, Fetch(service.catalog, Ids(request)), 1, ProductNotFound);
    var r := service.Execute("C1", request);
    assert r == Err(ProductNotFound);
    assert service.catalog["P1"] == Stock(10.0, 5) && service.orders == [];
  }

  /** A client: the same order placed twice gives two distinct orders and takes the stock down twice. */
  method RepeatedOrderScenario()
  {
    var service := new CreateOrderService({"C1"}, map["P1" := Stock(10.0, 2)]);
    var request := [RequestLine("P1", 1)];
    PlacementOkIff(service.catalog, request);
    StockAfterPlacement(service.catalog, request, 0);
    var first := service.Execute("C1", request);
    PlacementOkIff(service.catalog, request);
    StockAfterPlacement(service.catalog, request, 0);
    var second := service.Execute("C1", request);
    assert first.Ok? && second.Ok? && first.value.id == 0 && second.value.id == 1;
    assert service.catalog["P1"].quantity == 0;
  }
}
