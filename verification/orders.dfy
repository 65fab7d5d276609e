/**
 * Values of the order-placement workflow and the pure part of its per-line
 * validation: looking a requested product up among the fetched snapshots,
 * checking its stock, and assembling the order lines and the stock updates.
 */
module Orders {

  /** Customer and product identifiers are opaque keys. */
  type Id = string

  /** A unit price. The workflow only copies prices, it never computes on them. */
  type Price = real

  /** One requested line: a product id and a quantity (no positivity is enforced). */
  datatype RequestLine = RequestLine(id: Id, quantity: int)

  /** A product record as fetched from the catalog. */
  datatype Snapshot = Snapshot(id: Id, price: Price, quantity: int)

  /** One line of the order being created. */
  datatype OrderLine = OrderLine(productId: Id, price: Price, quantity: int)

  /** The new stock of one product, to be written back to the catalog. */
  datatype QuantityUpdate = QuantityUpdate(id: Id, quantity: int)

  /** A persisted order; its id is assigned by the order store. */
  datatype Order = Order(id: nat, customerId: Id, lines: seq<OrderLine>)

  /** The three failures the workflow raises. */
  datatype Error = CustomerNotFound | ProductNotFound | QuantityUnavailable

  datatype Option<T> = None | Some(value: T)

  datatype Result<T> = Ok(value: T) | Err(error: Error)

  /** What the per-line loop builds: the order lines and the stock updates. */
  datatype Assembly = Assembly(lines: seq<OrderLine>, updates: seq<QuantityUpdate>)

  /** The first snapshot whose id is `id`, if any. */
  function Find(snapshots: seq<Snapshot>, id: Id): (r: Option<Snapshot>)
    ensures r.None? <==> forall j :: 0 <= j < |snapshots| ==> snapshots[j].id != id
    ensures r.Some? ==> r.value.id == id
    ensures r.Some? ==>
      exists k :: 0 <= k < |snapshots| && snapshots[k] == r.value &&
                   forall j :: 0 <= j < k ==> snapshots[j].id != id
  {
    if snapshots == [] then None
    else if snapshots[0].id == id then Some(snapshots[0])
    else
      var r := Find(snapshots[1..], id);
      assert r.Some? ==>
        exists k :: 1 <= k < |snapshots| && snapshots[k] == r.value &&
                     forall j :: 0 <= j < k ==> snapshots[j].id != id
      by {
        if r.Some? {
          var k :| 0 <= k < |snapshots[1..]| && snapshots[1..][k] == r.value &&
            forall j :: 0 <= j < k ==> snapshots[1..][j].id != id;
          assert forall j :: 0 <= j < k + 1 ==> snapshots[j].id != id by {
            forall j | 0 <= j < k + 1 ensures snapshots[j].id != id {
              if j > 0 { assert snapshots[j] == snapshots[1..][j - 1]; }
            }
          }
        }
      }
      r
  }

  /**
   * Validates one requested line against the snapshots and, when it passes,
   * gives its order line and its stock update. A missing product is reported
   * before a stock shortage; a requested quantity equal to the stock passes.
   */
  function CheckLine(line: RequestLine, snapshots: seq<Snapshot>): (r: Result<(OrderLine, QuantityUpdate)>)
    ensures r == Err(ProductNotFound) <==> forall j :: 0 <= j < |snapshots| ==> snapshots[j].id != line.id
    ensures r == Err(QuantityUnavailable) <==>
      Find(snapshots, line.id).Some? && Find(snapshots, line.id).value.quantity < line.quantity
    ensures r.Err? ==> r.error != CustomerNotFound
    ensures r.Ok? ==>
      var item := Find(snapshots, line.id).value;
      && line.quantity <= item.quantity
      && r.value.0 == OrderLine(line.id, item.price, line.quantity)
      && r.value.1 == QuantityUpdate(line.id, item.quantity - line.quantity)
      && r.value.1.quantity >= 0
  {
    match Find(snapshots, line.id)
    case None => Err(ProductNotFound)
    case Some(item) =>
      if item.quantity < line.quantity then Err(QuantityUnavailable)
      else Ok((OrderLine(item.id, item.price, line.quantity),
               QuantityUpdate(item.id, item.quantity - line.quantity)))
  }

  /**
   * The outcome of the per-line loop over `request`: the first failing line's
   * error, or one order line and one update per requested line, in order.
   */
  function Assemble(request: seq<RequestLine>, snapshots: seq<Snapshot>): (r: Result<Assembly>)
    ensures r.Ok? ==> |r.value.lines| == |request| && |r.value.updates| == |request|
    decreases |request|
  {
    if request == [] then Ok(Assembly([], []))
    else
      match Assemble(request[..|request| - 1], snapshots)
      case Err(e) => Err(e)
      case Ok(a) =>
        match CheckLine(request[|request| - 1], snapshots)
        case Err(e) => Err(e)
        case Ok(pair) => Ok(Assembly(a.lines + [pair.0], a.updates + [pair.1]))
  }

  /** Line `k` is the first line of `request` that fails, and it fails with `e`. */
  ghost predicate FailsFirstAt(request: seq<RequestLine>, snapshots: seq<Snapshot>, k: int, e: Error)
  {
    && 0 <= k < |request|
    && CheckLine(request[k], snapshots) == Err(e)
    && forall j :: 0 <= j < k ==> CheckLine(request[j], snapshots).Ok?
  }

  /** The assembly succeeds exactly when every requested line passes on its own. */
  lemma {:induction false} AssembleOkIff(request: seq<RequestLine>, snapshots: seq<Snapshot>)
    ensures Assemble(request, snapshots).Ok? <==>
      forall i :: 0 <= i < |request| ==> CheckLine(request[i], snapshots).Ok?
    decreases |request|
  {
    if request != [] {
      var n := |request| - 1;
      var prefix := request[..n];
      AssembleOkIff(prefix, snapshots);
      assert forall i :: 0 <= i < n ==> prefix[i] == request[i];
    }
  }

  /**
   * On success, line `i` of the order and update `i` come from requested line
   * `i` and the first snapshot with its id, whose stock covers the request.
   */
  lemma {:induction false} AssembledLine(request: seq<RequestLine>, snapshots: seq<Snapshot>, i: int)
    requires Assemble(request, snapshots).Ok?
    requires 0 <= i < |request|
    ensures Find(snapshots, request[i].id).Some?
    ensures
      var a := Assemble(request, snapshots).value;
      var item := Find(snapshots, request[i].id).value;
      && request[i].quantity <= item.quantity
      && a.lines[i] == OrderLine(request[i].id, item.price, request[i].quantity)
      && a.updates[i] == QuantityUpdate(request[i].id, item.quantity - request[i].quantity)
    decreases |request|
  {
    var n := |request| - 1;
    var prefix := request[..n];
    var a := Assemble(request, snapshots).value;
    var pair := CheckLine(request[n], snapshots).value;
    var p := Assemble(prefix, snapshots).value;
    assert a.lines == p.lines + [pair.0] && a.updates == p.updates + [pair.1];
    if i < n {
      AssembledLine(prefix, snapshots, i);
      assert prefix[i] == request[i];
    }
  }

  /**
   * The assembly fails with `e` exactly when some line fails with `e` and every
   * line before it passes: errors are those of the first failing line.
   */
  lemma {:induction false} AssembleErrIff(request: seq<RequestLine>, snapshots: seq<Snapshot>, e: Error)
    ensures Assemble(request, snapshots) == Err(e) <==>
      exists k :: FailsFirstAt(request, snapshots, k, e)
    decreases |request|
  {
    if request != [] {
      var n := |request| - 1;
      var prefix := request[..n];
      AssembleErrIff(prefix, snapshots, e);
      AssembleOkIff(prefix, snapshots);
      assert forall i :: 0 <= i < n ==> prefix[i] == request[i];
      if Assemble(request, snapshots) == Err(e) {
        if Assemble(prefix, snapshots).Err? {
          var k :| FailsFirstAt(prefix, snapshots, k, e);
          assert FailsFirstAt(request, snapshots, k, e);
        } else {
          assert FailsFirstAt(request, snapshots, n, e);
        }
      }
      if k :| FailsFirstAt(request, snapshots, k, e) {
        if k < n {
          assert FailsFirstAt(prefix, snapshots, k, e);
        } else {
          assert Assemble(prefix, snapshots).Ok?;
        }
      }
    }
  }

  /** Once a prefix of the request has failed, the whole request fails the same way. */
  lemma {:induction false} AssemblePrefixErr(request: seq<RequestLine>, snapshots: seq<Snapshot>, i: nat)
    requires i <= |request|
    requires Assemble(request[..i], snapshots).Err?
    ensures Assemble(request, snapshots) == Assemble(request[..i], snapshots)
    decreases |request| - i
  {
    if i < |request| {
      var next := request[..i + 1];
      assert next[..i] == request[..i];
      AssemblePrefixErr(request, snapshots, i + 1);
    } else {
      assert request[..i] == request;
    }
  }

  /**
   * Repeating a requested line never makes an accepted request fail: each line
   * is checked against the fetched stock, not against a running total.
   */
  lemma {:induction false} RepeatedLineAccepted(request: seq<RequestLine>, snapshots: seq<Snapshot>, k: int)
    requires Assemble(request, snapshots).Ok?
    requires 0 <= k < |request|
    ensures Assemble(request + [request[k]], snapshots).Ok?
  {
    var longer := request + [request[k]];
    AssembleOkIff(request, snapshots);
    AssembleOkIff(longer, snapshots);
    assert forall i :: 0 <= i < |request| ==> longer[i] == request[i];
  }

  /**
   * Two accepted lines for the same product are both priced and decremented
   * from the same fetched snapshot.
   */
  lemma {:induction false} SameProductSameSnapshot(request: seq<RequestLine>, snapshots: seq<Snapshot>, i: int, j: int)
    requires Assemble(request, snapshots).Ok?
    requires 0 <= i < |request| && 0 <= j < |request|
    requires request[i].id == request[j].id
    ensures
      var a := Assemble(request, snapshots).value;
      && a.lines[i].price == a.lines[j].price
      && a.updates[i].quantity + request[i].quantity == a.updates[j].quantity + request[j].quantity
  {
    AssembledLine(request, snapshots, i);
    AssembledLine(request, snapshots, j);
  }

  /**
   * Over-allocation by duplicate lines: with a stock of 5, two lines of 3 units
   * of the same product are both accepted and both set the stock to 2.
   */
  lemma {:induction false} DuplicateLinesOverAllocate(id: Id, price: Price)
    ensures
      var request := [RequestLine(id, 3), RequestLine(id, 3)];
      Assemble(request, [Snapshot(id, price, 5)]) ==
        Ok(Assembly([OrderLine(id, price, 3), OrderLine(id, price, 3)],
                    [QuantityUpdate(id, 2), QuantityUpdate(id, 2)]))
  {
    var request := [RequestLine(id, 3), RequestLine(id, 3)];
    var snapshots := [Snapshot(id, price, 5)];
    var one := [RequestLine(id, 3)];
    assert Find(snapshots, id) == Some(Snapshot(id, price, 5));
    assert CheckLine(RequestLine(id, 3), snapshots) ==
      Ok((OrderLine(id, price, 3), QuantityUpdate(id, 2)));
    assert one[..0] == [];
    assert Assemble(one[..0], snapshots) == Ok(Assembly([], []));
    assert [] + [OrderLine(id, price, 3)] == [OrderLine(id, price, 3)];
    assert [] + [QuantityUpdate(id, 2)] == [QuantityUpdate(id, 2)];
    assert Assemble(one, snapshots) == Ok(Assembly([OrderLine(id, price, 3)], [QuantityUpdate(id, 2)]));
    assert request[..|request| - 1] == one;
    assert [OrderLine(id, price, 3)] + [OrderLine(id, price, 3)] ==
      [OrderLine(id, price, 3), OrderLine(id, price, 3)];
    assert [QuantityUpdate(id, 2)] + [QuantityUpdate(id, 2)] ==
      [QuantityUpdate(id, 2), QuantityUpdate(id, 2)];
  }
}
