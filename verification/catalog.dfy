/**
 * The product catalog as the workflow sees it: a map from product id to its
 * price and stock, read in one batch for the requested ids and written back
 * with a list of stock updates.
 */
module Catalog {
  import opened Orders

  /** The catalog's record for one product. */
  datatype Stock = Stock(price: Price, quantity: int)

  /** Every product in the catalog has a non-negative stock. */
  ghost predicate StockNonNegative(catalog: map<Id, Stock>)
  {
    forall id :: id in catalog ==> catalog[id].quantity >= 0
  }

  /** The ids of the requested lines, in request order. */
  function Ids(request: seq<RequestLine>): (ids: seq<Id>)
    ensures |ids| == |request|
    ensures forall i :: 0 <= i < |request| ==> ids[i] == request[i].id
  {
    seq(|request|, i requires 0 <= i < |request| => request[i].id)
  }

  /**
   * The batch read of the catalog: one snapshot per distinct requested id that
   * the catalog holds, carrying the catalog's price and stock for it.
   */
  function Fetch(catalog: map<Id, Stock>, ids: seq<Id>): (r: seq<Snapshot>)
    ensures forall k :: 0 <= k < |r| ==>
      && r[k].id in ids
      && r[k].id in catalog
      && r[k].price == catalog[r[k].id].price
      && r[k].quantity == catalog[r[k].id].quantity
    ensures forall k, l :: 0 <= k < l < |r| ==> r[k].id != r[l].id
    decreases |ids|
  {
    if ids == [] then []
    else
      var prefix := ids[..|ids| - 1];
      var id := ids[|ids| - 1];
      var rest := Fetch(catalog, prefix);
      if id in catalog && id !in prefix then
        rest + [Snapshot(id, catalog[id].price, catalog[id].quantity)]
      else
        rest
  }

  /** Every requested id that the catalog holds has a snapshot in the batch. */
  lemma {:induction false} FetchCovers(catalog: map<Id, Stock>, ids: seq<Id>, id: Id)
    requires id in ids && id in catalog
    ensures exists k :: 0 <= k < |Fetch(catalog, ids)| && Fetch(catalog, ids)[k].id == id
    decreases |ids|
  {
    var prefix := ids[..|ids| - 1];
    var last := ids[|ids| - 1];
    assert ids == prefix + [last];
    if id in prefix {
      FetchCovers(catalog, prefix, id);
      var k :| 0 <= k < |Fetch(catalog, prefix)| && Fetch(catalog, prefix)[k].id == id;
      assert Fetch(catalog, ids)[k] == Fetch(catalog, prefix)[k];
    } else {
      assert Fetch(catalog, ids)[|Fetch(catalog, prefix)|].id == id;
    }
  }

  /**
   * Looking a product up in the fetched batch finds exactly the catalog's
   * record when the product was requested and exists, and nothing otherwise.
   */
  lemma {:induction false} FetchFind(catalog: map<Id, Stock>, ids: seq<Id>, id: Id)
    ensures Find(Fetch(catalog, ids), id) ==
      if id in ids && id in catalog
      then Some(Snapshot(id, catalog[id].price, catalog[id].quantity))
      else None
  {
    if id in ids && id in catalog {
      FetchCovers(catalog, ids, id);
    }
  }

  /** Writes one stock update to the catalog; the price is left alone. */
  function ApplyUpdate(catalog: map<Id, Stock>, u: QuantityUpdate): (r: map<Id, Stock>)
    ensures r.Keys == catalog.Keys
    ensures forall id :: id in catalog && id != u.id ==> r[id] == catalog[id]
    ensures u.id in catalog ==> r[u.id] == Stock(catalog[u.id].price, u.quantity)
  {
    if u.id in catalog then catalog[u.id := Stock(catalog[u.id].price, u.quantity)] else catalog
  }

  /** Writes a list of stock updates to the catalog, one after another. */
  function ApplyUpdates(catalog: map<Id, Stock>, updates: seq<QuantityUpdate>): (r: map<Id, Stock>)
    ensures r.Keys == catalog.Keys
    ensures forall id :: id in catalog ==> r[id].price == catalog[id].price
    decreases |updates|
  {
    if updates == [] then catalog
    else ApplyUpdates(ApplyUpdate(catalog, updates[0]), updates[1..])
  }

  /** A product that no update names keeps its record. */
  lemma {:induction false} ApplyUpdatesUntouched(catalog: map<Id, Stock>, updates: seq<QuantityUpdate>, id: Id)
    requires id in catalog
    requires forall k :: 0 <= k < |updates| ==> updates[k].id != id
    ensures ApplyUpdates(catalog, updates)[id] == catalog[id]
    decreases |updates|
  {
    if updates != [] {
      ApplyUpdatesUntouched(ApplyUpdate(catalog, updates[0]), updates[1..], id);
    }
  }

  /** A product named by exactly one update ends with that update's stock. */
  lemma {:induction false} ApplyUpdatesOnce(catalog: map<Id, Stock>, updates: seq<QuantityUpdate>, k: int)
    requires 0 <= k < |updates|
    requires updates[k].id in catalog
    requires forall j :: 0 <= j < |updates| && j != k ==> updates[j].id != updates[k].id
    ensures ApplyUpdates(catalog, updates)[updates[k].id].quantity == updates[k].quantity
    decreases |updates|
  {
    var next := ApplyUpdate(catalog, updates[0]);
    if k == 0 {
      ApplyUpdatesUntouched(next, updates[1..], updates[0].id);
    } else {
      ApplyUpdatesOnce(next, updates[1..], k - 1);
    }
  }

  /** Updates that all carry a non-negative stock keep every stock non-negative. */
  lemma {:induction false} ApplyUpdatesNonNegative(catalog: map<Id, Stock>, updates: seq<QuantityUpdate>)
    requires StockNonNegative(catalog)
    requires forall k :: 0 <= k < |updates| ==> updates[k].quantity >= 0
    ensures StockNonNegative(ApplyUpdates(catalog, updates))
    decreases |updates|
  {
    if updates != [] {
      ApplyUpdatesNonNegative(ApplyUpdate(catalog, updates[0]), updates[1..]);
    }
  }
}
