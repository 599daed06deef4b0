/**
 * The order routes `create_order`, `update_order`, `delete_order` and
 * `update_order_status` as pure functions from a store to a new store.
 * Orders are found by id with first-match lookup; a missing id is the
 * `OrderNotFound` error (HTTP 404) and leaves the store as it was.
 */
module Orders {
  import opened Wrappers
  import opened Numerals
  import opened Model
  import opened Stock

  /** Six-digit padding is exactly six characters below a million. */
  lemma ZeroPadSix(n: nat)
    ensures n < 1000000 ==> |ZeroPad(n, 6)| == 6
  {
    NatToStringLength(n, 6);
    assert Pow10(3) == 1000;
    assert Pow10(6) == 1000 * Pow10(3);
  }

  /** `f"ORD-{count + 1:06d}"`: the order number given the current number of orders. */
  function OrderNumber(count: nat): (r: string)
    ensures |r| >= 10 && r[..4] == "ORD-"
    ensures AllDigits(r[4..]) && DigitsValue(r[4..]) == count + 1
    ensures count + 1 < 1000000 ==> |r| == 10
    ensures |r| > 10 ==> r[4] != '0'
    ensures r[4..] == ZeroPad(count + 1, 6)
  {
    var digits := ZeroPad(count + 1, 6);
    ZeroPadSix(count + 1);
    var prefix := "ORD-";
    var r := prefix + digits;
    assert r[..4] == prefix && r[4..] == digits;
    r
  }

  /** Different counts give different order numbers. */
  lemma OrderNumberInjective(a: nat, b: nat)
    requires OrderNumber(a) == OrderNumber(b)
    ensures a == b
  {
    assert OrderNumber(a)[4..] == OrderNumber(b)[4..];
  }

  function FindOrder(s: Store, id: string): Option<nat> {
    FirstIndex(OrderIds(s.orders), id)
  }

  /** The store after `create_order`, and the order as inserted (the route's response). */
  datatype Created = Created(store: Store, order: Order)

  /**
   * `create_order`: number the order from the current order count, take each
   * item's quantity from the variant it resolves to (unknown products and
   * variants are skipped, stock may go negative) and append the order.
   */
  function CreateOrder(s: Store, o: Order): (r: Created)
    ensures r.order == o.(orderNumber := Some(OrderNumber(|s.orders|)))
    ensures r.store.orders == s.orders + [r.order]
    ensures r.store.settings == s.settings
    ensures SameShape(s.products, r.store.products)
    ensures forall i, j :: ValidLocation(s.products, i, j) ==>
      StockAt(r.store.products, i, j) == StockAt(s.products, i, j) - Demand(s.products, o.items, i, j)
  {
    ApplyItemsStock(s.products, o.items, Take);
    var order := o.(orderNumber := Some(OrderNumber(|s.orders|)));
    Created(Store(ApplyItems(s.products, o.items, Take), s.orders + [order], s.settings), order)
  }

  /**
   * `update_order`: replace the first stored order with that id by the
   * supplied one, wholesale (its id, items and status included). Stock is
   * not touched, whatever the new items are.
   */
  function UpdateOrder(s: Store, id: string, o: Order): (r: Result<Store, Error>)
    ensures r.Err? <==> id !in OrderIds(s.orders)
    ensures r.Ok? ==>
      var k := FindOrder(s, id).value;
      && r.value.products == s.products
      && r.value.settings == s.settings
      && |r.value.orders| == |s.orders|
      && r.value.orders[k] == o
      && (forall m :: 0 <= m < |s.orders| && m != k ==> r.value.orders[m] == s.orders[m])
  {
    match FindOrder(s, id)
    case None => Err(OrderNotFound)
    case Some(k) => Ok(s.(orders := s.orders[k := o]))
  }

  /**
   * `delete_order`: restore each item's quantity of the first stored order
   * with that id to the variant it resolves to, then remove that order.
   */
  function DeleteOrder(s: Store, id: string): (r: Result<Store, Error>)
    ensures r.Err? <==> id !in OrderIds(s.orders)
    ensures r.Ok? ==>
      var k := FindOrder(s, id).value;
      && r.value.orders == s.orders[..k] + s.orders[k + 1..]
      && |r.value.orders| == |s.orders| - 1
      && r.value.settings == s.settings
      && SameShape(s.products, r.value.products)
      && forall i, j :: ValidLocation(s.products, i, j) ==>
        StockAt(r.value.products, i, j) == StockAt(s.products, i, j) + Demand(s.products, s.orders[k].items, i, j)
  {
    match FindOrder(s, id)
    case None => Err(OrderNotFound)
    case Some(k) =>
      ApplyItemsStock(s.products, s.orders[k].items, Restore);
      Ok(Store(ApplyItems(s.products, s.orders[k].items, Restore), s.orders[..k] + s.orders[k + 1..], s.settings))
  }

  /** The tracking number is overwritten only by a supplied, non-empty one (Python truthiness). */
  function NewTracking(current: Option<string>, supplied: Option<string>): (r: Option<string>)
    ensures supplied.Some? && supplied.value != "" ==> r == supplied
    ensures supplied.None? || supplied.value == "" ==> r == current
  {
    match supplied
    case Some(t) => if t != "" then supplied else current
    case None => current
  }

  /** Stock is restored exactly when an order that is not yet returned is marked returned. */
  predicate RestocksOn(current: OrderStatus, target: OrderStatus) {
    target == Returned && current != Returned
  }

  /**
   * `update_order_status`: any status may follow any other. Every move to
   * `returned` from another status restores each item's quantity, however
   * often the order has been returned before; the tracking number changes
   * only when a non-empty one is supplied; nothing else about the order changes.
   */
  function UpdateOrderStatus(s: Store, id: string, status: OrderStatus, tracking: Option<string>): (r: Result<Store, Error>)
    ensures r.Err? <==> id !in OrderIds(s.orders)
    ensures r.Ok? ==>
      var k := FindOrder(s, id).value;
      var before := s.orders[k];
      && r.value.settings == s.settings
      && |r.value.orders| == |s.orders|
      && (forall m :: 0 <= m < |s.orders| && m != k ==> r.value.orders[m] == s.orders[m])
      && var after := r.value.orders[k];
      && after.status == status
      && after.trackingNumber == NewTracking(before.trackingNumber, tracking)
      && after.(status := before.status, trackingNumber := before.trackingNumber) == before
      && SameShape(s.products, r.value.products)
      && forall i, j :: ValidLocation(s.products, i, j) ==>
        StockAt(r.value.products, i, j) == StockAt(s.products, i, j)
          + (if RestocksOn(before.status, status) then Demand(s.products, before.items, i, j) else 0)
  {
    match FindOrder(s, id)
    case None => Err(OrderNotFound)
    case Some(k) =>
      var before := s.orders[k];
      var products := if RestocksOn(before.status, status) then ApplyItems(s.products, before.items, Restore) else s.products;
      ApplyItemsStock(s.products, before.items, Restore);
      var after := before.(status := status, trackingNumber := NewTracking(before.trackingNumber, tracking));
      Ok(Store(products, s.orders[k := after], s.settings))
  }

  /** The order just created is the one a lookup of its (fresh) id finds. */
  lemma FindCreated(s: Store, o: Order)
    requires o.id !in OrderIds(s.orders)
    ensures FindOrder(CreateOrder(s, o).store, o.id) == Some(|s.orders|)
  {
    var order := CreateOrder(s, o).order;
    OrderIdsAppend(s.orders, order);
    FirstIndexAppendFresh(OrderIds(s.orders), o.id);
  }

  /** Deleting the order found last restores its items and drops the last entry. */
  lemma DeleteFoundLast(s: Store, id: string)
    requires |s.orders| > 0 && FindOrder(s, id) == Some(|s.orders| - 1)
    ensures DeleteOrder(s, id) == Ok(Store(
      ApplyItems(s.products, s.orders[|s.orders| - 1].items, Restore), s.orders[..|s.orders| - 1], s.settings))
  {
    var k := |s.orders| - 1;
    assert s.orders[k + 1..] == [];
    assert s.orders[..k] + s.orders[k + 1..] == s.orders[..k];
    assert DeleteOrder(s, id) == Ok(Store(ApplyItems(s.products, s.orders[k].items, Restore), s.orders[..k] + s.orders[k + 1..], s.settings));
  }

  /** Creating an order with a fresh id and deleting it gives back the store, stock included. */
  lemma CreateThenDelete(s: Store, o: Order)
    requires o.id !in OrderIds(s.orders)
    ensures DeleteOrder(CreateOrder(s, o).store, o.id) == Ok(s)
  {
    var c := CreateOrder(s, o);
    FindCreated(s, o);
    DeleteFoundLast(c.store, o.id);
    assert c.store.orders[..|s.orders|] == s.orders;
    ApplyItemsUndo(s.products, o.items, Take);
  }

  /** With ids unique, a second delete of the same id finds nothing and restores nothing. */
  lemma DeleteTwice(s: Store, id: string)
    requires forall a, b :: 0 <= a < b < |s.orders| ==> s.orders[a].id != s.orders[b].id
    requires id in OrderIds(s.orders)
    ensures DeleteOrder(s, id).Ok?
    ensures DeleteOrder(DeleteOrder(s, id).value, id) == Err(OrderNotFound)
  {
    var k := FindOrder(s, id).value;
    var r := DeleteOrder(s, id);
    var rest := r.value.orders;
    assert rest == s.orders[..k] + s.orders[k + 1..];
    forall m | 0 <= m < |rest| ensures OrderIds(rest)[m] != id {
      if m < k {
        assert rest[m] == s.orders[m];
      } else {
        assert rest[m] == s.orders[m + 1];
      }
    }
    assert id !in OrderIds(rest);
  }

  /** Marking a freshly created, not-returned order as returned gives back every variant's stock. */
  lemma CreateThenReturn(s: Store, o: Order, tracking: Option<string>)
    requires o.id !in OrderIds(s.orders) && o.status != Returned
    ensures UpdateOrderStatus(CreateOrder(s, o).store, o.id, Returned, tracking).Ok?
    ensures UpdateOrderStatus(CreateOrder(s, o).store, o.id, Returned, tracking).value.products == s.products
  {
    FindCreated(s, o);
    ApplyItemsUndo(s.products, o.items, Take);
  }

  /** A second move to `returned` restores nothing. */
  lemma ReturnTwice(s: Store, id: string, t1: Option<string>, t2: Option<string>)
    requires id in OrderIds(s.orders)
    ensures UpdateOrderStatus(s, id, Returned, t1).Ok?
    ensures var s1 := UpdateOrderStatus(s, id, Returned, t1).value;
      UpdateOrderStatus(s1, id, Returned, t2).Ok? && UpdateOrderStatus(s1, id, Returned, t2).value.products == s1.products
  {
    var s1 := UpdateOrderStatus(s, id, Returned, t1).value;
    assert OrderIds(s1.orders) == OrderIds(s.orders);
  }

  /**
   * Returning, reopening and returning again restores stock a second time:
   * the status route does not pair restorations with the original decrement.
   */
  lemma ReturnReopenReturn(s: Store, id: string)
    requires id in OrderIds(s.orders)
    requires s.orders[FindOrder(s, id).value].status == Returned
    ensures var s1 := UpdateOrderStatus(s, id, Pending, None).value;
      UpdateOrderStatus(s1, id, Returned, None).value.products
        == ApplyItems(s.products, s.orders[FindOrder(s, id).value].items, Restore)
  {
    var s1 := UpdateOrderStatus(s, id, Pending, None).value;
    assert OrderIds(s1.orders) == OrderIds(s.orders);
  }

  /**
   * Order numbers come from the order count, so they repeat after a delete:
   * create `a` and `b`, delete `a`, and the next order gets `b`'s number.
   */
  lemma OrderNumberRepeatsAfterDelete(s: Store, a: Order, b: Order, c: Order)
    requires a.id !in OrderIds(s.orders) && b.id !in OrderIds(s.orders) && a.id != b.id
    ensures var s1 := CreateOrder(s, a).store;
      var s2 := CreateOrder(s1, b);
      var s3 := DeleteOrder(s2.store, a.id);
      s3.Ok? && CreateOrder(s3.value, c).order.orderNumber == s2.order.orderNumber
  {
    CreateTwiceDeleteFirst(s, a, b);
  }

  /** Two creations and the deletion of the first leave one order more than before. */
  lemma CreateTwiceDeleteFirst(s: Store, a: Order, b: Order)
    requires a.id !in OrderIds(s.orders) && a.id != b.id
    ensures var s2 := CreateOrder(CreateOrder(s, a).store, b).store;
      var s3 := DeleteOrder(s2, a.id);
      s3.Ok? && |s3.value.orders| == |s.orders| + 1
  {
    var c1 := CreateOrder(s, a);
    var c2 := CreateOrder(c1.store, b);
    DeleteFirstOfTwo(c2.store, s.orders, c1.order, c2.order);
  }

  /** Deleting the first of two orders appended to a list without its id leaves the second. */
  lemma DeleteFirstOfTwo(t: Store, before: seq<Order>, x: Order, y: Order)
    requires t.orders == before + [x] + [y] && x.id !in OrderIds(before)
    ensures DeleteOrder(t, x.id).Ok? && |DeleteOrder(t, x.id).value.orders| == |before| + 1
  {
    OrderIdsAppend(before, x);
    OrderIdsAppend(before + [x], y);
    assert OrderIds(t.orders)[|before|] == x.id;
  }
}
