/**
 * `export_orders_csv`: one courier row per requested order that exists, in
 * request order, under a fixed header.
 */
module Export {
  import opened Wrappers
  import opened Strings
  import opened Seqs
  import opened Model
  import opened Orders

  /** The header row, in column order. */
  const Header: seq<string> := [
    "Waybill Number", "Order Number", "Customer Name", "Address",
    "Order Description", "Customer First Phone No", "Customer Second Phone No",
    "COD Amount", "City", "Remarks"]

  /** One data row; the COD amount is a number, every other column is text. */
  datatype Row = Row(
    waybill: string,
    orderNumber: string,
    customerName: string,
    address: string,
    description: string,
    phone1: string,
    phone2: string,
    cod: int,
    city: string,
    remarks: string)

  const ItemSeparator := "; "
  const AddressSeparator := ", "

  /** The item descriptions, in item order. */
  function Descriptions(items: seq<OrderItem>): (ds: seq<string>)
    ensures |ds| == |items|
    ensures forall k :: 0 <= k < |items| ==> ds[k] == Describe(items[k])
  {
    seq(|items|, k requires 0 <= k < |items| => Describe(items[k]))
  }

  /**
   * "Order Description": the item descriptions joined by "; ". No items give
   * an empty cell and one item gives its description alone; each further
   * item adds a separator and its description (`OrderDescriptionAppend`).
   */
  function OrderDescription(items: seq<OrderItem>): (d: string)
    ensures |items| == 0 ==> d == ""
    ensures |items| == 1 ==> d == Describe(items[0])
  {
    JoinWith(Descriptions(items), ItemSeparator)
  }

  lemma OrderDescriptionAppend(items: seq<OrderItem>, item: OrderItem)
    requires |items| >= 1
    ensures OrderDescription(items + [item]) == OrderDescription(items) + ItemSeparator + Describe(item)
  {
    assert Descriptions(items + [item]) == Descriptions(items) + [Describe(item)];
    JoinWithAppend(Descriptions(items), [Describe(item)], ItemSeparator);
  }

  /**
   * "City": the second-to-last ", "-separated segment of the address when
   * there are at least two, otherwise the stored city (None is written as
   * an empty cell). So the city falls back to the stored one exactly when
   * the address has no ", ", and otherwise is a segment holding no ", ".
   */
  function CityOf(order: Order): (city: string)
    ensures !Occurs(order.customerAddress, AddressSeparator) ==> city == order.customerCity.GetOr("")
    ensures Occurs(order.customerAddress, AddressSeparator) ==>
      var parts := Split(order.customerAddress, AddressSeparator);
      |parts| >= 2 && city == parts[|parts| - 2] && !Occurs(city, AddressSeparator)
  {
    SplitSingle(order.customerAddress, AddressSeparator);
    var parts := Split(order.customerAddress, AddressSeparator);
    if |parts| >= 2 then parts[|parts| - 2] else order.customerCity.GetOr("")
  }

  /** "COD Amount": `cod_amount or total_amount`, so a missing or zero COD amount falls back to the total. */
  function CodAmount(order: Order): (cod: int)
    ensures cod == 0 ==> order.totalAmount == 0
    ensures order.codAmount.Some? && order.codAmount.value != 0 ==> cod == order.codAmount.value
    ensures order.codAmount.None? || order.codAmount.value == 0 ==> cod == order.totalAmount
  {
    match order.codAmount
    case Some(c) => if c != 0 then c else order.totalAmount
    case None => order.totalAmount
  }

  /**
   * The row written for one order: optional text columns (`x or ""`) hold the
   * value or are empty when missing, the COD and city columns follow their
   * own rules, and the description splits back into the item descriptions.
   */
  function RowOf(order: Order): (r: Row)
    ensures order.trackingNumber.Some? ==> r.waybill == order.trackingNumber.value
    ensures order.orderNumber.Some? ==> r.orderNumber == order.orderNumber.value
    ensures order.customerPhone2.Some? ==> r.phone2 == order.customerPhone2.value
    ensures order.remarks.Some? ==> r.remarks == order.remarks.value
    ensures order.trackingNumber.None? ==> r.waybill == ""
    ensures order.orderNumber.None? ==> r.orderNumber == ""
    ensures order.customerPhone2.None? ==> r.phone2 == ""
    ensures order.remarks.None? ==> r.remarks == ""
    ensures r.customerName == order.customerName && r.address == order.customerAddress
    ensures r.phone1 == order.customerPhone
    ensures r.cod == CodAmount(order) && r.city == CityOf(order)
    ensures r.description == OrderDescription(order.items)
    ensures |order.items| >= 1 && (forall k :: 0 <= k < |order.items| ==> !Occurs(Describe(order.items[k]), ItemSeparator))
      ==> Split(r.description, ItemSeparator) == Descriptions(order.items)
  {
    var items := order.items;
    assert |items| >= 1 && (forall k :: 0 <= k < |items| ==> !Occurs(Describe(items[k]), ItemSeparator))
      ==> Split(OrderDescription(items), ItemSeparator) == Descriptions(items) by {
      if |items| >= 1 && (forall k :: 0 <= k < |items| ==> !Occurs(Describe(items[k]), ItemSeparator)) {
        DescriptionSplits(items);
      }
    }
    Row(
      order.trackingNumber.GetOr(""),
      order.orderNumber.GetOr(""),
      order.customerName,
      order.customerAddress,
      OrderDescription(order.items),
      order.customerPhone,
      order.customerPhone2.GetOr(""),
      CodAmount(order),
      CityOf(order),
      order.remarks.GetOr(""))
  }

  /**
   * The COD cell read from the row: it is the order total exactly when no
   * distinct non-zero COD amount was given, and zero exactly when both the
   * COD amount and the total are absent or zero.
   */
  lemma CodCell(order: Order)
    ensures var c := order.codAmount.GetOr(0);
      RowOf(order).cod == order.totalAmount <==> c == 0 || c == order.totalAmount
    ensures RowOf(order).cod == 0 <==> order.codAmount.GetOr(0) == 0 && order.totalAmount == 0
  {
  }

  /** The rows one requested id contributes: the first order with that id, or none. */
  function RowsFor(s: Store, id: string): (rows: seq<Row>)
    ensures id !in OrderIds(s.orders) ==> rows == []
    ensures id in OrderIds(s.orders) ==> rows == [RowOf(s.orders[FindOrder(s, id).value])]
  {
    match FindOrder(s, id)
    case Some(k) => [RowOf(s.orders[k])]
    case None => []
  }

  /**
   * The data rows for a request, in request order: at most one per requested
   * id, none exactly when no requested id names a stored order, and each the
   * row of the first order holding some requested id.
   */
  function ExportRows(s: Store, ids: seq<string>): (rows: seq<Row>)
    ensures |rows| <= |ids|
    ensures rows == [] <==> forall k :: 0 <= k < |ids| ==> ids[k] !in OrderIds(s.orders)
    ensures forall r :: r in rows ==>
      exists m :: 0 <= m < |ids| && ids[m] in OrderIds(s.orders) && r == RowOf(s.orders[FindOrder(s, ids[m]).value])
  {
    FlatMapAtMostOne(id => RowsFor(s, id), ids);
    FlatMapEmpty(id => RowsFor(s, id), ids);
    FlatMapMembers(id => RowsFor(s, id), ids);
    FlatMap(id => RowsFor(s, id), ids)
  }

  /** Requests concatenate: the rows for `a + b` are those for `a` followed by those for `b`. */
  lemma ExportRowsAppend(s: Store, a: seq<string>, b: seq<string>)
    ensures ExportRows(s, a + b) == ExportRows(s, a) + ExportRows(s, b)
  {
    FlatMapAppend(id => RowsFor(s, id), a, b);
  }

  /** An id with no order can be dropped from the request without changing the rows. */
  lemma ExportRowsSkipsUnknown(s: Store, a: seq<string>, id: string, b: seq<string>)
    requires id !in OrderIds(s.orders)
    ensures ExportRows(s, a + [id] + b) == ExportRows(s, a + b)
  {
    FlatMapSkip(id => RowsFor(s, id), a, id, b);
  }

  /** When every requested id names an order, there is exactly one row per id, in request order. */
  lemma ExportRowsAllKnown(s: Store, ids: seq<string>)
    requires forall k :: 0 <= k < |ids| ==> ids[k] in OrderIds(s.orders)
    ensures |ExportRows(s, ids)| == |ids|
    ensures forall k :: 0 <= k < |ids| ==> ExportRows(s, ids)[k] == RowOf(s.orders[FindOrder(s, ids[k]).value])
  {
    FlatMapAllSingle(id => RowsFor(s, id), ids);
  }

  /** The handler's loop: look each id up and write a row for every order found. */
  method ExportOrders(s: Store, ids: seq<string>) returns (header: seq<string>, rows: seq<Row>)
    ensures header == Header
    ensures rows == ExportRows(s, ids)
  {
    header := Header;
    ghost var rowsFor := id => RowsFor(s, id);
    rows := [];
    var i := 0;
    while i < |ids|
      invariant 0 <= i <= |ids|
      invariant rows == FlatMap(rowsFor, ids[..i])
    {
      var found := [];
      match FindOrder(s, ids[i]) {
        case Some(k) => found := [RowOf(s.orders[k])];
        case None =>
      }
      assert found == rowsFor(ids[i]);
      rows := rows + found;
      FlatMapPrefix(rowsFor, ids, i);
      i := i + 1;
    }
    assert ids[..|ids|] == ids;
  }

  /** The description column splits back into the item descriptions when none of them contains "; ". */
  lemma DescriptionSplits(items: seq<OrderItem>)
    requires |items| >= 1
    requires forall k :: 0 <= k < |items| ==> !Occurs(Describe(items[k]), ItemSeparator)
    ensures Split(OrderDescription(items), ItemSeparator) == Descriptions(items)
  {
    SplitJoin(Descriptions(items), ItemSeparator);
  }

  /** An address written as ", "-separated segments, at least two, yields its second-to-last segment as the city. */
  lemma CityFromSegments(order: Order, segments: seq<string>)
    requires |segments| >= 2 && order.customerAddress == JoinWith(segments, AddressSeparator)
    requires forall k :: 0 <= k < |segments| ==> !Occurs(segments[k], AddressSeparator)
    ensures CityOf(order) == segments[|segments| - 2]
  {
    AddressSplitsInto(order.customerAddress, segments);
    CityOfSplit(order, segments);
  }

  /** Once the address is known to split into at least two segments, the city is the second-to-last. */
  lemma CityOfSplit(order: Order, segments: seq<string>)
    requires |segments| >= 2 && Split(order.customerAddress, AddressSeparator) == segments
    ensures CityOf(order) == segments[|segments| - 2]
  {
  }

  /** An address joined from ", "-free segments splits back into exactly those segments. */
  lemma AddressSplitsInto(address: string, segments: seq<string>)
    requires |segments| >= 1 && address == JoinWith(segments, AddressSeparator)
    requires forall k :: 0 <= k < |segments| ==> !Occurs(segments[k], AddressSeparator)
    ensures Split(address, AddressSeparator) == segments
  {
    assert |AddressSeparator| == 2 && AddressSeparator[0] != AddressSeparator[1];
    SplitJoin(segments, AddressSeparator);
  }
}
