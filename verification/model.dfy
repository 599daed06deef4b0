/**
 * The backend's records, as immutable values. Money amounts and percentages
 * are integers in hundredths (minor units); dates are the already formatted
 * `YYYY-MM-DD` text; identifiers are the strings the client or the store holds.
 */
module Model {
  import opened Wrappers
  import opened Numerals
  import opened Strings

  /** The four values of `OrderStatus`. */
  datatype OrderStatus = Pending | OnCourier | Delivered | Returned

  /** One size/colour/SKU of a product, the unit of stock keeping. Stock is unchecked and may go negative. */
  datatype Variant = Variant(
    id: string,
    size: string,
    color: string,
    sku: string,
    stock: int,
    price: int,
    buyPrice: Option<int>,
    purchaseDate: Option<string>)

  datatype Product = Product(
    id: string,
    name: string,
    description: string,
    category: string,
    variants: seq<Variant>,
    lowStockThreshold: int)

  /** A line item, copied onto the order by the client (name, size and colour included). */
  datatype OrderItem = OrderItem(
    productId: string,
    variantId: string,
    productName: string,
    size: string,
    color: string,
    quantity: int,
    unitPrice: int,
    totalPrice: int)

  /** `f"{product_name} ({size}, {color}) x{quantity}"`, shared by the label and the CSV export. */
  function Describe(item: OrderItem): string {
    item.productName + " (" + item.size + ", " + item.color + ") x" + IntToString(item.quantity)
  }

  /**
   * A description opens with the product name and " (", and the quantity can
   * be read back from it: it is the text after the last 'x', in decimal.
   */
  lemma DescribeReadsBack(item: OrderItem)
    ensures var d, head := Describe(item), item.productName + " (";
      |d| >= |head| && d[..|head|] == head
    ensures var d, q := Describe(item), IntToString(item.quantity);
      var j := |d| - |q| - 1;
      && 0 <= j && d[j] == 'x' && d[j + 1..] == q
      && (forall i :: j < i < |d| ==> d[i] != 'x')
  {
    var head, q := item.productName + " (", IntToString(item.quantity);
    var before := head + item.size + ", " + item.color + ") x";
    assert 'x' !in q by {
      IntToStringChars(item.quantity);
      forall k | 0 <= k < |q| ensures q[k] != 'x' {}
    }
    LastOccurrence(before, q, 'x');
    var d := before + q;
    assert d[..|head|] == head;
  }

  /** An order as stored: every money field is supplied by the client, nothing is recomputed. */
  datatype Order = Order(
    id: string,
    orderNumber: Option<string>,
    customerId: string,
    customerName: string,
    customerAddress: string,
    customerPhone: string,
    customerPhone2: Option<string>,
    customerCity: Option<string>,
    items: seq<OrderItem>,
    subtotal: int,
    taxAmount: int,
    courierCharges: int,
    discountAmount: int,
    discountPercentage: int,
    totalAmount: int,
    status: OrderStatus,
    trackingNumber: Option<string>,
    codAmount: Option<int>,
    remarks: Option<string>,
    createdDate: string)

  /** The business profile and the shipping-label template. */
  datatype BusinessSettings = BusinessSettings(
    businessName: string,
    address: string,
    phone: string,
    email: string,
    taxRate: int,
    labelTemplate: string)

  /**
   * The database: the products and orders collections in insertion order
   * (lookups by id return the first match) and the optional saved settings.
   */
  datatype Store = Store(products: seq<Product>, orders: seq<Order>, settings: Option<BusinessSettings>)

  /** The operations' single error: the requested order id is not in the store (HTTP 404). */
  datatype Error = OrderNotFound

  /** Index of the first element equal to `x`: the first match a collection query returns. */
  function FirstIndex<T(==)>(xs: seq<T>, x: T): (r: Option<nat>)
    ensures r.Some? ==> r.value < |xs| && xs[r.value] == x && x !in xs[..r.value]
    ensures r.None? <==> x !in xs
  {
    if |xs| == 0 then None
    else if xs[0] == x then Some(0)
    else
      match FirstIndex(xs[1..], x)
      case None => None
      case Some(k) =>
        assert xs[..k + 1] == [xs[0]] + xs[1..][..k];
        Some(k + 1)
  }

  function ProductIds(ps: seq<Product>): (ids: seq<string>)
    ensures |ids| == |ps| && forall i :: 0 <= i < |ps| ==> ids[i] == ps[i].id
  {
    seq(|ps|, i requires 0 <= i < |ps| => ps[i].id)
  }

  function VariantIds(vs: seq<Variant>): (ids: seq<string>)
    ensures |ids| == |vs| && forall j :: 0 <= j < |vs| ==> ids[j] == vs[j].id
  {
    seq(|vs|, j requires 0 <= j < |vs| => vs[j].id)
  }

  function OrderIds(os: seq<Order>): (ids: seq<string>)
    ensures |ids| == |os| && forall k :: 0 <= k < |os| ==> ids[k] == os[k].id
  {
    seq(|os|, k requires 0 <= k < |os| => os[k].id)
  }

  /** A value missing from a list is found at the end once appended. */
  lemma FirstIndexAppendFresh<T>(xs: seq<T>, x: T)
    requires x !in xs
    ensures FirstIndex(xs + [x], x) == Some(|xs|)
  {
    assert (xs + [x])[..|xs|] == xs;
    assert (xs + [x])[|xs|] == x;
  }

  lemma OrderIdsAppend(os: seq<Order>, o: Order)
    ensures OrderIds(os + [o]) == OrderIds(os) + [o.id]
  {
  }
}
