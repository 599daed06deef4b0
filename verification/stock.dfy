/**
 * Stock bookkeeping shared by order creation, deletion and return: each line
 * item is looked up (first product with its product id, then the first
 * variant with its variant id inside that product) and that variant's stock
 * moves by the item's quantity. Nothing checks that stock stays non-negative.
 */
module Stock {
  import opened Wrappers
  import opened Model

  /** Creation takes stock; deletion and return restore it. */
  datatype Direction = Take | Restore

  function Signed(d: Direction, quantity: int): int {
    match d
    case Take => -quantity
    case Restore => quantity
  }

  predicate ValidLocation(ps: seq<Product>, i: int, j: int) {
    0 <= i < |ps| && 0 <= j < |ps[i].variants|
  }

  function StockAt(ps: seq<Product>, i: int, j: int): int
    requires ValidLocation(ps, i, j)
  {
    ps[i].variants[j].stock
  }

  /** The two catalogues differ at most in variant stock levels. */
  predicate SameShape(ps: seq<Product>, qs: seq<Product>) {
    && |ps| == |qs|
    && forall i :: 0 <= i < |ps| ==>
      && ps[i].(variants := []) == qs[i].(variants := [])
      && |ps[i].variants| == |qs[i].variants|
      && forall j :: 0 <= j < |ps[i].variants| ==> ps[i].variants[j].(stock := 0) == qs[i].variants[j].(stock := 0)
  }

  /** Two catalogues of the same shape with the same stock everywhere are equal. */
  lemma SameShapeSameStock(ps: seq<Product>, qs: seq<Product>)
    requires SameShape(ps, qs)
    requires forall i, j :: ValidLocation(ps, i, j) ==> StockAt(ps, i, j) == StockAt(qs, i, j)
    ensures ps == qs
  {
    forall i | 0 <= i < |ps| ensures ps[i] == qs[i] {
      forall j | 0 <= j < |ps[i].variants| ensures ps[i].variants[j] == qs[i].variants[j] {
        assert StockAt(ps, i, j) == StockAt(qs, i, j);
        assert ps[i].variants[j] == ps[i].variants[j].(stock := 0).(stock := ps[i].variants[j].stock);
      }
      assert ps[i].variants == qs[i].variants;
      assert ps[i] == ps[i].(variants := []).(variants := ps[i].variants);
    }
  }

  /**
   * The variant a line item refers to: the first product whose id matches
   * and, inside it, the first variant whose id matches. None when either is
   * missing: the item is then skipped.
   */
  function Locate(ps: seq<Product>, item: OrderItem): (r: Option<(nat, nat)>)
    ensures r.Some? ==>
      var (i, j) := r.value;
      && ValidLocation(ps, i, j)
      && ps[i].id == item.productId && item.productId !in ProductIds(ps)[..i]
      && ps[i].variants[j].id == item.variantId && item.variantId !in VariantIds(ps[i].variants)[..j]
    ensures item.productId !in ProductIds(ps) ==> r.None?
    ensures r.None? && item.productId in ProductIds(ps) ==>
      exists i :: 0 <= i < |ps| && ps[i].id == item.productId && item.productId !in ProductIds(ps)[..i]
        && item.variantId !in VariantIds(ps[i].variants)
  {
    match FirstIndex(ProductIds(ps), item.productId)
    case None => None
    case Some(i) =>
      match FirstIndex(VariantIds(ps[i].variants), item.variantId)
      case None => None
      case Some(j) => Some((i, j))
  }

  /** Catalogues of the same shape resolve every item to the same variant. */
  lemma LocateSameShape(ps: seq<Product>, qs: seq<Product>, item: OrderItem)
    requires SameShape(ps, qs)
    ensures Locate(ps, item) == Locate(qs, item)
  {
    forall i | 0 <= i < |ps| ensures ps[i].id == qs[i].id {
      assert ps[i].(variants := []).id == qs[i].(variants := []).id;
    }
    assert ProductIds(ps) == ProductIds(qs);
    match FirstIndex(ProductIds(ps), item.productId)
    case None =>
    case Some(i) =>
      forall j | 0 <= j < |ps[i].variants| ensures ps[i].variants[j].id == qs[i].variants[j].id {
        assert ps[i].variants[j].(stock := 0).id == qs[i].variants[j].(stock := 0).id;
      }
      assert VariantIds(ps[i].variants) == VariantIds(qs[i].variants);
  }

  /** Move the stock of one variant by `delta`. */
  function AddStock(ps: seq<Product>, i: nat, j: nat, delta: int): (r: seq<Product>)
    requires ValidLocation(ps, i, j)
    ensures SameShape(ps, r)
    ensures forall a, b :: ValidLocation(ps, a, b) ==>
      StockAt(r, a, b) == StockAt(ps, a, b) + (if a == i && b == j then delta else 0)
  {
    var v := ps[i].variants[j];
    var r := ps[i := ps[i].(variants := ps[i].variants[j := v.(stock := v.stock + delta)])];
    assert forall a :: 0 <= a < |ps| && a != i ==> r[a] == ps[a];
    r
  }

  /** One line item's stock movement (the source's inner `for variant` loop). */
  function ApplyItem(ps: seq<Product>, item: OrderItem, d: Direction): (r: seq<Product>)
    ensures SameShape(ps, r)
    ensures Locate(ps, item).None? ==> r == ps
    ensures forall i, j :: ValidLocation(ps, i, j) ==>
      StockAt(r, i, j) == StockAt(ps, i, j) + (if Locate(ps, item) == Some((i, j)) then Signed(d, item.quantity) else 0)
  {
    match Locate(ps, item)
    case None => ps
    case Some((i, j)) => AddStock(ps, i, j, Signed(d, item.quantity))
  }

  /** All line items' stock movements, in item order (the source's outer `for item` loop). */
  function ApplyItems(ps: seq<Product>, items: seq<OrderItem>, d: Direction): (r: seq<Product>)
    ensures SameShape(ps, r)
    decreases |items|
  {
    if |items| == 0 then ps
    else ApplyItems(ApplyItem(ps, items[0], d), items[1..], d)
  }

  /** Reference definition: the total quantity of the items that resolve to variant `(i, j)`. */
  function Demand(ps: seq<Product>, items: seq<OrderItem>, i: nat, j: nat): int
    decreases |items|
  {
    if |items| == 0 then 0
    else (if Locate(ps, items[0]) == Some((i, j)) then items[0].quantity else 0) + Demand(ps, items[1..], i, j)
  }

  lemma {:induction false} DemandSameShape(ps: seq<Product>, qs: seq<Product>, items: seq<OrderItem>, i: nat, j: nat)
    requires SameShape(ps, qs)
    ensures Demand(ps, items, i, j) == Demand(qs, items, i, j)
    decreases |items|
  {
    if |items| > 0 {
      LocateSameShape(ps, qs, items[0]);
      DemandSameShape(ps, qs, items[1..], i, j);
    }
  }

  /** The effect of applying an order's items on one variant. */
  lemma {:induction false} ApplyItemsStockAt(ps: seq<Product>, items: seq<OrderItem>, d: Direction, i: nat, j: nat)
    requires ValidLocation(ps, i, j)
    ensures StockAt(ApplyItems(ps, items, d), i, j) == StockAt(ps, i, j) + Signed(d, Demand(ps, items, i, j))
    decreases |items|
  {
    if |items| > 0 {
      var qs := ApplyItem(ps, items[0], d);
      ApplyItemsStockAt(qs, items[1..], d, i, j);
      DemandSameShape(ps, qs, items[1..], i, j);
    }
  }

  /**
   * The exact effect of applying an order's items: every variant moves by
   * the total quantity of the items that resolve to it, and by nothing else.
   */
  lemma ApplyItemsStock(ps: seq<Product>, items: seq<OrderItem>, d: Direction)
    ensures forall i, j :: ValidLocation(ps, i, j) ==>
      StockAt(ApplyItems(ps, items, d), i, j) == StockAt(ps, i, j) + Signed(d, Demand(ps, items, i, j))
  {
    forall i, j | ValidLocation(ps, i, j)
      ensures StockAt(ApplyItems(ps, items, d), i, j) == StockAt(ps, i, j) + Signed(d, Demand(ps, items, i, j))
    {
      ApplyItemsStockAt(ps, items, d, i, j);
    }
  }

  /** A variant no item resolves to keeps its stock. */
  lemma {:induction false} ApplyItemsLeavesOthers(ps: seq<Product>, items: seq<OrderItem>, d: Direction, i: nat, j: nat)
    requires ValidLocation(ps, i, j)
    requires forall k :: 0 <= k < |items| ==> Locate(ps, items[k]) != Some((i, j))
    ensures StockAt(ApplyItems(ps, items, d), i, j) == StockAt(ps, i, j)
  {
    ApplyItemsStock(ps, items, d);
    DemandZero(ps, items, i, j);
  }

  lemma {:induction false} DemandZero(ps: seq<Product>, items: seq<OrderItem>, i: nat, j: nat)
    requires forall k :: 0 <= k < |items| ==> Locate(ps, items[k]) != Some((i, j))
    ensures Demand(ps, items, i, j) == 0
    decreases |items|
  {
    if |items| > 0 {
      assert Locate(ps, items[0]) != Some((i, j));
      DemandZero(ps, items[1..], i, j);
    }
  }

  function Opposite(d: Direction): Direction {
    match d
    case Take => Restore
    case Restore => Take
  }

  /** Taking an item list's stock and restoring it (or the reverse) gives back the catalogue. */
  lemma ApplyItemsUndo(ps: seq<Product>, items: seq<OrderItem>, d: Direction)
    ensures ApplyItems(ApplyItems(ps, items, d), items, Opposite(d)) == ps
  {
    var qs := ApplyItems(ps, items, d);
    var rs := ApplyItems(qs, items, Opposite(d));
    ApplyItemsStock(ps, items, d);
    ApplyItemsStock(qs, items, Opposite(d));
    forall i, j | ValidLocation(ps, i, j) ensures StockAt(ps, i, j) == StockAt(rs, i, j) {
      DemandSameShape(ps, qs, items, i, j);
    }
    SameShapeSameStock(ps, rs);
  }
}
