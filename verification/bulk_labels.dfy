/**
 * `get_bulk_shipping_labels`: the settings are read once, then the labels of
 * the requested orders follow one another, each closed by a page break; ids
 * with no order add nothing.
 */
module BulkLabels {
  import opened Wrappers
  import opened Seqs
  import opened Model
  import opened Labels

  const PageBreak := "<div style=\"page-break-after: always;\"></div>"

  /**
   * What one requested id adds to the document, under the settings read
   * before the loop: nothing exactly when no order has that id, and otherwise
   * a label closed by a page break.
   */
  function Fragment(settings: BusinessSettings, orders: seq<Order>, id: string): (r: string)
    ensures r == "" <==> id !in OrderIds(orders)
    ensures r != "" ==> |r| >= |PageBreak| && r[|r| - |PageBreak|..] == PageBreak
  {
    match FirstIndex(OrderIds(orders), id)
    case Some(k) =>
      var r := RenderLabel(settings, orders[k]) + PageBreak;
      assert r[|r| - |PageBreak|..] == PageBreak;
      r
    case None => ""
  }

  /**
   * The bulk document: the fragments of the requested ids, in request order.
   * It is empty exactly when no requested id names a stored order.
   */
  function BulkLabels(s: Store, ids: seq<string>): (r: string)
    ensures r == "" <==> forall k :: 0 <= k < |ids| ==> ids[k] !in OrderIds(s.orders)
  {
    var settings := EffectiveSettings(s);
    FlatMapEmpty(id => Fragment(settings, s.orders, id), ids);
    FlatMap(id => Fragment(settings, s.orders, id), ids)
  }

  /** Each fragment is the single-order label followed by a page break, or nothing when the order is missing. */
  lemma FragmentIsShippingLabel(s: Store, id: string)
    ensures id in OrderIds(s.orders) ==>
      Fragment(EffectiveSettings(s), s.orders, id) == ShippingLabel(s, id).value + PageBreak
    ensures id !in OrderIds(s.orders) ==> Fragment(EffectiveSettings(s), s.orders, id) == ""
  {
  }

  /** A one-id request gives the single-order label and a page break, or nothing when the order is missing. */
  lemma BulkLabelsSingle(s: Store, id: string)
    ensures id in OrderIds(s.orders) ==> BulkLabels(s, [id]) == ShippingLabel(s, id).value + PageBreak
    ensures id !in OrderIds(s.orders) ==> BulkLabels(s, [id]) == ""
  {
    var settings := EffectiveSettings(s);
    FlatMapSingle(id => Fragment(settings, s.orders, id), id);
    FragmentIsShippingLabel(s, id);
  }

  /** Requests concatenate: the document for `a + b` is that of `a` followed by that of `b`. */
  lemma BulkLabelsAppend(s: Store, a: seq<string>, b: seq<string>)
    ensures BulkLabels(s, a + b) == BulkLabels(s, a) + BulkLabels(s, b)
  {
    var settings := EffectiveSettings(s);
    FlatMapAppend(id => Fragment(settings, s.orders, id), a, b);
  }

  /** An id with no order can be dropped from the request without changing the document. */
  lemma BulkLabelsSkipsUnknown(s: Store, a: seq<string>, id: string, b: seq<string>)
    requires id !in OrderIds(s.orders)
    ensures BulkLabels(s, a + [id] + b) == BulkLabels(s, a + b)
  {
    var settings := EffectiveSettings(s);
    FlatMapSkip(id => Fragment(settings, s.orders, id), a, id, b);
  }

  /** The handler's loop: read the settings once, then append each found order's label and a page break. */
  method BulkShippingLabels(s: Store, ids: seq<string>) returns (html: string)
    ensures html == BulkLabels(s, ids)
  {
    var settings := EffectiveSettings(s);
    ghost var fragment := id => Fragment(settings, s.orders, id);
    html := "";
    var i := 0;
    while i < |ids|
      invariant 0 <= i <= |ids|
      invariant html == FlatMap(fragment, ids[..i])
    {
      var piece := LabelPage(settings, s.orders, ids[i]);
      assert piece == fragment(ids[i]);
      html := html + piece;
      FlatMapPrefix(fragment, ids, i);
      i := i + 1;
    }
    assert ids[..|ids|] == ids;
  }

  /** One step of the loop: look the id up and, when found, render its label and a page break. */
  method LabelPage(settings: BusinessSettings, orders: seq<Order>, id: string) returns (piece: string)
    ensures piece == Fragment(settings, orders, id)
  {
    piece := "";
    match FirstIndex(OrderIds(orders), id) {
      case Some(k) => piece := RenderLabel(settings, orders[k]) + PageBreak;
      case None =>
    }
  }
}
