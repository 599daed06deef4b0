/**
 * Shipping labels (`get_shipping_label`, `get_bulk_shipping_labels`): the
 * business settings' template with eleven fixed tokens replaced, in a fixed
 * order, by the business profile and the order's fields.
 */
module Labels {
  import opened Wrappers
  import opened Strings
  import opened Numerals
  import opened Template
  import opened Model
  import opened Orders

  const BusinessNameKey := "business_name"
  const BusinessAddressKey := "business_address"
  const BusinessPhoneKey := "business_phone"
  const CustomerNameKey := "customer_name"
  const CustomerAddressKey := "customer_address"
  const CustomerPhoneKey := "customer_phone"
  const OrderNumberKey := "order_number"
  const TrackingNumberKey := "tracking_number"
  const OrderDateKey := "order_date"
  const OrderItemsKey := "order_items"
  const TotalAmountKey := "total_amount"

  /** The token names in the order the renderer replaces them. */
  const LabelTokens: seq<string> := [
    BusinessNameKey, BusinessAddressKey, BusinessPhoneKey,
    CustomerNameKey, CustomerAddressKey, CustomerPhoneKey,
    OrderNumberKey, TrackingNumberKey, OrderDateKey,
    OrderItemsKey, TotalAmountKey]

  /** Spaces that indent one line of the default template. */
  function Indent(n: nat): (r: string)
    ensures |r| == n
    ensures forall i :: 0 <= i < n ==> r[i] == ' '
  {
    seq(n, _ => ' ')
  }

  /** A new line of the default template: line break, indentation, then markup. */
  function Line(indent: nat, html: string): string {
    "\n" + Indent(indent) + html
  }

  // The opening tags of the default template. Each tag is written as a sum of short
  // literals: the verifier cannot decide brace membership in one long string
  // literal, but it can in a concatenation of short ones.
  const PageOpen := "<div style=\"width: 210mm; " + "height: 297mm; " + "padding: 20mm; " + "font-family: " + "Arial, " + "sans-serif;\">"
  const BorderOpen := "<div style=\"border: 2px solid #000; " + "height: 100%; " + "padding: 10mm;\">"
  const TitleOpen := "<h2 style=\"text-align: center; " + "margin-bottom: 20px;\">"
  const BlockOpen := "<div style=\"margin-bottom: 20px;\">"
  const TotalOpen := "<div style=\"margin-top: 40px; " + "text-align: center;\">"

  // The literal text of the default `shipping_label_template`, piece by piece.
  const HeadText := Line(4, PageOpen) + Line(8, BorderOpen) + Line(12, TitleOpen)
  const FromText := "</h2>" + Line(12, BlockOpen) + Line(16, "<strong>From:</strong><br>") + Line(16, "")
  const BreakText := "<br>" + Line(16, "")
  const ToText := Line(12, "</div>") + Line(12, BlockOpen) + Line(16, "<strong>To:</strong><br>") + Line(16, "")
  const OrderText := Line(12, "</div>") + Line(12, BlockOpen) + Line(16, "<strong>Order #:</strong> ")
  const TrackingText := "<br>" + Line(16, "<strong>Tracking #:</strong> ")
  const DateText := "<br>" + Line(16, "<strong>Date:</strong> ")
  const ItemsText := Line(12, "</div>") + Line(12, BlockOpen) + Line(16, "<strong>Items:</strong><br>") + Line(16, "")
  const AmountText := Line(12, "</div>") + Line(12, TotalOpen) + Line(16, "<strong>Total: LKR ")
  const TailText := "</strong>" + Line(12, "</div>") + Line(8, "</div>") + Line(4, "</div>") + Line(4, "")

  /** Text k of the default template comes just before the slot of token k; the last closes the page. */
  const DefaultLabelTexts: seq<string> := [
    HeadText, FromText, BreakText, ToText, BreakText, BreakText,
    OrderText, TrackingText, DateText, ItemsText, AmountText, TailText]

  /** The default template: A4 HTML with one slot per token, in the renderer's order. */
  const DefaultLabelSegments: seq<Segment> := Interleave(DefaultLabelTexts, LabelTokens)

  const DefaultLabelTemplate: string := Compose(DefaultLabelSegments)

  /** `BusinessSettings()`: the settings used while none are saved. */
  const DefaultSettings := BusinessSettings("My Clothing Store", "", "", "", 0, DefaultLabelTemplate)

  /** The saved settings, or the defaults when none are saved. */
  function EffectiveSettings(s: Store): (r: BusinessSettings)
    ensures s.settings.Some? ==> r == s.settings.value
    ensures s.settings.None? ==> r == DefaultSettings
  {
    s.settings.GetOr(DefaultSettings)
  }

  /** `value or default` for an optional text field: None and "" both give the default. */
  function OrDefault(value: Option<string>, default: string): (r: string)
    ensures value.Some? && value.value != "" ==> r == value.value
    ensures value.None? || value.value == "" ==> r == default
  {
    match value
    case Some(v) => if v != "" then v else default
    case None => default
  }

  /** `f"<li>{product_name} ({size}, {color}) x{quantity}</li>"` */
  function ItemEntry(item: OrderItem): string {
    "<li>" + Describe(item) + "</li>"
  }

  /** The `<li>` entries of the items list, one per item in order. */
  function ItemEntries(items: seq<OrderItem>): (entries: seq<string>)
    ensures |entries| == |items|
    ensures forall k :: 0 <= k < |items| ==> entries[k] == ItemEntry(items[k])
  {
    seq(|items|, k requires 0 <= k < |items| => ItemEntry(items[k]))
  }

  /** The `{{order_items}}` value. */
  function ItemsHtml(items: seq<OrderItem>): string {
    "<ul>" + ConcatAll(ItemEntries(items)) + "</ul>"
  }

  /** The items value is a `<ul>` list, opened and closed even when there are no items. */
  lemma ItemsHtmlIsList(items: seq<OrderItem>)
    ensures var h := ItemsHtml(items);
      |h| >= 9 && h[..4] == "<ul>" && h[|h| - 5..] == "</ul>"
  {
    var h := ItemsHtml(items);
    assert h[..4] == "<ul>" && h[|h| - 5..] == "</ul>";
  }

  /**
   * The items list, characterised without `ConcatAll`: no items give an empty
   * list (here), and each further item adds its entry just before the closing
   * `</ul>` (`ItemsHtmlAppend`).
   */
  lemma ItemsHtmlEmpty()
    ensures ItemsHtml([]) == "<ul></ul>"
  {
    assert ConcatAll(ItemEntries([])) == "";
  }

  lemma ItemsHtmlAppend(items: seq<OrderItem>, item: OrderItem)
    ensures |ItemsHtml(items)| >= 9
    ensures var h := ItemsHtml(items);
      ItemsHtml(items + [item]) == h[..|h| - 5] + ItemEntry(item) + "</ul>"
  {
    var before := ConcatAll(ItemEntries(items));
    assert ConcatAll(ItemEntries(items + [item])) == before + ItemEntry(item) by {
      assert ItemEntries(items + [item]) == ItemEntries(items) + [ItemEntry(item)];
      ConcatAllAppend(ItemEntries(items), [ItemEntry(item)]);
      assert ConcatAll([ItemEntry(item)]) == ItemEntry(item);
    }
    ListInsertBeforeClose(before, ItemEntry(item));
  }

  /** Inserting an entry at the end of a `<ul>` list puts it just before the closing tag. */
  lemma ListInsertBeforeClose(entries: string, entry: string)
    ensures var h := "<ul>" + entries + "</ul>";
      |h| >= 9 && "<ul>" + (entries + entry) + "</ul>" == h[..|h| - 5] + entry + "</ul>"
  {
    var h := "<ul>" + entries + "</ul>";
    assert h[..|h| - 5] == "<ul>" + entries;
  }

  /** `f"{total:.2f}" if total else "0.00"`: the zero default coincides with the formatted zero. */
  function TotalText(total: int): (t: string)
    ensures t == FormatCents(total)
    ensures total == 0 ==> t == "0.00"
  {
    if total != 0 then FormatCents(total) else "0.00"
  }

  /** The eleven values, in the renderer's order, with the source's defaults for missing fields. */
  function LabelValues(settings: BusinessSettings, order: Order): (v: seq<string>)
    ensures |v| == |LabelTokens|
    ensures v[6] == OrDefault(order.orderNumber, "TBD") && v[7] == OrDefault(order.trackingNumber, "TBD")
    ensures order.totalAmount == 0 ==> v[10] == "0.00"
  {
    [ settings.businessName, settings.address, settings.phone,
      order.customerName, order.customerAddress, order.customerPhone,
      OrDefault(order.orderNumber, "TBD"), OrDefault(order.trackingNumber, "TBD"),
      order.createdDate, ItemsHtml(order.items), TotalText(order.totalAmount) ]
  }

  /** The eleven substitutions: each token name paired with its value. */
  function LabelBindings(settings: BusinessSettings, order: Order): (b: seq<Binding>)
    ensures |b| == |LabelTokens|
    ensures forall k :: 0 <= k < |b| ==> b[k] == Binding(LabelTokens[k], LabelValues(settings, order)[k])
  {
    var values := LabelValues(settings, order);
    seq(|LabelTokens|, k requires 0 <= k < |LabelTokens| => Binding(LabelTokens[k], values[k]))
  }

  /**
   * One order's label: every token of the template replaced, token after
   * token. A template in which no token can begin is printed as it is.
   */
  function RenderLabel(settings: BusinessSettings, order: Order): (r: string)
    ensures NoTokenStart(settings.labelTemplate) ==> r == settings.labelTemplate
  {
    var template, bindings := settings.labelTemplate, LabelBindings(settings, order);
    assert NoTokenStart(template) ==> forall k :: 0 <= k < |bindings| ==> !Occurs(template, Token(bindings[k].name)) by {
      if NoTokenStart(template) {
        forall k | 0 <= k < |bindings| ensures !Occurs(template, Token(bindings[k].name)) {
          NoTokenStartHasNoToken(template, bindings[k].name);
        }
      }
    }
    SubstituteAll(template, bindings)
  }

  /** `get_shipping_label`: the label of the first order with that id, under the effective settings. */
  function ShippingLabel(s: Store, id: string): (r: Result<string, Error>)
    ensures r.Err? <==> id !in OrderIds(s.orders)
    ensures r.Ok? ==> r.value == RenderLabel(EffectiveSettings(s), s.orders[FindOrder(s, id).value])
  {
    match FindOrder(s, id)
    case None => Err(OrderNotFound)
    case Some(k) => Ok(RenderLabel(EffectiveSettings(s), s.orders[k]))
  }

  /**
   * Business profile and order fields in which no `{{…}}` token can begin:
   * every `{` in them is followed by a character other than `{`.
   */
  predicate PlainFields(settings: BusinessSettings, order: Order) {
    && NoTokenStart(settings.businessName) && NoTokenStart(settings.address) && NoTokenStart(settings.phone)
    && NoTokenStart(order.customerName) && NoTokenStart(order.customerAddress) && NoTokenStart(order.customerPhone)
    && NoTokenStart(order.orderNumber.GetOr("")) && NoTokenStart(order.trackingNumber.GetOr(""))
    && NoTokenStart(order.createdDate)
    && forall k :: 0 <= k < |order.items| ==> PlainItem(order.items[k])
  }

  predicate PlainItem(item: OrderItem) {
    NoTokenStart(item.productName) && NoTokenStart(item.size) && NoTokenStart(item.color)
  }

  lemma DigitsNoOpenBrace(s: string)
    requires AllDigits(s)
    ensures NoOpenBrace(s)
  {
    forall i | 0 <= i < |s| ensures s[i] != '{' {
      assert IsDigit(s[i]);
    }
  }

  lemma FormatCentsNoTokenStart(cents: int)
    ensures NoTokenStart(FormatCents(cents))
  {
    var magnitude := if cents < 0 then -cents else cents;
    DigitsNoOpenBrace(NatToString(magnitude / 100));
    NoOpenBraceNoTokenStart(FormatCents(cents));
  }

  lemma {:induction false} ConcatAllNoTokenStart(xs: seq<string>)
    requires forall k :: 0 <= k < |xs| ==> NoTokenStart(xs[k])
    ensures NoTokenStart(ConcatAll(xs))
    decreases |xs|
  {
    if |xs| > 0 {
      ConcatAllNoTokenStart(xs[..|xs| - 1]);
      NoTokenStartAppend(ConcatAll(xs[..|xs| - 1]), xs[|xs| - 1]);
    }
  }

  lemma DescribeNoTokenStart(item: OrderItem)
    requires PlainItem(item)
    ensures NoTokenStart(Describe(item))
  {
    var q := IntToString(item.quantity);
    var n := item.quantity;
    DigitsNoOpenBrace(NatToString(if n < 0 then -n else n));
    NoOpenBraceNoTokenStart(q);
    NoOpenBraceNoTokenStart(" (");
    NoOpenBraceNoTokenStart(", ");
    NoOpenBraceNoTokenStart(") x");
    NoTokenStartAppend(item.productName, " (");
    NoTokenStartAppend(item.productName + " (", item.size);
    NoTokenStartAppend(item.productName + " (" + item.size, ", ");
    NoTokenStartAppend(item.productName + " (" + item.size + ", ", item.color);
    NoTokenStartAppend(item.productName + " (" + item.size + ", " + item.color, ") x");
    NoTokenStartAppend(item.productName + " (" + item.size + ", " + item.color + ") x", q);
  }

  lemma ItemEntryNoTokenStart(item: OrderItem)
    requires PlainItem(item)
    ensures NoTokenStart(ItemEntry(item))
  {
    DescribeNoTokenStart(item);
    NoOpenBraceNoTokenStart("<li>");
    NoOpenBraceNoTokenStart("</li>");
    NoTokenStartAppend("<li>", Describe(item));
    NoTokenStartAppend("<li>" + Describe(item), "</li>");
  }

  lemma ItemsHtmlNoTokenStart(items: seq<OrderItem>)
    requires forall k :: 0 <= k < |items| ==> PlainItem(items[k])
    ensures NoTokenStart(ItemsHtml(items))
  {
    var entries := ItemEntries(items);
    forall k | 0 <= k < |entries| ensures NoTokenStart(entries[k]) {
      ItemEntryNoTokenStart(items[k]);
    }
    ConcatAllNoTokenStart(entries);
    NoOpenBraceNoTokenStart("<ul>");
    NoOpenBraceNoTokenStart("</ul>");
    NoTokenStartAppend("<ul>", ConcatAll(entries));
    NoTokenStartAppend("<ul>" + ConcatAll(entries), "</ul>");
  }

  /** Every label token name is a valid slot name. */
  lemma LabelTokensValid()
    ensures forall k :: 0 <= k < |LabelTokens| ==> ValidName(LabelTokens[k])
  {
    assert ValidName(BusinessNameKey);
    assert ValidName(BusinessAddressKey);
    assert ValidName(BusinessPhoneKey);
    assert ValidName(CustomerNameKey);
    assert ValidName(CustomerAddressKey);
    assert ValidName(CustomerPhoneKey);
    assert ValidName(OrderNumberKey);
    assert ValidName(TrackingNumberKey);
    assert ValidName(OrderDateKey);
    assert ValidName(OrderItemsKey);
    assert ValidName(TotalAmountKey);
  }

  lemma OrDefaultNoTokenStart(value: Option<string>, default: string)
    requires NoTokenStart(value.GetOr("")) && NoTokenStart(default)
    ensures NoTokenStart(OrDefault(value, default))
  {
  }

  /** With plain fields no token can begin in any of the substituted values. */
  lemma LabelValuesPlain(settings: BusinessSettings, order: Order)
    requires PlainFields(settings, order)
    ensures forall k :: 0 <= k < |LabelTokens| ==> NoTokenStart(LabelValues(settings, order)[k])
  {
    ProfileValuesPlain(settings, order);
    CustomerValuesPlain(settings, order);
    ComputedValuesPlain(settings, order);
    ElevenPlain(LabelValues(settings, order));
  }

  /** The three values copied from the business profile. */
  lemma ProfileValuesPlain(settings: BusinessSettings, order: Order)
    requires NoTokenStart(settings.businessName) && NoTokenStart(settings.address) && NoTokenStart(settings.phone)
    ensures var v := LabelValues(settings, order);
      NoTokenStart(v[0]) && NoTokenStart(v[1]) && NoTokenStart(v[2])
  {
    var v := LabelValues(settings, order);
    assert v[0] == settings.businessName && v[1] == settings.address && v[2] == settings.phone;
  }

  /** The four values copied from the order. */
  lemma CustomerValuesPlain(settings: BusinessSettings, order: Order)
    requires NoTokenStart(order.customerName) && NoTokenStart(order.customerAddress)
    requires NoTokenStart(order.customerPhone) && NoTokenStart(order.createdDate)
    ensures var v := LabelValues(settings, order);
      NoTokenStart(v[3]) && NoTokenStart(v[4]) && NoTokenStart(v[5]) && NoTokenStart(v[8])
  {
    var v := LabelValues(settings, order);
    assert v[3] == order.customerName && v[4] == order.customerAddress && v[5] == order.customerPhone;
    assert v[8] == order.createdDate;
  }

  /** The four values the renderer computes: the two defaults, the items list and the total. */
  lemma ComputedValuesPlain(settings: BusinessSettings, order: Order)
    requires PlainFields(settings, order)
    ensures var v := LabelValues(settings, order);
      NoTokenStart(v[6]) && NoTokenStart(v[7]) && NoTokenStart(v[9]) && NoTokenStart(v[10])
  {
    NoOpenBraceNoTokenStart("TBD");
    OrDefaultNoTokenStart(order.orderNumber, "TBD");
    OrDefaultNoTokenStart(order.trackingNumber, "TBD");
    ItemsHtmlNoTokenStart(order.items);
    FormatCentsNoTokenStart(order.totalAmount);
  }

  /** Eleven texts in which no token can begin, gathered into one statement. */
  lemma ElevenPlain(v: seq<string>)
    requires |v| == 11
    requires NoTokenStart(v[0]) && NoTokenStart(v[1]) && NoTokenStart(v[2]) && NoTokenStart(v[3])
    requires NoTokenStart(v[4]) && NoTokenStart(v[5]) && NoTokenStart(v[6]) && NoTokenStart(v[7])
    requires NoTokenStart(v[8]) && NoTokenStart(v[9]) && NoTokenStart(v[10])
    ensures forall k :: 0 <= k < |v| ==> NoTokenStart(v[k])
  {
    forall k | 0 <= k < |v| ensures NoTokenStart(v[k]) {
      // Splits the index into the eleven cases the requires clauses name.
      assert k in {0, 1, 2, 3, 4, 5, 6, 7, 8, 9, 10};
    }
  }

  lemma LabelBindingsClean(settings: BusinessSettings, order: Order)
    requires PlainFields(settings, order)
    ensures CleanBindings(LabelBindings(settings, order))
  {
    LabelTokensValid();
    LabelValuesPlain(settings, order);
  }

  /**
   * On a template made of token slots and text in which no token begins,
   * rendering fills every slot named by one of the eleven tokens with that
   * token's value and leaves other slots and all text verbatim.
   */
  lemma RenderFillsSlots(settings: BusinessSettings, order: Order, segs: seq<Segment>)
    requires settings.labelTemplate == Compose(segs) && WellFormed(segs)
    requires PlainFields(settings, order)
    ensures RenderLabel(settings, order) == Compose(Fill(segs, LabelBindings(settings, order)))
  {
    LabelBindingsClean(settings, order);
    SubstituteAllFillsSlots(segs, LabelBindings(settings, order));
  }

  lemma LineNoOpenBrace(indent: nat, html: string)
    ensures NoOpenBrace(Line(indent, html)) <==> NoOpenBrace(html)
  {
    var spaces := Indent(indent);
    forall i | 0 <= i < |spaces| ensures spaces[i] != '{' {}
  }

  /** `LineNoOpenBrace` for every indentation and every piece of markup at once. */
  lemma LinesNoOpenBrace()
    ensures forall indent: nat, html: string :: NoOpenBrace(Line(indent, html)) <==> NoOpenBrace(html)
  {
    forall indent: nat, html: string ensures NoOpenBrace(Line(indent, html)) <==> NoOpenBrace(html) {
      LineNoOpenBrace(indent, html);
    }
  }

  // One lemma per constant below: proving brace-freedom of several template
  // pieces in one proof exceeds the verifier's resource limit, so each piece
  // is checked on its own and `DefaultLabelTextsPlain` gathers the results.

  lemma PageOpenNoOpenBrace()
    ensures NoOpenBrace(PageOpen)
  {
  }

  lemma BorderOpenNoOpenBrace()
    ensures NoOpenBrace(BorderOpen)
  {
  }

  lemma TitleOpenNoOpenBrace()
    ensures NoOpenBrace(TitleOpen)
  {
  }

  lemma BlockOpenNoOpenBrace()
    ensures NoOpenBrace(BlockOpen)
  {
  }

  lemma TotalOpenNoOpenBrace()
    ensures NoOpenBrace(TotalOpen)
  {
  }

  lemma HeadTextNoOpenBrace()
    ensures NoOpenBrace(HeadText)
  {
    LinesNoOpenBrace();
    PageOpenNoOpenBrace();
    BorderOpenNoOpenBrace();
    TitleOpenNoOpenBrace();
  }

  lemma FromTextNoOpenBrace()
    ensures NoOpenBrace(FromText)
  {
    LinesNoOpenBrace();
    BlockOpenNoOpenBrace();
  }

  lemma BreakTextNoOpenBrace()
    ensures NoOpenBrace(BreakText)
  {
    LinesNoOpenBrace();
  }

  lemma ToTextNoOpenBrace()
    ensures NoOpenBrace(ToText)
  {
    LinesNoOpenBrace();
    BlockOpenNoOpenBrace();
  }

  lemma OrderTextNoOpenBrace()
    ensures NoOpenBrace(OrderText)
  {
    LinesNoOpenBrace();
    BlockOpenNoOpenBrace();
  }

  lemma TrackingTextNoOpenBrace()
    ensures NoOpenBrace(TrackingText)
  {
    LinesNoOpenBrace();
  }

  lemma DateTextNoOpenBrace()
    ensures NoOpenBrace(DateText)
  {
    LinesNoOpenBrace();
  }

  lemma ItemsTextNoOpenBrace()
    ensures NoOpenBrace(ItemsText)
  {
    LinesNoOpenBrace();
    BlockOpenNoOpenBrace();
  }

  lemma AmountTextNoOpenBrace()
    ensures NoOpenBrace(AmountText)
  {
    LinesNoOpenBrace();
    TotalOpenNoOpenBrace();
  }

  lemma TailTextNoOpenBrace()
    ensures NoOpenBrace(TailText)
  {
    LinesNoOpenBrace();
  }

  /** Each piece of the default template's text is free of opening braces. */
  lemma DefaultLabelTextsPlain()
    ensures forall k :: 0 <= k < |DefaultLabelTexts| ==> NoOpenBrace(DefaultLabelTexts[k])
  {
    HeadTextNoOpenBrace();
    FromTextNoOpenBrace();
    BreakTextNoOpenBrace();
    ToTextNoOpenBrace();
    OrderTextNoOpenBrace();
    TrackingTextNoOpenBrace();
    DateTextNoOpenBrace();
    ItemsTextNoOpenBrace();
    AmountTextNoOpenBrace();
    TailTextNoOpenBrace();
  }

  /** The default template is well formed: plain text between slots named by the eleven tokens. */
  lemma DefaultLabelSegmentsWellFormed()
    ensures WellFormed(DefaultLabelSegments)
  {
    DefaultLabelTextsPlain();
    LabelTokensValid();
    PlainSegmentsWellFormed(DefaultLabelSegments);
  }

  /** Every slot of the default template is named by one of the eleven tokens. */
  lemma DefaultLabelSlotsAreTokens()
    ensures forall i :: 0 <= i < |DefaultLabelSegments| && DefaultLabelSegments[i].Slot? ==>
      DefaultLabelSegments[i].name in LabelTokens
  {
    var segs := DefaultLabelSegments;
    forall i | 0 <= i < |segs| && segs[i].Slot? ensures segs[i].name in LabelTokens {
      assert i % 2 == 1;
      assert segs[i].name == LabelTokens[i / 2];
    }
  }

  /**
   * When every slot of a well-formed template is one of the eleven tokens
   * and the fields are plain, no token can begin anywhere in the label, so
   * it holds no token of any name.
   */
  lemma RenderLeavesNoToken(settings: BusinessSettings, order: Order, segs: seq<Segment>)
    requires settings.labelTemplate == Compose(segs) && WellFormed(segs)
    requires forall i :: 0 <= i < |segs| && segs[i].Slot? ==> segs[i].name in LabelTokens
    requires PlainFields(settings, order)
    ensures NoTokenStart(RenderLabel(settings, order))
    ensures forall name :: !Occurs(RenderLabel(settings, order), Token(name))
  {
    var bindings := LabelBindings(settings, order);
    RenderFillsSlots(settings, order, segs);
    LabelBindingsClean(settings, order);
    forall i | 0 <= i < |segs| && segs[i].Slot? ensures Lookup(bindings, segs[i].name).Some? {
      TokenIsBound(settings, order, segs[i].name);
    }
    FillCompleteNoToken(segs, bindings);
  }

  /** Each of the eleven token names has a binding. */
  lemma TokenIsBound(settings: BusinessSettings, order: Order, name: string)
    requires name in LabelTokens
    ensures Lookup(LabelBindings(settings, order), name).Some?
  {
    var bindings := LabelBindings(settings, order);
    var m :| 0 <= m < |LabelTokens| && LabelTokens[m] == name;
    assert bindings[m].name == name;
  }

  /**
   * With the default template and plain fields, the label is the template
   * with each slot filled, and no token is left in it.
   */
  lemma DefaultLabelReplacesEveryToken(settings: BusinessSettings, order: Order)
    requires settings.labelTemplate == DefaultLabelTemplate
    requires PlainFields(settings, order)
    ensures RenderLabel(settings, order) == Compose(Fill(DefaultLabelSegments, LabelBindings(settings, order)))
    ensures forall name :: !Occurs(RenderLabel(settings, order), Token(name))
  {
    DefaultLabelSegmentsWellFormed();
    DefaultLabelSlotsAreTokens();
    RenderFillsSlots(settings, order, DefaultLabelSegments);
    RenderLeavesNoToken(settings, order, DefaultLabelSegments);
  }
}
