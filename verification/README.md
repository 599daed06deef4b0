# Order bookkeeping and documents of the clothing-store back office, in Dafny

This project models the order engine of the back-office server (`backend/server.py`)
as pure functions over an in-memory store. The store holds three things:

- the `products` collection, each product holding its variants with an integer stock level;
- the `orders` collection;
- the optional saved business settings.

The modelled route handlers are:

- `create_order`: numbers the order `ORD-nnnnnn` from the current order count, takes each line item's quantity from the variant it resolves to, and stores the order;
- `update_order`: replaces a stored order wholesale and leaves stock untouched;
- `delete_order`: restores each line item's quantity, then removes the order;
- `update_order_status`: accepts any status change, restores stock on every move to `returned` from another status, and overwrites the tracking number only with a non-empty one;
- `get_shipping_label`: eleven global `str.replace` calls of `{{token}}`s in the business's label template;
- `get_bulk_shipping_labels`: the labels of the requested orders, each followed by a page break;
- `export_orders_csv`: one courier row per requested order.

Each handler takes `(store, input)` to a new store or a document. In the three id routes
(`update_order`, `delete_order`, `update_order_status`) and in `get_shipping_label`, a missing
order id is the `OrderNotFound` error (HTTP 404), and on that path the store is left as it was.
`get_bulk_shipping_labels` and `export_orders_csv` raise no error for a missing id; they skip it.

Modules, in dependency order:

- `Wrappers`: `Option` and `Result`.
- `Seqs`: `FlatMap`, the loop "append each element's contribution".
- `Numerals`: decimal digits, `:06d` padding, `:.2f` on amounts in cents.
- `Strings`: occurrences, `str.split`, `str.join`, `"".join`.
- `Template`: Python's `str.replace`, and a template viewed as literal text interleaved with `{{name}}` slots.
- `Model`: the records and the store; `find_one` is a first-match lookup.
- `Stock`: resolving a line item to a variant and moving its stock.
- `Orders`: the four order routes.
- `Labels`: the label values, the default template and the renderer.
- `BulkLabels`: the bulk label document.
- `Export`: the CSV rows.

Collections are sequences in insertion order, not maps. `find_one({"id": …})` returns the
first document with that id, so the model looks up the first match. This keeps duplicate ids,
which the server never prevents, representable, and it gives the document count as the length
of the sequence.

Money is an integer number of cents. `f"{x:.2f}"` is `FormatCents`, proved to print the sign,
the whole units without leading zeros, a point and two digits of cents. The order date is the already formatted `YYYY-MM-DD` text.

The server does none of the following, and neither does the model:

- No prices are computed. Every money field is the client's.
- There are no stock checks, so stock may go negative.
- There is no transition table. Any status may follow any other, and `pending → returned` restocks.
- Order numbers are not unique. `OrderNumberRepeatsAfterDelete` exhibits a repeat after a delete.
- Stock restorations are not paired with decrements. `ReturnReopenReturn` restores the same items twice.
- There are no batch-create routes, and no list route takes a sort key or a page. The dashboard's fixed newest-ten query and the 1000-document cap on list reads belong to routes this model leaves out.

## Model

| member | source | states |
|---|---|---|
| Model.FirstIndex | backend/server.py:372-373 | the index a `find_one` by id returns: an element equal to the key with no earlier one, and None exactly when the key is absent |
| Model.DescribeReadsBack | backend/server.py:324 | an item description `name (size, color) xqty` opens with the product name and " (", and the quantity is the text after its last 'x', in decimal |
| Numerals.NatToString | backend/server.py:324 | `str(n)` for a natural number: non-empty decimal digits denoting `n`, with no leading zero |
| Numerals.IntToString | backend/server.py:324 | `str(i)` for an integer: a minus sign exactly when negative, followed by the digits of its magnitude with no leading zero |
| Numerals.IntToStringChars | backend/server.py:324 | `str(i)` is made of decimal digits and at most a leading minus sign |
| Numerals.ZeroPad | backend/server.py:268 | `:06d`-style padding: digits denoting `n`, exactly `width` long when `n` has fewer digits, otherwise the plain digits |
| Numerals.FormatCents | backend/server.py:455 | `f"{x:.2f}"`: a minus sign exactly for negative amounts, whole units with no leading zero, a point, two cent digits, and whole×100+cents equals the magnitude |
| Orders.OrderNumber | backend/server.py:266-268 | `ORD-` followed by the `:06d` padding of count+1: digits denoting count+1, ten characters long while count+1 is below a million, and never a padding zero beyond six digits |
| Orders.OrderNumberInjective | backend/server.py:268 | different order counts give different order numbers |
| Orders.CreateOrder | backend/server.py:264-285 | the stored order is the input with the generated number, appended last; every variant loses exactly the total quantity of the items resolving to it; the catalogue keeps its shape; settings unchanged |
| Orders.UpdateOrder | backend/server.py:360-369 | NotFound exactly when no order has the id; otherwise the first such order is replaced by the supplied one and every other order, the products and the settings are unchanged |
| Orders.DeleteOrder | backend/server.py:371-393 | NotFound exactly when no order has the id; otherwise the first such order is removed and every variant regains exactly the total quantity of that order's items resolving to it |
| Orders.NewTracking | backend/server.py:418-419 | the tracking number becomes the supplied one exactly when it is present and non-empty, otherwise it stays |
| Orders.UpdateOrderStatus | backend/server.py:395-422 | NotFound exactly when no order has the id, so every status change is accepted; only the status and the tracking number of the first matching order change; stock is restored exactly when the order moves to `returned` from another status |
| Orders.FindCreated | backend/server.py:283-284 | after creating an order with a fresh id, looking that id up finds the newly appended order |
| Orders.DeleteFoundLast | backend/server.py:371-393 | deleting the order found in last place restores its items and leaves the earlier orders |
| Orders.CreateThenDelete | backend/server.py:271-281 | creating an order with a fresh id and then deleting it gives back the original store, every stock level included |
| Orders.DeleteTwice | backend/server.py:373-375 | with unique ids, a second delete of the same id is NotFound and restores nothing |
| Orders.CreateThenReturn | backend/server.py:404-414 | marking a freshly created, not-returned order as returned gives back the pre-create catalogue |
| Orders.ReturnTwice | backend/server.py:404 | a second move to `returned` leaves the stock alone |
| Orders.ReturnReopenReturn | backend/server.py:397-421 | returned, then pending, then returned again restores the order's items a second time |
| Orders.OrderNumberRepeatsAfterDelete | backend/server.py:267-268 | create a, create b, delete a: the next order gets b's number |
| Stock.Locate | backend/server.py:272-278 | a line item resolves to the first product with its product id and, inside it, the first variant with its variant id; unknown products or variants resolve to nothing |
| Stock.LocateSameShape | backend/server.py:272-278 | changing stock levels never changes which variant an item resolves to |
| Stock.SameShapeSameStock | backend/server.py:277 | two catalogues of the same shape with equal stock everywhere are equal, so stock is the only thing the routes change |
| Stock.AddStock | backend/server.py:277 | exactly the one variant moves by the given amount; every other variant keeps its stock |
| Stock.ApplyItem | backend/server.py:272-281 | one item moves its resolved variant by its quantity (negated when taking) and nothing else; an unresolved item changes nothing |
| Stock.ApplyItems | backend/server.py:271-281 | the item loop keeps the catalogue's shape |
| Stock.ApplyItemsStockAt | backend/server.py:271-281 | after the item loop, a variant's stock is its old stock plus or minus the total quantity of the items resolving to it |
| Stock.ApplyItemsStock | backend/server.py:271-281 | the same for every variant at once |
| Stock.ApplyItemsLeavesOthers | backend/server.py:271-281 | a variant that no item resolves to keeps its stock |
| Stock.ApplyItemsUndo | backend/server.py:379-390 | taking an item list's stock and restoring it, or the reverse, gives back the catalogue |
| Strings.Split | backend/server.py:329 | `str.split(sep)`: the parts joined by the separator give back the string, and no part contains the separator |
| Strings.SplitSingle | backend/server.py:330 | splitting yields one part exactly when the separator does not occur |
| Strings.SplitJoin | backend/server.py:323-330 | joining separator-free parts and splitting again gives back the parts |
| Strings.JoinWithAppend | backend/server.py:323 | joining two non-empty lists puts one separator between their joins |
| Strings.ConcatAllAppend | backend/server.py:440-441 | concatenating pieces distributes over splitting the list of pieces |
| Template.ReplaceAll | backend/server.py:446 | `str.replace`: text with no occurrence of the pattern is unchanged |
| Template.ReplaceAllIsSplitJoin | backend/server.py:446 | `s.replace(p, r)` equals `r.join(s.split(p))`, the leftmost non-overlapping reading |
| Template.ReplaceAllSkipsText | backend/server.py:446-455 | template text in which no token can begin (no `{{`, no trailing `{`; single braces as in CSS allowed) is copied verbatim by every token's replacement |
| Template.ReplaceAllHitsToken | backend/server.py:446-455 | a token at the head is replaced by its value |
| Template.ReplaceAllSkipsOtherToken | backend/server.py:446-455 | a different well-formed token is left verbatim |
| Template.ReplaceAllFillsSlots | backend/server.py:446-455 | one replacement on a template of text and slots fills exactly the slots with that token's name, whatever the value, since the inserted value is not rescanned |
| Template.SubstituteAllFillsSlots | backend/server.py:446-455 | when no token can begin inside any substituted value, the eleven replacements, applied in order, fill every slot whose name has a value and leave the other slots and all text verbatim |
| Template.FillCompleteNoToken | backend/server.py:446-455 | when every slot has a value and no token can begin inside any value, no token can begin anywhere in the result, so it contains no `{{name}}` token of any name |
| Template.Lookup | backend/server.py:446-455 | the value of the first binding with that token name, found exactly when some binding has that name |
| Template.SubstituteAll | backend/server.py:446-455 | when no binding's token occurs in the text, the replacements leave it unchanged |
| Labels.OrDefault | backend/server.py:446-452 | `value or default`: the value when it is present and non-empty, otherwise the default |
| Labels.TotalText | backend/server.py:455 | `f"{total:.2f}" if total else "0.00"`: the two-decimal amount, and "0.00" for a zero total |
| Labels.EffectiveSettings | backend/server.py:431-433 | the saved settings when present, otherwise the defaults (`BusinessSettings()`) |
| Labels.ItemEntries | backend/server.py:440-441 | one `<li>` entry per item, in item order |
| Labels.ItemsHtmlIsList | backend/server.py:439-442 | the items value is a `<ul>` … `</ul>` list, opened and closed even for no items |
| Labels.ItemsHtmlEmpty | backend/server.py:439-442 | no items give `<ul></ul>` |
| Labels.ItemsHtmlAppend | backend/server.py:439-442 | each further item adds its `<li>name (size, color) xqty</li>` entry just before the closing `</ul>` |
| Labels.LabelValues | backend/server.py:446-455 | the eleven values: a missing or empty order number or tracking number renders as "TBD", and a zero total as "0.00" |
| Labels.LabelBindings | backend/server.py:446-455 | the k-th substitution pairs the k-th token name with the k-th value |
| Labels.RenderLabel | backend/server.py:444-455 | a template in which no token can begin is printed as it is, whatever the order |
| Labels.ShippingLabel | backend/server.py:425-457 | NotFound exactly when no order has the id; otherwise the first matching order's label under the saved settings, or the defaults when none are saved |
| Labels.LabelTokensValid | backend/server.py:446-455 | each of the eleven token names is non-empty and brace-free, so each is a well-formed slot name |
| Labels.LabelValuesPlain | backend/server.py:439-455 | when no token can begin in any business, order or item text field, none can begin in any of the eleven values, including the items list and the total |
| Labels.RenderFillsSlots | backend/server.py:444-455 | on a template of slots and text in which no token begins (CSS braces allowed), and with business, order and item fields in which no token begins, the label is the template with each of the eleven token slots filled by its value, and everything else verbatim |
| Labels.RenderLeavesNoToken | backend/server.py:444-455 | when every slot is one of the eleven tokens and no token can begin in any field, no token can begin anywhere in the label, so it holds no `{{name}}` token of any name |
| Labels.DefaultLabelSegmentsWellFormed | backend/server.py:117-146 | the default template is brace-free text interleaved with slots named by the eleven tokens, so it is well formed |
| Labels.DefaultLabelSlotsAreTokens | backend/server.py:117-146 | every slot of the default template is one of the eleven tokens |
| Labels.DefaultLabelReplacesEveryToken | backend/server.py:117-146 | with the default template and fields in which no token can begin, the label is the template with every slot filled, and no token remains |
| BulkLabels.FragmentIsShippingLabel | backend/server.py:466-491 | an id's fragment of the bulk document is the single-order label plus a page break, or nothing when the order is missing |
| BulkLabels.Fragment | backend/server.py:466-491 | an id adds nothing exactly when no order has it, and otherwise a label closed by the page break |
| BulkLabels.BulkLabelsSingle | backend/server.py:459-493 | a one-id request gives that order's label and a page break, or the empty document |
| BulkLabels.BulkLabelsAppend | backend/server.py:466-491 | the document for a + b is the document for a followed by the document for b |
| BulkLabels.BulkLabelsSkipsUnknown | backend/server.py:467-468 | an id with no order can be dropped from the request without changing the document |
| BulkLabels.BulkLabels | backend/server.py:459-493 | the document is empty exactly when no requested id names a stored order, the empty request included |
| BulkLabels.BulkShippingLabels | backend/server.py:459-493 | the handler's loop builds exactly the concatenation of the fragments in request order |
| Export.Descriptions | backend/server.py:323-326 | one `name (size, color) xqty` description per item, in item order |
| Export.DescriptionSplits | backend/server.py:323-326 | the description column splits at "; " back into the item descriptions when none of them contains "; " |
| Export.OrderDescription | backend/server.py:323-326 | no items give an empty cell and one item gives its description alone |
| Export.OrderDescriptionAppend | backend/server.py:323-326 | each further item adds "; " and its description |
| Export.CityOf | backend/server.py:329-330 | the city falls back to the stored city (None as an empty cell) exactly when the address has no ", "; otherwise it is the second-to-last segment and contains no ", " |
| Export.CityFromSegments | backend/server.py:329-330 | an address joined from two or more ", "-free segments gives its second-to-last segment as the city |
| Export.AddressSplitsInto | backend/server.py:329 | an address joined from ", "-free segments splits back into exactly those segments |
| Export.CodAmount | backend/server.py:340 | `cod_amount or total_amount`: the COD amount when present and non-zero, otherwise the total |
| Export.RowsFor | backend/server.py:317-344 | one row for the first order with the id, none when it is missing |
| Export.RowOf | backend/server.py:332-343 | each `x or ""` cell holds the field or is empty when missing; name, address and phone are copied; the COD and city cells follow `CodAmount` and `CityOf`; the description splits back into the item descriptions |
| Export.CodCell | backend/server.py:340 | the row's COD cell equals the total exactly when the COD amount is missing, zero or the total itself, and is zero exactly when both amounts are missing or zero |
| Export.ExportRowsAppend | backend/server.py:317-344 | rows for a + b are the rows for a followed by the rows for b |
| Export.ExportRowsSkipsUnknown | backend/server.py:318-319 | an id with no order contributes no row |
| Export.ExportRows | backend/server.py:317-344 | at most one row per requested id; no rows exactly when no requested id names a stored order; every row is the row of the first order holding a requested id |
| Export.ExportRowsAllKnown | backend/server.py:317-344 | when every id names an order there is exactly one row per id, in request order, each that order's row |
| Export.ExportOrders | backend/server.py:299-358 | the handler writes the fixed ten-column header and exactly the rows of the request, in order |

## Left out

- Database, routing and framework plumbing are replaced by an explicit store value. This covers MongoDB access, FastAPI routing, CORS, logging, the shutdown hook, `prepare_for_mongo` and `parse_from_mongo`.
- Generated values are inputs. UUID generation, `datetime.now` and `created_at.strftime` are replaced by the given id and date text. `updated_at` is not modelled, because it is only a clock reading.
- Money is integer cents, not floats. Float rounding in `:.2f` and float `repr` in the CSV COD cell are not modelled.
- Export.ExportOrders: produces the header and the rows as values. The `csv.writer` quoting and line endings, and the HTTP response, are not modelled.
- Orders.CreateOrder: the route's `order_count` is the length of the orders sequence. Concurrent requests, which make the count-then-insert and the stock read-modify-write racy, are not modelled; requests are sequential.
- Validation by the request models is not modelled. This covers the `SizeEnum` check on variant sizes and the field defaults filled in for missing request fields; the model takes complete records.
- The other routes are not modelled. These are the product, customer and settings CRUD routes, the finance reports (float arithmetic over date-range queries), the dashboard and the low-stock listing. The plain order reads `get_orders` and `get_order` are left out too: the latter is the first-match lookup `FindOrder` with the same 404 as the id routes, and the former is a capped read of the whole collection.
- Labels.ShippingLabel: the saved settings are a whole record or absent. A partially saved settings document, completed field by field with the defaults, is not modelled.
- Template.ReplaceAll: models `str.replace` for non-empty patterns only, because every label token is non-empty.
- Labels.RenderLeavesNoToken: holds only when no token can begin in any business, order or item field (every `{` followed by a character other than `{`). A value containing a `{{…}}` token can be rewritten by a later replacement, as in the server.
- Labels.RenderFillsSlots: covers templates whose literal text has no `{{` and does not end in `{`, and only fields in which no `{{` occurs and which do not end in `{`. Single braces, as in CSS rules, are covered in both. A stray `{{` outside a token is not covered. Neither is a field that holds `{{` or ends in `{`: the server rewrites a token formed inside an earlier value, or across a value's end and the following text, so the label is then not the template with its slots filled.
- Template.SubstituteAllFillsSlots: for the same reason, holds only for values in which no token can begin.
