# Order and cost bookkeeping of bk-company-technical-test, in Dafny

This project models the order-management application of
`bk-company-technical-test`: a NestJS backend that stores products,
product costs and orders and computes a revenue/cost/profit dashboard, and
a React front end that edits order and product drafts and product costs
before sending them to that backend.

The model is functional. Every table is an immutable value:

- products are a sequence in listing order;
- costs are a map keyed by product id;
- orders are a sequence of order rows, each with its item rows.

Every service call is a pure function of the stores it reads:

- the writes return the new store together with what the service returns;
- the reads return plain values and no store;
- only the calls that can throw return a `Result`: `Products.Create`
  (`Conflict`), `ProductCosts.Upsert` (`NotFound`) and
  `DateRange.ParseIsoDateOrThrow` (`BadRequest`). A `Result` is either the
  value or that HTTP exception.

`Dashboard.GetDashboard` is a method, with loops that mirror the source.

Some inputs become parameters:

- fresh UUIDs;
- the clock, both `Date.now()` and `new Date().toISOString()`;
- the parser `new Date(string)`, which is a `DateParser` yielding an
  integer timestamp or `None` for an Invalid Date.

Money is integer cents, since every monetary column is `decimal(12,2)`.
This makes `Number(x.toFixed(2))` the identity.

Modules, following the program's structure:

| module | models |
|---|---|
| `Common` | `Option`, `Result`, HTTP errors, JavaScript truthiness of optional strings, `String.prototype.trim` with the ECMAScript white-space set |
| `Decimal` | `String(n)` of an amount in cents, and `Number(text)` for decimal literals |
| `Sorting` | the stable newest-first sort of `Array.prototype.sort`, proved sorted, a permutation and stable; sums over a sorted list |
| `DateRange` | `isWithinRange` and `parseIsoDateOrThrow` (`backend/src/common/date-range.ts`) |
| `Products` | `ProductsService`: create with id default and conflict, `findAll`, `findById` |
| `ProductCosts` | `ProductCostsService`: `upsert`, `findAllView`, `findByProductId` |
| `Orders` | `OrdersService`: `createFromWebhook`, `createFromDto`, `findAll`, `findFiltered` |
| `Dashboard` | `DashboardService.getDashboard`, as loops mirroring the source |
| `Webhooks` | the webhook controller's payload-to-order mapping |
| `Api` | the day-boundary ISO strings and query strings of `frontend/src/api.ts` |
| `OrderDraft` | the order form of `App.tsx` and `NewOrderDialog.tsx` |
| `ProductDraft` | the product form of `NewProductDialog.tsx`; the page in `App.tsx` builds the same request |
| `CostEditing` | in-place cost editing in `ProductCostsTable.tsx` and `App.tsx` |
| `ExpandedOrders` | the expanded-rows map of the orders table |
| `Scenarios` | the seeded database as a worked example |

The seed data shows that "an order's total is the sum of its items" is not
an invariant of the store. Seed order 3 stores a total of 74.60, while its
items add up to 74.50 (`Scenarios.SeedTotalDiffersFromItems`). Only
orders created from the web form are guaranteed the sum
(`Orders.CreateFromDto`). The webhook stores whatever total it is given.

## Model

| member | source | states |
|---|---|---|
| `Common.Trim` | frontend/src/App.tsx:161 | `String.prototype.trim`: the end of the start of the text, white space being the ECMAScript set; its properties are the `Trim…` lemmas below |
| `Common.TrimStart` | frontend/src/App.tsx:161 | the start of `trim()`: a suffix of the input, whatever it drops is white space, and what remains does not start with white space |
| `Common.TrimEnd` | frontend/src/App.tsx:161 | the end of `trim()`: a prefix of the input, whatever it drops is white space, and what remains does not end with white space |
| `Common.TrimRemovesWhitespace` | frontend/src/App.tsx:161 | `trim()` keeps a contiguous middle of the text and removes only white space on either side |
| `Common.TrimEnds` | frontend/src/App.tsx:214 | a trimmed text is empty or starts and ends with a non-white-space character |
| `Common.TrimEmptyIff` | frontend/src/App.tsx:214 | `s.trim() === ''` exactly when every character of `s` is white space, which is the blank test of the forms |
| `Common.TrimIdempotent` | frontend/src/components/NewProductDialog.tsx:30 | trimming a trimmed text changes nothing |
| `Decimal.NatToString` | frontend/src/components/ProductCostsTable.tsx:35 | the decimal digits of a natural number: non-empty, digits only, no leading zero except for 0 itself |
| `Decimal.NatToStringRoundTrip` | frontend/src/components/ProductCostsTable.tsx:35 | reading back the digits of `n` gives `n` |
| `Decimal.NatToStringInjective` | frontend/src/components/ProductCostsTable.tsx:35 | distinct numbers print differently |
| `Decimal.FormatCents` | frontend/src/components/ProductCostsTable.tsx:35 | `String(x)` of a non-negative amount in reais: non-empty, starting and ending with a digit |
| `Decimal.FormatAmount` | frontend/src/App.tsx:148 | `String(x)` of any amount: ends with a digit, and starts with `-` exactly for a negative amount |
| `Decimal.SpanDigits` | frontend/src/App.tsx:161 | the run of leading digits of a literal, stopping at the first non-digit |
| `Decimal.ParseNumber` | frontend/src/App.tsx:161 | `Number(text)` on a decimal literal after trimming: an all-white-space text reads as 0; `None` stands for NaN |
| `Decimal.ParseFormatCents` | frontend/src/components/ProductCostsTable.tsx:35 | `Number(String(x))` is `x` for every non-negative amount in cents |
| `Decimal.ParseFormatAmount` | frontend/src/App.tsx:148 | `Number(String(x))` is `x` for every amount in cents, negative ones included |
| `Sorting.Insert` | backend/src/orders/orders.service.ts:102 | one insertion step of the sort: a permutation of the list with the new element added, headed by that element or the old head |
| `Sorting.InsertSorted` | backend/src/orders/orders.service.ts:102 | inserting into a list sorted newest first keeps it sorted |
| `Sorting.SortDesc` | backend/src/orders/orders.service.ts:102 | the sort with comparator `(a, b) => key(b) - key(a)`: a permutation of its input, non-increasing by key |
| `Sorting.SortDescMembers` | backend/src/orders/orders.service.ts:102 | the sort neither adds nor loses an element |
| `Sorting.InsertWithKey` | backend/src/orders/orders.service.ts:102 | inserting keeps the relative order of the elements that share a key |
| `Sorting.SortDescStable` | backend/src/orders/orders.service.ts:102 | the sort is stable: the elements with any one key come out in their input order |
| `Sorting.SumByInsert` | backend/src/orders/orders.service.ts:102 | an insertion adds exactly the new element's value to a sum |
| `Sorting.SumBySortDesc` | backend/src/dashboard/dashboard.service.ts:15 | sums over the orders do not depend on the sort |
| `DateRange.IsWithinRange` | backend/src/common/date-range.ts:11-15 | `isWithinRange`: false when a present start is after the date or a present end before it, true otherwise; its meaning is stated by the lemmas below |
| `DateRange.WithinRangeIsClosedInterval` | backend/src/common/date-range.ts:11-15 | on valid dates, `isWithinRange` is membership of the closed interval between the present bounds |
| `DateRange.UnboundedContainsAll` | backend/src/common/date-range.ts:11-14 | with neither bound every date, even an invalid one, is within range |
| `DateRange.BoundsInclusive` | backend/src/common/date-range.ts:12-13 | a date equal to the start or to the end is within range |
| `DateRange.OutsideBoundsExcluded` | backend/src/common/date-range.ts:12-13 | a date strictly before a present start, or strictly after a present end, is not within range |
| `DateRange.InvertedRangeEmpty` | backend/src/common/date-range.ts:12-13 | when start is after end no valid date is within range |
| `DateRange.InvalidDatesNeverExcluded` | backend/src/common/date-range.ts:11-15 | comparisons with an Invalid Date are false, so an invalid date or invalid bounds never exclude |
| `DateRange.ParseIsoDateOrThrow` | backend/src/common/date-range.ts:3-9 | BadRequest "`<field>` inválido." exactly when the parser yields an invalid date; the parsed date otherwise |
| `Products.Lookup` | backend/src/products/products.service.ts:18 | the first product with the id, present exactly when some product has it |
| `Products.FindAll` | backend/src/products/products.service.ts:27-29 | every stored product in store order; `ProductCosts.FindAllView` builds on it |
| `Products.FindById` | backend/src/products/products.service.ts:31-33 | a product with that id exactly when one is stored, nothing otherwise |
| `Products.ChooseId` | backend/src/products/products.service.ts:15 | an absent or empty id is replaced by the fresh one; any other id is used as given |
| `Products.Create` | backend/src/products/products.service.ts:14-25 | Conflict exactly when the chosen id is taken, with the store unchanged; otherwise exactly one product is appended; ids stay unique |
| `Products.CreateThenFind` | backend/src/products/products.service.ts:23-33 | after a successful create on any store, `findById` of the chosen id returns the new product with the input name |
| `Products.CreateFrame` | backend/src/products/products.service.ts:23-24 | a create does not change what `findById` returns for any other id |
| `Products.LookupAppend` | backend/src/products/products.service.ts:24 | appending a product with another id does not change a lookup |
| `ProductCosts.FindByProductId` | backend/src/product-costs/product-costs.service.ts:42-46 | `null` exactly when no cost row exists; otherwise the row with its stored cost |
| `ProductCosts.Upsert` | backend/src/product-costs/product-costs.service.ts:15-24 | NotFound exactly when the product does not exist, with the costs unchanged; otherwise returns its inputs, sets that product's entry and leaves every other entry alone; keeps every cost attached to a stored product |
| `ProductCosts.UpsertThenFind` | backend/src/product-costs/product-costs.service.ts:22 | after a successful upsert, `findByProductId` returns the cost just written |
| `ProductCosts.UpsertIdempotent` | backend/src/product-costs/product-costs.service.ts:22 | upserting the same cost twice is upserting it once |
| `ProductCosts.ViewRows` | backend/src/product-costs/product-costs.service.ts:28-37 | one row per product in order, with its name, and a cost that is null exactly when there is no cost row |
| `ProductCosts.FindAllView` | backend/src/product-costs/product-costs.service.ts:26-40 | one row per product of `findAll`, in order, its cost the one `findByProductId` gives, null for none |
| `ProductCosts.CreatedProductHasNoCost` | backend/src/product-costs/product-costs.service.ts:28-35 | a newly created product shows as the last row of the view, with no cost |
| `Orders.ItemsTotal` | backend/src/orders/orders.service.ts:50-53 | the reduce of `unitPrice * quantity` over the items, from 0; `ItemsTotalConcat` and `ItemsTotalBounds` state its properties |
| `Orders.ItemsTotalConcat` | backend/src/orders/orders.service.ts:50-53 | the item total of a concatenation is the sum of the two totals |
| `Orders.ItemsTotalBounds` | backend/src/orders/orders.service.ts:50-53 | with quantities at least 1 and prices at least 0, the total is not negative and not below any line |
| `Orders.ItemRows` | backend/src/orders/orders.service.ts:35-42 | one item row per item, numbered from the next key and pointing at its order |
| `Orders.OrderView` | backend/src/orders/orders.service.ts:79-88 | the mapping of a stored row to the returned order, every field and every item kept; stated through `FindAll` |
| `Orders.Save` | backend/src/orders/orders.service.ts:28-45 | saving an order with cascaded items appends exactly one row whose view is the order; order keys stay unique and item rows keep pointing at their order |
| `Orders.FindAll` | backend/src/orders/orders.service.ts:75-89 | every order, in store order, with every field and every item's four fields kept |
| `Orders.FindAllAfterSave` | backend/src/orders/orders.service.ts:75-89 | after a save, `findAll` is the old list followed by the saved order |
| `Orders.CreateFromWebhook` | backend/src/orders/orders.service.ts:19-46 | the order is stored with its total, timestamp, id and external id exactly as given, and listed last by `findAll` |
| `Orders.CreateFromDto` | backend/src/orders/orders.service.ts:49-73 | the stored total is the exact sum of `unitPrice * quantity` and is not negative; buyer fields copied; external id `WEB-` followed by the time in milliseconds; items kept in order |
| `Orders.InFilter` | backend/src/orders/orders.service.ts:96-100 | the inline callback of `findFiltered`: a truthy bound excludes the orders on its wrong side; `InFilterIsWithinRange` states what it means |
| `Orders.InFilterIsWithinRange` | backend/src/orders/orders.service.ts:96-100 | the inline filter of `findFiltered` is `isWithinRange` over the range its truthy filters denote |
| `Orders.FilterOrders` | backend/src/orders/orders.service.ts:96-101 | keeps exactly the orders within range and drops none of them |
| `Orders.FilterOrdersAppend` | backend/src/orders/orders.service.ts:96-101 | filtering keeps the input order: an appended order is appended to the result exactly when it is in range |
| `Orders.FilterOrdersCount` | backend/src/orders/orders.service.ts:96-101 | filtering keeps multiplicity: an in-range order occurs as often in the result as in the input, an out-of-range one never |
| `Orders.FilterNoFilters` | backend/src/orders/orders.service.ts:98-99 | with no truthy filter the filter keeps the whole list |
| `Orders.FindFiltered` | backend/src/orders/orders.service.ts:92-103 | only in-range orders of `findAll`, every in-range order present, each as often as `findAll` has it (a permutation of the filtered list), a permutation of `findAll` when unfiltered, newest first |
| `Orders.FindFilteredNoFilters` | backend/src/orders/orders.service.ts:92-103 | without filters every stored order is returned |
| `Orders.FindFilteredFromStore` | backend/src/orders/orders.service.ts:93 | every returned order is the `findAll` view of a stored row |
| `Orders.FindFilteredNewestFirst` | backend/src/orders/orders.service.ts:102 | when every stored date is valid, the result is ordered by creation time, newest first |
| `Orders.FindFilteredStable` | backend/src/orders/orders.service.ts:102 | orders with the same timestamp keep their store order |
| `Dashboard.SumRevenue` | backend/src/dashboard/dashboard.service.ts:15 | the reduce computes the sum of the order totals |
| `Dashboard.AddItemsCost` | backend/src/dashboard/dashboard.service.ts:20-25 | the inner loop adds `cost * quantity` for every item with a cost row and nothing for one without |
| `Dashboard.SumCost` | backend/src/dashboard/dashboard.service.ts:18-26 | the nested loops compute the cost of every item of every order |
| `Dashboard.GetDashboard` | backend/src/dashboard/dashboard.service.ts:12-36 | count, revenue and cost of exactly the orders `findFiltered` returns, and profit is revenue minus cost |
| `Dashboard.FilterSums` | backend/src/dashboard/dashboard.service.ts:13-26 | summing over the filtered list is summing over the store with out-of-range orders counted as 0 |
| `Dashboard.DashboardSumsInRange` | backend/src/dashboard/dashboard.service.ts:13-26 | the dashboard's revenue and cost are the sums over the in-range orders, whatever the sort order |
| `Dashboard.DashboardNoFiltersCountsAll` | backend/src/dashboard/dashboard.service.ts:31 | without filters `ordersCount` is the number of stored orders |
| `Dashboard.InRangeAppendOut` | backend/src/dashboard/dashboard.service.ts:13-26 | an order outside the range changes neither the filtered list nor the in-range sums |
| `Dashboard.OutOfRangeOrderIgnored` | backend/src/dashboard/dashboard.service.ts:13-34 | storing an order outside the range changes none of count, revenue and cost, so not profit either |
| `Dashboard.ItemsCostNonNegative` | backend/src/dashboard/dashboard.service.ts:20-25 | with costs and quantities not negative, one order's cost is not negative |
| `Dashboard.CostTotalNonNegative` | backend/src/dashboard/dashboard.service.ts:19-25 | with costs and quantities not negative, the cost total is not negative |
| `Dashboard.DashboardCostNonNegative` | backend/src/dashboard/dashboard.service.ts:18-26 | when stored costs are not negative and quantities are at least 1, the dashboard's cost total is not negative |
| `Webhooks.ToOrder` | backend/src/webhooks/webhooks.controller.ts:13-26 | fresh internal id; payload id as external id; buyer unnested; total and timestamp passed through; each line item renamed in place, same count and order |
| `Webhooks.ToOrderRoundTrip` | backend/src/webhooks/webhooks.controller.ts:13-26 | the mapping loses nothing: renaming back gives the payload |
| `Webhooks.CreateOrder` | backend/src/webhooks/webhooks.controller.ts:11-29 | the mapped order is listed last by `findAll`, and the payload can be recovered from it |
| `Webhooks.EmptyPayloadStored` | backend/src/webhooks/webhooks.controller.ts:20-25 | a payload without line items is stored as an order without items, total kept |
| `Api.ToStartOfDayIso` | frontend/src/api.ts:5-7 | the date followed by `T00:00:00.000Z` |
| `Api.ToEndOfDayIso` | frontend/src/api.ts:9-11 | the date followed by `T23:59:59.999Z` |
| `Api.LexLessCommonPrefix` | frontend/src/api.ts:5-11 | a common prefix does not change which of two strings sorts first |
| `Api.StartOfDayBeforeEndOfDay` | frontend/src/api.ts:5-11 | for the same day the start string sorts strictly before the end string |
| `Api.HexDigit` | frontend/src/api.ts:37 | a hexadecimal digit that reads back as its value |
| `Api.Utf8` | frontend/src/api.ts:37 | the UTF-8 bytes of a character: one to four bytes, a single byte exactly for ASCII |
| `Api.PercentBytes` | frontend/src/api.ts:37 | three characters per byte, each a `%` or a hexadecimal digit |
| `Api.EncodeChar` | frontend/src/api.ts:37 | a character's form encoding never contains `&`, `=` or `?` |
| `Api.FormEncode` | frontend/src/api.ts:37 | form encoding never produces `&`, `=` or `?` and never shortens |
| `Api.DecodeEncodeChar` | frontend/src/api.ts:37 | decoding reverses the encoding of one ASCII character |
| `Api.FormEncodeRoundTrip` | frontend/src/api.ts:37 | decoding the form encoding of an ASCII text gives the text back |
| `Api.FormEncodeUnreserved` | frontend/src/api.ts:37 | letters, digits and `*-._` are sent unchanged |
| `Api.FilterParams` | frontend/src/api.ts:34-36 | `startDate` is set exactly for a truthy start and `endDate` exactly for a truthy end, with the day-boundary values, start first |
| `Api.Serialize` | frontend/src/api.ts:37 | `URLSearchParams.toString()`: `key=value` pairs joined by `&`, empty exactly when there are no parameters |
| `Api.WithQuery` | frontend/src/api.ts:38 | the path comes first, unchanged |
| `Api.DashboardPath` | frontend/src/api.ts:30-39 | the `getDashboard` request path starts with `/dashboard` |
| `Api.OrdersPath` | frontend/src/api.ts:41-47 | the `getOrders` request path starts with `/orders` |
| `Api.SerializeHasNoQuestionMark` | frontend/src/api.ts:37 | a serialized query never contains `?` |
| `Api.SerializeNonEmpty` | frontend/src/api.ts:37 | a query with a named parameter is not empty |
| `Api.WithQueryShape` | frontend/src/api.ts:38 | `?` plus the query is appended exactly when the query is not empty |
| `Api.PathHasQueryIff` | frontend/src/api.ts:30-47 | the dashboard and orders paths carry a `?` exactly when some filter is truthy |
| `Api.SameQueryForBothPaths` | frontend/src/api.ts:30-47 | the dashboard and orders requests carry the same query for the same filters |
| `Api.StartOnlyQuery` | frontend/src/api.ts:34-38 | a start-only filter sends `startDate=` with the encoded start of day, which decodes back to the day followed by `T00:00:00.000Z` |
| `OrderDraft.ApplyPatchIdempotent` | frontend/src/App.tsx:193 | spreading a partial item twice is spreading it once, and an empty partial changes nothing |
| `OrderDraft.UpdateFrom` | frontend/src/App.tsx:192-194 | the mapped suffix keeps its length and patches only the element at the target position |
| `OrderDraft.UpdateItem` | frontend/src/App.tsx:191-195 | same length; only the item at `index` changes, to that item with the partial's fields; an out-of-range index changes nothing |
| `OrderDraft.RemoveFrom` | frontend/src/App.tsx:205 | the filtered suffix drops exactly the element at the target position |
| `OrderDraft.RemoveItem` | frontend/src/App.tsx:204-206 | exactly the item at `index` goes and the others keep their order; an out-of-range index removes nothing |
| `OrderDraft.RemoveAddedItem` | frontend/src/App.tsx:197-206 | removing the line just added restores the list |
| `OrderDraft.AddItem` | frontend/src/App.tsx:197-202 | the old lines unchanged, followed by one default line |
| `OrderDraft.AddItemTotal` | frontend/src/App.tsx:197-202 | adding a line appends one default item after the unchanged prefix and leaves the total alone |
| `OrderDraft.RemoveItemTotal` | frontend/src/components/NewOrderDialog.tsx:51-58 | removing a line takes exactly its `unitPrice * quantity` off the total |
| `OrderDraft.UpdateItemTotal` | frontend/src/components/NewOrderDialog.tsx:43-58 | updating a line moves the total by the difference of its line totals |
| `OrderDraft.DraftTotal` | frontend/src/App.tsx:208-211 | the form's total is the sum the backend stores for the same items |
| `OrderDraft.HandleSubmit` | frontend/src/components/NewOrderDialog.tsx:66-78 | the payload has trimmed buyer fields and the items copied in order; the form is reset to empty buyer fields and one default item once the submission succeeds, and kept as it was when it fails |
| `OrderDraft.CanSubmit` | frontend/src/App.tsx:213-217 | the submit guard: non-blank buyer fields, at least one line, and every line with a product, quantity at least 1 and price at least 0; `CanSubmitIffValidPayload` states what it means |
| `OrderDraft.Payload` | frontend/src/App.tsx:223-232 | the body of `createOrder`: trimmed buyer fields and the four fields of every line, in order; stated through `HandleSubmit` |
| `OrderDraft.CanSubmitIffValidPayload` | frontend/src/App.tsx:213-217 | the submit guard holds exactly when the payload passes the backend's numeric checks, its buyer fields are not blank and every line names a product |
| `OrderDraft.FreshForm` | frontend/src/components/NewOrderDialog.tsx:36-41 | the form `openOrderDialog` and `handleClose` leave has empty buyer fields and one line of quantity 1, cannot be submitted and totals 0 |
| `OrderDraft.SubmittedTotalMatches` | frontend/src/App.tsx:223-232 | for a submittable form, the backend accepts the payload and stores the total and the items the form shows |
| `ProductDraft.CanSave` | frontend/src/components/NewProductDialog.tsx:61 | the save button is enabled exactly for a non-blank name (the loading flag aside) |
| `ProductDraft.SaveRequest` | frontend/src/components/NewProductDialog.tsx:30 | the name is trimmed; the id is absent exactly when the trimmed SKU is blank, and is the trimmed SKU otherwise |
| `ProductDraft.HandleSave` | frontend/src/components/NewProductDialog.tsx:29-33 | the request has the trimmed name and the trimmed SKU as id, no id for a blank SKU; both fields are cleared, disabling the button, only once `onSave` resolves, and kept when it rejects |
| `ProductDraft.HandleClose` | frontend/src/components/NewProductDialog.tsx:23-27 | closing clears both fields, which disables the save button |
| `ProductDraft.SaveRequestChoosesId` | frontend/src/App.tsx:131-134 | the form never sends an empty id: the product is named by its trimmed SKU, or by the generated id for a blank one |
| `ProductDraft.SaveRequestIdempotent` | frontend/src/components/NewProductDialog.tsx:30 | refilling the form with what was sent sends the same request |
| `ProductDraft.SavedProductIsFound` | frontend/src/App.tsx:127-144 | for a form the button lets through, when the create succeeds `findById` finds the product, with the trimmed name, under the chosen id and the form is cleared; on Conflict the store and the form are unchanged |
| `CostEditing.CostText` | frontend/src/components/ProductCostsTable.tsx:35 | the input text of a cost: empty exactly for a null cost, starting with `-` exactly for a negative one |
| `CostEditing.StartEditing` | frontend/src/components/ProductCostsTable.tsx:33-36 | editing this row, from a text that is empty exactly when the cost is null |
| `CostEditing.StopEditing` | frontend/src/components/ProductCostsTable.tsx:38-41 | no row in edition and an empty input |
| `CostEditing.StopForgets` | frontend/src/components/ProductCostsTable.tsx:38-41 | stopping leaves the same idle state whatever row or text was being edited |
| `CostEditing.CostTextReadsBack` | frontend/src/components/ProductCostsTable.tsx:35 | the text of a cost is empty only for a null cost, and `Number()` reads it back as the cost |
| `CostEditing.ParseCostInput` | frontend/src/App.tsx:160-165 | a blank text is 0; an accepted value is never negative |
| `CostEditing.ParseCostInputIsNumber` | frontend/src/App.tsx:161-162 | the rule accepts exactly the texts whose `Number()` is defined and not negative, and yields that number |
| `CostEditing.HandleSave` | frontend/src/components/ProductCostsTable.tsx:43-48 | a refused text returns with the editing state untouched and nothing saved; an accepted one is sent, never negative, and the edition ends only once `onSaveCost` resolves, staying open when it rejects; a blank text sends 0 |
| `CostEditing.HandleSaveCost` | frontend/src/App.tsx:156-177 | "Custo inválido." and no update exactly when the text is refused; otherwise the value is sent, and the edition ends with no error only when every request resolves, while a failed request shows its message and keeps the edition open |
| `CostEditing.TableAndPageAgree` | frontend/src/components/ProductCostsTable.tsx:44-47 | the table and the page send the same value for the same text and leave the same editing state when their requests meet the same fate; the page shows no error exactly when the save goes through |
| `CostEditing.StartThenSaveBlank` | frontend/src/components/ProductCostsTable.tsx:33-48 | opening a row without a cost and saving it untouched sends 0, and ends the edition only when the call resolves |
| `CostEditing.StartThenSaveCost` | frontend/src/components/ProductCostsTable.tsx:33-48 | opening a row with a cost and saving it untouched sends that cost, ending the edition only when the call resolves; a negative cost would be refused |
| `CostEditing.SaveReadable` | frontend/src/components/ProductCostsTable.tsx:44-47 | a text `Number()` reads as `x` is sent as `x` when not negative and refused otherwise |
| `CostEditing.ViewRowRoundTrip` | frontend/src/components/ProductCostsTable.tsx:33-48 | for every row of `findAllView`, saving without typing re-sends the stored cost, or 0 for a product without one |
| `ExpandedOrders.Toggle` | frontend/src/App.tsx:179-181 | the toggled order flips, every other entry is unchanged |
| `ExpandedOrders.ToggleTwice` | frontend/src/App.tsx:179-181 | toggling twice restores every order's expanded state |
| `ExpandedOrders.ToggleOthers` | frontend/src/App.tsx:180 | toggling one order leaves every other order's state alone |
| `Scenarios.SeedStore` | backend/src/database/migrations/1708100000001-SeedData.ts:28-67 | the seeded tables list the three seed orders in insertion order |
| `Scenarios.SeedOrderCosts` | backend/src/database/migrations/1708100000001-SeedData.ts:17-65 | the seeded orders cost 48.50, 21.00 and 29.00 |
| `Scenarios.SeedDashboard` | backend/src/database/migrations/1708100000001-SeedData.ts:6-67 | the unfiltered dashboard of the seed: 3 orders, revenue 248.55, cost 98.50, profit 150.05 |
| `Scenarios.SeedTotalDiffersFromItems` | backend/src/database/migrations/1708100000001-SeedData.ts:58-65 | seed order 3 stores 74.60 while its items sum to 74.50 |
| `Scenarios.OneOrderScenario` | backend/src/orders/orders.service.ts:49-73 | an order made from the form shows up in the dashboard with its computed total and its item costs |

## Left out

- I/O and asynchrony are not modelled: `async`/`await`, `fetch`, `apiFetch` and its HTTP error text, loading flags, re-fetching after a save. Each handler is modelled from the request it sends and the local state it leaves.
- The page's own product dialog (`frontend/src/App.tsx:127-144`, `:597-628`) is modelled only through the request it sends, which is `SaveRequest`'s. Its drafts are cleared after a successful create, but cancelling only closes the dialog and keeps what was typed, unlike `NewProductDialog`'s `handleClose`. `ProductDraft.HandleClose` models the latter.
- React and MUI rendering, `OrdersTable.tsx`, `ProductsTable.tsx`, `DashboardCards.tsx`, and locale formatting (`formatMoney`, `formatDate`) are not modelled. They display values and compute nothing.
- The controllers and module wiring are not modelled: routing and dependency injection only. Both the POST and PUT cost routes reach the same `upsert`.
- Orders.OrderItem, Orders.StoredItem, Webhooks.LineItem: the quantity is an integer. Both order DTOs check only `@IsNumber() @Min(1)` and no `@IsInt` (`backend/src/orders/dto/create-order.dto.ts:22-24`, `backend/src/webhooks/dto/ecommerce-order-webhook.dto.ts:27-29`). So the API and the UI (`Math.max(1, Number("1.5"))` at `frontend/src/App.tsx:681`) accept a fractional quantity such as 1.5, which `canSubmitOrder` lets through and the service multiplies into the total (`backend/src/orders/orders.service.ts:50-53`). Only the `int` column of `order_item` (`backend/src/orders/order-item.entity.ts:18-19`) cannot hold it. The model has no fractional quantities, so neither the total of such an order nor what the database does with the fraction is modelled.
- Floating point is replaced by integer cents, so JavaScript float drift is not modelled. `toFixed(2)` becomes the identity, and a `decimal(12,2)` overflow is not modelled either.
- The conversion of the UI's value in reais to the cents `upsert` stores is not modelled. `CostEditing` stops at the real value handed to `onSaveCost`.
- ProductCosts.Upsert: assumes the cost is not negative, the `@Min(0)` rule the cost DTOs enforce before the service runs.
- Orders.CreateFromDto: assumes the numeric DTO rules (at least one item, quantity at least 1, price at least 0). The string rules (`@IsEmail`, `@MinLength(1)` on the names) are validator library code and are not modelled.
- OrderDraft.CanSubmitIffValidPayload: relates the guard to the numeric DTO rules only. The guard checks neither the e-mail's shape nor a non-empty `productName`, so the backend can still reject a form the button lets through.
- Orders.FindFiltered: an order whose `createdAt` is an Invalid Date is given sort key 0. In JavaScript the comparator returns NaN for it and the resulting order depends on the engine. `FindFilteredNewestFirst` therefore speaks only of stores whose dates all parse.
- The text parser `new Date(string)` is a parameter of the model, not a definition. The IANA/ISO parsing rules are not modelled.
- Fresh ids (`randomUUID`) and the clock (`Date.now()`, `new Date().toISOString()`) are parameters. The model assumes they are fresh and does not check it.
- The store's `find()` is taken to list rows in insertion order. The database gives no such promise, but the model needs one order to state "one row per product, in order".
- Decimal.ParseNumber: models `Number()` for decimal literals (optional sign, digits, fraction, exponent). Hexadecimal, binary and octal literals, `Infinity` and numeric separators are read as NaN here.
- Api.FormEncodeRoundTrip: decoding is modelled for ASCII only. Non-ASCII characters are encoded as UTF-8 percent escapes but not decoded back.
- The `Math.max(1, Number(...))` clamps on the quantity and price inputs (`frontend/src/App.tsx:681`, `:690`) are not modelled. They are input widgets whose result reaches the model as the item's field.
- The remove-line button's `items.length <= 1` guard is not modelled. It only disables a button, and `RemoveItem` is correct for any index.
- CostEditing.HandleSave, CostEditing.HandleSaveCost: whether the awaited requests resolve is a parameter (`accepted`, or the `failure` message), not a computation. The HTTP error text itself comes from `apiFetch` and is not modelled.
- `lineItems` may be empty. The webhook DTO sets no minimum, so the code stores an order without items, unlike the documented "at least one item" invariant; the model follows the code (`Webhooks.EmptyPayloadStored`).
