# Sales and installment ledger — a Dafny model

This project models the core of a small sales app for a door-to-door beauty
reseller. The app keeps one snapshot of customers, products, sales,
installments and the seller's profile. The snapshot is changed only through
a store. The core has these parts:

- **The store.** Adding customers and products, clamped stock changes, and
  `createSale`, which appends the sale and its installment schedule and
  decrements stock in one step. It also covers payment stamps and profile
  replacement.
- **The status classifier.** It returns *em dia*, *pendente* or *devedor*
  for a customer.
- **The dashboard aggregates.** Sales today, sales this month, the total
  receivable, the customer count and the low-stock count.
- **The views that drive the store:**
  - the new-sale cart and checkout;
  - the customer picker with search, status chip, sort and initial-letter groups;
  - the phone mask of the edit-customer screen;
  - the receivables list;
  - the customer list and form;
  - the inventory list and form.

Every store update is a pure `Snapshot -> Snapshot` function. These things
are parameters:

- generated ids (`crypto.randomUUID`);
- the clock (`Date.now()`, and for the dashboard a `Clock.Reading` split
  into midnight today, midnight on day 1 of the month, and the time of day);
- the calendar step `addMonths` (`Date.setMonth`);
- `parseFloat` and `parseInt`.

Money is exact (`real`), timestamps are `int`, and ids are strings. The
truthiness test `!ins.paidAt` is modelled faithfully: a `paidAt` of `0`
counts as unpaid (`Types.IsPaid`).

Modules, in dependency order:

- `Seqs`: filter, find, sums and a stable insertion sort, with their laws.
- `Text`: the string functions the views use.
- `Types`: the records.
- `Store`: the store and its selectors.
- `Ledger`: the invariants across transitions.
- `Clock`: the dashboard's time windows and the one finding.
- One module per view: `NewSale`, `EditCustomer`, `CustomerSelector`,
  `Debtors`, `Customers`, `Inventory`.

Where the code departs from what its screens evidently intend, the model
follows the code:

- **Status threshold.** `getCustomerStatus` compares due dates with the
  current instant, not with the start of the day. An installment due
  earlier today therefore already makes its customer *devedor*.
  `Debtors.DueEarlierTodayIsNotVencida` shows that the receivables screen,
  which does use the start of the day, disagrees in exactly that window.
- **Repeated payments.** `markInstallmentAsPaid` overwrites `paidAt` on
  every call rather than only on the first (`Ledger.SecondPaymentOverwrites`).
- **Missing operations.** The store has no `updateCustomer`, no
  `deleteCustomer` and no monthly receivables projection, so none is
  modelled.
- **Stock changes.** The store's `updateProductStock` changes every product
  with the id. If the id is absent, nothing changes.

## Model

| member | source | states |
|---|---|---|
| Store.AddCustomer | store/useStore.ts:31-39 | appends exactly one customer, which is also returned. It has the given id, name and phone, and `now` as its creation time. Every other part of the snapshot is unchanged. |
| Store.AddProduct | store/useStore.ts:41-44 | appends exactly one product with the given id and the submitted fields. The existing products are kept as a prefix, and every other part of the snapshot is unchanged. |
| Store.UpdateProfile | store/useStore.ts:110-112 | the profile is replaced by the given one, and every other part of the snapshot is unchanged. |
| Store.UpdateProductStock | store/useStore.ts:46-53 | every product with the id gets stock max(0, stock + delta). Every other product, and every other part of the snapshot, is unchanged. |
| Store.CreateSale | store/useStore.ts:55-99 | appends the sale with the fresh id and `now`. Appends max(0, N) installments numbered 1..N, each of total / N, due `addMonths(now, k)` and unpaid. The old installments are kept as a prefix. Each product loses the quantity of the first item naming it, floored at 0, and its other fields stay the same. Customers and profile are unchanged. |
| Store.MarkInstallmentAsPaid | store/useStore.ts:101-108 | stamps `now` on every installment with the id, paid or not. Nothing else changes. |
| Store.CustomerStatus | store/useStore.ts:115-127 | *devedor* iff some installment of one of the customer's sales is unpaid and due before now. *pendente* iff some is unpaid and none is overdue. *em dia* iff none is unpaid, which includes having no sales. |
| Store.DashboardStats | store/useStore.ts:129-140 | sales today and sales this month are the sums of the totals of the sales created at or after each threshold. The receivable is the sum of the amounts of the unpaid installments. Each sum is stated against a one-pass conditional sum (`Seqs.SumWhere`). Active customers equals the customer count. The low-stock count is the number of products with stock <= minStock, counted one by one (`Seqs.Count`). It is at most the product count, and it is zero iff no product is low. |
| Seqs.SumFilterWhere | store/useStore.ts:133-135 | filtering and then summing with reduce gives the one-pass sum over the elements that pass. |
| Seqs.FilterCount | store/useStore.ts:137 | the length of a filtered list is the number of elements that pass. |
| Ledger.ScheduleSumsToTotal | store/useStore.ts:66-80 | for N >= 1 the N equal installments add up exactly to the sale total. |
| Ledger.CreateSaleKeepsConsistent | store/useStore.ts:55-99 | starts from a ledger whose sale ids are distinct, whose installments all point at a sale, and whose sales each have max(0, N) installments numbered 1..N summing to the total. After `createSale` with a fresh sale id, all of that still holds. |
| Ledger.MarkPaidKeepsConsistent | store/useStore.ts:101-108 | paying an installment keeps that ledger invariant. |
| Ledger.OtherUpdatesKeepConsistent | store/useStore.ts:31-53 | adding a customer or a product, changing stock, or replacing the profile keeps the ledger invariant. |
| Ledger.InitialConsistent | store/useStore.ts:7-17 | the empty initial snapshot satisfies the ledger invariant. |
| Ledger.StockStaysNonNegative | store/useStore.ts:41-90 | `createSale` and `updateProductStock` keep every stock >= 0. `addProduct` keeps it iff the submitted stock is >= 0. |
| Ledger.UnknownProductIsNoOp | store/useStore.ts:46-53 | changing the stock of an absent id leaves the snapshot as it was. |
| Ledger.TwoSalesStock | store/useStore.ts:84-90 | with non-negative quantities, two sales of a product leave the same stock as one sale of both quantities would. |
| Ledger.UnknownInstallmentIsNoOp | store/useStore.ts:101-108 | paying an absent id leaves the snapshot as it was. |
| Ledger.PaymentIsMonotone | store/useStore.ts:101-108 | at a non-zero time, a paid installment stays paid and the target becomes paid. |
| Ledger.SecondPaymentOverwrites | store/useStore.ts:101-108 | paying twice equals paying once at the later time. |
| Ledger.NoSalesIsEmDia | store/useStore.ts:115-127 | a customer without sales is *em dia*. |
| Ledger.OverdueWins | store/useStore.ts:121-126 | one overdue installment makes the customer *devedor*, even when another of their installments is pending and not yet due. |
| Ledger.StatusAfterSale | store/useStore.ts:115-127 | after a sale of N >= 1 installments the buyer is not *em dia*. They are *pendente* if nothing was overdue before and no new due date is before the check time. |
| Ledger.StatusAfterPayment | store/useStore.ts:115-127 | a payment never worsens anyone's status. |
| Ledger.NewCustomerIsEmDia | store/useStore.ts:31-39 | a new customer is appended and returned, is *em dia*, and raises the active-customer count by one. |
| Ledger.ReceivableAfterSale | store/useStore.ts:135 | a sale of N >= 1 installments raises the total receivable by the sale total. A sale with N < 1 adds nothing. |
| Ledger.ReceivableAfterPayment | store/useStore.ts:135 | paying an unpaid installment with a unique id lowers the total receivable by its amount. |
| Ledger.SalesSinceAfterSale | store/useStore.ts:133-134 | a new sale adds its total to a sales window exactly when it falls inside it. |
| Clock.AsWrittenMonthMissesEarlierSales | store/useStore.ts:130-134 | at 01:00 on day 1, a sale at 00:00:01 counts 100 in sales today and 0 in sales this month. |
| Clock.TodayWithinMonth | store/useStore.ts:130-134 | with the month window starting at midnight of day 1, sales today never exceed sales this month (for non-negative totals). |
| Clock.NewSaleInBothWindows | store/useStore.ts:129-140 | a sale recorded now adds its total to sales today and to sales this month. |
| Text.Trim | components/CustomerSelector.tsx:34 | the result is the block of the input left after dropping JavaScript white space at both ends. It neither starts nor ends with white space. It is empty iff the input is all white space. |
| Text.StripNonDigits | views/EditCustomer.tsx:24 | the result holds only digits and is no longer than the input. `Text.StripDigits` shows it keeps a digit string unchanged. |
| Text.ContainsExtended | views/Customers.tsx:20-23 | a string containing t followed by u contains t, which is the base of every narrowing lemma below. |
| NewSale.FilteredProducts | views/NewSale.tsx:41-47 | lists exactly the catalogue products whose lower-cased name contains the lower-cased term and whose category matches, or all categories under "Todos". |
| NewSale.EmptySearchListsAll | views/NewSale.tsx:41-47 | the empty search under "Todos" lists the whole catalogue, in order. |
| NewSale.FilteredProductsSplit | views/NewSale.tsx:41-47 | the search keeps catalogue order: filtering a concatenation gives the concatenation of the filtered parts. |
| NewSale.AddToCart | views/NewSale.tsx:49-58 | a product not in the cart gets a new line of 1 at the current price iff its stock is positive. A product in the cart gets one more unit on its lines iff its quantity is below stock. Otherwise the cart is unchanged. |
| NewSale.UpdateQuantity | views/NewSale.tsx:60-70 | only lines of that product change. A line changes iff the new quantity is >= 1 and, when the product is in the catalogue, <= its stock. |
| NewSale.RemoveFromCart | views/NewSale.tsx:72-74 | no line of the product remains, every other line remains, and nothing is added. |
| NewSale.RemoveKeepsOrder | views/NewSale.tsx:72-74 | the remaining lines keep their order and multiplicity. Removing from a concatenation gives the concatenation of the parts, and a single line stays iff it names another product. |
| NewSale.RunKeepsValid | views/NewSale.tsx:49-74 | any sequence of add, change, remove and clear actions keeps the cart valid. Valid means one line per product, every line naming a catalogue product, and every quantity within 1..stock. |
| NewSale.EmptyCartStaysValid | views/NewSale.tsx:34 | starting from the empty cart, the cart is always valid. |
| NewSale.AddToCartTotal | views/NewSale.tsx:49-58 | an add that goes through raises the cart total by one unit price: the price on the line, or the current price for a new line. A refused add changes nothing. |
| NewSale.ChangeTotal | views/NewSale.tsx:60-70 | a change that goes through moves the total by delta times the line's unit price. A refused change leaves the total alone. |
| NewSale.RemoveTotal | views/NewSale.tsx:72-74 | removing a product takes exactly its line's subtotal off the total. |
| NewSale.Checkout | views/NewSale.tsx:76-83 | the request always asks for 1..12 installments, and the store generates exactly that many. |
| NewSale.CheckoutSchedule | views/NewSale.tsx:76-83 | checkout creates n installments adding up to the cart total, and it raises the receivable by the cart total. |
| NewSale.CheckoutStock | views/NewSale.tsx:76-83 | with one line per product, each product loses exactly its line's quantity (floored at 0), and products not in the cart are untouched. |
| EditCustomer.PhoneDigits | views/EditCustomer.tsx:24 | the digits of the input, in order, cut to the first 11. |
| EditCustomer.HandlePhoneChange | views/EditCustomer.tsx:21-39 | the masked field is at most 15 characters long, and it is empty iff the input has no digit. With d the first 11 digits typed, it is "(" + d for 1–2 digits, "(" + d[..2] + ") " + the rest for 3–7 digits, and "(" + d[..2] + ") " + d[2..7] + "-" + the rest for 8–11 digits. |
| EditCustomer.MaskRoundTrip | views/EditCustomer.tsx:27-36 | stripping the non-digits of a masked phone gives back its digits. |
| EditCustomer.PhoneChangeIdempotent | views/EditCustomer.tsx:21-39 | applying the handler to its own output changes nothing. |
| EditCustomer.HandleSave | views/EditCustomer.tsx:41-49 | saves iff name and phone are non-empty, and it saves the phone as its digits only. |
| EditCustomer.SaveAfterTyping | views/EditCustomer.tsx:41-49 | typing a phone and saving stores exactly the (at most 11) digits typed. It refuses when none were typed. |
| CustomerSelector.ByNameIsTotalPreorder | components/CustomerSelector.tsx:47 | the name comparison is total and transitive, so the sort is well defined. |
| CustomerSelector.Initial | components/CustomerSelector.tsx:51 | the group key is one character for a non-empty name and empty for an empty name. |
| CustomerSelector.GroupKeys | components/CustomerSelector.tsx:49-54 | a letter is a group key iff some listed customer has that initial. |
| CustomerSelector.GroupValues | components/CustomerSelector.tsx:49-54 | each group holds the listed customers with that initial, in list order. |
| CustomerSelector.GroupIsSorted | components/CustomerSelector.tsx:31-54 | every group is ordered by name. |
| CustomerSelector.GroupMembersSelected | components/CustomerSelector.tsx:31-54 | whoever is shown under a letter is a customer with that initial who passes the search and the status chip. |
| CustomerSelector.SelectedAreListed | components/CustomerSelector.tsx:31-54 | whoever passes the search and the status chip is shown under their initial. |
| CustomerSelector.BlankSearchKeepsAll | components/CustomerSelector.tsx:34-41 | a blank term under 'todos' keeps every customer. |
| CustomerSelector.OneLetterIsPrefix | components/CustomerSelector.tsx:37-38 | a one-letter term matches a customer iff the lower-cased first character of the name is that letter. Such a match is also a match of the letter anywhere in the name. |
| CustomerSelector.SecondLetterCanWiden | components/CustomerSelector.tsx:37-40 | "a" leaves out "Bab" while "ab" lists her, so a longer term can widen the list. |
| CustomerSelector.DevedorChipIsOverdue | components/CustomerSelector.tsx:43-44 | with the store's classifier, the *devedor* chip keeps exactly the customers with an overdue installment. |
| CustomerSelector.StatusColor | components/CustomerSelector.tsx:59-66 | the badge colour is one of rose, amber, emerald, gray. |
| CustomerSelector.StatusColorsDistinct | views/Customers.tsx:34-41 | the three statuses get three different colours, none of them gray, and every other label is gray. |
| Debtors.PendingIsSortedUnpaid | views/Debtors.tsx:17-19 | the list is ordered by due date and is a permutation of the unpaid installments. |
| Debtors.PaidLeavesPending | views/Debtors.tsx:17-19 | after a payment at a non-zero time, no listed installment has the paid id. |
| Debtors.OverdueStatus | views/Debtors.tsx:21-25 | *vencida* iff due strictly before the start of the day. |
| Debtors.VencidaMeansDevedor | views/Debtors.tsx:21-25 | a *vencida* card belongs to a customer the store calls *devedor*. |
| Debtors.DueEarlierTodayIsNotVencida | views/Debtors.tsx:21-25 | an installment due earlier today is tagged *pendente* while its customer is already *devedor*. |
| Debtors.CounterLabel | views/Debtors.tsx:59 | singular iff exactly one pending installment. |
| Customers.Filtered | views/Customers.tsx:20-23 | lists exactly the customers whose lower-cased name contains the lower-cased term or whose phone contains the term. |
| Customers.FilteredKeepsOrder | views/Customers.tsx:20-23 | the list keeps its order and multiplicity. Filtering a concatenation gives the concatenation of the filtered parts, and a single customer is kept iff they match. |
| Customers.EmptySearchShowsAll | views/Customers.tsx:20-23 | the empty search shows every customer, in order. |
| Customers.LongerTermNarrows | views/Customers.tsx:20-23 | a customer matching a longer term matches every prefix of it. |
| Customers.HandleSubmit | views/Customers.tsx:25-32 | with an empty name or phone nothing changes. Otherwise the customer is appended as typed, nothing else in the snapshot changes, and the form is cleared. |
| Customers.SubmittedIsFound | views/Customers.tsx:25-32 | a submitted customer appears when searching for their name. |
| Inventory.HandleSubmit | views/Inventory.tsx:27-39 | with an empty name, price or stock nothing changes. Otherwise the product is appended with the parsed numbers, nothing else changes, and the form resets to the first category with minimum stock "2". |
| Inventory.Filtered | views/Inventory.tsx:41 | lists exactly the products whose lower-cased name contains the lower-cased term. |
| Inventory.FilteredKeepsOrder | views/Inventory.tsx:41 | the catalogue keeps its order and multiplicity. Filtering a concatenation gives the concatenation of the filtered parts, and a single product is kept iff its name matches. |
| Inventory.EmptySearchListsAll | views/Inventory.tsx:41 | the empty search lists the whole catalogue. |
| Inventory.LongerTermNarrows | views/Inventory.tsx:41 | a product matching a longer term matches every prefix of it. |
| Inventory.BadgesMatchDashboard | views/Inventory.tsx:101-106 | with no search, the number of low-stock badges equals the dashboard's low-stock count. |
| Inventory.SubmittedLowStockIsFlagged | views/Inventory.tsx:95-101 | a product submitted with stock <= its minimum is flagged at once. |

## Left out

- Persistence (`localStorage` load and save), React state, timers and navigation (`setView`, the success screens and the step counter) are not modelled. The store transitions are the pure functions that `setData` applies.
- Id generation, `Date.now()` and calendar arithmetic are parameters, so due dates are only as good as the `addMonths` passed in.
- Floating point is not modelled: amounts are exact reals, so rounding of total / N is out of scope.
- Infinity and NaN are not modelled. `total / 0` would be ±Infinity, or NaN for a zero total, but the loop then makes no installments. `parseFloat` and `parseInt` return numbers as passed in.
- Text.Lower: case mapping covers ASCII letters only, not the full Unicode mapping of `toLowerCase` and `toUpperCase`.
- CustomerSelector.MatchesSearch: strings are sequences of Unicode code points, not UTF-16 code units. A term of one character outside the Basic Multilingual Plane has length 1 here but length 2 in JavaScript, so the model takes the starts-with branch where the code takes the includes branch. CustomerSelector.Initial likewise keys a whole code point where JavaScript's `charAt(0)` keys a lone surrogate.
- CustomerSelector.ByNameIsTotalPreorder: `localeCompare` is modelled as code-point order, not the locale's collation.
- Seqs.SortBy: the insertion sort is stable by construction, but only sortedness and permutation are proved, not stability.
- CustomerSelector.Groups: the groups are a map, so the render order of `Object.keys(...).sort()` (components/CustomerSelector.tsx:145) is not modelled.
- The initial `formatPhone` of the edit screen and all of utils/format are not part of this model. The store has no `updateCustomer`, so EditCustomer.HandleSave produces the update payload only.
- The dashboard, profile, app shell, layout and UI components are not modelled, nor is the static data in constants. They only render what the store and selectors return.
- The receivables screen's customer lookup for display and its badge colours are not modelled.
- The NewSale payment-method picker is not modelled. Payment methods are carried as a datatype.
- `updateCustomer`, `deleteCustomer` and a monthly receivables projection do not exist in the store, so they are not modelled.

## Findings

| source | as written | input that shows it | evidently intended | confidence | as-written member | corrected member |
|---|---|---|---|---|---|---|
| store/useStore.ts:131 | the month window starts at `new Date().setDate(1)`, which is day 1 at the current time of day | at 01:00 on day 1, a sale at 00:00:01 with total 100: sales today 100, sales this month 0 | the window starts at midnight of day 1, so sales today is never more than sales this month | not executed | Clock.AsWrittenMonthMissesEarlierSales | Clock.TodayWithinMonth |
