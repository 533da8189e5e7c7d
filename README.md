# Inventory ledger model

A Dafny model of the stock ledger kept by the `InventoryDemo` screen of the
inventory demo client (`client/src/App.tsx`). The screen holds a fixed
catalog of items and a list of transactions, newest first. Each
transaction records a stock-in (`deposit`) and a stock-out (`withdrawal`)
for one item, together with the balance stored when it was made. The model
covers:

- the stock status of a balance: Unavailable, Low Stock or In Stock;
- an item's current balance, which is the stored balance of its latest-dated
  record after a stable sort;
- the dashboard's figures for today;
- the new-transaction form, with its three checks and the new record it puts
  at the front of the list;
- the inventory summary;
- the three filters: the records view, the report, and the form's item search;
- the report, with its totals, per-item-name breakdown and ten-record listing.

Modules:

- `Order`: JavaScript's `<=` on strings, which the date-range filters use,
  read on characters rather than UTF-16 code units, proved equal to the
  prefix-or-first-difference order, and its order laws.
- `Sequences`: `Array.prototype.filter` as `Filter`. Its specification is
  `IsSelection`, which says the result is the elements that satisfy the
  predicate, at strictly increasing positions.
- `Text`: `toLowerCase` and `includes`, as used by the search boxes.
  `Includes` is proved to mean "occurs at some offset".
- `Ledger`:
  - the entities `Item` and `Transaction`;
  - `Classify`;
  - the stable sort by date and `CurrentBalance`. `LatestFor` is an
    independent one-pass definition of the latest record that
    `CurrentBalance` is proved against.
  - the day's statistics.
- `Reports`: the three filters and the report's figures. The breakdown is
  specified as the left fold `Breakdown`, and its per-name totals are
  proved against `TotalsOf` of the name's records.
- `Store`: the class `InventoryStore`, holding the catalog and the mutable
  transaction list. Its methods are `Submit` (the form's handler),
  `InventorySummary` and `GenerateReport`, which builds its breakdown map
  in a loop as the screen does.

Dates are `YYYY-MM-DD` strings, as the screen stores them. "Today" and the
timestamps come from the clock in the screen, so they are parameters here.

## Model

| member | source | states |
|---|---|---|
| Order.LexLe | client/src/App.tsx:794 | JavaScript's `<=` on two strings, read on characters rather than UTF-16 code units; `LexLeIsStringOrder` proves it is the prefix-or-first-difference string order |
| Order.LexLeIsStringOrder | client/src/App.tsx:794 | `a <= b` iff `a` is a prefix of `b`, or `a` has the smaller character at the first position where the two differ |
| Order.LexLeReflexive | client/src/App.tsx:794 | every date string lies within a range that starts and ends at it |
| Order.LexLeTotal | client/src/App.tsx:794 | any two date strings are ordered one way or the other |
| Order.LexLeTransitive | client/src/App.tsx:794 | string order on dates is transitive |
| Sequences.Filter | client/src/App.tsx:792-797 | a filter result is no longer than the list, and each kept element is from the list and satisfies the predicate |
| Sequences.FilterPositions | client/src/App.tsx:792-797 | the filter keeps exactly the elements satisfying the predicate, in list order (a subsequence at strictly increasing positions) |
| Sequences.FilterConcat | client/src/App.tsx:117 | filtering two stretches of a list and joining them is filtering the whole list |
| Text.Lower | client/src/App.tsx:561 | `toLowerCase` keeps the length, leaves no upper-case ASCII letter, and changes a character only by moving an upper-case letter to its lower-case form |
| Text.Includes | client/src/App.tsx:561 | `includes` holds exactly when the term occurs at some offset of the string |
| Text.EmptyIsIncluded | client/src/App.tsx:561 | an empty search term is contained in every name |
| Ledger.Classify | client/src/App.tsx:134-141 | status is Unavailable iff balance <= 0, Low Stock iff 1 <= balance <= 10, In Stock iff balance > 10 |
| Ledger.ClassifyMonotone | client/src/App.tsx:134-141 | a larger balance never gets a worse status |
| Ledger.SortByDateDesc | client/src/App.tsx:131 | the date sort only reorders the item's records (same multiset), and afterwards every record's date is `>=` the dates of the records after it |
| Ledger.CurrentBalance | client/src/App.tsx:130-132 | the current balance is 0 when the item has no record, and otherwise 0 or the stored balance of one of the item's records |
| Ledger.LatestForIsLatest | client/src/App.tsx:130-132 | the one-pass reference finds no record iff the item has none, and otherwise the latest-dated one, first in list order among equal dates |
| Ledger.CurrentBalanceIsLatest | client/src/App.tsx:130-132 | the current balance is the stored balance of the item's latest record (first in list order among equal dates) |
| Ledger.CurrentBalanceAfterPrepend | client/src/App.tsx:292-310 | a record put at the front, dated no earlier than the item's other records, sets the item's current balance to its own balance |
| Ledger.CurrentBalanceOtherItem | client/src/App.tsx:292-294 | a record of another item leaves an item's current balance unchanged |
| Ledger.SumsConcat | client/src/App.tsx:121-122 | deposit and withdrawal sums of a joined list are the sums of its parts |
| Ledger.DailyStats | client/src/App.tsx:115-124 | the day's count is the number of records whose date is today |
| Ledger.OnDayCounts | client/src/App.tsx:117 | today's records are as many as the dates equal to today; all of them are dated today, and every record dated today is among them |
| Ledger.DailyStatsConcat | client/src/App.tsx:117-123 | the day's count, stock in and stock out of a joined list add up from its parts |
| Ledger.DailyStatsAfterPrepend | client/src/App.tsx:115-124 | a new record raises today's count by one and today's stock in and out by its quantities iff it is dated today, and otherwise changes nothing |
| Reports.ReportFilter | client/src/App.tsx:792-797 | every covered record is from the list, of the selected item (or any when "all"), and dated within the inclusive range; the converse and the order are `ReportFilterSelects` |
| Reports.ReportFilterSelects | client/src/App.tsx:792-797 | the report covers a record iff its item is the selected one (or all are selected) and its date lies in the inclusive range (an empty bound is no bound); list order is kept |
| Reports.RecordsFilter | client/src/App.tsx:560-566 | every record the records filter keeps is from the list, has an item name containing the search term ignoring case, and meets the item and date conditions |
| Reports.RecordsFilterSelects | client/src/App.tsx:560-566 | the records filter keeps a record iff its lower-cased item name contains the lower-cased search term and the item and date conditions hold; list order is kept |
| Reports.ItemSearch | client/src/App.tsx:266-268 | every item the search offers is from the catalog and has a name containing the term, ignoring case |
| Reports.ItemSearchSelects | client/src/App.tsx:266-268 | the form's item search keeps, in catalog order, exactly the items whose lower-cased name contains the lower-cased term |
| Reports.EmptySearchIsReportFilter | client/src/App.tsx:560-566 | with an empty search term the records filter keeps exactly the records the report covers |
| Reports.UnboundedReportCoversAll | client/src/App.tsx:792-797 | with "all" selected and no date bounds the report covers the whole list |
| Reports.TotalsConcat | client/src/App.tsx:799-800 | the totals of a joined list are the field-wise sum of the totals of its parts |
| Reports.CountInSteps | client/src/App.tsx:807-812 | adding one record to the breakdown is a zero entry for a new name followed by adding the record's quantities and one to the name's entry |
| Reports.Breakdown | client/src/App.tsx:803-813 | the item name of every covered record is a key of the breakdown |
| Reports.BreakdownKeys | client/src/App.tsx:803-813 | the breakdown has a key for exactly the item names of the covered records |
| Reports.BreakdownPerName | client/src/App.tsx:803-813 | each name's entry holds the deposit sum, withdrawal sum and count of exactly the covered records with that name |
| Reports.NamesAreKeys | client/src/App.tsx:803-813 | the names in first-appearance order are distinct and are exactly the breakdown's keys |
| Reports.BreakdownAddsUp | client/src/App.tsx:799-813 | the breakdown's entries summed over all names equal the report's totals and count |
| Reports.BreakdownFacts | client/src/App.tsx:799-813 | the breakdown's key set and its sum over the names, stated against the report's totals |
| Store.CheckForm | client/src/App.tsx:273-289 | the form is refused for no item first, then for no positive quantity, then for a positive stock out with no requesting unit, and accepted otherwise |
| Store.OneSidePasses | client/src/App.tsx:278-289 | for any other quantity, negative included, a form with an item passes when it takes stock out for a named unit, or brings stock in and takes none out |
| Store.FindItem | client/src/App.tsx:291 | the item found is the first catalog item with the id; none is found iff no catalog item has the id |
| Store.LineOf | client/src/App.tsx:129-146 | an item's summary line is (0, Unavailable) when it has no record, and otherwise the stored balance of its latest record with that balance's status |
| Store.PrependWellFormed | client/src/App.tsx:310 | putting a well-formed record in front of well-formed records keeps every record well formed |
| Store.InventoryStore.constructor | client/src/App.tsx:88-99 | the store starts with the given catalog and record list, every record well formed |
| Store.InventoryStore.Submit | client/src/App.tsx:270-314 | a refused form gives the first failing check and leaves the list unchanged; an accepted form prepends one record whose balance is the current balance plus stock in minus stock out, whose unit is present iff stock out > 0, and the rest of the list is the old list |
| Store.InventoryStore.InventorySummary | client/src/App.tsx:126-150 | one key per catalog item name; each item's line (the last item with a name wins) is its current balance and that balance's status |
| Store.InventoryStore.GenerateReport | client/src/App.tsx:789-824 | the totals are the sums over the covered records; the final balance is deposits minus withdrawals; the count is the number covered; the breakdown's keys are the names covered and its entries sum to the totals; the listing is the first min(10, n) covered records |
| Store.TallyByName | client/src/App.tsx:803-813 | the loop that fills the breakdown map produces exactly the `Breakdown` of the covered records |

## Left out

- Rendering: the JSX, the status colours and the locale formatting of dates and numbers. None of these changes the ledger.
- Login, logout and the export button: they only change the view or show an alert.
- The one-second loading delays and the report's delay: timers change when a value appears, not what it is.
- `generateMockTransactions`: it draws random quantities and dates. The store's constructor takes any initial list of well-formed records instead.
- The clock: `Date.now()` and `new Date()` are the parameters `today`, `stamp`, `created` and `updated` of `Submit`, and `today` of `DailyStats`.
- `parseInt(...) || 0` on the form's text fields: `Submit` takes the parsed integers.
- The form's dropdowns: `Submit` requires that a non-empty item id names a catalog item and a non-empty unit is one of the seven units. The form's controls only offer those values.
- Ledger.SortByDateDesc: the sort compares `new Date(date)` times, and the model compares the date strings. The two orders agree on valid `YYYY-MM-DD` dates. Invalid dates are not modelled.
- Order.LexLe: compares characters (code points), while JavaScript compares UTF-16 code units, so the two can disagree on characters above U+FFFF. The ledger only compares ASCII `YYYY-MM-DD` dates, where this makes no difference.
- Text.Lower: lower-cases ASCII letters only. The full Unicode default case mapping of `toLowerCase`, which can also change a string's length, is not modelled, and neither is the UTF-16 encoding of strings.
- Numbers are unbounded integers. JavaScript's double-precision arithmetic and its rounding for very large sums are not modelled.
- Key order of the two summaries: the inventory summary and the report's breakdown are `map`s, so the order in which `Object.entries` lists the JavaScript objects' keys, and so the order of the rendered rows (App.tsx:625, :1055, :1144), is not part of them. `Object.entries` lists integer-like keys first in numeric order (an item named "42" would come first) and only then the other keys in insertion order. `Reports.Names` gives the breakdown's first-appearance order, which matches the object's order only when no name is integer-like.
- Store.InventoryStore.Submit: its `ensures` do not restate what the new record does to balances and to the day's figures. `Ledger.CurrentBalanceOtherItem`, `Ledger.CurrentBalanceAfterPrepend` and `Ledger.DailyStatsAfterPrepend` state that for any record put at the front.
- Store.InventoryStore.Submit: `createdAt` and `updatedAt` come from two separate clock reads, so they are the two parameters `created` and `updated`, which may differ.
- The records view's display: it groups the filtered records by calendar day (`toDateString`) and sorts each day by `createdAt`. Only the filter that feeds it is modelled, as `Reports.RecordsFilter`.
- Both summaries are plain JavaScript objects keyed by item name. An item named like an inherited property (`constructor`, `toString`) finds that property and gets no entry of its own in the report, and one named `__proto__` replaces the prototype instead of adding a key. The model's maps always add the key. The demo's fixed catalog has no such name, but the store's constructor accepts any catalog.
- Submit refuses nothing for insufficient stock: this version of the form accepts a stock out larger than the balance and stores a negative balance, and the model follows the code. A negative quantity on one side is also accepted when the other side is positive (`Store.OneSidePasses`). Only the input fields' `min` attribute guards against it.
