# School-Payment: transaction reporting, status store and dashboard table

This project models two pieces of the School-Payment system and proves properties of them.

**Backend payments service**

- The transaction report (`getAllTransactions`, `getTransactionsBySchool`) is an aggregation over the order store and the order-status store. Its stages are:
  1. stop early when there are no orders;
  2. keep one school's orders (school report only);
  3. attach the status records whose `collect_id` is the order's id;
  4. drop orders with no status record;
  5. flatten to one row per (order, status) pair;
  6. project each pair to a flat row, with fallbacks for missing fields;
  7. sort, count, skip and limit.
- The status query (`getTransactionStatus`) looks a record up by `bank_reference`.
- The gateway callback (`updatePaymentStatus`) appends the raw payload to a log. It then settles the first status record carrying the callback's order id, or answers not-found.

**Dashboard transaction table**

- The table filters a copy of the transactions it is given. The filters are an exact status, a minimum and maximum amount, a date window and a case-insensitive search over five columns.
- It sorts the rows by the text of one column, ascending or descending, then cuts them into pages.
- Its UI state holds the sort column and direction, the filter inputs, the current page and the URL search parameters. Three handlers update that state in place.

## Modules

| Module | File | What it models |
|---|---|---|
| `Common` | `common.dfy` | Option, filter (order kept, `FilterConcat`), skip/limit window |
| `Text` | `text.dfy` | lower-casing, substring search, code-point string order, decimal printing and parsing |
| `Ordering` | `ordering.dfy` | sort keys (missing < number < string), sorting by a key, reversal |
| `Schemas` | `schemas.dfy` | orders, status records, report rows, callback payload |
| `Reporting` | `reporting.dfy` | the aggregation stages and the two report operations |
| `ReportingProperties` | `reporting_properties.dfy` | what the report contains |
| `Statuses` | `statuses.dfy` | lookup by `bank_reference`, the callback's `$set` |
| `Payments` | `payments.dfy` | the store class and the callback handler |
| `Table` | `table.dfy` | the table's filter, sort, slice and page count |
| `TableProperties` | `table_properties.dfy` | what each filter keeps, sort directions, how pages partition the rows |
| `TableUi` | `table_state.dfy` | the table's state class and its handlers |

**How the report is specified**

- The store leaves the order of rows with equal sort keys open. So a report is specified by `Reporting.IsReportOf`: `data` is the requested page of *some* arrangement of the rows sorted as the query asks.
- `Reporting.SortRows` computes one such arrangement.

**Observations from the source**

- The all-schools count after `$lookup` has no `$match` (payments.service.ts:158-160). That count therefore equals the number of orders. Its early return can only fire on an empty order store. The model keeps that test, and the contract of `GetAllTransactions` shows the answer is the same either way.
- The rows the backend returns carry `createdAt`, but the table sorts on and filters by `created_at`. Only the client's mock data fills `created_at`. With real data, every row has the text `"undefined"` in the default sort column, and the date filters never exclude a row. The model covers both cases: `HasDate` false makes the date window inert (`TableProperties.UndatedIgnoresDateWindow`).
- The sort handler writes `sortKey` and `sortDirection` to the URL, but the component never reads them back. The constructor starts from `created_at` descending whatever the URL holds.

## Model

| member | source | states |
|---|---|---|
| Common.Filter | frontend/src/components/TransactionsTable.tsx:93-112 | the kept items are exactly those passing the predicate, each as often as in the input |
| Common.FilterConcat | frontend/src/components/TransactionsTable.tsx:93-112 | the filter keeps the order: filtering two pieces one after the other is filtering their concatenation |
| Common.Window | backend/src/payments/payments.service.ts:224-226 | `$skip`/`$limit`: length is `min(limit, max(0, n - skip))`, and item i is input item `skip + i` |
| Reporting.SkipOf | backend/src/payments/payments.service.ts:124-125 | `(page - 1) * limit` is never negative for page and limit of at least 1 |
| Reporting.EmptyReport | backend/src/payments/payments.service.ts:134-141 | the early answer: no rows, total 0, and the requested page and limit (defaults 1 and 10); shown a correct report by `Reporting.EmptyIsReport` |
| Reporting.StatusDetails | backend/src/payments/payments.service.ts:148-153 | the array `$lookup` attaches to an order: exactly the stored status records whose `collect_id` is the order's id, in store order, each as often as stored (`ReportingProperties.StatusDetailsCount`) |
| Reporting.Lookup | backend/src/payments/payments.service.ts:145-160 | `$lookup` keeps every order, so the count taken right after it counts the orders |
| Reporting.DropUnmatched | backend/src/payments/payments.service.ts:176-181 | `$match` on `statusDetails.0`: exactly the joined orders with at least one status record; shown redundant by `ReportingProperties.UnwindIgnoresUnmatched` |
| Reporting.UnwindOne | backend/src/payments/payments.service.ts:182-188 | `$unwind` of one order: the order paired with each element of its array, in order (`ReportingProperties.UnwindOneMembership`, `UnwindOneLength`, `UnwindOneMultiplicity`) |
| Reporting.Unwind | backend/src/payments/payments.service.ts:182-188 | `$unwind` over all joined orders, an empty array yielding nothing (`ReportingProperties.UnwindIgnoresUnmatched`, `MatchedPairMembership`, `PairMultiplicity`) |
| Reporting.Project | backend/src/payments/payments.service.ts:189-202 | each projected field is the stored value when present, else its fallback ("Default Gateway", 0, 0, "UNKNOWN", "", now) |
| Reporting.ProjectAll | backend/src/payments/payments.service.ts:189-202 | `$project` applied to every pair, one row per pair in order (`ReportingProperties.RowsComeFromPairs`) |
| Reporting.FieldNamed | backend/src/payments/payments.service.ts:206-209 | the row field a `sort` name denotes; any other valid field path (such as `_id`) is `NotARowField` |
| Reporting.RowKey | backend/src/payments/payments.service.ts:206-214 | the value `$sort` compares: a string for the text fields, a number for the amounts and `createdAt`, missing for a name that is not a row field |
| Reporting.SortSpecOf | backend/src/payments/payments.service.ts:205-215 | sorts on the named field, ascending only for order "asc"; with no (or an empty) field, on `createdAt` descending |
| Reporting.SortRows | backend/src/payments/payments.service.ts:205-215 | the result is a permutation of the rows, sorted on the field in the requested direction |
| Reporting.IsReportOf | backend/src/payments/payments.service.ts:205-236 | the report specification: page and limit echoed, total counting every row, data the requested window of some arrangement of the rows sorted as asked; ties may fall either way |
| Reporting.Pipeline | backend/src/payments/payments.service.ts:205-236 | sort, count, skip and limit the projected rows; proved to meet `Reporting.IsReportOf` by `Reporting.PipelineIsReport` |
| Reporting.PipelineIsReport | backend/src/payments/payments.service.ts:217-236 | the pipeline's answer is a correct report: total is the number of matched pairs, and data is the requested window of a sorted permutation of the rows, with the exact page length |
| Reporting.EmptyIsReport | backend/src/payments/payments.service.ts:164-171 | when no order has a status record, no pair matches and the early empty answer is the correct report |
| Reporting.SchoolPipeline | backend/src/payments/payments.service.ts:257-364 | over the school's orders: empty answer when there are none; otherwise a correct report with total equal to the pair count and at most `limit` rows |
| Reporting.GetAllTransactions | backend/src/payments/payments.service.ts:123-241 | empty answer on an empty order store; otherwise a correct report over the projected pairs; total equals the pair count; at most `limit` rows, with the exact page length |
| Reporting.OrdersOfSchool | backend/src/payments/payments.service.ts:267-273 | `$match` on `school_id`: the orders of that school, in store order; the school report holds only that school's rows (`ReportingProperties.SchoolReportIsScoped`) |
| Reporting.GetTransactionsBySchool | backend/src/payments/payments.service.ts:243-369 | the same contract over the school's orders only, with the empty answer when the school has no orders |
| ReportingProperties.UnwindIgnoresUnmatched | backend/src/payments/payments.service.ts:175-188 | dropping orders with no status changes nothing after `$unwind` |
| ReportingProperties.UnwindOneMembership | backend/src/payments/payments.service.ts:182-188 | unwinding one order yields exactly the pairs of that order with its status records |
| ReportingProperties.UnwindOneLength | backend/src/payments/payments.service.ts:182-188 | unwinding one order yields one pair per status record |
| ReportingProperties.UnwindOneMultiplicity | backend/src/payments/payments.service.ts:182-188 | each pair occurs as often as its status record occurs among the order's records |
| ReportingProperties.HeadPairMembership | backend/src/payments/payments.service.ts:145-188 | the pairs one order contributes are that order with each status record referencing it |
| ReportingProperties.MatchedPairMembership | backend/src/payments/payments.service.ts:145-188 | a pair is reported iff its order and its status record are stored and the record's `collect_id` is the order's id |
| ReportingProperties.HeadPairCount | backend/src/payments/payments.service.ts:175-188 | one order contributes each of its status records as often as the record is stored |
| ReportingProperties.PairMultiplicity | backend/src/payments/payments.service.ts:175-188 | no deduplication: a matching pair occurs (occurrences of the order) × (occurrences of the record) times |
| ReportingProperties.RowsComeFromPairs | backend/src/payments/payments.service.ts:189-202 | every row is the projection of a matched pair |
| ReportingProperties.PageRowsAreReportRows | backend/src/payments/payments.service.ts:224-228 | every row on a page is one of the report's rows |
| ReportingProperties.ReportedOrdersHaveStatus | backend/src/payments/payments.service.ts:175-193 | every returned row names a stored order that has a status record, with `collect_id` equal to the order's id |
| ReportingProperties.UnmatchedOrderNeverReported | backend/src/payments/payments.service.ts:175-188 | an order that no status record references never shows up on any page |
| ReportingProperties.SchoolReportIsScoped | backend/src/payments/payments.service.ts:267-273 | the school report returns only rows of that school |
| ReportingProperties.TotalIgnoresPaging | backend/src/payments/payments.service.ts:217-220 | total does not depend on page, limit, sort or order |
| ReportingProperties.AscendingDescendingReverse | backend/src/payments/payments.service.ts:205-215 | with no ties on the field, the descending report order is the ascending one reversed |
| Statuses.FirstWithReference | backend/src/payments/payments.service.ts:102-112 | the first record carrying the reference, in store order, or none exactly when no record carries it |
| Statuses.GetTransactionStatus | backend/src/payments/payments.service.ts:371-384 | not-found iff no record has `bank_reference` equal to the id; otherwise the status of a record that has it |
| Statuses.Settle | backend/src/payments/payments.service.ts:102-112 | sets status, transaction amount and payment mode from the callback; every other modelled field keeps its value |
| Statuses.StatusQueryAfterSettle | backend/src/payments/payments.service.ts:102-112 | after settling, a status query for the same id answers the callback's status |
| Payments.PaymentStore.UpdatePaymentStatus | backend/src/payments/payments.service.ts:95-121 | the log grows by the payload even on not-found; not-found iff no record matches, with records unchanged; otherwise only the first matching record is settled; orders never change; a later status query sees the new status |
| Payments.SettleKeepsPairCount | backend/src/payments/payments.service.ts:102-112 | settling a record keeps the number of matched pairs |
| Payments.WebhookKeepsReportTotal | backend/src/payments/payments.service.ts:102-112 | a callback never changes the report's total |
| Ordering.SortBy | frontend/src/components/TransactionsTable.tsx:113-122 | a permutation of the input, sorted by the key in the requested direction |
| Ordering.SortedPermutationUnique | frontend/src/components/TransactionsTable.tsx:113-122 | with no ties, only one arrangement is sorted by the key |
| Ordering.DescendingIsReversedAscending | frontend/src/components/TransactionsTable.tsx:117-121 | with no ties, sorting descending gives the ascending result reversed |
| Text.StrLeTotal | frontend/src/components/TransactionsTable.tsx:118-120 | the string order compares any two strings |
| Text.StrLeTransitive | frontend/src/components/TransactionsTable.tsx:118-120 | the string order is transitive |
| Text.StrLeAntisymmetric | frontend/src/components/TransactionsTable.tsx:118-120 | strings that compare equal both ways are equal |
| Text.Lower | frontend/src/components/TransactionsTable.tsx:103-109 | same length, character by character lower-cased, with no upper-case letter left |
| Text.LowerIdempotent | frontend/src/components/TransactionsTable.tsx:103-109 | lower-casing twice is lower-casing once |
| Text.Includes | frontend/src/components/TransactionsTable.tsx:105-109 | true iff the needle occurs at some position of the text |
| Text.ParseInt | frontend/src/components/TransactionsTable.tsx:95-96 | reads a number exactly when the text is digits with an optional leading minus; the number is the decimal value of the digits, negated after a minus, and is negative only after a minus |
| Text.IntToString | frontend/src/components/TransactionsTable.tsx:145 | non-empty decimal text, starting with a minus iff the number is negative |
| Text.IntToStringRoundTrip | frontend/src/components/TransactionsTable.tsx:145 | reading back the printed page number gives that number |
| Text.CanonicalTextRoundTrip | frontend/src/components/TransactionsTable.tsx:95-96 | canonical decimal text (no leading zero, no "-0") reads as a number that prints back as the same text |
| Table.PassesStatus | frontend/src/components/TransactionsTable.tsx:94 | an empty status filter passes everything, a set one only that exact status (`TableProperties.StatusFilterIsExact`) |
| Table.PassesAmountMin | frontend/src/components/TransactionsTable.tsx:95 | drops a transaction only when the minimum is set, readable and above its amount (`TableProperties.AmountBoundsHold`) |
| Table.PassesAmountMax | frontend/src/components/TransactionsTable.tsx:96 | drops a transaction only when the maximum is set, readable and below its amount (`TableProperties.AmountBoundsHold`) |
| Table.PassesDateFrom | frontend/src/components/TransactionsTable.tsx:97-98 | drops a dated transaction only when both dates are readable and it is earlier than the start (`TableProperties.UndatedIgnoresDateWindow`) |
| Table.PassesDateTo | frontend/src/components/TransactionsTable.tsx:99-100 | drops a dated transaction only when both dates are readable and it is later than the end (`TableProperties.UndatedIgnoresDateWindow`) |
| Table.MatchesSearch | frontend/src/components/TransactionsTable.tsx:104-110 | the lower-cased search text occurs in one of the five lower-cased columns, a missing gateway matching nothing (`TableProperties.SearchIsSubstringMatch`) |
| Table.PassesSearch | frontend/src/components/TransactionsTable.tsx:102-111 | an empty search passes everything; a set one lower-cases the text and asks `MatchesSearch` (`TableProperties.SearchIsSubstringMatch`, `SearchIgnoresCase`) |
| Table.Keep | frontend/src/components/TransactionsTable.tsx:93-112 | the filter callback: a transaction is kept when every filter passes it (`TableProperties.StatusFilterIsExact`, `AmountBoundsHold`, `UndatedIgnoresDateWindow`, `SearchIsSubstringMatch`) |
| Table.ColumnText | frontend/src/components/TransactionsTable.tsx:114-115 | `String(item[key])`: the column's text, numbers in decimal and a missing value as "undefined"; the sort compares these texts (`Table.FilteredAndSorted`, `TableProperties.DirectionsAreReverses`) |
| Table.DateValue | frontend/src/components/TransactionsTable.tsx:97-100 | `new Date(...)` read as an integer timestamp, unreadable text as an invalid date that no comparison passes |
| Table.FilteredAndSorted | frontend/src/components/TransactionsTable.tsx:92-123 | a permutation of the transactions the filters keep, sorted by the column's text in the chosen direction |
| Table.ClampIndex | frontend/src/components/TransactionsTable.tsx:134 | `slice` positions end within the array: in-range positions are unchanged, a negative one counts back from the end (floored at 0), one past the end becomes the length |
| Table.Slice | frontend/src/components/TransactionsTable.tsx:134 | a slice holds `max(0, end - begin)` items of the array, item k being array item `begin + k`, with both positions clamped; so it holds only items of the array |
| Table.SliceIsWindow | frontend/src/components/TransactionsTable.tsx:133-134 | from a non-negative start, the slice is the window of `itemsPerPage` items there |
| Table.Paginate | frontend/src/components/TransactionsTable.tsx:132-135 | a page holds only items of the list, and for page at least 1 it is the window at `(page - 1) * itemsPerPage` |
| Table.TotalPages | frontend/src/components/TransactionsTable.tsx:131 | the least page count whose pages hold all items (the ceiling of n / itemsPerPage) |
| TableProperties.StatusFilterIsExact | frontend/src/components/TransactionsTable.tsx:94 | with a status filter set, every kept transaction has exactly that status |
| TableProperties.AmountBoundsHold | frontend/src/components/TransactionsTable.tsx:95-96 | every kept transaction lies within readable amount bounds |
| TableProperties.UndatedIgnoresDateWindow | frontend/src/components/TransactionsTable.tsx:97-100 | a transaction without `created_at` is kept or dropped regardless of the date window |
| TableProperties.SearchIsSubstringMatch | frontend/src/components/TransactionsTable.tsx:102-111 | a set search keeps a transaction iff the lower-cased text occurs in one of the five lower-cased columns |
| TableProperties.SearchIgnoresCase | frontend/src/components/TransactionsTable.tsx:103 | typing the search in another case keeps the same transactions |
| TableProperties.DirectionsAreReverses | frontend/src/components/TransactionsTable.tsx:113-122 | with no ties, the descending table is the ascending table reversed |
| TableProperties.PageIsNonEmptyIffInRange | frontend/src/components/TransactionsTable.tsx:131-135 | a page holds at most `itemsPerPage` rows, and is non-empty iff its number is at most `totalPages` |
| TableProperties.PagesUpToArePrefix | frontend/src/components/TransactionsTable.tsx:132-135 | the first k pages are the first k × itemsPerPage rows |
| TableProperties.PagesPartitionRows | frontend/src/components/TransactionsTable.tsx:131-135 | pages 1 to `totalPages` together are exactly the rows, in order |
| TableUi.ParamName | frontend/src/components/TransactionsTable.tsx:82-89 | filter parameters never collide with `page`, `sortKey` or `sortDirection` |
| TableUi.ParamNamesDistinct | frontend/src/components/TransactionsTable.tsx:82-89 | no two filters share a URL parameter |
| TableUi.With | frontend/src/components/TransactionsTable.tsx:77-80 | filter k takes the new value and every other filter keeps its own |
| TableUi.ParamOrEmpty | frontend/src/components/TransactionsTable.tsx:56-61 | the parameter's value when present, else the empty string |
| TableUi.ColumnName | frontend/src/components/TransactionsTable.tsx:68 | the name of the sort column written to `sortKey`; distinct columns get distinct names (`TableUi.ColumnNamesDistinct`) |
| TableUi.ColumnNamesDistinct | frontend/src/components/TransactionsTable.tsx:68 | no two columns are written under the same `sortKey` value |
| TableUi.DirectionName | frontend/src/components/TransactionsTable.tsx:69 | the direction written to `sortDirection`: "asc" or "desc" |
| TableUi.NextSort | frontend/src/components/TransactionsTable.tsx:64-74 | the column becomes k; descending iff k was the column and the direction was ascending |
| TableUi.SecondClickFlips | frontend/src/components/TransactionsTable.tsx:64-74 | clicking the same column twice always flips the direction |
| TableUi.TableState.constructor | frontend/src/components/TransactionsTable.tsx:44-62 | filters read from the URL (empty when absent), `created_at` descending, page 1 after the mount effect |
| TableUi.TableState.HandleSort | frontend/src/components/TransactionsTable.tsx:64-74 | the sort moves by `NextSort`; both sort parameters are written; filters and page are unchanged; filters still mirror the URL |
| TableUi.TableState.HandleFilterChange | frontend/src/components/TransactionsTable.tsx:76-90 | only filter k changes; its parameter is set when the value is non-empty and removed otherwise; the page resets to 1; the sort is unchanged |
| TableUi.TableState.HandlePageChange | frontend/src/components/TransactionsTable.tsx:142-148 | the page changes and is written in decimal text that reads back as the page; nothing else changes |
| TableUi.TableState.Shown | frontend/src/components/TransactionsTable.tsx:132-135 | the shown rows are page `currentPage` of the filtered and sorted transactions: the window of `itemsPerPage` rows at `(currentPage - 1) * itemsPerPage`; so at most one page, each one a given transaction the filters keep |

## Left out

- `createPayment` (payments.service.ts:33-93) is not part of this model. It calls the payment gateway over HTTP and signs a JWT. Its only role here is producing the orders and the pending status records.
- `getSchools` (payments.service.ts:386-423) is not part of this model. It returns fixed demonstration data.
- The `InternalServerErrorException` paths (payments.service.ts:237-240, 365-368) catch store failures, including a sort name the store rejects as a field path; they are not modelled. The same goes for the console logging.
- A `sort` name the store rejects as a field path (one starting with `$`, or with an empty part such as `a..b` or `a.`) is passed to `$sort` unchecked (payments.service.ts:206-209, 334-337), so the request fails with the generic "Failed to fetch transactions" error. The model instead reads any such name as `NotARowField` and returns a report sorted on the missing key.
- Store ids are modelled by their string form. ObjectId generation and `$toString` are not modelled.
- The clock (`new Date()` in the projection) is the parameter `now`.
- Each report issues four separate reads of the store: the order count (payments.service.ts:131, 254), the `$count` aggregate (:159, :287), the total aggregate (:219, :347) and the page aggregate (:228, :356). The model reads one snapshot, so writes interleaved between them are not captured. The same goes for the callback's two writes.
- The callback's numeric `status` field is logged but otherwise unused, as in the source.
- Authentication, the HTTP client with its retries and mock data, React rendering, routing, the status badge colours and the sort icons are not part of this model.
- `Reporting.SortSpecOf` handles any `order` value, treating everything but "asc" as descending. The query DTO restricts `order` to "asc" and "desc", but that restriction is not required.
- Report sort keys cover missing values, numbers and strings. The projected `createdAt` is a BSON Date in the store; the model holds it as a number (milliseconds), which orders dates the same way. One sort compares a single field, so the BSON order between Dates and other types never comes into play. Other BSON types are not modelled.
- The timestamps the store adds to status records (`createdAt`, `updatedAt`), and the callback's update of `updatedAt`, are not modelled; no modelled operation reads them. `Statuses.Settle` keeps every other modelled field.
- A sort on a valid field path that is not a row field (such as `_id`) gives every row the same missing key.
- `Reporting.SortRows` keeps ties in input order. The report's contract (`IsReportOf`) allows any order of ties, as the store does.
- `page` and `limit` are integers. Fractional values, which the DTO's number coercion would let through, are not modelled.
- `Number(...)` and `new Date(...)` in the table's filters are modelled by `Text.ParseInt`. It reads an optional minus followed by digits and treats anything else as NaN. Surrounding whitespace, decimals, exponents and ISO date strings are not parsed. The proved filter properties hold for any reading that maps unreadable text to NaN.
- Amounts are integers. Floating-point amounts are not modelled.
- `toLowerCase` is modelled on ASCII letters only.
- `localeCompare` is modelled as code-point order. Locale collation is not modelled.
- URL search parameters are a map, so duplicate keys and parameter order are not modelled.
- The table reads its initial page from the URL, but the effect on `filters` sets it to 1 at mount. The constructor is the state after that effect.
- `Table.FilteredAndSorted` promises a permutation of the kept transactions sorted by the column text. It does not say that ties keep their input order, which the stable `Array.prototype.sort` also guarantees.
