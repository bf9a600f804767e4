# Household budget: transaction handlers and summary totals in Dafny

This project models the core logic of a household budgeting web application
(se1987/household_budget). The app has a REST backend that stores financial
transactions and their categories, and a frontend whose "monthly summary"
pages total them. Neither page filters by month: each sums every record the
list endpoint answers. Most of the application is HTTP, ORM or UI plumbing. Inside that
plumbing, the model covers:

- **the category resolver** `getOrCreateCategoryId`: it looks a category up by
  exact name and creates it when absent (`CategoryUtils`);
- **the first backend's transaction router**, the lenient one. POST checks
  that the required fields are truthy, then runs `parseInt(amount, 10)`, then
  resolves the category, then creates. PUT parses the amount and the category
  id, then updates. GET by id answers the record or 404. DELETE removes the
  record (`LenientTransactions`);
- **the second backend's transaction router**, the strict one. POST and PUT
  first check that the type is one of the two allowed values. They then look
  the category up by exact name, answer 400 when it is missing and never
  create one. GET by id answers 404 with the id in the text
  (`StrictTransactions`);
- **the monthly summary's `reduce`** (`SummaryTotals`), shared by two pages.
  The first page shows `income - expense` with a sign-dependent colour
  (`AppSummaryPage`). The second shows `income + expense` as its balance
  (`Section5SummaryPage`).

Each handler is a pure function. It takes an abstract store (two sequences of
records plus their autoincrement counters) and the request. It returns a
response plus the new store. Request-body fields are JavaScript values
(`JsValues.JsValue`: missing, a string or an integral number). JavaScript
truthiness makes `undefined`, `""` and `0` falsy. `parseInt(v, 10)` is
modelled on the algorithm in section 19.2.5 of ECMA-262 (`ParseInt`):
`String(v)`, leading white space skipped, an optional sign, the longest run
of decimal digits, NaN when that run is empty.

The database client is outside the code. Its behaviour is written down once,
in `Storage`, as the handlers depend on it:

- `findFirst` answers the first match in table order;
- a filter whose value is `undefined` is dropped, so it matches every row;
- a value of the wrong JavaScript type for a column fails the call. This
  includes NaN for an integer column;
- `update` and `delete` of an absent id fail;
- a transaction's category id must name an existing category;
- `create` takes the next autoincrement id;
- `update` leaves a column alone when its new value is `undefined`.

A call fails for these reasons and for no other: a connection loss or any
other database error is not modelled, and column ranges are not checked.

`Storage.Valid` is the invariant of an autoincrement store: ids are positive,
distinct and below the counter, and every transaction names an existing
category. Every write handler preserves it. In a valid store, the
resolver's "falsy id" error cannot happen.

Where the routers' own tests expect more than the code does, the model
follows the code:

- section5/api/src/__tests__/transactionsRouter.test.ts:65-126 expects 400
  for a negative amount, for an unknown type and for an unparsable date. The
  lenient router checks none of these. The strict router checks only the
  type, and it throws instead of answering 400.
- app/backend/src/router/__tests__/transactions.test.ts:62-81 sends a PUT
  whose body has a `category` object and no `categoryId`, and expects 200.
  The lenient PUT reads `parseInt(undefined, 10)`, which is NaN, so the
  update fails and it answers 500.
- The lenient PUT stores `parseInt(categoryId)` from the body and does not
  resolve a name. The strict router looks names up and never creates a
  category. Only the lenient POST calls the resolver.
- section5/api/src/__tests__/transactionsRouter.test.ts:373-421 expects 404
  for a DELETE of an unknown id. The strict router has no DELETE. The lenient
  DELETE answers 500, because the failing storage call lands in its `catch`.

The resolver is modelled from `src/backend/src/utils/categoryUtils.ts`. The
first backend's router imports a sibling copy under `app/backend`, which is
assumed to behave the same.

## Model

| member | source | states |
|---|---|---|
| ParseInt.ParseDecimalOfParts | app/backend/src/router/transactions.ts:51 | white space, an optional sign, a non-empty digit run and anything not starting with a digit parse to the signed value of the digits; trailing text is ignored |
| ParseInt.ParseDecimalNaN | app/backend/src/router/transactions.ts:52-54 | when white space and an optional sign are followed by no digit, the result is NaN, so the `isNaN` branch is taken; after a sign, white space or a second sign also ends the number ("- 5", "--1") |
| ParseInt.IntToDecimalRoundTrip | app/backend/src/router/transactions.ts:51 | printing any integer in decimal and parsing it back gives the same integer, whatever non-digit text follows |
| ParseInt.ParseIntOfNumber | app/backend/src/router/transactions.ts:112-113 | a numeric body field survives the `String` coercion inside `parseInt`: `parseInt(n, 10) == n` |
| ParseInt.ParseIntOfDecimalText | app/backend/src/router/transactions.ts:51 | the decimal text of any integer, sent as a string, parses to that integer |
| ParseInt.ParseIntOfUndefined | app/backend/src/router/transactions.ts:113 | a missing body field parses to NaN |
| Storage.FirstNamed | src/backend/src/utils/categoryUtils.ts:11-13 | the lookup answers the first row with exactly that name, and answers none exactly when no row has the name |
| Storage.FirstWithId | app/backend/src/router/transactions.ts:86-91 | the id lookup answers a row with that id and no earlier one, and answers none exactly when no row has the id |
| Storage.CreateKeepsValid | app/backend/src/router/transactions.ts:60-68 | a successful create keeps the store well formed (`Storage.Valid`), so the create that `Storage.CreateTransaction` models respects the autoincrement and relation rules |
| Storage.UpdateKeepsValid | app/backend/src/router/transactions.ts:119-130 | a successful update keeps the store well formed, so the update that `Storage.UpdateTransaction` models respects the same rules |
| Storage.DeleteKeepsValid | app/backend/src/router/transactions.ts:147-149 | a successful delete, as `Storage.DeleteTransaction` models it, keeps the store well formed |
| Storage.RemovedIsAbsent | app/backend/src/router/transactions.ts:147-149 | with distinct ids, once the record with an id is removed, no record has that id |
| Storage.InsertCategoryKeepsValid | src/backend/src/utils/categoryUtils.ts:25-27 | a created category gets a non-zero id, and the store stays well formed |
| CategoryUtils.GetOrCreateCategoryId | src/backend/src/utils/categoryUtils.ts:5-41 | a known name writes nothing and answers the first matching row's id; a new name appends exactly one category with the next id; at most one row is added and earlier rows are kept; an answered id is non-zero and belongs to a category with that name; a zero id raises the error instead |
| CategoryUtils.GetOrCreateIdempotent | src/backend/src/utils/categoryUtils.ts:11-31 | a second call with the same name answers the same result and does not change the store |
| CategoryUtils.GetOrCreateKeepsValid | src/backend/src/utils/categoryUtils.ts:24-40 | in a well-formed store the resolver always answers an id and keeps the store well formed |
| LenientTransactions.Post | app/backend/src/router/transactions.ts:32-79 | answers 400 exactly when a required field is falsy, and then writes nothing; an unparsable amount answers 500 before any category is touched; on 201 exactly one record is appended, with the parsed amount, the given type, date and description, and the category id that `getOrCreateCategoryId` answers for the name; at most one category is added |
| LenientTransactions.ResolveAndCreate | app/backend/src/router/transactions.ts:56-78 | after validation: either 201 with one appended record, holding the given type, date and description and filed under the id the resolver answers for the name, or 500 with the transactions unchanged |
| LenientTransactions.Get | app/backend/src/router/transactions.ts:83-104 | for a numeric id, answers 200 when a record has it and 404 exactly when none has it; 200 carries the stored record with that id; an unparsable id answers 500; the store is unchanged |
| LenientTransactions.Put | app/backend/src/router/transactions.ts:107-141 | answers 200 exactly when the amount and the body `categoryId` parse, a record has the path id, that category exists and type and description are not numbers, and otherwise 500; an unparsable amount answers 500 and changes nothing; categories are never written; 200 replaces exactly the record with the path id; the new record has the parsed amount, the parsed body `categoryId`, the given date, and the given type and description when they are strings |
| LenientTransactions.Delete | app/backend/src/router/transactions.ts:144-158 | answers 204 exactly when the id parses and a record has it; an unknown id answers 500, not 404; 204 removes exactly the record with that id; any failure leaves the store unchanged |
| LenientTransactions.PostKeepsValid | app/backend/src/router/transactions.ts:56-68 | POST keeps the store well formed |
| LenientTransactions.ResolveAndCreateKeepsValid | app/backend/src/router/transactions.ts:56-68 | resolving and creating keep the store well formed |
| LenientTransactions.PutKeepsValid | app/backend/src/router/transactions.ts:119-130 | PUT keeps the store well formed |
| LenientTransactions.DeleteKeepsValid | app/backend/src/router/transactions.ts:147-149 | DELETE keeps the store well formed |
| LenientTransactions.PostChecksPrecedeStorage | app/backend/src/router/transactions.ts:35-54 | a missing field or an unparsable amount gets the same answer whatever the store holds, because storage is not read |
| LenientTransactions.PostAcceptsAnySignAndType | app/backend/src/router/transactions.ts:35-68 | there is no sign or type-membership check: any non-zero amount, negatives included, and any non-empty type string are stored with 201 |
| LenientTransactions.ResolvedCreateSucceeds | app/backend/src/router/transactions.ts:56-72 | in a well-formed store, with a string type and description, resolving and creating always answer 201 |
| LenientTransactions.ZeroNumberAmountIsMissing | app/backend/src/router/transactions.ts:35-38 | an amount of the number 0 is falsy, so it is rejected as a missing field, whatever the store holds |
| LenientTransactions.IntegerTextAmountIsStored | app/backend/src/router/transactions.ts:35-72 | the same value sent as decimal text is truthy and is stored: the text of any integer, "0" included, gives 201 with that integer as the amount |
| LenientTransactions.TextAmountIsStored | app/backend/src/router/transactions.ts:35-72 | any non-empty amount text that parses to n is stored as n with 201, in a well-formed store |
| LenientTransactions.DeleteThenGetIsNotFound | app/backend/src/router/transactions.ts:83-95 | in a well-formed store, a GET after a successful DELETE of the same id answers 404 |
| StrictTransactions.Post | section5/api/src/router/transactions.ts:23-58 | answers 201 exactly when the type is known, the category lookup finds a row, the amount is a number and the description is not; a type other than "支出" or "収入" throws, with the store unchanged; an unknown category name answers 400 with `カテゴリーが見つかりません: <name>` and writes nothing; no category is ever created; 201 appends exactly one record with the given amount, type, date and description, filed under the first category of that name |
| StrictTransactions.Get | section5/api/src/router/transactions.ts:62-76 | answers 200 exactly when the id parses and a record has it; for a numeric id with no record, answers 404 with `該当する取引が見つかりませんでした id: <id>`; 200 carries a stored record with that id; a failing lookup throws; the store is unchanged |
| StrictTransactions.Put | section5/api/src/router/transactions.ts:79-114 | answers 200 exactly when the type is known, the category lookup finds a row, a record has the path id, and amount and description have column types; the same type check throws first; an unknown category answers 400 with the same message and changes nothing; 200 replaces exactly the record with the path id, taking the request's type, date, amount and string description, and the first matching category's id |
| StrictTransactions.TypeCheckPrecedesStorage | section5/api/src/router/transactions.ts:26-28 | an unknown type gets the same outcome from POST and from PUT whatever the store holds |
| StrictTransactions.PostKeepsValid | section5/api/src/router/transactions.ts:40-48 | POST keeps the store well formed |
| StrictTransactions.PutKeepsValid | section5/api/src/router/transactions.ts:95-104 | PUT keeps the store well formed |
| StrictTransactions.PostKnownCategoryCreates | section5/api/src/router/transactions.ts:31-51 | in a well-formed store, a known type, a numeric amount and an existing category name always give 201 with that amount |
| StrictTransactions.PutKnownCategoryUpdates | section5/api/src/router/transactions.ts:79-105 | in a well-formed store, a known type, a numeric amount, an existing category name and a stored id always give 200, with that id and amount |
| StrictTransactions.PostThenGetFinds | section5/api/src/router/transactions.ts:40-74 | a GET of the id a successful POST assigned answers 200 with exactly the created record |
| StrictTransactions.MissingCategoryTakesFirst | section5/api/src/router/transactions.ts:31-38 | a body without a category is not rejected: the `undefined` filter matches every row, so the record is filed under the first category |
| SummaryTotals.ReduceIsFilteredSums | app/frontend/src/app/pages/monthly-summary/page.tsx:20-30 | the fold's income total is the sum of the "収入" amounts, and its expense total is the sum of all other amounts, whatever their type |
| SummaryTotals.FilteredSumsAddUp | app/frontend/src/app/pages/monthly-summary/page.tsx:22-26 | the income records and the other records split the list: their sums add up to the sum of all amounts |
| SummaryTotals.TotalsPartitionSum | app/frontend/src/app/pages/monthly-summary/page.tsx:20-30 | the income total plus the expense total is the sum of all amounts, so each record is counted exactly once |
| SummaryTotals.ReduceEmpty | app/frontend/src/app/pages/monthly-summary/page.tsx:29 | an empty list gives both totals 0 |
| SummaryTotals.ReduceAppend | app/frontend/src/app/pages/monthly-summary/page.tsx:21-27 | appending one record raises exactly one of the totals, by its amount |
| SummaryTotals.FilteredSumsPermutation | section5/my-app/src/app/pages/monthly-summary/page.tsx:16-26 | the filtered sums are the same for any reordering of the list |
| SummaryTotals.ReduceReorder | section5/my-app/src/app/pages/monthly-summary/page.tsx:16-26 | both totals are invariant under any reordering of the fetched list |
| AppSummaryPage.NetBalanceOfRecords | app/frontend/src/app/pages/monthly-summary/page.tsx:57-64 | the net line is the income sum minus the other sums, and it is shown green exactly when the income sum is at least the other sums |
| AppSummaryPage.NetBalanceAppend | app/frontend/src/app/pages/monthly-summary/page.tsx:21-27 | an income record raises the net by its amount; any other record lowers it by its amount |
| Section5SummaryPage.DisplayedBalanceIsGrandTotal | section5/my-app/src/app/pages/monthly-summary/page.tsx:35 | the displayed "収支合計" equals the sum of all amounts, not a difference |
| Section5SummaryPage.DisplayedBalanceRisesOnExpense | section5/my-app/src/app/pages/monthly-summary/page.tsx:35 | as written, recording an expense with a positive amount raises the displayed balance |
| Section5SummaryPage.DisplayedBalanceCounterexample | section5/my-app/src/app/pages/monthly-summary/page.tsx:35 | income of 1000 and an expense of 300 display 1300, while the corrected balance is 700 |
| Section5SummaryPage.CorrectedBalanceTracksRecords | app/frontend/src/app/pages/monthly-summary/page.tsx:64 | the corrected balance is the income sum minus the other sums; an expense lowers it and an income raises it, each by its amount |

## Findings

| source | as written | input that shows it | evidently intended | confidence | as-written member | corrected member |
|---|---|---|---|---|---|---|
| section5/my-app/src/app/pages/monthly-summary/page.tsx:35 | the "収支合計" (balance) line prints `incomeTotal + expenseTotal` | one "収入" record of 1000 and one "支出" record of 300: the line shows 1300 | `incomeTotal - expenseTotal` = 700, as the sibling page prints (app/frontend/src/app/pages/monthly-summary/page.tsx:64) | not executed; high (expenses are stored as positive amounts, as in the seed data) | Section5SummaryPage.DisplayedBalanceCounterexample | Section5SummaryPage.CorrectedBalanceTracksRecords |

## Left out

- GET `/` of both routers returns the whole transaction table unchanged. There is nothing to state beyond that, so it is not modelled.
- The category routers, the stub routers, the Express app set-up, CORS, request logging and every logger call are plumbing with no logic of interest.
- The database client is replaced by the `Storage` module. Its behaviour there is an assumption about the client, listed above, not a model of its code. Schema files and seed scripts are left out.
- The lenient GET joins the category into its answer (`include: {category: true}`). The model answers the bare record.
- Dates are opaque. A date is stored exactly as the request sent it. The failure of an invalid `new Date(date)` at storage is not modelled, and neither is display formatting.
- Body fields are missing, strings or integers. JSON `null`, booleans, objects (a test sends the category as an object), fractional numbers, and numbers of 10^21 or more (which JavaScript prints in exponent form) are left out.
- Totals use unbounded integers. The floating-point limits of JavaScript numbers are not modelled, and neither is `parseInt` losing precision beyond 2^53.
- Ids and amounts are unbounded integers. No schema file is part of this model, so a column's range (a 32-bit integer column refuses larger values, and the handler then answers 500) is not modelled.
- LenientTransactions.IntegerTextAmountIsStored: holds for every integer only because column ranges are not modelled. With a 32-bit amount column, an integer outside that range gets 500.
- LenientTransactions.PostAcceptsAnySignAndType: the same column-range caveat applies to the amount.
- LenientTransactions.Get: "404 exactly when no record has it" also covers ids outside a 32-bit range. There, the real lookup fails and answers 500.
- The path id goes through `parseInt(id)` without a radix. The model reads it in radix 10. The hexadecimal reading of a `0x` prefix is not modelled.
- The strict router throws outside a `try` block. What the web framework then does with the rejected handler is not modelled (`Http.Rejected`).
- The resolver is not guarded against concurrent requests, and two interleaved calls can create duplicate categories. Concurrency is not modelled. The model does show a failing call leaving its newly created category behind, since there is no rollback.
- The "monthly summary" pages do no grouping by month. They total every record fetched from `/transactions` (app/frontend/src/app/pages/monthly-summary/page.tsx:11-30), and the model sums the whole list the same way.
- The frontend pages other than the two monthly summaries are UI only and are left out. So are their form rules and the end-to-end test.
- Some behaviour is asserted only by tests and not implemented by the routers: a positive-amount check, an invalid-date message, the strict router's DELETE, a lenient PUT that succeeds without `categoryId`, and the mocked 500 responses. The model follows the router code and leaves this behaviour out.
