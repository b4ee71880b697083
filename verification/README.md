# payme month ledger — a Dafny model

payme is a personal budgeting backend. A user keeps **category templates**
(a label and a default amount) and **fixed expenses** (recurring costs that
belong to no month). The user works month by month:

- Opening the current calendar month creates a **month** and copies every
  template into a per-month **allocation**.
- While the month is open, the user records **income entries** and spending
  **items**, and adjusts allocations.
- Closing the month renders a PDF **snapshot** of its summary and freezes it
  against further edits through the month-scoped handlers.
- A **month summary** is recomputed from the rows on every read: the income
  total, the fixed total (all of the owner's fixed expenses), the budgeted
  total, the spent total, the spend per allocation, and
  remaining = income − fixed − spent.

This project models that core as pure functions over an immutable store.
The store is one table per entity: `seq<Row<T>>`, where a row is an id plus
its data, kept in insertion order.

- Each HTTP handler becomes a function from a store, a user and the request
  fields to `Result<(Store, value)>`.
- Each error the handler can return is an explicit `Err` of the same kind as
  in the code: `NotFound`, `BadRequest(…)`, `Internal(…)`, or `Database(…)`
  for a missing row.
- A `SELECT … WHERE …` with `fetch_optional` is the first matching row.
- An `INSERT … RETURNING id` appends a row under one more than the largest id
  in use.
- `INSERT OR IGNORE` into the allocations is an append that skips a (month,
  category) pair that already has a row.
- A JOIN is an inner join against the category table.

The modules follow the source files:

- `Tables`: generic tables, first-match lookup, filter, collect, update and sum.
- `Errors`: the error kinds and the status mapping of `error.rs`.
- `Records`: the row types, the store, the ownership predicates, insert-or-ignore, and the store invariant.
- `Guard`: `verify_month_access` and `verify_month_not_closed`.
- `Aggregation`: `get_month_summary` and its arithmetic.
- `Months`, `Budget`, `Items`, `Income`, `FixedExpenses`: the handler files.
- `Ledger`: all mutating handlers behind one `Apply`, with the lifecycle properties that span handlers.

Money is a whole number of cents (`int`). The `label` column is called `name` because `label` is a
Dafny keyword. Other snake_case columns keep their names in camelCase (`allocated_amount` is
`allocatedAmount`).

Observations the proofs made precise:

- **Orphaned rows.** The items query of `get_month_summary` and `list_items` is an INNER JOIN with
  the categories. An item whose category was deleted is therefore neither listed nor counted in
  `total_spent`, and so it does not lower `remaining`. Allocations of a deleted category likewise
  disappear from the summary. The model follows the code here (`Aggregation.ItemJoinDropsOrphans`),
  not a reading under which such items still count towards spending.
- **A closed month's summary can still change.** A closed month's own rows and its snapshot never
  change (`Ledger.ClosedMonthIsFrozen`). But its summary reads all of the owner's *current* fixed
  expenses and the *current* category table. Creating or editing a fixed expense therefore changes
  the totals of every month, closed ones included (`FixedExpenses.CreateFixedExpenseIsRetroactive`,
  `FixedExpenses.UpdateFixedExpenseIsRetroactive`). Deleting or renaming a category changes the
  summary's lines too. Only the PDF snapshot is a true record of the closed month.
- **A reused category id.** A new category takes the next free id. When the category with the
  largest id was deleted and an allocation for it survived, the new category gets the old id. The
  insert-or-ignore then keeps the stale allocation amount instead of the new default
  (`Budget.CreateCategoryKeepsExistingAllocation`). Whether the schema prevents this is not part of
  this model.

## Model

| member | source | states |
|---|---|---|
| `Errors.Status` | backend/src/error.rs:25-37 | Every error maps to one of 400/401/404/500. It is 500 exactly for database and internal errors, 404 exactly for NotFound, 401 exactly for Unauthorized and 400 exactly for BadRequest, whatever the message. |
| `Guard.VerifyMonthAccess` | backend/src/handlers/items.rs:222-235 | The guard passes exactly when the user owns a month with that id; otherwise it fails with NotFound. |
| `Guard.VerifyMonthNotClosed` | backend/src/handlers/items.rs:237-254 | The only outcomes are pass, NotFound and "Month is closed". NotFound happens exactly when the user owns no such month. A pass implies an open month of the user, and an owned open month always passes. |
| `Guard.GuardDecidesOnMonthState` | backend/src/handlers/income.rs:194-211 | With unique month ids, the guard passes if and only if the user owns the month and it is open. It refuses as closed if and only if the user owns it and it is closed. |
| `Records.UserCategories` | backend/src/handlers/budget.rs:48-60 | The listed templates are exactly the user's templates. |
| `Records.AllocateAll` | backend/src/handlers/budget.rs:95-105 | Insert-or-ignore of a batch of allocations keeps every existing row as a prefix. Afterwards every requested (month, category) pair has an allocation. Each added row comes from the batch, is for a pair that had none, and has a fresh id. The template copy at months.rs:87-97 is a plain INSERT whose error is discarded with `.ok()`; it is modelled by the same function, which is equivalent only under the assumed (month, category) uniqueness, where the discarded error is the duplicate pair. |
| `Aggregation.CategoryOf` | backend/src/handlers/months.rs:173 | The join finds a category row exactly when one with that id exists, and returns that row. |
| `Aggregation.BudgetJoinDropsOrphans` | backend/src/handlers/months.rs:168-193 | The summary's allocation lines are exactly the month's allocations whose category still exists, with their amounts and a zero spend before the spend is filled in. An allocation of a deleted category is absent. |
| `Aggregation.ItemJoinDropsOrphans` | backend/src/handlers/months.rs:195-206 | The summary's items are exactly the month's items whose category still exists, with category and amount. An item of a deleted category is absent. |
| `Aggregation.MonthIncome` | backend/src/handlers/months.rs:156-160 | The summary's income entries are exactly the store's entries for that month. |
| `Aggregation.UserFixedExpenses` | backend/src/handlers/fixed_expenses.rs:37-48 | The listed fixed expenses, also read by every summary at months.rs:162-166, are exactly the user's. |
| `Aggregation.Summarize` | backend/src/handlers/months.rs:208-237 | Every allocation line keeps its fields, and its spend is the total of the items in its category. The income, fixed, budgeted and spent totals are the sums of their columns. Remaining is income − fixed − spent, so allocations do not affect it. |
| `Aggregation.SpentOnNoMatch` | backend/src/handlers/months.rs:208-218 | An allocation line whose category no item is in gets a spend of 0. |
| `Aggregation.SumOfAllocatedIgnoresSpent` | backend/src/handlers/months.rs:222 | Filling in the spend of the allocation lines does not change the budgeted total. |
| `Aggregation.SpentOnMasked` | backend/src/handlers/months.rs:211-215 | A line's spend, the sum over the items filtered to its category, equals the sum over all items of their amount masked to that category. |
| `Aggregation.GetMonthSummary` | backend/src/handlers/months.rs:144-238 | The summary fails, as a missing row, exactly when no month has that id; ownership is not checked here. On success it carries that month row, and its totals are computed over the month's income, the user's fixed expenses and the joined allocations and items. |
| `Aggregation.EmptyMonthRemainsZero` | backend/src/handlers/months.rs:220-224 | A month with no income, no items and no fixed expenses for the user has zero income, fixed, spent and remaining totals, whatever its allocations. |
| `Aggregation.TotalsIgnoreRowOrder` | backend/src/handlers/months.rs:208-224 | Reading the same income, fixed-expense, allocation and item rows in any order gives the same income, fixed, budgeted and spent totals and the same remaining balance. The allocation lines, with their spends, are the same up to order. |
| `Aggregation.SpentPartition` | backend/src/handlers/months.rs:208-223 | When the lines have distinct categories and every item falls in one of them, the per-line spends add up exactly to the spent total. |
| `Months.ListMonths` | backend/src/handlers/months.rs:26-38 | The listed months are exactly the user's months. |
| `Months.MonthForPeriod` | backend/src/handlers/months.rs:59-66 | The lookup finds a month of the user for that year and calendar month if and only if one exists, and returns such a row. |
| `Months.CurrentMonth` | backend/src/handlers/months.rs:59-108 | An existing month for the period is returned and nothing is written. Otherwise there is a new open month with no close time and a fresh id, appended after the existing months. Every template of the user then has an allocation in it, each added allocation is a template's default in the new month, and no other table changes. |
| `Months.GetOrCreateCurrentMonth` | backend/src/handlers/months.rs:51-111 | It never fails. It leaves the store the month lookup or creation produced, and it returns the summary of that month as a later read of that month returns it. |
| `Months.NewMonthCopiesEveryTemplate` | backend/src/handlers/months.rs:80-97 | In a well-formed store a new month receives exactly one allocation per template of the user, in template order, each at the template's default amount. |
| `Months.CurrentMonthIsIdempotent` | backend/src/handlers/months.rs:59-69 | Opening the current month a second time writes nothing and yields the same month. |
| `Months.GetMonth` | backend/src/handlers/months.rs:127-142 | It fails with NotFound exactly when the user owns no month with that id; otherwise it returns that month's summary. |
| `Months.CloseMonth` | backend/src/handlers/months.rs:256-300 | Not owned gives NotFound, and an already closed month gives the already-closed refusal. A failed render gives an internal error carrying its reason. Otherwise exactly one snapshot of the rendered summary is appended and the month is marked closed at the clock's time. The returned row is in the new month table and, under unique month ids, is the caller's month with only the closed flag and close time changed. Nothing else changes. |
| `Months.CloseIsTerminal` | backend/src/handlers/months.rs:270-274 | After a successful close, closing the same month again is refused as already closed, at any later time. |
| `Months.GetMonthPdf` | backend/src/handlers/months.rs:316-344 | A month the user does not own gives NotFound. A PDF is returned if and only if the user owns the month and it has a snapshot, and the bytes returned are the bytes of a snapshot of that month. |
| `Months.OpenMonthHasNoPdf` | backend/src/handlers/months.rs:330-335 | In a well-formed store an open month has no snapshot, so its PDF request is NotFound. |
| `Months.CloseThenPdf` | backend/src/handlers/months.rs:279-283 | In a well-formed store, after a successful close, the month's PDF is exactly what the renderer produced from the summary taken at close time. |
| `Budget.OpenMonthsOf` | backend/src/handlers/budget.rs:89-93 | The selected months are exactly the user's months that are not closed. |
| `Budget.CreateCategory` | backend/src/handlers/budget.rs:74-113 | It fails, as a validation failure, exactly when the label is not 1 to 100 characters or the default is negative. Otherwise the template is appended under a fresh id and returned. Every open month of the user then has an allocation for it, each added allocation is at the default in an open month of the user, and only templates and allocations change. |
| `Budget.CreateCategoryFillsOpenMonths` | backend/src/handlers/budget.rs:95-105 | When no allocation refers to the new id, exactly one allocation per open month of the user is added, in month order, at the default amount. |
| `Budget.CreateCategoryKeepsExistingAllocation` | backend/src/handlers/budget.rs:96-98 | An allocation already carrying the new category's id is kept unchanged rather than reset to the new default. |
| `Budget.UpdateCategory` | backend/src/handlers/budget.rs:128-160 | An invalid patch is refused first; then the update fails with NotFound exactly when the user owns no such template. It succeeds exactly when the patch is valid and the user owns the template. On success each present field replaces the stored one and the absent ones are kept. The owner is kept, only rows with that id are rewritten, and allocations are untouched. |
| `Budget.UpdateCategoryReadsBack` | backend/src/handlers/budget.rs:144-159 | With unique ids, reading the template back after an update gives exactly the returned row, and an empty patch leaves the store unchanged. |
| `Budget.DeleteCategory` | backend/src/handlers/budget.rs:170-182 | It always succeeds. Exactly the user's template with that id is removed, and allocations and items that refer to it are kept. |
| `Budget.DeleteCategoryIsScoped` | backend/src/handlers/budget.rs:175-179 | After the delete the user owns no template with that id, and every other user's templates are exactly as before. |
| `Budget.ListMonthlyBudgets` | backend/src/handlers/budget.rs:196-216 | It fails with NotFound exactly when the user owns no such month. Otherwise it returns exactly that month's allocations, open or closed, without a join. |
| `Budget.UpdateMonthlyBudget` | backend/src/handlers/budget.rs:234-274 | The refusals come in this order: a negative amount (validation), a month not owned (NotFound), a closed month, then no allocation with that id in the month (NotFound). It succeeds exactly when none of these applies. On success only that allocation's amount changes, and the returned row keeps its category. |
| `Items.ListItems` | backend/src/handlers/items.rs:47-68 | It fails with NotFound exactly when the user owns no such month. Otherwise it lists exactly the month's items whose category still exists, open or closed. |
| `Items.CreateItem` | backend/src/handlers/items.rs:82-118 | The refusals come in this order: validation, then the month guard, then "Invalid category" exactly when the user owns no such category. It succeeds exactly when the body is valid, the month is an open month of the user and the category is the user's. On success the item is appended under a fresh id in that open month, and nothing else changes. |
| `Items.CreateItemAddsToSpent` | backend/src/handlers/items.rs:99-108 | A created item raises its month's spent total by its amount and lowers the remaining balance by it. No other month's items change. |
| `Items.ItemInMonth` | backend/src/handlers/items.rs:146-153 | The lookup finds an item exactly when one with that id is in that month. |
| `Items.UpdateItem` | backend/src/handlers/items.rs:137-189 | The refusals come in this order: validation, the month guard, then NotFound exactly when the item is not in the month. Next comes "Invalid category", exactly when the patch names a category the user does not own. It succeeds exactly when none of these applies. On success the present fields replace the stored ones, the month is kept, and only rows with that id are rewritten. |
| `Items.DeleteItem` | backend/src/handlers/items.rs:206-220 | It fails exactly when the month guard fails, with the guard's error. Otherwise exactly the item with that id in that month is removed, if present, and nothing else changes. |
| `Items.DeleteItemRemovesIt` | backend/src/handlers/items.rs:213-217 | After a delete the month holds no item with that id, and every other month's items are exactly as before. |
| `Income.ListIncome` | backend/src/handlers/income.rs:42-56 | It fails with NotFound exactly when the user owns no such month. Otherwise it returns exactly that month's entries. |
| `Income.CreateIncome` | backend/src/handlers/income.rs:70-94 | Validation comes first, then the month guard. On success the entry is appended under a fresh id in that open month, and nothing else changes. |
| `Income.CreateIncomeAddsToIncome` | backend/src/handlers/income.rs:79-87 | Recorded income raises its month's income total and remaining balance by its amount. No other month's income changes. |
| `Income.IncomeInMonth` | backend/src/handlers/income.rs:121-128 | The lookup finds an entry exactly when one with that id is in that month. |
| `Income.UpdateIncome` | backend/src/handlers/income.rs:112-146 | The refusals come in this order: validation, the month guard, then NotFound exactly when the entry is not in the month. On success the present fields replace the stored ones, the month is kept, and only rows with that id are rewritten. |
| `Income.DeleteIncome` | backend/src/handlers/income.rs:163-177 | It fails exactly when the month guard fails. Otherwise exactly the entry with that id in that month is removed, if present, and nothing else changes. |
| `Income.DeleteIncomeSubtracts` | backend/src/handlers/income.rs:170-174 | With unique ids, deleting an entry lowers its month's income total by exactly that entry's amount. |
| `FixedExpenses.CreateFixedExpense` | backend/src/handlers/fixed_expenses.rs:62-82 | It always succeeds, with no validation, so even a negative amount is stored. The expense is appended under a fresh id for the caller, and nothing else changes. |
| `FixedExpenses.CreateFixedExpenseIsRetroactive` | backend/src/handlers/months.rs:162-166 | A new fixed expense raises every existing month's fixed total by its amount and lowers its remaining balance by it, closed months included. |
| `FixedExpenses.OwnedFixedExpense` | backend/src/handlers/fixed_expenses.rs:104-111 | The lookup finds an expense exactly when the user owns one with that id. |
| `FixedExpenses.UpdateFixedExpense` | backend/src/handlers/fixed_expenses.rs:98-129 | It fails with NotFound exactly when the user owns no such expense. On success the present fields replace the stored ones, the owner is kept, and only rows with that id are rewritten. |
| `FixedExpenses.UpdateFixedExpenseIsRetroactive` | backend/src/handlers/fixed_expenses.rs:113-121 | With unique ids, editing a fixed expense moves every month's fixed total by the new amount minus the old one, closed months included. |
| `FixedExpenses.DeleteFixedExpense` | backend/src/handlers/fixed_expenses.rs:140-152 | It always succeeds. Exactly the user's expense with that id is removed, and nothing else changes. |
| `FixedExpenses.DeleteFixedExpenseIsScoped` | backend/src/handlers/fixed_expenses.rs:145-149 | After the delete the user owns no expense with that id, and every other user's fixed expenses are exactly as before. |
| `Ledger.ClosedTargetFails` | backend/src/handlers/budget.rs:241-251 | With unique month ids, every request aimed at a closed month fails, whoever sends it. This covers closing it again and any allocation, item or income edit in it. A malformed body is refused as a validation failure first. Otherwise anyone but the owner gets NotFound, and the owner gets "Month is already closed" for a second close and "Month is closed" for any other write. |
| `Ledger.ClosedTargetStatus` | backend/src/error.rs:27-33 | A write into a closed month is answered 404 to anyone but its owner, and 400 to the owner or for a malformed body. |
| `Ledger.ClosedMonthIsFrozen` | backend/src/handlers/items.rs:249-253 | In a well-formed store, no successful request of any user changes a closed month's row, allocations, income entries, items or snapshot. |
| `Ledger.ApplyKeepsWellFormed` | backend/src/handlers/budget.rs:95-105 | Every successful request keeps the store well formed. Ids stay unique in every table, and there is at most one allocation per (month, category), the uniqueness that insert-or-ignore relies on. Every allocation, entry and item stays in an existing month, and snapshots belong only to closed months, one each. |

## Left out

- SQL, HTTP routing, JSON and authentication are left out. The stored rows are a value, not a database, and the caller's identity is the `user` parameter. The auth, savings and health handlers are not part of this model.
- Clock and renderer: `Utc::now()` is the `Clock` parameter, and `pdf::generate_pdf` is a `render` parameter that either yields bytes or fails with a reason. The `pdf` module and the `models` module are not part of this model.
- `Aggregation.Summarize`: amounts are whole cents with exact sums, not `f64`. Rounding, NaN and infinity are not modelled.
- Row order: `ORDER BY` clauses (months newest first, items by date) are not modelled. Lists are stated by membership, and sums are proved independent of order (`Aggregation.TotalsIgnoreRowOrder`).
- Storage failures: the only database error produced is the missing row that `fetch_one` reports (`Errors.RowNotFound`). Other `sqlx` failures, and failures of the ignored allocation inserts other than a duplicate pair, are not modelled.
- Atomicity: each handler is one atomic step. `close_month` writes the snapshot before it marks the month closed, without a transaction. The window between the two writes, and concurrent requests, are not modelled.
- Validation errors: the conversion from validator errors to the service error is not part of this model. A failed validation is modelled as `BadRequest("Validation failed")`, answered 400. Label lengths count characters as `seq<char>` elements.
- Id allocation: a new row's id is one more than the largest id in its table, which is SQLite's rowid rule without AUTOINCREMENT. The schema, with its unique and foreign-key constraints and cascades, is not part of this model. Only the (month, category) uniqueness that the insert-or-ignore needs is assumed.
- `Months.GetOrCreateCurrentMonth`: it states that the returned summary is the one a later read of the same month id returns, not that it carries the very row just created. The code re-reads the month by id, and the two coincide only under unique ids.
- `Budget.CreateCategoryFillsOpenMonths`: it states the exact rows only when no allocation already refers to the new category's id. The other case is `Budget.CreateCategoryKeepsExistingAllocation`.
- List handlers with no logic beyond a filter (`list_categories`, `list_fixed_expenses`, `list_months`) are modelled by their queries (`Records.UserCategories`, `Aggregation.UserFixedExpenses`, `Months.ListMonths`).
