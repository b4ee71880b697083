/** The ledger as a whole: every mutating handler as one request applied to
    the store, and the properties that hold across all of them — a closed
    month's rows never change, and the store's integrity is kept. */
module Ledger {
  import opened Tables
  import opened Errors
  import opened Records
  import opened Guard
  import opened Aggregation
  import Months
  import Budget
  import Items
  import Income
  import FixedExpenses

  /** A mutating request of one user, with the parameters its handler takes. */
  datatype Request =
    | OpenCurrentMonth(clock: Clock)
    | CloseMonth(monthId: int, closeClock: Clock, render: Summary -> Months.Rendered)
    | CreateCategory(categoryForm: Budget.CategoryForm)
    | UpdateCategory(categoryId: int, categoryPatch: Budget.CategoryPatch)
    | DeleteCategory(categoryId: int)
    | UpdateMonthlyBudget(monthId: int, budgetId: int, amount: Money)
    | CreateItem(monthId: int, itemForm: Items.ItemForm)
    | UpdateItem(monthId: int, itemId: int, itemPatch: Items.ItemPatch)
    | DeleteItem(monthId: int, itemId: int)
    | CreateIncome(monthId: int, incomeForm: Income.IncomeForm)
    | UpdateIncome(monthId: int, incomeId: int, incomePatch: Income.IncomePatch)
    | DeleteIncome(monthId: int, incomeId: int)
    | CreateFixedExpense(name: string, amount: Money)
    | UpdateFixedExpense(expenseId: int, expensePatch: FixedExpenses.FixedExpensePatch)
    | DeleteFixedExpense(expenseId: int)

  /** The month a request writes into, for the requests bound to one month. */
  function Target(req: Request): Option<int> {
    match req
    case CloseMonth(m, _, _) => Some(m)
    case UpdateMonthlyBudget(m, _, _) => Some(m)
    case CreateItem(m, _) => Some(m)
    case UpdateItem(m, _, _) => Some(m)
    case DeleteItem(m, _) => Some(m)
    case CreateIncome(m, _) => Some(m)
    case UpdateIncome(m, _, _) => Some(m)
    case DeleteIncome(m, _) => Some(m)
    case _ => None
  }

  /** The store a handler's result leaves behind. */
  function StoreOf<V>(r: Result<(Store, V)>): Result<Store> {
    match r
    case Ok((s, _)) => Ok(s)
    case Err(e) => Err(e)
  }

  /** The store after `user`'s request, or the error its handler reports. */
  function Apply(s: Store, user: UserId, req: Request): Result<Store> {
    match req
    case OpenCurrentMonth(clock) => StoreOf(Months.GetOrCreateCurrentMonth(s, user, clock))
    case CloseMonth(m, clock, render) => StoreOf(Months.CloseMonth(s, user, m, clock, render))
    case CreateCategory(form) => StoreOf(Budget.CreateCategory(s, user, form))
    case UpdateCategory(c, patch) => StoreOf(Budget.UpdateCategory(s, user, c, patch))
    case DeleteCategory(c) => Budget.DeleteCategory(s, user, c)
    case UpdateMonthlyBudget(m, b, amount) => StoreOf(Budget.UpdateMonthlyBudget(s, user, m, b, amount))
    case CreateItem(m, form) => StoreOf(Items.CreateItem(s, user, m, form))
    case UpdateItem(m, i, patch) => StoreOf(Items.UpdateItem(s, user, m, i, patch))
    case DeleteItem(m, i) => Items.DeleteItem(s, user, m, i)
    case CreateIncome(m, form) => StoreOf(Income.CreateIncome(s, user, m, form))
    case UpdateIncome(m, e, patch) => StoreOf(Income.UpdateIncome(s, user, m, e, patch))
    case DeleteIncome(m, e) => Income.DeleteIncome(s, user, m, e)
    case CreateFixedExpense(name, amount) => StoreOf(FixedExpenses.CreateFixedExpense(s, user, name, amount))
    case UpdateFixedExpense(e, patch) => StoreOf(FixedExpenses.UpdateFixedExpense(s, user, e, patch))
    case DeleteFixedExpense(e) => FixedExpenses.DeleteFixedExpense(s, user, e)
  }

  // ---------------------------------------------------------------------------
  // A closed month is frozen

  function MonthIdIs(m: int): Row<MonthData> -> bool { (r: Row<MonthData>) => r.id == m }
  function BudgetIn(m: int): Row<BudgetData> -> bool { (b: Row<BudgetData>) => b.data.monthId == m }
  function ItemIn(m: int): Row<ItemData> -> bool { (i: Row<ItemData>) => i.data.monthId == m }
  function SnapshotIn(m: int): Row<SnapshotData> -> bool { (p: Row<SnapshotData>) => p.data.monthId == m }

  /** Everything the store holds about month `m`. */
  datatype MonthRows = MonthRows(
    month: seq<Row<MonthData>>,
    budgets: seq<Row<BudgetData>>,
    income: seq<Row<IncomeData>>,
    items: seq<Row<ItemData>>,
    snapshots: seq<Row<SnapshotData>>)

  function RowsOf(s: Store, m: int): MonthRows {
    MonthRows(Filter(s.months, MonthIdIs(m)), Filter(s.budgets, BudgetIn(m)), Filter(s.income, IncomeOf(m)),
              Filter(s.items, ItemIn(m)), Filter(s.snapshots, SnapshotIn(m)))
  }

  /** The request body passes the field validation its handler runs first. */
  predicate PayloadValid(req: Request) {
    match req
    case CreateCategory(form) => form.Valid()
    case UpdateCategory(_, patch) => patch.Valid()
    case UpdateMonthlyBudget(_, _, amount) => amount >= 0
    case CreateItem(_, form) => form.Valid()
    case UpdateItem(_, _, patch) => patch.Valid()
    case CreateIncome(_, form) => form.Valid()
    case UpdateIncome(_, _, patch) => patch.Valid()
    case _ => true
  }

  /** Every request that writes into a closed month fails, whoever sends it.
      A malformed body is refused as such first; otherwise anyone but the
      owner gets NotFound, and the owner gets the already-closed refusal for a
      second close and the closed-month refusal for any other write. */
  lemma ClosedTargetFails(s: Store, user: UserId, req: Request)
    requires UniqueIds(s.months)
    requires Target(req).Some? && IsClosedMonth(s, Target(req).value)
    ensures Apply(s, user, req).Err?
    ensures !PayloadValid(req) ==> Apply(s, user, req) == Err(ValidationFailed)
    ensures PayloadValid(req) && !OwnsMonth(s, user, Target(req).value) ==> Apply(s, user, req) == Err(NotFound)
    ensures PayloadValid(req) && OwnsMonth(s, user, Target(req).value) ==>
      Apply(s, user, req) == Err(if req.CloseMonth? then MonthAlreadyClosed else MonthIsClosed)
  {
    var m := Target(req).value;
    var i :| 0 <= i < |s.months| && s.months[i].id == m && s.months[i].data.isClosed;
    OpenIsNotClosed(s, user, m, i);
    GuardDecidesOnMonthState(s, user, m);
    if req.CloseMonth? && OwnsMonth(s, user, m) {
      var a :| 0 <= a < |s.months| && s.months[a].id == m && s.months[a].data.userId == user;
      assert a == i;
      OwnedMonthIsTheRow(s, user, m, i);
    }
  }

  /** How a write into a closed month is answered: 404 to anyone but the
      month's owner, and 400 to the owner or for a malformed body. */
  lemma ClosedTargetStatus(s: Store, user: UserId, req: Request)
    requires UniqueIds(s.months)
    requires Target(req).Some? && IsClosedMonth(s, Target(req).value)
    ensures Apply(s, user, req).Err?
    ensures Status(Apply(s, user, req).error)
         == (if PayloadValid(req) && !OwnsMonth(s, user, Target(req).value) then 404 else 400)
  {
    ClosedTargetFails(s, user, req);
  }

  /** A closed month is not an open month of anyone, under unique month ids. */
  lemma OpenIsNotClosed(s: Store, user: UserId, m: int, i: int)
    requires UniqueIds(s.months)
    requires 0 <= i < |s.months| && s.months[i].id == m && s.months[i].data.isClosed
    ensures !OwnsOpenMonth(s, user, m)
    ensures forall a :: 0 <= a < |s.months| && !s.months[a].data.isClosed ==> s.months[a].id != m
  {
    forall a | 0 <= a < |s.months| && !s.months[a].data.isClosed
      ensures s.months[a].id != m
    {
      assert a != i;
    }
  }

  /** Closed-month immutability: once a month is closed, no request of any
      user changes its row, its allocations, its income, its items or its
      snapshot. */
  lemma ClosedMonthIsFrozen(s: Store, user: UserId, req: Request, m: int)
    requires WellFormed(s)
    requires IsClosedMonth(s, m)
    requires Apply(s, user, req).Ok?
    ensures RowsOf(Apply(s, user, req).value, m) == RowsOf(s, m)
  {
    var i :| 0 <= i < |s.months| && s.months[i].id == m && s.months[i].data.isClosed;
    OpenIsNotClosed(s, user, m, i);
    match req
    case OpenCurrentMonth(clock) => FrozenByOpen(s, user, clock, m);
    case CloseMonth(m', clock, render) => FrozenByClose(s, user, m', clock, render, m);
    case CreateCategory(form) => FrozenByCreateCategory(s, user, form, m);
    case UpdateCategory(_, _) => FrozenByOwnerTables(s, user, req, m);
    case DeleteCategory(_) => FrozenByOwnerTables(s, user, req, m);
    case UpdateMonthlyBudget(m', b, amount) => FrozenByAllocationUpdate(s, user, m', b, amount, m);
    case CreateItem(_, _) => FrozenByChildEdit(s, user, req, m);
    case UpdateItem(m', id, patch) => FrozenByItemUpdate(s, user, m', id, patch, m);
    case DeleteItem(_, _) => FrozenByChildEdit(s, user, req, m);
    case CreateIncome(_, _) => FrozenByChildEdit(s, user, req, m);
    case UpdateIncome(m', id, patch) => FrozenByIncomeUpdate(s, user, m', id, patch, m);
    case DeleteIncome(_, _) => FrozenByChildEdit(s, user, req, m);
    case CreateFixedExpense(_, _) => FrozenByOwnerTables(s, user, req, m);
    case UpdateFixedExpense(_, _) => FrozenByOwnerTables(s, user, req, m);
    case DeleteFixedExpense(_) => FrozenByOwnerTables(s, user, req, m);
  }

  /** Requests on templates and fixed expenses touch no month's rows. */
  lemma FrozenByOwnerTables(s: Store, user: UserId, req: Request, m: int)
    requires req.UpdateCategory? || req.DeleteCategory? || req.CreateFixedExpense? || req.UpdateFixedExpense? || req.DeleteFixedExpense?
    requires Apply(s, user, req).Ok?
    ensures RowsOf(Apply(s, user, req).value, m) == RowsOf(s, m)
  {
    SameRowsOf(s, Apply(s, user, req).value, m);
  }

  /** Creating or deleting an item or income entry in an open month leaves
      the closed month `m`'s entries and items as they were. */
  lemma FrozenByChildEdit(s: Store, user: UserId, req: Request, m: int)
    requires req.CreateItem? || req.DeleteItem? || req.CreateIncome? || req.DeleteIncome?
    requires forall a :: 0 <= a < |s.months| && !s.months[a].data.isClosed ==> s.months[a].id != m
    requires Apply(s, user, req).Ok?
    ensures RowsOf(Apply(s, user, req).value, m) == RowsOf(s, m)
  {
    var s' := Apply(s, user, req).value;
    match req
    case CreateItem(m', form) =>
      FilterGrow(s.items, s'.items, ItemIn(m));
    case DeleteItem(m', id) =>
      FilterWithin(s.items, (x: Row<ItemData>) => !(x.id == id && x.data.monthId == m'), ItemIn(m));
    case CreateIncome(m', form) =>
      FilterGrow(s.income, s'.income, IncomeOf(m));
    case DeleteIncome(m', id) =>
      FilterWithin(s.income, (x: Row<IncomeData>) => !(x.id == id && x.data.monthId == m'), IncomeOf(m));
  }

  lemma FrozenByOpen(s: Store, user: UserId, clock: Clock, m: int)
    requires HasId(s.months, m)
    ensures RowsOf(Apply(s, user, OpenCurrentMonth(clock)).value, m) == RowsOf(s, m)
  {
    var (s', row) := Months.CurrentMonth(s, user, clock);
    if Months.MonthForPeriod(s, user, clock.year, clock.month).None? {
      assert row.id != m;
      FilterGrow(s.months, s'.months, MonthIdIs(m));
      FilterGrow(s.budgets, s'.budgets, BudgetIn(m));
    }
  }

  lemma FrozenByClose(s: Store, user: UserId, m': int, clock: Clock, render: Summary -> Months.Rendered, m: int)
    requires UniqueIds(s.months)
    requires forall a :: 0 <= a < |s.months| && !s.months[a].data.isClosed ==> s.months[a].id != m
    requires Apply(s, user, CloseMonth(m', clock, render)).Ok?
    ensures RowsOf(Apply(s, user, CloseMonth(m', clock, render)).value, m) == RowsOf(s, m)
  {
    var s' := Apply(s, user, CloseMonth(m', clock, render)).value;
    var row := OwnedMonth(s, user, m').value;
    assert m' != m;
    FilterUpdateOutside(s.months, m', Months.CloseAt(clock.timestamp), MonthIdIs(m));
    FilterGrow(s.snapshots, s'.snapshots, SnapshotIn(m));
  }

  lemma FrozenByCreateCategory(s: Store, user: UserId, form: Budget.CategoryForm, m: int)
    requires forall a :: 0 <= a < |s.months| && !s.months[a].data.isClosed ==> s.months[a].id != m
    requires Apply(s, user, CreateCategory(form)).Ok?
    ensures RowsOf(Apply(s, user, CreateCategory(form)).value, m) == RowsOf(s, m)
  {
    var s' := Apply(s, user, CreateCategory(form)).value;
    forall j | |s.budgets| <= j < |s'.budgets|
      ensures s'.budgets[j].data.monthId != m
    {
      var mo :| mo in s.months && mo.data.userId == user && !mo.data.isClosed && mo.id == s'.budgets[j].data.monthId;
      var a :| 0 <= a < |s.months| && s.months[a] == mo;
    }
    FilterGrow(s.budgets, s'.budgets, BudgetIn(m));
  }

  /** Two stores that agree on the month, allocation and snapshot tables, and
      on the income entries and items of month `m`, hold the same rows of `m`. */
  lemma SameRowsOf(s: Store, s': Store, m: int)
    requires s'.months == s.months && s'.budgets == s.budgets && s'.snapshots == s.snapshots
    requires Filter(s'.income, IncomeOf(m)) == Filter(s.income, IncomeOf(m))
    requires Filter(s'.items, ItemIn(m)) == Filter(s.items, ItemIn(m))
    ensures RowsOf(s', m) == RowsOf(s, m)
  {
  }

  lemma FrozenByAllocationUpdate(s: Store, user: UserId, m': int, b: int, amount: Money, m: int)
    requires UniqueIds(s.budgets)
    requires forall a :: 0 <= a < |s.months| && !s.months[a].data.isClosed ==> s.months[a].id != m
    requires Apply(s, user, UpdateMonthlyBudget(m', b, amount)).Ok?
    ensures RowsOf(Apply(s, user, UpdateMonthlyBudget(m', b, amount)).value, m) == RowsOf(s, m)
  {
    var k :| 0 <= k < |s.budgets| && s.budgets[k].id == b && s.budgets[k].data.monthId == m';
    var a :| 0 <= a < |s.months| && s.months[a].id == m' && s.months[a].data.userId == user && !s.months[a].data.isClosed;
    var f := (d: BudgetData) => d.(allocatedAmount := amount);
    assert s.budgets[k].data.monthId == m' != m;
    FilterUpdateOne(s.budgets, b, f, BudgetIn(m), k);
  }

  lemma FrozenByItemUpdate(s: Store, user: UserId, m': int, id: int, patch: Items.ItemPatch, m: int)
    requires UniqueIds(s.items)
    requires forall a :: 0 <= a < |s.months| && !s.months[a].data.isClosed ==> s.months[a].id != m
    requires Apply(s, user, UpdateItem(m', id, patch)).Ok?
    ensures RowsOf(Apply(s, user, UpdateItem(m', id, patch)).value, m) == RowsOf(s, m)
  {
    var (s', item) := Items.UpdateItem(s, user, m', id, patch).value;
    assert Apply(s, user, UpdateItem(m', id, patch)).value == s';
    var k :| 0 <= k < |s.items| && s.items[k] == Items.ItemInMonth(s, m', id).value;
    var a :| 0 <= a < |s.months| && s.months[a].id == m' && s.months[a].data.userId == user && !s.months[a].data.isClosed;
    var f := (d: ItemData) => d.(categoryId := item.data.categoryId, description := item.data.description,
                                 amount := item.data.amount, spentOn := item.data.spentOn);
    assert s'.items == Update(s.items, id, f);
    assert s.items[k].data.monthId == m' != m;
    FilterUpdateOne(s.items, id, f, ItemIn(m), k);
    SameRowsOf(s, s', m);
  }

  lemma FrozenByIncomeUpdate(s: Store, user: UserId, m': int, id: int, patch: Income.IncomePatch, m: int)
    requires UniqueIds(s.income)
    requires forall a :: 0 <= a < |s.months| && !s.months[a].data.isClosed ==> s.months[a].id != m
    requires Apply(s, user, UpdateIncome(m', id, patch)).Ok?
    ensures RowsOf(Apply(s, user, UpdateIncome(m', id, patch)).value, m) == RowsOf(s, m)
  {
    var (s', entry) := Income.UpdateIncome(s, user, m', id, patch).value;
    assert Apply(s, user, UpdateIncome(m', id, patch)).value == s';
    var k :| 0 <= k < |s.income| && s.income[k] == Income.IncomeInMonth(s, m', id).value;
    var a :| 0 <= a < |s.months| && s.months[a].id == m' && s.months[a].data.userId == user && !s.months[a].data.isClosed;
    var f := (d: IncomeData) => d.(name := entry.data.name, amount := entry.data.amount);
    assert s'.income == Update(s.income, id, f);
    assert s.income[k].data.monthId == m' != m;
    FilterUpdateOne(s.income, id, f, IncomeOf(m), k);
    SameRowsOf(s, s', m);
  }

  // ---------------------------------------------------------------------------
  // The store's integrity is kept

  /** No request breaks the store's integrity: ids stay unique, a month has at
      most one allocation per category, every child row stays in an existing
      month, and snapshots stay one per closed month. */
  lemma ApplyKeepsWellFormed(s: Store, user: UserId, req: Request)
    requires WellFormed(s)
    requires Apply(s, user, req).Ok?
    ensures WellFormed(Apply(s, user, req).value)
  {
    match req
    case OpenCurrentMonth(clock) => OpenKeepsWellFormed(s, user, clock);
    case CloseMonth(m, clock, render) => CloseKeepsWellFormed(s, user, m, clock, render);
    case CreateCategory(form) => CreateCategoryKeepsWellFormed(s, user, form);
    case UpdateCategory(_, _) => CategoryEditKeepsWellFormed(s, user, req);
    case DeleteCategory(_) => CategoryEditKeepsWellFormed(s, user, req);
    case UpdateMonthlyBudget(m, b, amount) => AllocationUpdateKeepsWellFormed(s, user, m, b, amount);
    case CreateItem(m, form) => CreateItemKeepsWellFormed(s, user, m, form);
    case UpdateItem(m, id, patch) => UpdateItemKeepsWellFormed(s, user, m, id, patch);
    case DeleteItem(_, _) => ChildDeleteKeepsWellFormed(s, user, req);
    case CreateIncome(m, form) => CreateIncomeKeepsWellFormed(s, user, m, form);
    case UpdateIncome(m, id, patch) => UpdateIncomeKeepsWellFormed(s, user, m, id, patch);
    case DeleteIncome(_, _) => ChildDeleteKeepsWellFormed(s, user, req);
    case CreateFixedExpense(_, _) => FixedExpenseEditKeepsWellFormed(s, user, req);
    case UpdateFixedExpense(_, _) => FixedExpenseEditKeepsWellFormed(s, user, req);
    case DeleteFixedExpense(_) => FixedExpenseEditKeepsWellFormed(s, user, req);
  }

  lemma CategoryEditKeepsWellFormed(s: Store, user: UserId, req: Request)
    requires WellFormed(s)
    requires req.UpdateCategory? || req.DeleteCategory?
    requires Apply(s, user, req).Ok?
    ensures WellFormed(Apply(s, user, req).value)
  {
    match req
    case UpdateCategory(c, patch) =>
      var c' := Budget.UpdateCategory(s, user, c, patch).value.1;
      UniqueUpdate(s.categories, c, (x: CategoryData) => x.(name := c'.data.name, defaultAmount := c'.data.defaultAmount));
    case DeleteCategory(c) =>
      UniqueFilter(s.categories, (x: Row<CategoryData>) => !(x.id == c && x.data.userId == user));
  }

  lemma ChildDeleteKeepsWellFormed(s: Store, user: UserId, req: Request)
    requires WellFormed(s)
    requires req.DeleteItem? || req.DeleteIncome?
    requires Apply(s, user, req).Ok?
    ensures WellFormed(Apply(s, user, req).value)
  {
    match req
    case DeleteItem(m, id) =>
      UniqueFilter(s.items, (x: Row<ItemData>) => !(x.id == id && x.data.monthId == m));
    case DeleteIncome(m, id) =>
      UniqueFilter(s.income, (x: Row<IncomeData>) => !(x.id == id && x.data.monthId == m));
  }

  lemma FixedExpenseEditKeepsWellFormed(s: Store, user: UserId, req: Request)
    requires WellFormed(s)
    requires req.CreateFixedExpense? || req.UpdateFixedExpense? || req.DeleteFixedExpense?
    requires Apply(s, user, req).Ok?
    ensures WellFormed(Apply(s, user, req).value)
  {
    match req
    case CreateFixedExpense(name, amount) =>
      var e := FixedExpenses.CreateFixedExpense(s, user, name, amount).value.1;
      UniqueAppend(s.fixedExpenses, e);
    case UpdateFixedExpense(id, patch) =>
      var e := FixedExpenses.UpdateFixedExpense(s, user, id, patch).value.1;
      UniqueUpdate(s.fixedExpenses, id, (d: FixedExpenseData) => d.(name := e.data.name, amount := e.data.amount));
    case DeleteFixedExpense(id) =>
      UniqueFilter(s.fixedExpenses, (x: Row<FixedExpenseData>) => !(x.id == id && x.data.userId == user));
  }

  lemma OpenKeepsWellFormed(s: Store, user: UserId, clock: Clock)
    requires WellFormed(s)
    ensures WellFormed(Apply(s, user, OpenCurrentMonth(clock)).value)
  {
    var (s', row) := Months.CurrentMonth(s, user, clock);
    if Months.MonthForPeriod(s, user, clock.year, clock.month).None? {
      UniqueAppend(s.months, row);
      AllocateAllKeepsInvariants(s.budgets, Months.TemplateAllocations(UserCategories(s, user), row.id));
      assert forall x :: HasId(s.months, x) ==> HasId(s'.months, x) by {
        forall x | HasId(s.months, x) ensures HasId(s'.months, x) {
          var k :| 0 <= k < |s.months| && s.months[k].id == x;
          assert s'.months[k] == s.months[k];
        }
      }
      assert HasId(s'.months, row.id) by {
        assert s'.months[|s.months|] == row;
      }
      forall i | 0 <= i < |s'.budgets|
        ensures HasId(s'.months, s'.budgets[i].data.monthId)
      {
        if i < |s.budgets| {
          assert s'.budgets[i] == s.budgets[i];
        }
      }
      forall i | 0 <= i < |s.snapshots|
        ensures IsClosedMonth(s', s.snapshots[i].data.monthId)
      {
        var a :| 0 <= a < |s.months| && s.months[a].id == s.snapshots[i].data.monthId && s.months[a].data.isClosed;
        assert s'.months[a] == s.months[a];
      }
    }
  }

  lemma CloseKeepsWellFormed(s: Store, user: UserId, m: int, clock: Clock, render: Summary -> Months.Rendered)
    requires WellFormed(s)
    requires Apply(s, user, CloseMonth(m, clock, render)).Ok?
    ensures WellFormed(Apply(s, user, CloseMonth(m, clock, render)).value)
  {
    var s' := Apply(s, user, CloseMonth(m, clock, render)).value;
    var f := Months.CloseAt(clock.timestamp);
    var a :| 0 <= a < |s.months| && s.months[a].id == m && s.months[a].data.userId == user;
    OwnedMonthIsTheRow(s, user, m, a);
    var pdf := s'.snapshots[|s.snapshots|];
    assert s'.snapshots == s.snapshots + [pdf] && pdf.data.monthId == m && !HasId(s.snapshots, pdf.id);
    assert s'.months == Update(s.months, m, f);
    UniqueUpdate(s.months, m, f);
    UpdateKeepsIds(s.months, m, f);
    UniqueAppend(s.snapshots, pdf);
    CloseKeepsSnapshots(s, s', m, clock.timestamp, a, pdf);
  }

  /** Closing an open month and archiving its one snapshot keeps snapshots
      one per closed month. */
  lemma CloseKeepsSnapshots(s: Store, s': Store, m: int, timestamp: int, a: int, pdf: Row<SnapshotData>)
    requires UniqueIds(s.months) && SnapshotsOfClosedMonths(s)
    requires 0 <= a < |s.months| && s.months[a].id == m && !s.months[a].data.isClosed
    requires s'.months == Update(s.months, m, Months.CloseAt(timestamp))
    requires s'.snapshots == s.snapshots + [pdf] && pdf.data.monthId == m
    ensures SnapshotsOfClosedMonths(s')
  {
    forall k | 0 <= k < |s.snapshots|
      ensures s.snapshots[k].data.monthId != m
      ensures IsClosedMonth(s', s.snapshots[k].data.monthId)
    {
      var j :| 0 <= j < |s.months| && s.months[j].id == s.snapshots[k].data.monthId && s.months[j].data.isClosed;
      assert j != a;
      assert s'.months[j].data.isClosed;
    }
    assert s'.months[a].data.isClosed;
    assert IsClosedMonth(s', pdf.data.monthId);
    forall i, j | 0 <= i < |s'.snapshots| && 0 <= j < |s'.snapshots| && s'.snapshots[i].data.monthId == s'.snapshots[j].data.monthId
      ensures i == j
    {
      if i < |s.snapshots| && j < |s.snapshots| {
        assert s'.snapshots[i] == s.snapshots[i] && s'.snapshots[j] == s.snapshots[j];
      }
    }
  }

  lemma CreateCategoryKeepsWellFormed(s: Store, user: UserId, form: Budget.CategoryForm)
    requires WellFormed(s)
    requires Apply(s, user, CreateCategory(form)).Ok?
    ensures WellFormed(Apply(s, user, CreateCategory(form)).value)
  {
    var (s', c) := Budget.CreateCategory(s, user, form).value;
    UniqueAppend(s.categories, c);
    AllocateAllKeepsInvariants(s.budgets, Budget.Propagation(Budget.OpenMonthsOf(s, user), c.id, form.defaultAmount));
    forall i | 0 <= i < |s'.budgets|
      ensures HasId(s'.months, s'.budgets[i].data.monthId)
    {
      if i < |s.budgets| {
        assert s'.budgets[i] == s.budgets[i];
      } else {
        var mo :| mo in s.months && mo.data.userId == user && !mo.data.isClosed && mo.id == s'.budgets[i].data.monthId;
        var k :| 0 <= k < |s.months| && s.months[k] == mo;
      }
    }
  }

  lemma AllocationUpdateKeepsWellFormed(s: Store, user: UserId, m: int, b: int, amount: Money)
    requires WellFormed(s)
    requires Apply(s, user, UpdateMonthlyBudget(m, b, amount)).Ok?
    ensures WellFormed(Apply(s, user, UpdateMonthlyBudget(m, b, amount)).value)
  {
    var s' := Apply(s, user, UpdateMonthlyBudget(m, b, amount)).value;
    var f := (d: BudgetData) => d.(allocatedAmount := amount);
    UniqueUpdate(s.budgets, b, f);
    forall i | 0 <= i < |s.budgets|
      ensures s'.budgets[i].data.monthId == s.budgets[i].data.monthId
      ensures s'.budgets[i].data.categoryId == s.budgets[i].data.categoryId
    {
    }
  }

  lemma CreateItemKeepsWellFormed(s: Store, user: UserId, m: int, form: Items.ItemForm)
    requires WellFormed(s)
    requires Apply(s, user, CreateItem(m, form)).Ok?
    ensures WellFormed(Apply(s, user, CreateItem(m, form)).value)
  {
    var (s', item) := Items.CreateItem(s, user, m, form).value;
    UniqueAppend(s.items, item);
    var a :| 0 <= a < |s.months| && s.months[a].id == m && s.months[a].data.userId == user && !s.months[a].data.isClosed;
    forall i | 0 <= i < |s'.items|
      ensures HasId(s'.months, s'.items[i].data.monthId)
    {
      if i < |s.items| {
        assert s'.items[i] == s.items[i];
      }
    }
  }

  lemma UpdateItemKeepsWellFormed(s: Store, user: UserId, m: int, id: int, patch: Items.ItemPatch)
    requires WellFormed(s)
    requires Apply(s, user, UpdateItem(m, id, patch)).Ok?
    ensures WellFormed(Apply(s, user, UpdateItem(m, id, patch)).value)
  {
    var (s', item) := Items.UpdateItem(s, user, m, id, patch).value;
    var f := (d: ItemData) => d.(categoryId := item.data.categoryId, description := item.data.description,
                                 amount := item.data.amount, spentOn := item.data.spentOn);
    assert s'.items == Update(s.items, id, f);
    UniqueUpdate(s.items, id, f);
    forall i | 0 <= i < |s.items|
      ensures s'.items[i].data.monthId == s.items[i].data.monthId
    {
    }
  }

  lemma CreateIncomeKeepsWellFormed(s: Store, user: UserId, m: int, form: Income.IncomeForm)
    requires WellFormed(s)
    requires Apply(s, user, CreateIncome(m, form)).Ok?
    ensures WellFormed(Apply(s, user, CreateIncome(m, form)).value)
  {
    var (s', entry) := Income.CreateIncome(s, user, m, form).value;
    UniqueAppend(s.income, entry);
    var a :| 0 <= a < |s.months| && s.months[a].id == m && s.months[a].data.userId == user && !s.months[a].data.isClosed;
    forall i | 0 <= i < |s'.income|
      ensures HasId(s'.months, s'.income[i].data.monthId)
    {
      if i < |s.income| {
        assert s'.income[i] == s.income[i];
      }
    }
  }

  lemma UpdateIncomeKeepsWellFormed(s: Store, user: UserId, m: int, id: int, patch: Income.IncomePatch)
    requires WellFormed(s)
    requires Apply(s, user, UpdateIncome(m, id, patch)).Ok?
    ensures WellFormed(Apply(s, user, UpdateIncome(m, id, patch)).value)
  {
    var (s', entry) := Income.UpdateIncome(s, user, m, id, patch).value;
    var f := (d: IncomeData) => d.(name := entry.data.name, amount := entry.data.amount);
    assert s'.income == Update(s.income, id, f);
    UniqueUpdate(s.income, id, f);
    forall i | 0 <= i < |s.income|
      ensures s'.income[i].data.monthId == s.income[i].data.monthId
    {
    }
  }
}
