/** The rows of the ledger's store and the lookups every handler shares. */
module Records {
  import opened Tables

  type UserId = int

  /** An amount of money in integer cents. */
  type Money = int

  type Bytes = seq<bv8>

  /** A calendar date (`spent_on`); the store keeps whatever date the request carried. */
  datatype Date = Date(year: int, month: int, day: int)

  /** The clock reading a handler takes: the calendar period and a timestamp. */
  datatype Clock = Clock(year: int, month: int, timestamp: int)

  /** A category template: a spending bucket with a default monthly allocation.
      `name` is the column the store calls `label`. */
  datatype CategoryData = CategoryData(userId: UserId, name: string, defaultAmount: Money)

  /** A recurring expense counted into every month of its owner. */
  datatype FixedExpenseData = FixedExpenseData(userId: UserId, name: string, amount: Money)

  /** A calendar month of one user, open until it is closed. */
  datatype MonthData = MonthData(userId: UserId, year: int, month: int, isClosed: bool, closedAt: Option<int>)

  /** The amount allocated to one category within one month. */
  datatype BudgetData = BudgetData(monthId: int, categoryId: int, allocatedAmount: Money)

  datatype IncomeData = IncomeData(monthId: int, name: string, amount: Money)

  /** One recorded expense of a month against a category. */
  datatype ItemData = ItemData(monthId: int, categoryId: int, description: string, amount: Money, spentOn: Date)

  /** The report archived when a month is closed. */
  datatype SnapshotData = SnapshotData(monthId: int, pdf: Bytes)

  datatype Store = Store(
    categories: Table<CategoryData>,
    fixedExpenses: Table<FixedExpenseData>,
    months: Table<MonthData>,
    budgets: Table<BudgetData>,
    income: Table<IncomeData>,
    items: Table<ItemData>,
    snapshots: Table<SnapshotData>)

  /** The field constraint `length(min = lo, max = hi)`, counted in characters. */
  predicate LengthIn(s: string, lo: int, hi: int) {
    lo <= |s| <= hi
  }

  /** The month row `WHERE id = monthId AND user_id = user`. */
  function OwnedMonth(s: Store, user: UserId, monthId: int): Option<Row<MonthData>> {
    First(s.months, (m: Row<MonthData>) => m.id == monthId && m.data.userId == user)
  }

  /** The category row `WHERE id = categoryId AND user_id = user`. */
  function OwnedCategory(s: Store, user: UserId, categoryId: int): Option<Row<CategoryData>> {
    First(s.categories, (c: Row<CategoryData>) => c.id == categoryId && c.data.userId == user)
  }

  /** The user's category templates (`WHERE user_id = ?`). */
  function UserCategories(s: Store, user: UserId): (r: seq<Row<CategoryData>>)
    ensures forall c :: c in r <==> c in s.categories && c.data.userId == user
  {
    Filter(s.categories, (c: Row<CategoryData>) => c.data.userId == user)
  }

  /** Under unique category ids, a user's templates have unique ids too. */
  lemma UserCategoriesUnique(s: Store, user: UserId)
    requires UniqueIds(s.categories)
    ensures UniqueIds(UserCategories(s, user))
  {
    UniqueFilter(s.categories, (c: Row<CategoryData>) => c.data.userId == user);
  }

  /** `user` owns a category template with id `categoryId`. */
  ghost predicate OwnsCategory(s: Store, user: UserId, categoryId: int) {
    exists i :: 0 <= i < |s.categories| && s.categories[i].id == categoryId && s.categories[i].data.userId == user
  }

  /** `user` owns a month with id `monthId`. */
  ghost predicate OwnsMonth(s: Store, user: UserId, monthId: int) {
    exists i :: 0 <= i < |s.months| && s.months[i].id == monthId && s.months[i].data.userId == user
  }

  /** The month `monthId` exists and is closed. */
  ghost predicate IsClosedMonth(s: Store, monthId: int) {
    exists i :: 0 <= i < |s.months| && s.months[i].id == monthId && s.months[i].data.isClosed
  }

  /** `user` owns an open month with id `monthId`. */
  ghost predicate OwnsOpenMonth(s: Store, user: UserId, monthId: int) {
    exists i :: 0 <= i < |s.months| && s.months[i].id == monthId && s.months[i].data.userId == user && !s.months[i].data.isClosed
  }

  lemma OwnedMonthFound(s: Store, user: UserId, monthId: int)
    ensures OwnedMonth(s, user, monthId).Some? <==> OwnsMonth(s, user, monthId)
    ensures OwnedMonth(s, user, monthId).Some? ==> OwnedMonth(s, user, monthId).value.id == monthId
    ensures OwnedMonth(s, user, monthId).Some? ==> OwnedMonth(s, user, monthId).value.data.userId == user
  {
  }

  /** Under unique month ids, the owned month found is the one row with that id. */
  lemma OwnedMonthIsTheRow(s: Store, user: UserId, monthId: int, i: int)
    requires UniqueIds(s.months)
    requires 0 <= i < |s.months| && s.months[i].id == monthId && s.months[i].data.userId == user
    ensures OwnedMonth(s, user, monthId) == Some(s.months[i])
  {
    FirstOfSingle(s.months, (m: Row<MonthData>) => m.id == monthId && m.data.userId == user, i);
  }

  /** Some allocation row of `t` is for category `categoryId` in month `monthId`. */
  predicate HasAllocation(t: Table<BudgetData>, monthId: int, categoryId: int) {
    exists i :: 0 <= i < |t| && t[i].data.monthId == monthId && t[i].data.categoryId == categoryId
  }

  /** `INSERT OR IGNORE` of one allocation under the (month, category) uniqueness. */
  function AllocateOne(t: Table<BudgetData>, row: BudgetData): Table<BudgetData> {
    if HasAllocation(t, row.monthId, row.categoryId) then t
    else t + [Row(NextId(t), row)]
  }

  /** Each allocation of `rows` inserted in turn, skipping those whose (month,
      category) pair already has a row; a skipped insert never fails the caller. */
  function AllocateAll(t: Table<BudgetData>, rows: seq<BudgetData>): (r: Table<BudgetData>)
    ensures t <= r
    ensures forall k :: 0 <= k < |rows| ==> HasAllocation(r, rows[k].monthId, rows[k].categoryId)
    ensures forall j :: |t| <= j < |r| ==> r[j].data in rows
    ensures forall j :: |t| <= j < |r| ==> !HasAllocation(t, r[j].data.monthId, r[j].data.categoryId)
    ensures forall j :: |t| <= j < |r| ==> !HasId(t, r[j].id)
    decreases |rows|
  {
    if |rows| == 0 then t
    else
      var first := AllocateOne(t, rows[0]);
      var r := AllocateAll(first, rows[1..]);
      AllocateOneAdds(t, rows[0]);
      AllocationPersists(first, r, rows[0].monthId, rows[0].categoryId);
      assert forall k :: 1 <= k < |rows| ==> rows[k] == rows[1..][k - 1];
      r
  }

  lemma AllocateOneAdds(t: Table<BudgetData>, row: BudgetData)
    ensures HasAllocation(AllocateOne(t, row), row.monthId, row.categoryId)
  {
    if !HasAllocation(t, row.monthId, row.categoryId) {
      assert AllocateOne(t, row)[|t|].data == row;
    }
  }

  lemma AllocationPersists(t: Table<BudgetData>, r: Table<BudgetData>, monthId: int, categoryId: int)
    requires t <= r
    ensures HasAllocation(t, monthId, categoryId) ==> HasAllocation(r, monthId, categoryId)
  {
    if HasAllocation(t, monthId, categoryId) {
      var i :| 0 <= i < |t| && t[i].data.monthId == monthId && t[i].data.categoryId == categoryId;
      assert r[i] == t[i];
    }
  }

  /** When no requested pair is present yet and the pairs are distinct, every
      requested allocation is inserted, in order and with its own amount. */
  lemma {:induction false} AllocateAllFresh(t: Table<BudgetData>, rows: seq<BudgetData>)
    requires forall k :: 0 <= k < |rows| ==> !HasAllocation(t, rows[k].monthId, rows[k].categoryId)
    requires forall k, l :: 0 <= k < l < |rows| ==> (rows[k].monthId, rows[k].categoryId) != (rows[l].monthId, rows[l].categoryId)
    ensures |AllocateAll(t, rows)| == |t| + |rows|
    ensures forall k :: 0 <= k < |rows| ==> AllocateAll(t, rows)[|t| + k].data == rows[k]
    decreases |rows|
  {
    if |rows| > 0 {
      var t1 := AllocateOne(t, rows[0]);
      assert t1 == t + [Row(NextId(t), rows[0])];
      forall k | 0 <= k < |rows[1..]|
        ensures !HasAllocation(t1, rows[1..][k].monthId, rows[1..][k].categoryId)
      {
        assert rows[1..][k] == rows[k + 1];
      }
      AllocateAllFresh(t1, rows[1..]);
      var r := AllocateAll(t, rows);
      assert r == AllocateAll(t1, rows[1..]);
      ShiftedRows(t, t1, r, rows);
    }
  }

  /** The rows after a one-row extension `t1` of `t` line up with `rows` once
      the extension's own row is counted as the first. */
  lemma ShiftedRows(t: Table<BudgetData>, t1: Table<BudgetData>, r: Table<BudgetData>, rows: seq<BudgetData>)
    requires |rows| > 0 && |t1| == |t| + 1 && t1 <= r && t1[|t|].data == rows[0]
    requires |r| == |t1| + |rows[1..]|
    requires forall k :: 0 <= k < |rows[1..]| ==> r[|t1| + k].data == rows[1..][k]
    ensures |r| == |t| + |rows|
    ensures forall k :: 0 <= k < |rows| ==> r[|t| + k].data == rows[k]
  {
    forall k | 0 <= k < |rows|
      ensures r[|t| + k].data == rows[k]
    {
      if k == 0 {
        assert r[|t|] == t1[|t|];
      } else {
        assert r[|t1| + (k - 1)].data == rows[1..][k - 1];
      }
    }
  }

  /** At most one allocation row per (month, category) pair. */
  ghost predicate UniqueAllocations(t: Table<BudgetData>) {
    forall i, j :: 0 <= i < |t| && 0 <= j < |t| && t[i].data.monthId == t[j].data.monthId && t[i].data.categoryId == t[j].data.categoryId ==> i == j
  }

  lemma {:induction false} AllocateAllKeepsInvariants(t: Table<BudgetData>, rows: seq<BudgetData>)
    requires UniqueIds(t) && UniqueAllocations(t)
    ensures UniqueIds(AllocateAll(t, rows)) && UniqueAllocations(AllocateAll(t, rows))
    decreases |rows|
  {
    if |rows| > 0 {
      var t1 := AllocateOne(t, rows[0]);
      if !HasAllocation(t, rows[0].monthId, rows[0].categoryId) {
        UniqueAppend(t, Row(NextId(t), rows[0]));
      }
      AllocateAllKeepsInvariants(t1, rows[1..]);
    }
  }

  /** The integrity the store keeps: unique primary keys, one allocation per
      (month, category), every child row in an existing month, and snapshots
      only for closed months, at most one each. */
  ghost predicate WellFormed(s: Store) {
    && UniqueIds(s.categories)
    && UniqueIds(s.fixedExpenses)
    && UniqueIds(s.months)
    && UniqueIds(s.budgets)
    && UniqueIds(s.income)
    && UniqueIds(s.items)
    && UniqueIds(s.snapshots)
    && UniqueAllocations(s.budgets)
    && ChildrenInMonths(s)
    && SnapshotsOfClosedMonths(s)
  }

  /** Every allocation, income entry and item belongs to an existing month. */
  ghost predicate ChildrenInMonths(s: Store) {
    && (forall i :: 0 <= i < |s.budgets| ==> HasId(s.months, s.budgets[i].data.monthId))
    && (forall i :: 0 <= i < |s.income| ==> HasId(s.months, s.income[i].data.monthId))
    && (forall i :: 0 <= i < |s.items| ==> HasId(s.months, s.items[i].data.monthId))
  }

  /** A snapshot exists only for a closed month, and a month has at most one. */
  ghost predicate SnapshotsOfClosedMonths(s: Store) {
    && (forall i :: 0 <= i < |s.snapshots| ==> IsClosedMonth(s, s.snapshots[i].data.monthId))
    && (forall i, j :: 0 <= i < |s.snapshots| && 0 <= j < |s.snapshots| && s.snapshots[i].data.monthId == s.snapshots[j].data.monthId ==> i == j)
  }
}
