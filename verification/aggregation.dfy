/** The month aggregator: the pure fold that turns a month's rows into its
    summary of per-category spend, totals and remaining balance. */
module Aggregation {
  import opened Tables
  import opened Errors
  import opened Records

  /** An allocation joined to its category, with the month's spend on it. */
  datatype BudgetLine = BudgetLine(
    id: int, monthId: int, categoryId: int, categoryName: string,
    allocatedAmount: Money, spentAmount: Money)

  /** An item joined to its category's name. */
  datatype ItemLine = ItemLine(
    id: int, monthId: int, categoryId: int, categoryName: string,
    description: string, amount: Money, spentOn: Date)

  /** Everything a month's page and report show. */
  datatype Summary = Summary(
    month: Row<MonthData>,
    incomeEntries: seq<Row<IncomeData>>,
    fixedExpenses: seq<Row<FixedExpenseData>>,
    budgets: seq<BudgetLine>,
    items: seq<ItemLine>,
    totalIncome: Money,
    totalFixed: Money,
    totalBudgeted: Money,
    totalSpent: Money,
    remaining: Money)

  // ---------------------------------------------------------------------------
  // The queries feeding the fold

  /** The category row a category id joins to. */
  function CategoryOf(cats: Table<CategoryData>, categoryId: int): (r: Option<Row<CategoryData>>)
    ensures r.Some? <==> HasId(cats, categoryId)
    ensures r.Some? ==> r.value in cats && r.value.id == categoryId
  {
    First(cats, (c: Row<CategoryData>) => c.id == categoryId)
  }

  /** The line an allocation contributes to month `monthId`: none for another
      month, and none when its category row is gone (inner join). */
  function BudgetLineOf(cats: Table<CategoryData>, monthId: int, b: Row<BudgetData>): Option<BudgetLine> {
    if b.data.monthId != monthId then None
    else match CategoryOf(cats, b.data.categoryId)
      case None => None
      case Some(c) => Some(BudgetLine(b.id, monthId, b.data.categoryId, c.data.name, b.data.allocatedAmount, 0))
  }

  /** The line an item contributes to month `monthId`, under the same inner join. */
  function ItemLineOf(cats: Table<CategoryData>, monthId: int, i: Row<ItemData>): Option<ItemLine> {
    if i.data.monthId != monthId then None
    else match CategoryOf(cats, i.data.categoryId)
      case None => None
      case Some(c) => Some(ItemLine(i.id, monthId, i.data.categoryId, c.data.name, i.data.description, i.data.amount, i.data.spentOn))
  }

  function BudgetJoin(cats: Table<CategoryData>, monthId: int): Row<BudgetData> -> Option<BudgetLine> {
    (b: Row<BudgetData>) => BudgetLineOf(cats, monthId, b)
  }

  function ItemJoin(cats: Table<CategoryData>, monthId: int): Row<ItemData> -> Option<ItemLine> {
    (i: Row<ItemData>) => ItemLineOf(cats, monthId, i)
  }

  function IncomeOf(monthId: int): Row<IncomeData> -> bool {
    (e: Row<IncomeData>) => e.data.monthId == monthId
  }

  function FixedOf(user: UserId): Row<FixedExpenseData> -> bool {
    (f: Row<FixedExpenseData>) => f.data.userId == user
  }

  /** The month's allocations joined to their categories. */
  function MonthBudgets(s: Store, monthId: int): seq<BudgetLine> {
    Collect(s.budgets, BudgetJoin(s.categories, monthId))
  }

  /** The month's items joined to their categories (the `list_items` query too). */
  function MonthItems(s: Store, monthId: int): seq<ItemLine> {
    Collect(s.items, ItemJoin(s.categories, monthId))
  }

  /** The allocation join keeps exactly the month's allocations whose category
      row still exists, with their amounts: an orphaned allocation shows in no
      list and adds to no sum. */
  lemma BudgetJoinDropsOrphans(s: Store, monthId: int)
    ensures forall l :: l in MonthBudgets(s, monthId) ==>
      && l.monthId == monthId && HasId(s.categories, l.categoryId) && l.spentAmount == 0
      && exists b :: b in s.budgets && b.id == l.id && b.data.monthId == monthId
                     && b.data.categoryId == l.categoryId && b.data.allocatedAmount == l.allocatedAmount
    ensures forall b :: b in s.budgets && b.data.monthId == monthId && HasId(s.categories, b.data.categoryId) ==>
      exists l :: l in MonthBudgets(s, monthId) && l.id == b.id && l.categoryId == b.data.categoryId
                  && l.allocatedAmount == b.data.allocatedAmount
  {
    var f := BudgetJoin(s.categories, monthId);
    forall l | l in MonthBudgets(s, monthId)
      ensures && l.monthId == monthId && HasId(s.categories, l.categoryId) && l.spentAmount == 0
              && exists b :: b in s.budgets && b.id == l.id && b.data.monthId == monthId
                             && b.data.categoryId == l.categoryId && b.data.allocatedAmount == l.allocatedAmount
    {
      var b :| b in s.budgets && f(b) == Some(l);
    }
    forall b | b in s.budgets && b.data.monthId == monthId && HasId(s.categories, b.data.categoryId)
      ensures exists l :: l in MonthBudgets(s, monthId) && l.id == b.id && l.categoryId == b.data.categoryId
                          && l.allocatedAmount == b.data.allocatedAmount
    {
      assert f(b).Some?;
      assert f(b).value in MonthBudgets(s, monthId);
    }
  }

  /** The item join keeps exactly the month's items whose category row still
      exists, with their amounts: an orphaned item is neither listed nor spent. */
  lemma ItemJoinDropsOrphans(s: Store, monthId: int)
    ensures forall l :: l in MonthItems(s, monthId) ==>
      && l.monthId == monthId && HasId(s.categories, l.categoryId)
      && exists i :: i in s.items && i.id == l.id && i.data.monthId == monthId
                     && i.data.categoryId == l.categoryId && i.data.amount == l.amount
    ensures forall i :: i in s.items && i.data.monthId == monthId && HasId(s.categories, i.data.categoryId) ==>
      exists l :: l in MonthItems(s, monthId) && l.id == i.id && l.categoryId == i.data.categoryId && l.amount == i.data.amount
  {
    var f := ItemJoin(s.categories, monthId);
    forall l | l in MonthItems(s, monthId)
      ensures && l.monthId == monthId && HasId(s.categories, l.categoryId)
              && exists i :: i in s.items && i.id == l.id && i.data.monthId == monthId
                             && i.data.categoryId == l.categoryId && i.data.amount == l.amount
    {
      var i :| i in s.items && f(i) == Some(l);
    }
    forall i | i in s.items && i.data.monthId == monthId && HasId(s.categories, i.data.categoryId)
      ensures exists l :: l in MonthItems(s, monthId) && l.id == i.id && l.categoryId == i.data.categoryId && l.amount == i.data.amount
    {
      assert f(i).Some?;
      assert f(i).value in MonthItems(s, monthId);
    }
  }

  /** The month's income entries. */
  function MonthIncome(s: Store, monthId: int): (r: seq<Row<IncomeData>>)
    ensures forall e :: e in r <==> e in s.income && e.data.monthId == monthId
  {
    Filter(s.income, IncomeOf(monthId))
  }

  /** All of the user's fixed expenses: they are not tied to any month. */
  function UserFixedExpenses(s: Store, user: UserId): (r: seq<Row<FixedExpenseData>>)
    ensures forall f :: f in r <==> f in s.fixedExpenses && f.data.userId == user
  {
    Filter(s.fixedExpenses, FixedOf(user))
  }

  // ---------------------------------------------------------------------------
  // The fold

  function IncomeAmount(e: Row<IncomeData>): Money { e.data.amount }
  function FixedAmount(f: Row<FixedExpenseData>): Money { f.data.amount }
  function AllocatedAmount(b: BudgetLine): Money { b.allocatedAmount }
  function SpentAmount(b: BudgetLine): Money { b.spentAmount }
  function ItemAmount(i: ItemLine): Money { i.amount }

  function InCategory(categoryId: int): ItemLine -> bool {
    (i: ItemLine) => i.categoryId == categoryId
  }

  /** An item's amount when it is in category `categoryId`, else 0. */
  function AmountIn(categoryId: int): ItemLine -> Money {
    (i: ItemLine) => if i.categoryId == categoryId then i.amount else 0
  }

  /** The spend on a category: the amounts of the items in it, summed. */
  function SpentOn(items: seq<ItemLine>, categoryId: int): Money {
    Sum(Filter(items, InCategory(categoryId)), ItemAmount)
  }

  /** The spend on a category is the sum over all items of their amount in it. */
  lemma {:induction false} SpentOnMasked(items: seq<ItemLine>, categoryId: int)
    ensures SpentOn(items, categoryId) == Sum(items, AmountIn(categoryId))
    decreases |items|
  {
    if |items| > 0 {
      SpentOnMasked(items[1..], categoryId);
      assert Filter(items, InCategory(categoryId))
          == (if items[0].categoryId == categoryId then [items[0]] else []) + Filter(items[1..], InCategory(categoryId));
      SumAppend(if items[0].categoryId == categoryId then [items[0]] else [], Filter(items[1..], InCategory(categoryId)), ItemAmount);
    }
  }

  /** A category no item is in has spend 0. */
  lemma SpentOnNoMatch(items: seq<ItemLine>, categoryId: int)
    requires forall i :: 0 <= i < |items| ==> items[i].categoryId != categoryId
    ensures SpentOn(items, categoryId) == 0
  {
    FilterNone(items, InCategory(categoryId));
  }

  /** Every allocation line with its spend filled in from the items. */
  function WithSpent(budgets: seq<BudgetLine>, items: seq<ItemLine>): seq<BudgetLine> {
    seq(|budgets|, k requires 0 <= k < |budgets| => budgets[k].(spentAmount := SpentOn(items, budgets[k].categoryId)))
  }

  /** The summary of a month from its rows: each allocation's spend is the sum
      of the items in its category, the four totals are the plain sums of
      their columns, and the remaining balance is income less fixed expenses
      less spending; the allocations do not enter it. */
  function Summarize(
    month: Row<MonthData>,
    income: seq<Row<IncomeData>>,
    fixed: seq<Row<FixedExpenseData>>,
    budgets: seq<BudgetLine>,
    items: seq<ItemLine>): (r: Summary)
    ensures r.month == month && r.incomeEntries == income && r.fixedExpenses == fixed && r.items == items
    ensures |r.budgets| == |budgets|
    ensures forall k :: 0 <= k < |budgets| ==>
      r.budgets[k].(spentAmount := 0) == budgets[k].(spentAmount := 0)
    ensures forall k :: 0 <= k < |budgets| ==>
      r.budgets[k].spentAmount == Sum(Filter(items, InCategory(budgets[k].categoryId)), ItemAmount)
    ensures r.totalIncome == Sum(income, IncomeAmount)
    ensures r.totalFixed == Sum(fixed, FixedAmount)
    ensures r.totalBudgeted == Sum(budgets, AllocatedAmount)
    ensures r.totalSpent == Sum(items, ItemAmount)
    ensures r.remaining == r.totalIncome - r.totalFixed - r.totalSpent
  {
    var lines := WithSpent(budgets, items);
    SumOfAllocatedIgnoresSpent(budgets, items);
    var totalIncome := Sum(income, IncomeAmount);
    var totalFixed := Sum(fixed, FixedAmount);
    var totalSpent := Sum(items, ItemAmount);
    Summary(month, income, fixed, lines, items,
            totalIncome, totalFixed, Sum(lines, AllocatedAmount), totalSpent,
            totalIncome - totalFixed - totalSpent)
  }

  lemma {:induction false} SumOfAllocatedIgnoresSpent(budgets: seq<BudgetLine>, items: seq<ItemLine>)
    ensures Sum(WithSpent(budgets, items), AllocatedAmount) == Sum(budgets, AllocatedAmount)
    decreases |budgets|
  {
    if |budgets| > 0 {
      assert WithSpent(budgets, items)[1..] == WithSpent(budgets[1..], items);
      SumOfAllocatedIgnoresSpent(budgets[1..], items);
    }
  }

  /** `get_month_summary`: the month row is re-read by id alone (a missing row
      is the store's "no rows" error); income and items are the month's, fixed
      expenses are all of the user's, and allocations and items whose category
      row is gone take no part. */
  function GetMonthSummary(s: Store, user: UserId, monthId: int): (r: Result<Summary>)
    ensures r.Err? <==> !HasId(s.months, monthId)
    ensures r.Err? ==> r.error == RowNotFound
    ensures r.Ok? ==> r.value.month in s.months && r.value.month.id == monthId
    ensures r.Ok? ==> r.value == Summarize(r.value.month, MonthIncome(s, monthId), UserFixedExpenses(s, user),
                                           MonthBudgets(s, monthId), MonthItems(s, monthId))
  {
    match First(s.months, (m: Row<MonthData>) => m.id == monthId)
    case None => Err(RowNotFound)
    case Some(m) =>
      Ok(Summarize(m, MonthIncome(s, monthId), UserFixedExpenses(s, user), MonthBudgets(s, monthId), MonthItems(s, monthId)))
  }

  // ---------------------------------------------------------------------------
  // Properties of the fold

  /** A month with no income, no fixed expenses and no items has every total
      but the allocations at 0 and a remaining balance of 0. */
  lemma EmptyMonthRemainsZero(s: Store, user: UserId, monthId: int)
    requires HasId(s.months, monthId)
    requires forall k :: 0 <= k < |s.income| ==> s.income[k].data.monthId != monthId
    requires forall k :: 0 <= k < |s.fixedExpenses| ==> s.fixedExpenses[k].data.userId != user
    requires forall k :: 0 <= k < |s.items| ==> s.items[k].data.monthId != monthId
    ensures GetMonthSummary(s, user, monthId).Ok?
    ensures GetMonthSummary(s, user, monthId).value.totalIncome == 0
    ensures GetMonthSummary(s, user, monthId).value.totalFixed == 0
    ensures GetMonthSummary(s, user, monthId).value.totalSpent == 0
    ensures GetMonthSummary(s, user, monthId).value.remaining == 0
  {
    FilterNone(s.income, IncomeOf(monthId));
    FilterNone(s.fixedExpenses, FixedOf(user));
    CollectNone(s.items, ItemJoin(s.categories, monthId));
  }

  /** The summary does not depend on the order the rows arrive in: the four
      totals, the remaining balance and the allocation lines with their
      spends are the same for any ordering of the income, fixed-expense,
      allocation and item rows, so the queries' ordering is immaterial. */
  lemma TotalsIgnoreRowOrder(
    month: Row<MonthData>,
    income1: seq<Row<IncomeData>>, income2: seq<Row<IncomeData>>,
    fixed1: seq<Row<FixedExpenseData>>, fixed2: seq<Row<FixedExpenseData>>,
    budgets1: seq<BudgetLine>, budgets2: seq<BudgetLine>,
    items1: seq<ItemLine>, items2: seq<ItemLine>)
    requires multiset(income1) == multiset(income2)
    requires multiset(fixed1) == multiset(fixed2)
    requires multiset(budgets1) == multiset(budgets2)
    requires multiset(items1) == multiset(items2)
    ensures var r1, r2 := Summarize(month, income1, fixed1, budgets1, items1), Summarize(month, income2, fixed2, budgets2, items2);
      && r1.totalIncome == r2.totalIncome
      && r1.totalFixed == r2.totalFixed
      && r1.totalBudgeted == r2.totalBudgeted
      && r1.totalSpent == r2.totalSpent
      && r1.remaining == r2.remaining
      && multiset(r1.budgets) == multiset(r2.budgets)
  {
    SumPermutation(income1, income2, IncomeAmount);
    SumPermutation(fixed1, fixed2, FixedAmount);
    SumPermutation(budgets1, budgets2, AllocatedAmount);
    SumPermutation(items1, items2, ItemAmount);
    SpendsIgnoreItemOrder(budgets2, items1, items2);
    WithSpentPermutation(budgets1, budgets2, items1);
  }

  /** Each line's spend is the same for any ordering of the items. */
  lemma SpendsIgnoreItemOrder(budgets: seq<BudgetLine>, items1: seq<ItemLine>, items2: seq<ItemLine>)
    requires multiset(items1) == multiset(items2)
    ensures WithSpent(budgets, items1) == WithSpent(budgets, items2)
  {
    forall k | 0 <= k < |budgets|
      ensures WithSpent(budgets, items1)[k] == WithSpent(budgets, items2)[k]
    {
      var c := budgets[k].categoryId;
      SpentOnMasked(items1, c);
      SpentOnMasked(items2, c);
      SumPermutation(items1, items2, AmountIn(c));
    }
  }

  /** Filling in the spends distributes over concatenation. */
  lemma WithSpentAppend(x: seq<BudgetLine>, y: seq<BudgetLine>, items: seq<ItemLine>)
    ensures WithSpent(x + y, items) == WithSpent(x, items) + WithSpent(y, items)
  {
  }

  /** Reordering the allocation lines reorders the filled-in lines alike. */
  lemma {:induction false} WithSpentPermutation(a: seq<BudgetLine>, b: seq<BudgetLine>, items: seq<ItemLine>)
    requires multiset(a) == multiset(b)
    ensures multiset(WithSpent(a, items)) == multiset(WithSpent(b, items))
    decreases |a|
  {
    if |a| == 0 {
      assert |multiset(b)| == 0;
    } else {
      var k := RemoveMatching(a, b);
      WithSpentPermutation(a[1..], b[..k] + b[k + 1..], items);
      assert a == [a[0]] + a[1..];
      assert b == b[..k] + [a[0]] + b[k + 1..];
      WithSpentAppend([a[0]], a[1..], items);
      WithSpentAppend(b[..k] + [a[0]], b[k + 1..], items);
      WithSpentAppend(b[..k], [a[0]], items);
      WithSpentAppend(b[..k], b[k + 1..], items);
    }
  }

  /** The spend summed over a list of allocation lines. */
  function SpentAcross(budgets: seq<BudgetLine>, items: seq<ItemLine>): int {
    if |budgets| == 0 then 0
    else SpentOn(items, budgets[0].categoryId) + SpentAcross(budgets[1..], items)
  }

  /** How much of item `x` the lines' categories claim. */
  function Claimed(budgets: seq<BudgetLine>, x: ItemLine): int {
    if |budgets| == 0 then 0
    else AmountIn(budgets[0].categoryId)(x) + Claimed(budgets[1..], x)
  }

  lemma {:induction false} SpentAcrossEmpty(budgets: seq<BudgetLine>)
    ensures SpentAcross(budgets, []) == 0
    decreases |budgets|
  {
    if |budgets| > 0 {
      SpentAcrossEmpty(budgets[1..]);
    }
  }

  lemma {:induction false} SpentAcrossCons(budgets: seq<BudgetLine>, x: ItemLine, rest: seq<ItemLine>)
    ensures SpentAcross(budgets, [x] + rest) == Claimed(budgets, x) + SpentAcross(budgets, rest)
    decreases |budgets|
  {
    if |budgets| > 0 {
      var c := budgets[0].categoryId;
      SpentOnMasked([x] + rest, c);
      SpentOnMasked(rest, c);
      assert ([x] + rest)[1..] == rest;
      SpentAcrossCons(budgets[1..], x, rest);
    }
  }

  /** An item whose category is on exactly one line is claimed once, in full. */
  lemma {:induction false} ClaimedOnce(budgets: seq<BudgetLine>, x: ItemLine)
    requires forall k, l :: 0 <= k < l < |budgets| ==> budgets[k].categoryId != budgets[l].categoryId
    ensures (exists k :: 0 <= k < |budgets| && budgets[k].categoryId == x.categoryId) ==> Claimed(budgets, x) == x.amount
    ensures (forall k :: 0 <= k < |budgets| ==> budgets[k].categoryId != x.categoryId) ==> Claimed(budgets, x) == 0
    decreases |budgets|
  {
    if |budgets| > 0 {
      ClaimedOnce(budgets[1..], x);
      if budgets[0].categoryId == x.categoryId {
        assert forall k :: 0 <= k < |budgets[1..]| ==> budgets[1..][k].categoryId != x.categoryId by {
          forall k | 0 <= k < |budgets[1..]|
            ensures budgets[1..][k].categoryId != x.categoryId
          {
            assert budgets[1..][k] == budgets[k + 1];
          }
        }
      } else {
        if exists k :: 0 <= k < |budgets| && budgets[k].categoryId == x.categoryId {
          var k :| 0 <= k < |budgets| && budgets[k].categoryId == x.categoryId;
          assert budgets[1..][k - 1] == budgets[k];
        }
      }
    }
  }

  lemma {:induction false} SpentPartitionItems(budgets: seq<BudgetLine>, items: seq<ItemLine>)
    requires forall k, l :: 0 <= k < l < |budgets| ==> budgets[k].categoryId != budgets[l].categoryId
    requires forall i :: 0 <= i < |items| ==> exists k :: 0 <= k < |budgets| && budgets[k].categoryId == items[i].categoryId
    ensures SpentAcross(budgets, items) == Sum(items, ItemAmount)
    decreases |items|
  {
    if |items| == 0 {
      SpentAcrossEmpty(budgets);
    } else {
      assert items == [items[0]] + items[1..];
      SpentAcrossCons(budgets, items[0], items[1..]);
      ClaimedOnce(budgets, items[0]);
      forall i | 0 <= i < |items[1..]|
        ensures exists k :: 0 <= k < |budgets| && budgets[k].categoryId == items[1..][i].categoryId
      {
        assert items[1..][i] == items[i + 1];
      }
      SpentPartitionItems(budgets, items[1..]);
    }
  }

  lemma {:induction false} SumOfSpentLines(budgets: seq<BudgetLine>, items: seq<ItemLine>)
    ensures Sum(WithSpent(budgets, items), SpentAmount) == SpentAcross(budgets, items)
    decreases |budgets|
  {
    if |budgets| > 0 {
      assert WithSpent(budgets, items)[1..] == WithSpent(budgets[1..], items);
      SumOfSpentLines(budgets[1..], items);
    }
  }

  /** When the allocation lines name distinct categories and every item's
      category has a line, the per-category spends add up to the total spent:
      spending is split across the lines without loss or double counting. */
  lemma SpentPartition(
    month: Row<MonthData>,
    income: seq<Row<IncomeData>>,
    fixed: seq<Row<FixedExpenseData>>,
    budgets: seq<BudgetLine>,
    items: seq<ItemLine>)
    requires forall k, l :: 0 <= k < l < |budgets| ==> budgets[k].categoryId != budgets[l].categoryId
    requires forall i :: 0 <= i < |items| ==> exists k :: 0 <= k < |budgets| && budgets[k].categoryId == items[i].categoryId
    ensures Sum(Summarize(month, income, fixed, budgets, items).budgets, SpentAmount)
         == Summarize(month, income, fixed, budgets, items).totalSpent
  {
    SumOfSpentLines(budgets, items);
    SpentPartitionItems(budgets, items);
  }
}
