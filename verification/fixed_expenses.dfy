/** Recurring expenses of a user. They carry no month: every month's summary
    counts all of its owner's fixed expenses, so an edit here shows in every
    month, closed ones included. */
module FixedExpenses {
  import opened Tables
  import opened Errors
  import opened Records
  import opened Aggregation

  /** The body of a fixed-expense update: an absent field keeps its value. */
  datatype FixedExpensePatch = FixedExpensePatch(name: Option<string>, amount: Option<Money>)

  /** `create_fixed_expense`: no field is validated, so any name and any
      amount, negative included, is stored under the caller under a fresh id;
      nothing else changes. */
  function CreateFixedExpense(s: Store, user: UserId, name: string, amount: Money): (r: Result<(Store, Row<FixedExpenseData>)>)
    ensures r.Ok?
    ensures var (s', e) := r.value;
      && e.data == FixedExpenseData(user, name, amount)
      && !HasId(s.fixedExpenses, e.id)
      && s'.fixedExpenses == s.fixedExpenses + [e]
      && s'.(fixedExpenses := s.fixedExpenses) == s
  {
    var e := Row(NextId(s.fixedExpenses), FixedExpenseData(user, name, amount));
    Ok((s.(fixedExpenses := s.fixedExpenses + [e]), e))
  }

  /** A new fixed expense is counted into every month's summary at once: each
      existing month's total fixed grows by its amount and its remaining
      balance shrinks by it. */
  lemma CreateFixedExpenseIsRetroactive(s: Store, user: UserId, name: string, amount: Money, monthId: int)
    requires HasId(s.months, monthId)
    ensures var s' := CreateFixedExpense(s, user, name, amount).value.0;
      && GetMonthSummary(s, user, monthId).Ok? && GetMonthSummary(s', user, monthId).Ok?
      && GetMonthSummary(s', user, monthId).value.totalFixed == GetMonthSummary(s, user, monthId).value.totalFixed + amount
      && GetMonthSummary(s', user, monthId).value.remaining == GetMonthSummary(s, user, monthId).value.remaining - amount
  {
    var e := CreateFixedExpense(s, user, name, amount).value.1;
    FilterAppend(s.fixedExpenses, [e], FixedOf(user));
    assert Filter([e], FixedOf(user)) == [e];
    SumAppend(UserFixedExpenses(s, user), [e], FixedAmount);
  }

  /** The fixed-expense row `WHERE id = expenseId AND user_id = user`. */
  function OwnedFixedExpense(s: Store, user: UserId, expenseId: int): (r: Option<Row<FixedExpenseData>>)
    ensures r.Some? ==> r.value in s.fixedExpenses && r.value.id == expenseId && r.value.data.userId == user
    ensures r.None? <==> forall k :: 0 <= k < |s.fixedExpenses| ==>
      !(s.fixedExpenses[k].id == expenseId && s.fixedExpenses[k].data.userId == user)
  {
    First(s.fixedExpenses, (e: Row<FixedExpenseData>) => e.id == expenseId && e.data.userId == user)
  }

  /** `update_fixed_expense`: NotFound for an expense the caller does not own;
      otherwise the present fields are replaced, the owner is kept, and
      nothing else changes. */
  function UpdateFixedExpense(s: Store, user: UserId, expenseId: int, patch: FixedExpensePatch): (r: Result<(Store, Row<FixedExpenseData>)>)
    ensures r.Err? <==> OwnedFixedExpense(s, user, expenseId).None?
    ensures r.Err? ==> r.error == NotFound
    ensures r.Ok? ==>
      var (s', e) := r.value;
      var prior := OwnedFixedExpense(s, user, expenseId).value;
      && e.id == expenseId && e.data.userId == user
      && e.data.name == (if patch.name.Some? then patch.name.value else prior.data.name)
      && e.data.amount == (if patch.amount.Some? then patch.amount.value else prior.data.amount)
      && |s'.fixedExpenses| == |s.fixedExpenses|
      && (forall k :: 0 <= k < |s.fixedExpenses| && s.fixedExpenses[k].id != expenseId ==> s'.fixedExpenses[k] == s.fixedExpenses[k])
      && (forall k :: 0 <= k < |s.fixedExpenses| && s.fixedExpenses[k].id == expenseId ==>
            s'.fixedExpenses[k] == Row(expenseId, s.fixedExpenses[k].data.(name := e.data.name, amount := e.data.amount)))
      && s'.(fixedExpenses := s.fixedExpenses) == s
  {
    match OwnedFixedExpense(s, user, expenseId)
    case None => Err(NotFound)
    case Some(existing) =>
      var name := patch.name.GetOr(existing.data.name);
      var amount := patch.amount.GetOr(existing.data.amount);
      var expenses := Update(s.fixedExpenses, expenseId, (d: FixedExpenseData) => d.(name := name, amount := amount));
      Ok((s.(fixedExpenses := expenses), Row(expenseId, FixedExpenseData(user, name, amount))))
  }

  /** Editing a fixed expense rewrites history: under unique ids, every
      month's total fixed moves by the change in the amount, closed months
      included. */
  lemma UpdateFixedExpenseIsRetroactive(s: Store, user: UserId, expenseId: int, patch: FixedExpensePatch, monthId: int)
    requires UniqueIds(s.fixedExpenses)
    requires HasId(s.months, monthId)
    requires UpdateFixedExpense(s, user, expenseId, patch).Ok?
    ensures var (s', e) := UpdateFixedExpense(s, user, expenseId, patch).value;
      var prior := OwnedFixedExpense(s, user, expenseId).value;
      && GetMonthSummary(s, user, monthId).Ok? && GetMonthSummary(s', user, monthId).Ok?
      && GetMonthSummary(s', user, monthId).value.totalFixed
         == GetMonthSummary(s, user, monthId).value.totalFixed - prior.data.amount + e.data.amount
  {
    var (s', e) := UpdateFixedExpense(s, user, expenseId, patch).value;
    var prior := OwnedFixedExpense(s, user, expenseId).value;
    var k :| 0 <= k < |s.fixedExpenses| && s.fixedExpenses[k] == prior;
    var f := (d: FixedExpenseData) => d.(name := e.data.name, amount := e.data.amount);
    assert s'.fixedExpenses == Update(s.fixedExpenses, expenseId, f);
    FixedSumAfterUpdate(s.fixedExpenses, user, expenseId, f, k);
  }

  /** Rewriting the one row with a given id, keeping its owner, moves the
      owner's fixed total by the change in that row's amount. */
  lemma {:induction false} FixedSumAfterUpdate(t: Table<FixedExpenseData>, user: UserId, id: int, f: FixedExpenseData -> FixedExpenseData, k: int)
    requires UniqueIds(t)
    requires 0 <= k < |t| && t[k].id == id && t[k].data.userId == user && f(t[k].data).userId == user
    ensures Sum(Filter(Update(t, id, f), FixedOf(user)), FixedAmount)
         == Sum(Filter(t, FixedOf(user)), FixedAmount) - t[k].data.amount + f(t[k].data).amount
    decreases |t|
  {
    var u := Update(t, id, f);
    assert u == [u[0]] + Update(t[1..], id, f);
    FilterAppend([u[0]], Update(t[1..], id, f), FixedOf(user));
    assert t == [t[0]] + t[1..];
    FilterAppend([t[0]], t[1..], FixedOf(user));
    SumAppend(Filter([u[0]], FixedOf(user)), Filter(Update(t[1..], id, f), FixedOf(user)), FixedAmount);
    SumAppend(Filter([t[0]], FixedOf(user)), Filter(t[1..], FixedOf(user)), FixedAmount);
    UniqueTail(t);
    if k == 0 {
      UpdateAbsent(t[1..], id, f);
    } else {
      FixedSumAfterUpdate(t[1..], user, id, f, k - 1);
    }
  }

  /** `delete_fixed_expense`: removes the expense matching both the id and the
      owner, if any, and succeeds either way; nothing else changes. */
  function DeleteFixedExpense(s: Store, user: UserId, expenseId: int): (r: Result<Store>)
    ensures r.Ok?
    ensures forall e :: e in r.value.fixedExpenses <==> e in s.fixedExpenses && !(e.id == expenseId && e.data.userId == user)
    ensures r.value.(fixedExpenses := s.fixedExpenses) == s
  {
    Ok(s.(fixedExpenses := Filter(s.fixedExpenses, (e: Row<FixedExpenseData>) => !(e.id == expenseId && e.data.userId == user))))
  }

  /** Deleting leaves the caller no expense by that id and leaves every other
      user's expenses, and so their months' fixed totals, as they were. */
  lemma DeleteFixedExpenseIsScoped(s: Store, user: UserId, expenseId: int, other: UserId)
    requires other != user
    ensures OwnedFixedExpense(DeleteFixedExpense(s, user, expenseId).value, user, expenseId).None?
    ensures UserFixedExpenses(DeleteFixedExpense(s, user, expenseId).value, other) == UserFixedExpenses(s, other)
  {
    FilterWithin(s.fixedExpenses, (e: Row<FixedExpenseData>) => !(e.id == expenseId && e.data.userId == user), FixedOf(other));
  }
}
