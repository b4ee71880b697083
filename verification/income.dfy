/** Income entries of a month: listed for any month the user owns, and
    created, patched or deleted only in an open month of theirs. */
module Income {
  import opened Tables
  import opened Errors
  import opened Records
  import opened Guard
  import opened Aggregation

  /** The body of an income creation. */
  datatype IncomeForm = IncomeForm(name: string, amount: Money) {
    /** A name of 1 to 100 characters and a non-negative amount. */
    predicate Valid() {
      LengthIn(name, 1, 100) && amount >= 0
    }
  }

  /** The body of an income update: an absent field keeps its value. */
  datatype IncomePatch = IncomePatch(name: Option<string>, amount: Option<Money>) {
    /** The creation constraints, on the fields that are present. */
    predicate Valid() {
      && (name.Some? ==> LengthIn(name.value, 1, 100))
      && (amount.Some? ==> amount.value >= 0)
    }
  }

  /** `list_income`: the month's entries for a month the user owns, open or
      closed; NotFound otherwise. */
  function ListIncome(s: Store, user: UserId, monthId: int): (r: Result<seq<Row<IncomeData>>>)
    ensures r.Err? <==> !OwnsMonth(s, user, monthId)
    ensures r.Err? ==> r.error == NotFound
    ensures r.Ok? ==> forall e :: e in r.value <==> e in s.income && e.data.monthId == monthId
  {
    match VerifyMonthAccess(s, user, monthId)
    case Fail(e) => Err(e)
    case Pass => Ok(MonthIncome(s, monthId))
  }

  /** `create_income`: an invalid body is refused first, then a month that is
      not an open month of the user (NotFound or closed). Otherwise one entry
      is appended under a fresh id and nothing else changes. */
  function CreateIncome(s: Store, user: UserId, monthId: int, form: IncomeForm): (r: Result<(Store, Row<IncomeData>)>)
    ensures !form.Valid() ==> r == Err(ValidationFailed)
    ensures form.Valid() ==> (r.Err? <==> VerifyMonthNotClosed(s, user, monthId).Fail?)
    ensures form.Valid() && r.Err? ==> r.error == VerifyMonthNotClosed(s, user, monthId).error
    ensures r.Ok? ==>
      var (s', entry) := r.value;
      && OwnsOpenMonth(s, user, monthId)
      && entry.data == IncomeData(monthId, form.name, form.amount)
      && !HasId(s.income, entry.id)
      && s'.income == s.income + [entry]
      && s'.(income := s.income) == s
  {
    if !form.Valid() then Err(ValidationFailed)
    else match VerifyMonthNotClosed(s, user, monthId)
      case Fail(e) => Err(e)
      case Pass =>
        var entry := Row(NextId(s.income), IncomeData(monthId, form.name, form.amount));
        Ok((s.(income := s.income + [entry]), entry))
  }

  /** Recorded income counts in its own month only: that month's total income
      and remaining balance grow by the amount, and no other month's entries
      change. */
  lemma CreateIncomeAddsToIncome(s: Store, user: UserId, monthId: int, form: IncomeForm, other: int)
    requires CreateIncome(s, user, monthId, form).Ok?
    requires other != monthId
    ensures var s' := CreateIncome(s, user, monthId, form).value.0;
      && GetMonthSummary(s, user, monthId).Ok? && GetMonthSummary(s', user, monthId).Ok?
      && GetMonthSummary(s', user, monthId).value.totalIncome == GetMonthSummary(s, user, monthId).value.totalIncome + form.amount
      && GetMonthSummary(s', user, monthId).value.remaining == GetMonthSummary(s, user, monthId).value.remaining + form.amount
      && MonthIncome(s', other) == MonthIncome(s, other)
  {
    var (s', entry) := CreateIncome(s, user, monthId, form).value;
    var i :| 0 <= i < |s.months| && s.months[i].id == monthId && s.months[i].data.userId == user && !s.months[i].data.isClosed;
    assert HasId(s.months, monthId);
    FilterAppend(s.income, [entry], IncomeOf(monthId));
    assert Filter([entry], IncomeOf(monthId)) == [entry];
    SumAppend(MonthIncome(s, monthId), [entry], IncomeAmount);
    FilterAppend(s.income, [entry], IncomeOf(other));
    assert Filter([entry], IncomeOf(other)) == [];
  }

  /** The income row `WHERE id = incomeId AND month_id = monthId`. */
  function IncomeInMonth(s: Store, monthId: int, incomeId: int): (r: Option<Row<IncomeData>>)
    ensures r.Some? ==> r.value in s.income && r.value.id == incomeId && r.value.data.monthId == monthId
    ensures r.None? <==> forall k :: 0 <= k < |s.income| ==> !(s.income[k].id == incomeId && s.income[k].data.monthId == monthId)
  {
    First(s.income, (e: Row<IncomeData>) => e.id == incomeId && e.data.monthId == monthId)
  }

  /** `update_income`: an invalid body is refused first, then a month that is
      not an open month of the user, then an entry not in that month
      (NotFound). Otherwise the entry's present fields are replaced, its month
      is kept, and nothing else changes. */
  function UpdateIncome(s: Store, user: UserId, monthId: int, incomeId: int, patch: IncomePatch): (r: Result<(Store, Row<IncomeData>)>)
    ensures !patch.Valid() ==> r == Err(ValidationFailed)
    ensures patch.Valid() && VerifyMonthNotClosed(s, user, monthId).Fail? ==> r == Err(VerifyMonthNotClosed(s, user, monthId).error)
    ensures patch.Valid() && VerifyMonthNotClosed(s, user, monthId).Pass? ==>
      (r.Err? <==> IncomeInMonth(s, monthId, incomeId).None?) && (r.Err? ==> r.error == NotFound)
    ensures r.Ok? ==>
      var (s', entry) := r.value;
      var prior := IncomeInMonth(s, monthId, incomeId).value;
      && OwnsOpenMonth(s, user, monthId)
      && entry.id == incomeId && entry.data.monthId == monthId
      && entry.data.name == (if patch.name.Some? then patch.name.value else prior.data.name)
      && entry.data.amount == (if patch.amount.Some? then patch.amount.value else prior.data.amount)
      && |s'.income| == |s.income|
      && (forall k :: 0 <= k < |s.income| && s.income[k].id != incomeId ==> s'.income[k] == s.income[k])
      && (forall k :: 0 <= k < |s.income| && s.income[k].id == incomeId ==>
            s'.income[k] == Row(incomeId, s.income[k].data.(name := entry.data.name, amount := entry.data.amount)))
      && s'.(income := s.income) == s
  {
    if !patch.Valid() then Err(ValidationFailed)
    else match VerifyMonthNotClosed(s, user, monthId)
      case Fail(e) => Err(e)
      case Pass =>
        match IncomeInMonth(s, monthId, incomeId)
        case None => Err(NotFound)
        case Some(existing) =>
          var name := patch.name.GetOr(existing.data.name);
          var amount := patch.amount.GetOr(existing.data.amount);
          var income := Update(s.income, incomeId, (d: IncomeData) => d.(name := name, amount := amount));
          Ok((s.(income := income), Row(incomeId, IncomeData(monthId, name, amount))))
  }

  /** `delete_income`: for an open month of the user, removes the entry with
      that id in that month, if any, and succeeds either way; nothing else
      changes. */
  function DeleteIncome(s: Store, user: UserId, monthId: int, incomeId: int): (r: Result<Store>)
    ensures r.Err? <==> VerifyMonthNotClosed(s, user, monthId).Fail?
    ensures r.Err? ==> r.error == VerifyMonthNotClosed(s, user, monthId).error
    ensures r.Ok? ==> forall e :: e in r.value.income <==> e in s.income && !(e.id == incomeId && e.data.monthId == monthId)
    ensures r.Ok? ==> r.value.(income := s.income) == s
  {
    match VerifyMonthNotClosed(s, user, monthId)
    case Fail(e) => Err(e)
    case Pass => Ok(s.(income := Filter(s.income, (e: Row<IncomeData>) => !(e.id == incomeId && e.data.monthId == monthId))))
  }

  /** Deleting an entry removes its amount from the month's total income:
      under unique ids, the month's income after the delete plus the removed
      amount is the income before. */
  lemma DeleteIncomeSubtracts(s: Store, user: UserId, monthId: int, k: int)
    requires UniqueIds(s.income)
    requires 0 <= k < |s.income| && s.income[k].data.monthId == monthId
    requires DeleteIncome(s, user, monthId, s.income[k].id).Ok?
    ensures Sum(MonthIncome(DeleteIncome(s, user, monthId, s.income[k].id).value, monthId), IncomeAmount) + s.income[k].data.amount
         == Sum(MonthIncome(s, monthId), IncomeAmount)
  {
    var id := s.income[k].id;
    var q := (e: Row<IncomeData>) => !(e.id == id && e.data.monthId == monthId);
    FilterDropOne(s.income, q, IncomeOf(monthId), k);
  }

  /** Removing the one row `q` rejects, among the rows `p` selects, lowers
      their sum by that row's amount. */
  lemma {:induction false} FilterDropOne(t: Table<IncomeData>, q: Row<IncomeData> -> bool, p: Row<IncomeData> -> bool, k: int)
    requires 0 <= k < |t| && p(t[k]) && !q(t[k])
    requires forall j :: 0 <= j < |t| && j != k ==> q(t[j])
    ensures Sum(Filter(Filter(t, q), p), IncomeAmount) + t[k].data.amount == Sum(Filter(t, p), IncomeAmount)
    decreases |t|
  {
    FilterSumsSplit(t, q, p);
    if k == 0 {
      assert Filter(Filter([t[0]], q), p) == [];
      assert Filter([t[0]], p) == [t[0]];
      assert forall j :: 0 <= j < |t[1..]| ==> q(t[1..][j]) by {
        forall j | 0 <= j < |t[1..]| ensures q(t[1..][j]) {
          assert t[1..][j] == t[j + 1];
        }
      }
      FilterAll(t[1..], q);
    } else {
      assert Filter([t[0]], q) == [t[0]];
      forall j | 0 <= j < |t[1..]| && j != k - 1
        ensures q(t[1..][j])
      {
        assert t[1..][j] == t[j + 1];
      }
      FilterDropOne(t[1..], q, p, k - 1);
    }
  }

  /** Both sides of `FilterDropOne` split into the head row's share and the
      tail's. */
  lemma FilterSumsSplit(t: Table<IncomeData>, q: Row<IncomeData> -> bool, p: Row<IncomeData> -> bool)
    requires |t| > 0
    ensures Sum(Filter(Filter(t, q), p), IncomeAmount)
         == Sum(Filter(Filter([t[0]], q), p), IncomeAmount) + Sum(Filter(Filter(t[1..], q), p), IncomeAmount)
    ensures Sum(Filter(t, p), IncomeAmount) == Sum(Filter([t[0]], p), IncomeAmount) + Sum(Filter(t[1..], p), IncomeAmount)
  {
    assert t == [t[0]] + t[1..];
    FilterAppend([t[0]], t[1..], q);
    FilterAppend(Filter([t[0]], q), Filter(t[1..], q), p);
    SumAppend(Filter(Filter([t[0]], q), p), Filter(Filter(t[1..], q), p), IncomeAmount);
    FilterAppend([t[0]], t[1..], p);
    SumAppend(Filter([t[0]], p), Filter(t[1..], p), IncomeAmount);
  }
}
