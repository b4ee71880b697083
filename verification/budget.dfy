/** The category template registry and the per-month allocations: templates
    are created (and pushed into the user's open months), patched and deleted
    by their owner; an allocation of an open month can have its amount set. */
module Budget {
  import opened Tables
  import opened Errors
  import opened Records
  import opened Guard

  /** The body of a category creation. */
  datatype CategoryForm = CategoryForm(name: string, defaultAmount: Money) {
    /** A name of 1 to 100 characters and a non-negative default. */
    predicate Valid() {
      LengthIn(name, 1, 100) && defaultAmount >= 0
    }
  }

  /** The body of a category update: an absent field keeps its value. */
  datatype CategoryPatch = CategoryPatch(name: Option<string>, defaultAmount: Option<Money>) {
    /** The creation constraints, on the fields that are present. */
    predicate Valid() {
      && (name.Some? ==> LengthIn(name.value, 1, 100))
      && (defaultAmount.Some? ==> defaultAmount.value >= 0)
    }
  }

  /** The user's months that are still open. */
  function OpenMonthsOf(s: Store, user: UserId): (r: seq<Row<MonthData>>)
    ensures forall m :: m in r <==> m in s.months && m.data.userId == user && !m.data.isClosed
  {
    Filter(s.months, (m: Row<MonthData>) => m.data.userId == user && !m.data.isClosed)
  }

  /** One allocation of `amount` for category `categoryId` in each of `months`. */
  function Propagation(months: seq<Row<MonthData>>, categoryId: int, amount: Money): (r: seq<BudgetData>)
    ensures |r| == |months|
    ensures forall k :: 0 <= k < |months| ==> r[k] == BudgetData(months[k].id, categoryId, amount)
  {
    seq(|months|, k requires 0 <= k < |months| => BudgetData(months[k].id, categoryId, amount))
  }

  /** `create_category`: an invalid body is refused before anything is written.
      Otherwise the template is stored under a fresh id and each open month of
      the user gains an allocation for it at the default amount, unless that
      month already has one for the id; closed months and other users' months
      get nothing, and no other table changes. */
  function CreateCategory(s: Store, user: UserId, form: CategoryForm): (r: Result<(Store, Row<CategoryData>)>)
    ensures r.Err? <==> !form.Valid()
    ensures r.Err? ==> r.error == ValidationFailed
    ensures r.Ok? ==>
      var (s', c) := r.value;
      && c.data == CategoryData(user, form.name, form.defaultAmount)
      && !HasId(s.categories, c.id)
      && s'.categories == s.categories + [c]
      && s'.(categories := s.categories, budgets := s.budgets) == s
    ensures r.Ok? ==>
      var (s', c) := r.value;
      && s.budgets <= s'.budgets
      && (forall m :: m in s.months && m.data.userId == user && !m.data.isClosed ==> HasAllocation(s'.budgets, m.id, c.id))
      && (forall j :: |s.budgets| <= j < |s'.budgets| ==>
            && s'.budgets[j].data.categoryId == c.id
            && s'.budgets[j].data.allocatedAmount == form.defaultAmount
            && exists m :: m in s.months && m.data.userId == user && !m.data.isClosed && m.id == s'.budgets[j].data.monthId)
  {
    if !form.Valid() then Err(ValidationFailed)
    else
      var id := NextId(s.categories);
      var c := Row(id, CategoryData(user, form.name, form.defaultAmount));
      var open := OpenMonthsOf(s, user);
      var rows := Propagation(open, id, form.defaultAmount);
      var budgets := AllocateAll(s.budgets, rows);
      PropagationReachesOpenMonths(s, user, id, form.defaultAmount);
      Ok((s.(categories := s.categories + [c], budgets := budgets), c))
  }

  lemma PropagationReachesOpenMonths(s: Store, user: UserId, id: int, amount: Money)
    ensures var b' := AllocateAll(s.budgets, Propagation(OpenMonthsOf(s, user), id, amount));
      && (forall m :: m in s.months && m.data.userId == user && !m.data.isClosed ==> HasAllocation(b', m.id, id))
      && (forall j :: |s.budgets| <= j < |b'| ==>
            && b'[j].data.categoryId == id
            && b'[j].data.allocatedAmount == amount
            && exists m :: m in s.months && m.data.userId == user && !m.data.isClosed && m.id == b'[j].data.monthId)
  {
    var open := OpenMonthsOf(s, user);
    var rows := Propagation(open, id, amount);
    var b' := AllocateAll(s.budgets, rows);
    forall m | m in s.months && m.data.userId == user && !m.data.isClosed
      ensures HasAllocation(b', m.id, id)
    {
      var k :| 0 <= k < |open| && open[k] == m;
      assert rows[k].monthId == m.id && rows[k].categoryId == id;
    }
    forall j | |s.budgets| <= j < |b'|
      ensures b'[j].data.categoryId == id && b'[j].data.allocatedAmount == amount
      ensures exists m :: m in s.months && m.data.userId == user && !m.data.isClosed && m.id == b'[j].data.monthId
    {
      var k :| 0 <= k < |rows| && rows[k] == b'[j].data;
      assert open[k] in open;
    }
  }

  /** When no allocation names the new id yet, creating a category inserts
      exactly one allocation per open month of the user, in month order, each
      at the default amount. */
  lemma CreateCategoryFillsOpenMonths(s: Store, user: UserId, form: CategoryForm)
    requires UniqueIds(s.months)
    requires form.Valid()
    requires forall i :: 0 <= i < |s.budgets| ==> s.budgets[i].data.categoryId != NextId(s.categories)
    ensures var (s', c) := CreateCategory(s, user, form).value;
      var open := OpenMonthsOf(s, user);
      && |s'.budgets| == |s.budgets| + |open|
      && forall k :: 0 <= k < |open| ==>
           s'.budgets[|s.budgets| + k].data == BudgetData(open[k].id, c.id, form.defaultAmount)
  {
    var id := NextId(s.categories);
    var open := OpenMonthsOf(s, user);
    var rows := Propagation(open, id, form.defaultAmount);
    assert forall k :: 0 <= k < |rows| ==> !HasAllocation(s.budgets, rows[k].monthId, rows[k].categoryId);
    UniqueFilter(s.months, (m: Row<MonthData>) => m.data.userId == user && !m.data.isClosed);
    AllocateAllFresh(s.budgets, rows);
    var b' := AllocateAll(s.budgets, rows);
    assert CreateCategory(s, user, form).value.0.budgets == b';
    forall k | 0 <= k < |open|
      ensures b'[|s.budgets| + k].data == BudgetData(open[k].id, id, form.defaultAmount)
    {
      assert b'[|s.budgets| + k].data == rows[k];
    }
  }

  /** Propagation is insert-or-ignore: an allocation a month already has for
      the new category id keeps its amount, and the creation still succeeds. */
  lemma CreateCategoryKeepsExistingAllocation(s: Store, user: UserId, form: CategoryForm, j: int)
    requires form.Valid()
    requires 0 <= j < |s.budgets| && s.budgets[j].data.categoryId == NextId(s.categories)
    ensures CreateCategory(s, user, form).Ok?
    ensures CreateCategory(s, user, form).value.0.budgets[j] == s.budgets[j]
  {
  }

  /** The fields an update writes: each present field replaces the stored one. */
  function Patched(c: CategoryData, patch: CategoryPatch): CategoryData {
    c.(name := patch.name.GetOr(c.name), defaultAmount := patch.defaultAmount.GetOr(c.defaultAmount))
  }

  /** `update_category`: an invalid body is refused first, then a category the
      user does not own is NotFound. Otherwise the template's present fields
      are replaced, its owner and every other template are kept, and no
      allocation or other table changes. */
  function UpdateCategory(s: Store, user: UserId, categoryId: int, patch: CategoryPatch): (r: Result<(Store, Row<CategoryData>)>)
    ensures !patch.Valid() ==> r == Err(ValidationFailed)
    ensures patch.Valid() ==> (r == Err(NotFound) <==> OwnedCategory(s, user, categoryId).None?)
    ensures r.Err? ==> r.error == ValidationFailed || r.error == NotFound
    ensures r.Ok? <==> patch.Valid() && OwnedCategory(s, user, categoryId).Some?
    ensures r.Ok? ==>
      var (s', c) := r.value;
      var prior := OwnedCategory(s, user, categoryId).value;
      && c.id == categoryId
      && c.data.userId == user
      && c.data.name == (if patch.name.Some? then patch.name.value else prior.data.name)
      && c.data.defaultAmount == (if patch.defaultAmount.Some? then patch.defaultAmount.value else prior.data.defaultAmount)
      && |s'.categories| == |s.categories|
      && (forall k :: 0 <= k < |s.categories| && s.categories[k].id != categoryId ==> s'.categories[k] == s.categories[k])
      && (forall k :: 0 <= k < |s.categories| && s.categories[k].id == categoryId ==>
            s'.categories[k] == Row(categoryId, s.categories[k].data.(name := c.data.name, defaultAmount := c.data.defaultAmount)))
      && s'.(categories := s.categories) == s
  {
    if !patch.Valid() then Err(ValidationFailed)
    else match OwnedCategory(s, user, categoryId)
      case None => Err(NotFound)
      case Some(existing) =>
        var data := Patched(existing.data, patch);
        var categories := Update(s.categories, categoryId, (c: CategoryData) => c.(name := data.name, defaultAmount := data.defaultAmount));
        Ok((s.(categories := categories), Row(categoryId, data)))
  }

  /** Under unique ids the updated template reads back as the row the update
      returned, and an update that supplies no field writes nothing. */
  lemma UpdateCategoryReadsBack(s: Store, user: UserId, categoryId: int, patch: CategoryPatch)
    requires UniqueIds(s.categories)
    requires UpdateCategory(s, user, categoryId, patch).Ok?
    ensures var (s', c) := UpdateCategory(s, user, categoryId, patch).value;
      OwnedCategory(s', user, categoryId) == Some(c)
    ensures patch.name.None? && patch.defaultAmount.None? ==>
      UpdateCategory(s, user, categoryId, patch).value.0 == s
  {
    var (s', c) := UpdateCategory(s, user, categoryId, patch).value;
    var p := (x: Row<CategoryData>) => x.id == categoryId && x.data.userId == user;
    var i := FirstIndex(s.categories, p);
    assert s'.categories[i] == c;
    UniqueUpdate(s.categories, categoryId, (x: CategoryData) => x.(name := c.data.name, defaultAmount := c.data.defaultAmount));
    FirstOfSingle(s'.categories, p, i);
    if patch.name.None? && patch.defaultAmount.None? {
      assert s'.categories[i] == s.categories[i];
      assert s'.categories == s.categories;
    }
  }

  /** `delete_category`: removes the template matching both the id and the
      owner, if any, and succeeds either way; allocations and items that name
      it are left in place, and nothing else changes. */
  function DeleteCategory(s: Store, user: UserId, categoryId: int): (r: Result<Store>)
    ensures r.Ok?
    ensures forall c :: c in r.value.categories <==> c in s.categories && !(c.id == categoryId && c.data.userId == user)
    ensures r.value.(categories := s.categories) == s
  {
    Ok(s.(categories := Filter(s.categories, (c: Row<CategoryData>) => !(c.id == categoryId && c.data.userId == user))))
  }

  /** Deleting a template leaves the caller no template by that id, and leaves
      every other user's templates exactly as they were. */
  lemma DeleteCategoryIsScoped(s: Store, user: UserId, categoryId: int, other: UserId)
    requires other != user
    ensures OwnedCategory(DeleteCategory(s, user, categoryId).value, user, categoryId).None?
    ensures UserCategories(DeleteCategory(s, user, categoryId).value, other) == UserCategories(s, other)
  {
    var p := (c: Row<CategoryData>) => !(c.id == categoryId && c.data.userId == user);
    var q := (c: Row<CategoryData>) => c.data.userId == other;
    FilterWithin(s.categories, p, q);
  }

  /** `list_monthly_budgets`: the month's allocation rows for a month the user
      owns, open or closed; NotFound otherwise. */
  function ListMonthlyBudgets(s: Store, user: UserId, monthId: int): (r: Result<seq<Row<BudgetData>>>)
    ensures r.Err? <==> !OwnsMonth(s, user, monthId)
    ensures r.Err? ==> r.error == NotFound
    ensures r.Ok? ==> forall b :: b in r.value <==> b in s.budgets && b.data.monthId == monthId
  {
    match VerifyMonthAccess(s, user, monthId)
    case Fail(e) => Err(e)
    case Pass => Ok(Filter(s.budgets, (b: Row<BudgetData>) => b.data.monthId == monthId))
  }

  /** `update_monthly_budget`: a negative amount is refused first, then a month
      the user does not own (NotFound), then a closed month, then an allocation
      that is not in that month (NotFound). Otherwise only the amount of that
      allocation changes; its month and category are kept. */
  function UpdateMonthlyBudget(s: Store, user: UserId, monthId: int, budgetId: int, amount: Money): (r: Result<(Store, Row<BudgetData>)>)
    ensures amount < 0 ==> r == Err(ValidationFailed)
    ensures amount >= 0 && !OwnsMonth(s, user, monthId) ==> r == Err(NotFound)
    ensures amount >= 0 && OwnsMonth(s, user, monthId) && VerifyMonthNotClosed(s, user, monthId) != Pass ==> r == Err(MonthIsClosed)
    ensures amount >= 0 && VerifyMonthNotClosed(s, user, monthId) == Pass ==>
      (r == Err(NotFound) <==> forall k :: 0 <= k < |s.budgets| ==> !(s.budgets[k].id == budgetId && s.budgets[k].data.monthId == monthId))
    ensures r.Ok? <==>
      && amount >= 0 && VerifyMonthNotClosed(s, user, monthId) == Pass
      && exists k :: 0 <= k < |s.budgets| && s.budgets[k].id == budgetId && s.budgets[k].data.monthId == monthId
    ensures r.Ok? ==>
      var (s', b) := r.value;
      && OwnsOpenMonth(s, user, monthId)
      && b.id == budgetId && b.data.monthId == monthId && b.data.allocatedAmount == amount
      && (exists k :: 0 <= k < |s.budgets| && s.budgets[k].id == budgetId && s.budgets[k].data.monthId == monthId
                      && s.budgets[k].data.categoryId == b.data.categoryId)
      && |s'.budgets| == |s.budgets|
      && (forall k :: 0 <= k < |s.budgets| && s.budgets[k].id != budgetId ==> s'.budgets[k] == s.budgets[k])
      && (forall k :: 0 <= k < |s.budgets| && s.budgets[k].id == budgetId ==>
            s'.budgets[k] == Row(budgetId, s.budgets[k].data.(allocatedAmount := amount)))
      && s'.(budgets := s.budgets) == s
  {
    if amount < 0 then Err(ValidationFailed)
    else match VerifyMonthNotClosed(s, user, monthId)
      case Fail(e) => Err(e)
      case Pass =>
        match First(s.budgets, (b: Row<BudgetData>) => b.id == budgetId && b.data.monthId == monthId)
        case None => Err(NotFound)
        case Some(existing) =>
          var budgets := Update(s.budgets, budgetId, (b: BudgetData) => b.(allocatedAmount := amount));
          Ok((s.(budgets := budgets), Row(budgetId, BudgetData(monthId, existing.data.categoryId, amount))))
  }
}
