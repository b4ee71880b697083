/** Spending items of a month: listed for any month the user owns, and
    created, patched or deleted only in an open month of theirs. */
module Items {
  import opened Tables
  import opened Errors
  import opened Records
  import opened Guard
  import opened Aggregation

  /** The body of an item creation. */
  datatype ItemForm = ItemForm(categoryId: int, description: string, amount: Money, spentOn: Date) {
    /** A description of 1 to 200 characters and a non-negative amount. */
    predicate Valid() {
      LengthIn(description, 1, 200) && amount >= 0
    }
  }

  /** The body of an item update: an absent field keeps its value. */
  datatype ItemPatch = ItemPatch(categoryId: Option<int>, description: Option<string>, amount: Option<Money>, spentOn: Option<Date>) {
    /** The creation constraints, on the fields that are present. */
    predicate Valid() {
      && (description.Some? ==> LengthIn(description.value, 1, 200))
      && (amount.Some? ==> amount.value >= 0)
    }
  }

  /** `list_items`: the month's items joined to their categories, for a month
      the user owns whether open or closed; NotFound otherwise. An item whose
      category is gone is not listed. */
  function ListItems(s: Store, user: UserId, monthId: int): (r: Result<seq<ItemLine>>)
    ensures r.Err? <==> !OwnsMonth(s, user, monthId)
    ensures r.Err? ==> r.error == NotFound
    ensures r.Ok? ==> forall l :: l in r.value ==>
      && l.monthId == monthId && HasId(s.categories, l.categoryId)
      && exists i :: i in s.items && i.id == l.id && i.data.monthId == monthId
                     && i.data.categoryId == l.categoryId && i.data.amount == l.amount
    ensures r.Ok? ==> forall i :: i in s.items && i.data.monthId == monthId && HasId(s.categories, i.data.categoryId) ==>
      exists l :: l in r.value && l.id == i.id && l.categoryId == i.data.categoryId && l.amount == i.data.amount
  {
    match VerifyMonthAccess(s, user, monthId)
    case Fail(e) => Err(e)
    case Pass =>
      ItemJoinDropsOrphans(s, monthId);
      Ok(MonthItems(s, monthId))
  }

  /** `create_item`: an invalid body is refused first, then a month that is not
      an open month of the user (NotFound or closed), then a category the user
      does not own (invalid category). Otherwise one item is appended under a
      fresh id and nothing else changes. */
  function CreateItem(s: Store, user: UserId, monthId: int, form: ItemForm): (r: Result<(Store, Row<ItemData>)>)
    ensures !form.Valid() ==> r == Err(ValidationFailed)
    ensures form.Valid() && VerifyMonthNotClosed(s, user, monthId).Fail? ==> r == Err(VerifyMonthNotClosed(s, user, monthId).error)
    ensures form.Valid() && VerifyMonthNotClosed(s, user, monthId).Pass? ==>
      (r == Err(InvalidCategory) <==> !OwnsCategory(s, user, form.categoryId))
    ensures r.Ok? <==> form.Valid() && VerifyMonthNotClosed(s, user, monthId).Pass? && OwnsCategory(s, user, form.categoryId)
    ensures r.Ok? ==>
      var (s', item) := r.value;
      && OwnsOpenMonth(s, user, monthId) && OwnsCategory(s, user, form.categoryId)
      && item.data == ItemData(monthId, form.categoryId, form.description, form.amount, form.spentOn)
      && !HasId(s.items, item.id)
      && s'.items == s.items + [item]
      && s'.(items := s.items) == s
  {
    if !form.Valid() then Err(ValidationFailed)
    else match VerifyMonthNotClosed(s, user, monthId)
      case Fail(e) => Err(e)
      case Pass =>
        if OwnedCategory(s, user, form.categoryId).None? then Err(InvalidCategory)
        else
          var item := Row(NextId(s.items), ItemData(monthId, form.categoryId, form.description, form.amount, form.spentOn));
          Ok((s.(items := s.items + [item]), item))
  }

  /** A created item is spent in its month: the month's total spent grows by
      its amount and the remaining balance shrinks by it, while every other
      month's item list is as before. */
  lemma CreateItemAddsToSpent(s: Store, user: UserId, monthId: int, form: ItemForm, other: int)
    requires CreateItem(s, user, monthId, form).Ok?
    requires other != monthId
    ensures var s' := CreateItem(s, user, monthId, form).value.0;
      && GetMonthSummary(s, user, monthId).Ok? && GetMonthSummary(s', user, monthId).Ok?
      && GetMonthSummary(s', user, monthId).value.totalSpent == GetMonthSummary(s, user, monthId).value.totalSpent + form.amount
      && GetMonthSummary(s', user, monthId).value.remaining == GetMonthSummary(s, user, monthId).value.remaining - form.amount
      && MonthItems(s', other) == MonthItems(s, other)
  {
    var (s', item) := CreateItem(s, user, monthId, form).value;
    var i :| 0 <= i < |s.months| && s.months[i].id == monthId && s.months[i].data.userId == user && !s.months[i].data.isClosed;
    assert HasId(s.months, monthId);
    var c :| 0 <= c < |s.categories| && s.categories[c].id == form.categoryId && s.categories[c].data.userId == user;
    assert HasId(s.categories, form.categoryId);
    var f := ItemJoin(s.categories, monthId);
    CollectAppend(s.items, [item], f);
    assert f(item).Some?;
    var line := f(item).value;
    assert Collect([item], f) == [line];
    assert MonthItems(s', monthId) == MonthItems(s, monthId) + [line];
    SumAppend(MonthItems(s, monthId), [line], ItemAmount);
    var g := ItemJoin(s.categories, other);
    CollectAppend(s.items, [item], g);
    assert Collect([item], g) == [];
  }

  /** The fields an item update writes: each present field replaces the stored one. */
  function PatchedItem(d: ItemData, patch: ItemPatch): ItemData {
    d.(categoryId := patch.categoryId.GetOr(d.categoryId),
       description := patch.description.GetOr(d.description),
       amount := patch.amount.GetOr(d.amount),
       spentOn := patch.spentOn.GetOr(d.spentOn))
  }

  /** The item row `WHERE id = itemId AND month_id = monthId`. */
  function ItemInMonth(s: Store, monthId: int, itemId: int): (r: Option<Row<ItemData>>)
    ensures r.Some? ==> r.value in s.items && r.value.id == itemId && r.value.data.monthId == monthId
    ensures r.None? <==> forall k :: 0 <= k < |s.items| ==> !(s.items[k].id == itemId && s.items[k].data.monthId == monthId)
  {
    First(s.items, (i: Row<ItemData>) => i.id == itemId && i.data.monthId == monthId)
  }

  /** `update_item`: an invalid body is refused first, then a month that is not
      an open month of the user, then an item not in that month (NotFound), and
      then, only when the patch names a category, a category the user does not
      own. Otherwise the item's present fields are replaced, its month is kept,
      and nothing else changes. */
  function UpdateItem(s: Store, user: UserId, monthId: int, itemId: int, patch: ItemPatch): (r: Result<(Store, Row<ItemData>)>)
    ensures !patch.Valid() ==> r == Err(ValidationFailed)
    ensures patch.Valid() && VerifyMonthNotClosed(s, user, monthId).Fail? ==> r == Err(VerifyMonthNotClosed(s, user, monthId).error)
    ensures patch.Valid() && VerifyMonthNotClosed(s, user, monthId).Pass? ==>
      (r == Err(NotFound) <==> ItemInMonth(s, monthId, itemId).None?)
    ensures patch.Valid() && VerifyMonthNotClosed(s, user, monthId).Pass? && ItemInMonth(s, monthId, itemId).Some? ==>
      (r == Err(InvalidCategory) <==> patch.categoryId.Some? && !OwnsCategory(s, user, patch.categoryId.value))
    ensures r.Ok? <==>
      && patch.Valid() && VerifyMonthNotClosed(s, user, monthId).Pass? && ItemInMonth(s, monthId, itemId).Some?
      && (patch.categoryId.Some? ==> OwnsCategory(s, user, patch.categoryId.value))
    ensures r.Ok? ==>
      var (s', item) := r.value;
      var prior := ItemInMonth(s, monthId, itemId).value;
      && OwnsOpenMonth(s, user, monthId)
      && item.id == itemId && item.data.monthId == monthId
      && item.data.categoryId == (if patch.categoryId.Some? then patch.categoryId.value else prior.data.categoryId)
      && item.data.description == (if patch.description.Some? then patch.description.value else prior.data.description)
      && item.data.amount == (if patch.amount.Some? then patch.amount.value else prior.data.amount)
      && item.data.spentOn == (if patch.spentOn.Some? then patch.spentOn.value else prior.data.spentOn)
      && |s'.items| == |s.items|
      && (forall k :: 0 <= k < |s.items| && s.items[k].id != itemId ==> s'.items[k] == s.items[k])
      && (forall k :: 0 <= k < |s.items| && s.items[k].id == itemId ==>
            s'.items[k] == Row(itemId, s.items[k].data.(categoryId := item.data.categoryId, description := item.data.description,
                                                          amount := item.data.amount, spentOn := item.data.spentOn)))
      && s'.(items := s.items) == s
  {
    if !patch.Valid() then Err(ValidationFailed)
    else match VerifyMonthNotClosed(s, user, monthId)
      case Fail(e) => Err(e)
      case Pass =>
        match ItemInMonth(s, monthId, itemId)
        case None => Err(NotFound)
        case Some(existing) =>
          var data := PatchedItem(existing.data, patch);
          if patch.categoryId.Some? && OwnedCategory(s, user, data.categoryId).None? then Err(InvalidCategory)
          else
            var items := Update(s.items, itemId, (d: ItemData) =>
              d.(categoryId := data.categoryId, description := data.description, amount := data.amount, spentOn := data.spentOn));
            Ok((s.(items := items), Row(itemId, data.(monthId := monthId))))
  }

  /** `delete_item`: for an open month of the user, removes the item with that
      id in that month, if any, and succeeds either way; nothing else changes. */
  function DeleteItem(s: Store, user: UserId, monthId: int, itemId: int): (r: Result<Store>)
    ensures r.Err? <==> VerifyMonthNotClosed(s, user, monthId).Fail?
    ensures r.Err? ==> r.error == VerifyMonthNotClosed(s, user, monthId).error
    ensures r.Ok? ==> forall i :: i in r.value.items <==> i in s.items && !(i.id == itemId && i.data.monthId == monthId)
    ensures r.Ok? ==> r.value.(items := s.items) == s
  {
    match VerifyMonthNotClosed(s, user, monthId)
    case Fail(e) => Err(e)
    case Pass => Ok(s.(items := Filter(s.items, (i: Row<ItemData>) => !(i.id == itemId && i.data.monthId == monthId))))
  }

  /** After a delete the month has no item by that id; items of other months
      are untouched. */
  lemma DeleteItemRemovesIt(s: Store, user: UserId, monthId: int, itemId: int, other: int)
    requires DeleteItem(s, user, monthId, itemId).Ok?
    requires other != monthId
    ensures ItemInMonth(DeleteItem(s, user, monthId, itemId).value, monthId, itemId).None?
    ensures Filter(DeleteItem(s, user, monthId, itemId).value.items, (i: Row<ItemData>) => i.data.monthId == other)
         == Filter(s.items, (i: Row<ItemData>) => i.data.monthId == other)
  {
    FilterWithin(s.items, (i: Row<ItemData>) => !(i.id == itemId && i.data.monthId == monthId),
                          (i: Row<ItemData>) => i.data.monthId == other);
  }
}
