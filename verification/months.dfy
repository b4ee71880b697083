/** The month lifecycle: lazily opening the current month with a copy of the
    category templates, reading a month, and the one-way close that archives
    a rendered report. */
module Months {
  import opened Tables
  import opened Errors
  import opened Records
  import opened Aggregation

  /** What the report renderer makes of a summary. */
  datatype Rendered = Rendered(pdf: Bytes) | RenderFailed(reason: string)

  /** The user's months, and only theirs. */
  function ListMonths(s: Store, user: UserId): (r: seq<Row<MonthData>>)
    ensures forall m :: m in r <==> m in s.months && m.data.userId == user
  {
    Filter(s.months, (m: Row<MonthData>) => m.data.userId == user)
  }

  /** The user's month for a calendar period, if it was opened before. */
  function MonthForPeriod(s: Store, user: UserId, year: int, month: int): (r: Option<Row<MonthData>>)
    ensures r.Some? ==> r.value in s.months && r.value.data.userId == user && r.value.data.year == year && r.value.data.month == month
    ensures r.None? <==> forall k :: 0 <= k < |s.months| ==>
      !(s.months[k].data.userId == user && s.months[k].data.year == year && s.months[k].data.month == month)
  {
    First(s.months, (m: Row<MonthData>) => m.data.userId == user && m.data.year == year && m.data.month == month)
  }

  /** The allocations a new month starts with: one per template, at its default amount. */
  function TemplateAllocations(cats: seq<Row<CategoryData>>, monthId: int): (r: seq<BudgetData>)
    ensures |r| == |cats|
    ensures forall k :: 0 <= k < |cats| ==> r[k] == BudgetData(monthId, cats[k].id, cats[k].data.defaultAmount)
  {
    seq(|cats|, k requires 0 <= k < |cats| => BudgetData(monthId, cats[k].id, cats[k].data.defaultAmount))
  }

  /** A freshly opened month of `user` for `clock`'s period. */
  function OpenMonth(user: UserId, clock: Clock): MonthData {
    MonthData(user, clock.year, clock.month, false, None)
  }

  /** The store after opening month `monthId` for `clock`'s period: the month
      row, then one allocation per template of the user (a duplicate is ignored). */
  function WithNewMonth(s: Store, user: UserId, clock: Clock, monthId: int): Store {
    s.(months := s.months + [Row(monthId, OpenMonth(user, clock))],
       budgets := AllocateAll(s.budgets, TemplateAllocations(UserCategories(s, user), monthId)))
  }

  /** The store effect of `get_or_create_current_month`: an existing month for
      the period is reused and nothing is written; otherwise exactly one open
      month is added under a fresh id, every template of the user gets an
      allocation in it, only allocations of the new month at a template's
      default amount are added, and no other table changes. */
  function CurrentMonth(s: Store, user: UserId, clock: Clock): (r: (Store, Row<MonthData>))
    ensures r.1 in r.0.months
    ensures MonthForPeriod(s, user, clock.year, clock.month).Some? ==>
      r.0 == s && r.1 == MonthForPeriod(s, user, clock.year, clock.month).value
    ensures MonthForPeriod(s, user, clock.year, clock.month).None? ==>
      && !HasId(s.months, r.1.id)
      && r.1.data == MonthData(user, clock.year, clock.month, false, None)
      && r.0.months == s.months + [r.1]
      && r.0.(months := s.months, budgets := s.budgets) == s
    ensures MonthForPeriod(s, user, clock.year, clock.month).None? ==>
      && s.budgets <= r.0.budgets
      && (forall c :: c in s.categories && c.data.userId == user ==> HasAllocation(r.0.budgets, r.1.id, c.id))
      && (forall j :: |s.budgets| <= j < |r.0.budgets| ==>
            && r.0.budgets[j].data.monthId == r.1.id
            && exists c :: c in s.categories && c.data.userId == user && c.id == r.0.budgets[j].data.categoryId
                           && c.data.defaultAmount == r.0.budgets[j].data.allocatedAmount)
  {
    match MonthForPeriod(s, user, clock.year, clock.month)
    case Some(m) => (s, m)
    case None =>
      var id := NextId(s.months);
      NewMonthAllocations(s, user, id);
      (WithNewMonth(s, user, clock, id), Row(id, OpenMonth(user, clock)))
  }

  /** `get_or_create_current_month`: never fails; answers with the store after
      `CurrentMonth` and the summary of the month it found or opened. */
  function GetOrCreateCurrentMonth(s: Store, user: UserId, clock: Clock): (r: Result<(Store, Summary)>)
    ensures r.Ok?
    ensures r.value.0 == CurrentMonth(s, user, clock).0
    ensures r.value.1.month.id == CurrentMonth(s, user, clock).1.id
    ensures GetMonthSummary(r.value.0, user, r.value.1.month.id) == Ok(r.value.1)
  {
    var (s', m) := CurrentMonth(s, user, clock);
    FirstById(s'.months, m);
    Ok((s', GetMonthSummary(s', user, m.id).value))
  }

  /** A row of a table is found by a scan for its own id. */
  lemma FirstById<T>(t: Table<T>, row: Row<T>)
    requires row in t
    ensures First(t, (m: Row<T>) => m.id == row.id).Some?
  {
  }

  lemma NewMonthAllocations(s: Store, user: UserId, id: int)
    ensures var rows := TemplateAllocations(UserCategories(s, user), id);
      var b' := AllocateAll(s.budgets, rows);
      && (forall c :: c in s.categories && c.data.userId == user ==> HasAllocation(b', id, c.id))
      && (forall j :: |s.budgets| <= j < |b'| ==>
            && b'[j].data.monthId == id
            && exists c :: c in s.categories && c.data.userId == user && c.id == b'[j].data.categoryId
                           && c.data.defaultAmount == b'[j].data.allocatedAmount)
  {
    var cats := UserCategories(s, user);
    var rows := TemplateAllocations(cats, id);
    var b' := AllocateAll(s.budgets, rows);
    forall c | c in s.categories && c.data.userId == user
      ensures HasAllocation(b', id, c.id)
    {
      var k :| 0 <= k < |cats| && cats[k] == c;
      assert rows[k].monthId == id && rows[k].categoryId == c.id;
    }
    forall j | |s.budgets| <= j < |b'|
      ensures b'[j].data.monthId == id
      ensures exists c :: c in s.categories && c.data.userId == user && c.id == b'[j].data.categoryId
                          && c.data.defaultAmount == b'[j].data.allocatedAmount
    {
      var k :| 0 <= k < |rows| && rows[k] == b'[j].data;
      assert cats[k] in cats;
    }
  }

  /** Under the store's integrity, a newly opened month gets exactly one
      allocation per template of the user, in template order, each at the
      template's default amount. */
  lemma NewMonthCopiesEveryTemplate(s: Store, user: UserId, clock: Clock)
    requires WellFormed(s)
    requires MonthForPeriod(s, user, clock.year, clock.month).None?
    ensures var (s', m) := CurrentMonth(s, user, clock);
      && s.budgets <= s'.budgets
      && Payloads(s'.budgets[|s.budgets|..]) == TemplateAllocations(UserCategories(s, user), m.id)
  {
    var id := NextId(s.months);
    var (s', m) := CurrentMonth(s, user, clock);
    assert s'.budgets == AllocateAll(s.budgets, TemplateAllocations(UserCategories(s, user), id));
    assert m.id == id;
    NoAllocationsForFreshMonth(s, id);
    UserCategoriesUnique(s, user);
    TemplatesInOrder(s'.budgets, s.budgets, UserCategories(s, user), id);
  }

  /** Templates with distinct ids, allocated into a month that has no
      allocation yet, are all appended in template order. */
  lemma TemplatesInOrder(b: Table<BudgetData>, t: Table<BudgetData>, cats: seq<Row<CategoryData>>, id: int)
    requires b == AllocateAll(t, TemplateAllocations(cats, id))
    requires UniqueIds(cats)
    requires forall i :: 0 <= i < |t| ==> t[i].data.monthId != id
    ensures t <= b && Payloads(b[|t|..]) == TemplateAllocations(cats, id)
  {
    var rows := TemplateAllocations(cats, id);
    DistinctTemplatePairs(cats, id);
    FreshMonthAllocatedInOrder(t, rows, id);
  }

  /** Allocations for distinct pairs in a month that has none yet are all
      inserted, in order. */
  lemma FreshMonthAllocatedInOrder(t: Table<BudgetData>, rows: seq<BudgetData>, id: int)
    requires forall i :: 0 <= i < |t| ==> t[i].data.monthId != id
    requires forall k :: 0 <= k < |rows| ==> rows[k].monthId == id
    requires forall k, l :: 0 <= k < l < |rows| ==> (rows[k].monthId, rows[k].categoryId) != (rows[l].monthId, rows[l].categoryId)
    ensures |AllocateAll(t, rows)| == |t| + |rows|
    ensures forall k :: 0 <= k < |rows| ==> AllocateAll(t, rows)[|t| + k].data == rows[k]
  {
    AllocateAllFresh(t, rows);
  }

  /** A month id no month row carries has no allocation yet. */
  lemma NoAllocationsForFreshMonth(s: Store, id: int)
    requires ChildrenInMonths(s)
    requires !HasId(s.months, id)
    ensures forall i :: 0 <= i < |s.budgets| ==> s.budgets[i].data.monthId != id
    ensures forall categoryId :: !HasAllocation(s.budgets, id, categoryId)
  {
  }

  /** Templates with distinct ids give allocations for distinct pairs. */
  lemma DistinctTemplatePairs(cats: seq<Row<CategoryData>>, id: int)
    requires UniqueIds(cats)
    ensures var rows := TemplateAllocations(cats, id);
      forall k, l :: 0 <= k < l < |rows| ==> (rows[k].monthId, rows[k].categoryId) != (rows[l].monthId, rows[l].categoryId)
  {
  }

  /** Asking for the current month twice in the same period opens it once:
      the second call writes nothing and returns the same month. */
  lemma CurrentMonthIsIdempotent(s: Store, user: UserId, clock: Clock)
    ensures var (s1, sum1) := GetOrCreateCurrentMonth(s, user, clock).value;
      var (s2, sum2) := GetOrCreateCurrentMonth(s1, user, clock).value;
      s2 == s1 && sum2.month == sum1.month
  {
    if MonthForPeriod(s, user, clock.year, clock.month).None? {
      var id := NextId(s.months);
      var row := Row(id, OpenMonth(user, clock));
      FirstAppend(s.months, [row],
        (m: Row<MonthData>) => m.data.userId == user && m.data.year == clock.year && m.data.month == clock.month);
    }
  }

  /** `get_month`: the summary of a month the user owns, NotFound otherwise. */
  function GetMonth(s: Store, user: UserId, monthId: int): (r: Result<Summary>)
    ensures r.Err? <==> !OwnsMonth(s, user, monthId)
    ensures r.Err? ==> r.error == NotFound
    ensures r.Ok? ==> r.value.month.id == monthId && Ok(r.value) == GetMonthSummary(s, user, monthId)
  {
    match OwnedMonth(s, user, monthId)
    case None => Err(NotFound)
    case Some(m) =>
      FirstById(s.months, m);
      GetMonthSummary(s, user, monthId)
  }

  /** The column update that closes a month at `timestamp`. */
  function CloseAt(timestamp: int): MonthData -> MonthData {
    (m: MonthData) => m.(isClosed := true, closedAt := Some(timestamp))
  }

  /** `close_month`: NotFound for a month the user does not own; the
      already-closed refusal for a closed month; an internal error, with
      nothing written, when the report cannot be rendered. Otherwise exactly
      one snapshot holding the rendered summary is stored and the month is
      marked closed at the clock's timestamp; nothing else changes. */
  function CloseMonth(s: Store, user: UserId, monthId: int, clock: Clock, render: Summary -> Rendered): (r: Result<(Store, Row<MonthData>)>)
    ensures r == Err(NotFound) <==> !OwnsMonth(s, user, monthId)
    ensures OwnedMonth(s, user, monthId).Some? && OwnedMonth(s, user, monthId).value.data.isClosed ==>
      r == Err(MonthAlreadyClosed)
    ensures OwnedMonth(s, user, monthId).Some? && !OwnedMonth(s, user, monthId).value.data.isClosed ==>
      GetMonthSummary(s, user, monthId).Ok? &&
      match render(GetMonthSummary(s, user, monthId).value)
      case RenderFailed(reason) => r == Err(Internal(reason))
      case Rendered(pdf) =>
        && r.Ok?
        && r.value.0.snapshots == s.snapshots + [Row(NextId(s.snapshots), SnapshotData(monthId, pdf))]
        && r.value.0.months == Update(s.months, monthId, CloseAt(clock.timestamp))
        && r.value.0.(months := s.months, snapshots := s.snapshots) == s
        && r.value.1.id == monthId
        && r.value.1.data.isClosed && r.value.1.data.closedAt == Some(clock.timestamp)
    ensures r.Ok? ==> r.value.1 in r.value.0.months
    ensures r.Ok? && UniqueIds(s.months) ==>
      r.value.1.data == OwnedMonth(s, user, monthId).value.data.(isClosed := true, closedAt := Some(clock.timestamp))
  {
    match OwnedMonth(s, user, monthId)
    case None => Err(NotFound)
    case Some(m) =>
      if m.data.isClosed then Err(MonthAlreadyClosed)
      else
        FirstById(s.months, m);
        var summary := GetMonthSummary(s, user, monthId).value;
        match render(summary)
        case RenderFailed(reason) => Err(Internal(reason))
        case Rendered(pdf) =>
          var snapshots := s.snapshots + [Row(NextId(s.snapshots), SnapshotData(monthId, pdf))];
          var months := Update(s.months, monthId, CloseAt(clock.timestamp));
          var s' := s.(months := months, snapshots := snapshots);
          var i :| 0 <= i < |s.months| && s.months[i] == m;
          assert months[i].id == monthId;
          UpdatedRowIsOnly(s.months, monthId, CloseAt(clock.timestamp), i);
          match First(months, (u: Row<MonthData>) => u.id == monthId)
          case None => Err(RowNotFound)
          case Some(updated) => Ok((s', updated))
  }

  /** `get_month_pdf`: the archived report of a month the user owns; NotFound
      when the month is not theirs or has no snapshot. */
  function GetMonthPdf(s: Store, user: UserId, monthId: int): (r: Result<Bytes>)
    ensures !OwnsMonth(s, user, monthId) ==> r == Err(NotFound)
    ensures r.Ok? <==> OwnsMonth(s, user, monthId) && exists k :: 0 <= k < |s.snapshots| && s.snapshots[k].data.monthId == monthId
    ensures r.Err? ==> r.error == NotFound
    ensures r.Ok? ==> exists k :: 0 <= k < |s.snapshots| && s.snapshots[k].data == SnapshotData(monthId, r.value)
  {
    if OwnedMonth(s, user, monthId).None? then Err(NotFound)
    else
      match First(s.snapshots, (p: Row<SnapshotData>) => p.data.monthId == monthId)
      case None => Err(NotFound)
      case Some(p) => Ok(p.data.pdf)
  }

  /** Closing is one-way: once a close has succeeded, closing the same month
      again is refused as already closed and writes nothing. */
  lemma CloseIsTerminal(s: Store, user: UserId, monthId: int, c1: Clock, c2: Clock, render: Summary -> Rendered)
    requires CloseMonth(s, user, monthId, c1, render).Ok?
    ensures CloseMonth(CloseMonth(s, user, monthId, c1, render).value.0, user, monthId, c2, render) == Err(MonthAlreadyClosed)
  {
    var s' := CloseMonth(s, user, monthId, c1, render).value.0;
    var p := (m: Row<MonthData>) => m.id == monthId && m.data.userId == user;
    var m := OwnedMonth(s, user, monthId).value;
    var i := FirstIndex(s.months, p);
    assert s'.months[i].id == monthId && s'.months[i].data.userId == user && s'.months[i].data.isClosed;
    SameFirstIndex(s.months, s'.months, p);
  }

  /** A scan finds the same position in two tables whose rows agree on the
      scanned property. */
  lemma {:induction false} SameFirstIndex<T>(a: seq<T>, b: seq<T>, p: T -> bool)
    requires |a| == |b|
    requires forall k :: 0 <= k < |a| ==> p(a[k]) == p(b[k])
    ensures FirstIndex(a, p) == FirstIndex(b, p)
    ensures First(a, p).Some? == First(b, p).Some?
    ensures First(a, p).Some? ==> First(b, p) == Some(b[FirstIndex(a, p)])
    decreases |a|
  {
    if |a| > 0 && !p(a[0]) {
      SameFirstIndex(a[1..], b[1..], p);
    }
  }

  /** Under the store's integrity a month that is still open has no archived
      report: the report of a month exists only once it is closed. */
  lemma OpenMonthHasNoPdf(s: Store, user: UserId, monthId: int)
    requires WellFormed(s)
    requires OwnsOpenMonth(s, user, monthId)
    ensures GetMonthPdf(s, user, monthId) == Err(NotFound)
  {
    var i :| 0 <= i < |s.months| && s.months[i].id == monthId && s.months[i].data.userId == user && !s.months[i].data.isClosed;
    forall k | 0 <= k < |s.snapshots|
      ensures s.snapshots[k].data.monthId != monthId
    {
      var j :| 0 <= j < |s.months| && s.months[j].id == s.snapshots[k].data.monthId && s.months[j].data.isClosed;
      assert j != i;
    }
  }

  /** Closing a month and then fetching its report returns exactly the bytes
      the renderer produced at close time. */
  lemma CloseThenPdf(s: Store, user: UserId, monthId: int, clock: Clock, render: Summary -> Rendered)
    requires WellFormed(s)
    requires CloseMonth(s, user, monthId, clock, render).Ok?
    ensures var summary := GetMonthSummary(s, user, monthId);
      && summary.Ok? && render(summary.value).Rendered?
      && GetMonthPdf(CloseMonth(s, user, monthId, clock, render).value.0, user, monthId) == Ok(render(summary.value).pdf)
  {
    var s' := CloseMonth(s, user, monthId, clock, render).value.0;
    var i :| 0 <= i < |s.months| && s.months[i].id == monthId && s.months[i].data.userId == user;
    OwnedMonthIsTheRow(s, user, monthId, i);
    assert OwnsOpenMonth(s, user, monthId);
    OpenMonthHasNoPdf(s, user, monthId);
    var pdf := render(GetMonthSummary(s, user, monthId).value).pdf;
    var row := Row(NextId(s.snapshots), SnapshotData(monthId, pdf));
    assert s'.snapshots == s.snapshots + [row];
    assert s'.months == Update(s.months, monthId, CloseAt(clock.timestamp));
    assert s'.months[i].id == monthId && s'.months[i].data.userId == user;
    FirstArchivedReport(s.snapshots, s', user, monthId, row);
  }

  /** Appending the first snapshot of a month the user owns makes it the
      report `get_month_pdf` returns. */
  lemma FirstArchivedReport(prior: Table<SnapshotData>, s': Store, user: UserId, monthId: int, row: Row<SnapshotData>)
    requires OwnsMonth(s', user, monthId)
    requires GetMonthPdf(s'.(snapshots := prior), user, monthId) == Err(NotFound)
    requires row.data.monthId == monthId
    requires s'.snapshots == prior + [row]
    ensures GetMonthPdf(s', user, monthId) == Ok(row.data.pdf)
  {
    OwnedMonthFound(s', user, monthId);
    var q := (p: Row<SnapshotData>) => p.data.monthId == monthId;
    FirstAppend(prior, [row], q);
  }
}
