/** The mutation guard: the ownership and open-month checks every income, item
    and allocation handler runs before it touches the store. The items and
    income handlers each carry an identical copy of both checks, and the
    allocation update repeats the open-month check inline; all of them are
    this one definition. */
module Guard {
  import opened Tables
  import opened Errors
  import opened Records

  /** Succeeds exactly when `user` owns month `monthId`, open or closed. */
  function VerifyMonthAccess(s: Store, user: UserId, monthId: int): (r: Outcome)
    ensures r.Pass? <==> OwnsMonth(s, user, monthId)
    ensures r.Fail? ==> r.error == NotFound
  {
    if OwnedMonth(s, user, monthId).Some? then Pass else Fail(NotFound)
  }

  /** NotFound for a missing or foreign month, `MonthIsClosed` for a closed
      one, success for an open month of `user`. */
  function VerifyMonthNotClosed(s: Store, user: UserId, monthId: int): (r: Outcome)
    ensures r == Pass || r == Fail(NotFound) || r == Fail(MonthIsClosed)
    ensures r == Fail(NotFound) <==> !OwnsMonth(s, user, monthId)
    ensures r == Pass ==> OwnsOpenMonth(s, user, monthId)
    ensures r == Fail(MonthIsClosed) ==> OwnsMonth(s, user, monthId) && IsClosedMonth(s, monthId)
    ensures OwnsMonth(s, user, monthId) && !IsClosedMonth(s, monthId) ==> r == Pass
  {
    match OwnedMonth(s, user, monthId)
    case Some(m) => if m.data.isClosed then Fail(MonthIsClosed) else Pass
    case None => Fail(NotFound)
  }

  /** With unique month ids the guard decides exactly on the month's state:
      it passes if and only if the month is the user's and open, and it
      refuses as closed if and only if the month is the user's and closed. */
  lemma GuardDecidesOnMonthState(s: Store, user: UserId, monthId: int)
    requires UniqueIds(s.months)
    ensures VerifyMonthNotClosed(s, user, monthId) == Pass <==> OwnsOpenMonth(s, user, monthId)
    ensures VerifyMonthNotClosed(s, user, monthId) == Fail(MonthIsClosed) <==> OwnsMonth(s, user, monthId) && IsClosedMonth(s, monthId)
  {
    if OwnsMonth(s, user, monthId) {
      var i :| 0 <= i < |s.months| && s.months[i].id == monthId && s.months[i].data.userId == user;
      OwnedMonthIsTheRow(s, user, monthId, i);
    }
  }
}
