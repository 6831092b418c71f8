/**
 * The signed-in user's credit record as the client keeps it: fetched (and
 * created with 10 credits when missing), replaced by realtime events, and
 * decremented by a guarded deduction. Every database round trip is an
 * outcome given as a parameter.
 */
module CreditsHook {
  import opened Base

  const InitialCredits: int := 10
  const DefaultDeduction: int := 1

  /**
   * The error code the database reports when `.single()` does not find exactly
   * one row: none, or more than one. The hook treats both as "no record" and inserts.
   */
  const NoRowsCode: string := "PGRST116"

  datatype User = User(id: string)

  datatype UserCredits = UserCredits(
    id: string,
    userId: string,
    creditsRemaining: int,
    monthlyUpgrade: bool,
    yearlyUpgrade: bool,
    createdAt: string,
    updatedAt: string)

  /** Outcome of selecting the user's row. */
  datatype SelectOutcome = RowFound(row: UserCredits) | SelectError(code: string) | SelectThrew

  /** Outcome of inserting a fresh row: the database assigns its id and timestamp. */
  datatype InsertOutcome = Inserted(rowId: string, timestamp: string) | InsertError | InsertThrew

  /** Outcome of the balance update; on success the database returns the updated row. */
  datatype UpdateOutcome = Updated | UpdateError | UpdateThrew

  datatype RealtimeEvent = RealtimeEvent(eventType: string, newRow: Option<UserCredits>)

  /** The record created for a user who has none. */
  function InitialRecord(u: User, rowId: string, timestamp: string): (c: UserCredits)
    ensures c.userId == u.id && c.creditsRemaining == InitialCredits
    ensures !c.monthlyUpgrade && !c.yearlyUpgrade
  {
    UserCredits(rowId, u.id, InitialCredits, false, false, timestamp, timestamp)
  }

  /**
   * The guard of a deduction: a user, a record and enough credits. When it
   * passes, the balance left after the deduction is not negative.
   */
  function MayDeduct(user: Option<User>, credits: Option<UserCredits>, amount: int): (ok: bool)
    ensures ok ==> user.Some? && credits.Some?
    ensures ok ==> credits.value.creditsRemaining - amount >= 0
    ensures user.Some? && credits.Some? && credits.value.creditsRemaining >= amount ==> ok
  {
    user.Some? && credits.Some? && credits.value.creditsRemaining >= amount
  }

  /** The record after a successful deduction of `amount`. */
  function Deducted(c: UserCredits, amount: int): (d: UserCredits)
    ensures d.creditsRemaining + amount == c.creditsRemaining
    ensures d.(creditsRemaining := c.creditsRemaining) == c
  {
    c.(creditsRemaining := c.creditsRemaining - amount)
  }

  /** Realtime UPDATE and INSERT events carrying a row replace the record; nothing else does. */
  function AfterRealtime(credits: Option<UserCredits>, ev: RealtimeEvent): (r: Option<UserCredits>)
    ensures (ev.eventType == "UPDATE" || ev.eventType == "INSERT") && ev.newRow.Some? ==> r == ev.newRow
    ensures !(ev.eventType == "UPDATE" || ev.eventType == "INSERT") ==> r == credits
    ensures ev.newRow.None? ==> r == credits
  {
    if ev.eventType == "UPDATE" && ev.newRow.Some? then ev.newRow
    else if ev.eventType == "INSERT" && ev.newRow.Some? then ev.newRow
    else credits
  }

  class CreditsState {
    var user: Option<User>
    var credits: Option<UserCredits>
    var loading: bool

    /** Credits are only held for a signed-in user, and no fetch is in flight between events. */
    ghost predicate Valid()
      reads this
    {
      (user.None? ==> credits.None?) && !loading
    }

    constructor (u: Option<User>)
      ensures Valid() && user == u && credits == None
    {
      user := u;
      credits := None;
      loading := false;
    }

    /**
     * Fetch the user's record. A found row is kept; "no row" leads to inserting
     * the initial record; any other error, a failed insert or an exception leaves
     * the record as it was. Loading is false again afterwards.
     */
    method FetchCredits(sel: SelectOutcome, ins: InsertOutcome)
      requires Valid()
      modifies this`credits, this`loading
      ensures Valid()
      ensures user.None? ==> credits == old(credits)
      ensures user.Some? && sel.RowFound? ==> credits == Some(sel.row)
      ensures user.Some? && sel == SelectError(NoRowsCode) && ins.Inserted? ==>
        credits == Some(InitialRecord(user.value, ins.rowId, ins.timestamp))
      ensures sel.SelectThrew? || (sel.SelectError? && sel.code != NoRowsCode) ==> credits == old(credits)
      ensures sel == SelectError(NoRowsCode) && !ins.Inserted? ==> credits == old(credits)
    {
      if user.None? { return; }
      loading := true;
      match sel {
        case RowFound(row) =>
          credits := Some(row);
        case SelectError(code) =>
          if code == NoRowsCode {
            match ins {
              case Inserted(rowId, timestamp) =>
                credits := Some(InitialRecord(user.value, rowId, timestamp));
              case InsertError =>
              case InsertThrew =>
            }
          }
        case SelectThrew =>
      }
      loading := false;
    }

    /**
     * Deduct `amount` credits (1 by default). Refused without a user, without a
     * record or with too few credits; a failed or throwing update also reports
     * false. Only a successful update changes the record.
     */
    method DeductCredits(outcome: UpdateOutcome, amount: int := DefaultDeduction) returns (ok: bool)
      requires Valid()
      modifies this`credits
      ensures Valid()
      ensures ok <==> MayDeduct(user, old(credits), amount) && outcome.Updated?
      ensures ok ==> credits == Some(Deducted(old(credits).value, amount))
      ensures ok ==> credits.value.creditsRemaining >= 0
      ensures !ok ==> credits == old(credits)
    {
      if user.None? || credits.None? { return false; }
      if credits.value.creditsRemaining < amount { return false; }
      match outcome {
        case Updated =>
          credits := Some(Deducted(credits.value, amount));
          return true;
        case UpdateError =>
          return false;
        case UpdateThrew =>
          return false;
      }
    }

    /** A realtime change on the user's row; there is no subscription without a user. */
    method OnRealtime(ev: RealtimeEvent)
      requires Valid()
      modifies this`credits
      ensures Valid()
      ensures user.Some? ==> credits == AfterRealtime(old(credits), ev)
      ensures user.None? ==> credits == old(credits)
    {
      if user.None? { return; }
      credits := AfterRealtime(credits, ev);
    }

    /** The signed-in user changed: sign-out drops the record, a sign-in fetches it. */
    method OnUserChange(u: Option<User>, sel: SelectOutcome, ins: InsertOutcome)
      requires Valid()
      modifies this
      ensures Valid() && user == u
      ensures u.None? ==> credits == None
      ensures u.Some? && sel.RowFound? ==> credits == Some(sel.row)
      ensures u.Some? && sel == SelectError(NoRowsCode) && ins.Inserted? ==>
        credits == Some(InitialRecord(u.value, ins.rowId, ins.timestamp))
      ensures u.Some? && !(sel.RowFound? || (sel == SelectError(NoRowsCode) && ins.Inserted?)) ==>
        credits == old(credits)
    {
      user := u;
      if u.None? {
        credits := None;
      } else {
        FetchCredits(sel, ins);
      }
    }
  }
}
