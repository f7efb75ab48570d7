/** The trip services as functions from the tables to an outcome: the next tables, or an error and no change. */
module Trips {
  import opened Common
  import opened Codes
  import opened Numbering
  import opened Tables
  import opened TripRules
  import opened History

  datatype TripForm = TripForm(
    title: string, purpose: string, destination: string, country: string, startDate: int, endDate: int)

  datatype TripPatch = TripPatch(
    title: Field<string>, purpose: Field<string>, destination: Field<string>, country: Field<string>,
    startDate: Field<int>, endDate: Field<int>)

  const TRIP_TAG := "BT"

  /** A trip the caller may not see is reported as missing. */
  function VisibleTrip(db: DB, caller: Id, id: Id): (r: Result<Trip>)
    requires caller in db.users
    ensures r.Ok? ==> id in db.trips && r.value == db.trips[id]
  {
    if id in db.trips && CanView(caller, db.users[caller].role, db.trips[id].owner, db.trips[id].approver)
    then Ok(db.trips[id])
    else Err(TripNotFound)
  }

  function TripCodes(purpose: Option<string>, destination: Option<string>, country: Option<string>): seq<CodeSpec> {
    [CodeSpec(TripPurpose, PurposeCode, purpose),
     CodeSpec(DestinationType, DestinationTypeCode, destination),
     CodeSpec(GroupCode.Country, CountryCode, country)]
  }

  function TripEntry(id: Id, actor: Id, action: Action, from: TripStatus, to: TripStatus): LogEntry {
    LogEntry(TripRef(id), actor, action, Some(OfTrip(from)), OfTrip(to))
  }

  /** The write every trip service ends with: one row, one log entry, at most one notification. */
  function WriteTrip(db: DB, id: Id, trip: Trip, e: LogEntry, notify: Option<Notification>): DB {
    Record(db.(trips := db.trips[id := trip]), e, notify)
  }

  function CreateTrip(db: DB, env: Env, caller: Id, form: TripForm): Result<DB> {
    var _ :- Verdict(env.codes, TripCodes(Some(form.purpose), Some(form.destination), Some(form.country)));
    var _ :- AssertDateRange(form.startDate, form.endDate);
    var no :- NextNo(TripNos(db.trips), db.nextTrip, TRIP_TAG, env.year);
    var _ :- Check(!Taken(TripNos(db.trips), no), InternalError);
    var id := db.nextTrip;
    var trip := Trip(no, caller, form.title, form.purpose, form.destination, form.country, form.startDate,
                     form.endDate, None, TripStatus.Draft, None, None, None, None);
    Ok(WriteTrip(db.(nextTrip := id + 1), id, trip,
                 LogEntry(TripRef(id), caller, Action.Create, None, OfTrip(TripStatus.Draft)), None))
  }

  /** No column that must hold a value is set to null. */
  predicate Fillable(patch: TripPatch) {
    && !patch.title.Null? && !patch.purpose.Null? && !patch.destination.Null? && !patch.country.Null?
    && !patch.startDate.Null? && !patch.endDate.Null?
  }

  function Patched(trip: Trip, patch: TripPatch): Trip
    requires Fillable(patch)
  {
    trip.(title := patch.title.Over(trip.title).value,
          purpose := patch.purpose.Over(trip.purpose).value,
          destination := patch.destination.Over(trip.destination).value,
          country := patch.country.Over(trip.country).value,
          startDate := patch.startDate.Over(trip.startDate).value,
          endDate := patch.endDate.Over(trip.endDate).value)
  }

  /** The merged fields are validated, not only the ones sent. */
  function UpdateTrip(db: DB, env: Env, caller: Id, id: Id, patch: TripPatch): Result<DB>
    requires caller in db.users
  {
    var trip :- VisibleTrip(db, caller, id);
    var _ :- Check(caller == trip.owner, NotTripOwner);
    var _ :- Check(Editable(trip.status), TripNotEditable);
    var _ :- Verdict(env.codes, TripCodes(patch.purpose.Over(trip.purpose), patch.destination.Over(trip.destination),
                                          patch.country.Over(trip.country)));
    var _ :- Check(!patch.startDate.Null? && !patch.endDate.Null?, InternalError);
    var _ :- AssertDateRange(patch.startDate.Over(trip.startDate).value, patch.endDate.Over(trip.endDate).value);
    var _ :- Check(Fillable(patch), InternalError);
    Ok(WriteTrip(db, id, Patched(trip, patch), TripEntry(id, caller, Action.Update, trip.status, trip.status), None))
  }

  function DeleteTrip(db: DB, caller: Id, id: Id): Result<DB>
    requires caller in db.users
  {
    var trip :- VisibleTrip(db, caller, id);
    var _ :- Check(caller == trip.owner, NotTripOwner);
    var _ :- Check(trip.status.Draft?, TripNotDeletable);
    // The foreign key from expense_report would refuse the delete.
    var _ :- Check(!HasReport(db.reports, id), InternalError);
    Ok(db.(trips := db.trips - {id}))
  }

  function SubmitTrip(db: DB, env: Env, caller: Id, id: Id): Result<DB>
    requires caller in db.users
  {
    var trip :- VisibleTrip(db, caller, id);
    var _ :- AssertTransitionAllowed(trip.status, TripStatus.Submitted, caller, trip.owner, trip.approver);
    var _ :- AssertDateRange(trip.startDate, trip.endDate);
    var approver :- AssertHasApprover(db.users[caller].manager);
    Ok(WriteTrip(db, id,
                 trip.(status := TripStatus.Submitted, approver := Some(approver), submittedAt := Some(env.now),
                       approvedAt := None, rejectReason := None),
                 TripEntry(id, caller, Action.Submit, trip.status, TripStatus.Submitted),
                 Some(Notification(approver, TripSubmitted, TripRef(id)))))
  }

  function ApproveTrip(db: DB, env: Env, caller: Id, id: Id): Result<DB>
    requires caller in db.users
  {
    var trip :- VisibleTrip(db, caller, id);
    var _ :- AssertTransitionAllowed(trip.status, TripStatus.Approved, caller, trip.owner, trip.approver);
    Ok(WriteTrip(db, id, trip.(status := TripStatus.Approved, approvedAt := Some(env.now)),
                 TripEntry(id, caller, Action.Approve, trip.status, TripStatus.Approved),
                 Some(Notification(trip.owner, TripApproved, TripRef(id)))))
  }

  function RejectTrip(db: DB, caller: Id, id: Id, reason: string): Result<DB>
    requires caller in db.users
  {
    var trip :- VisibleTrip(db, caller, id);
    var _ :- AssertTransitionAllowed(trip.status, TripStatus.Rejected, caller, trip.owner, trip.approver);
    var text :- AssertRejectReason(reason);
    Ok(WriteTrip(db, id, trip.(status := TripStatus.Rejected, rejectReason := Some(text)),
                 TripEntry(id, caller, Action.Reject, trip.status, TripStatus.Rejected),
                 Some(Notification(trip.owner, TripRejected, TripRef(id)))))
  }

  function ReopenTrip(db: DB, caller: Id, id: Id): Result<DB>
    requires caller in db.users
  {
    var trip :- VisibleTrip(db, caller, id);
    var _ :- AssertTransitionAllowed(trip.status, TripStatus.Draft, caller, trip.owner, trip.approver);
    Ok(WriteTrip(db, id, trip.(status := TripStatus.Draft, approver := None, submittedAt := None, approvedAt := None),
                 TripEntry(id, caller, Action.Update, trip.status, TripStatus.Draft), None))
  }

  function CompleteTrip(db: DB, env: Env, caller: Id, id: Id): Result<DB>
    requires caller in db.users
  {
    var trip :- VisibleTrip(db, caller, id);
    var _ :- AssertTransitionAllowed(trip.status, TripStatus.Completed, caller, trip.owner, trip.approver);
    var _ :- Check(trip.endDate < env.today, TripNotEnded);
    Ok(WriteTrip(db, id, trip.(status := TripStatus.Completed),
                 TripEntry(id, caller, Action.Complete, trip.status, TripStatus.Completed), None))
  }

  /** The step the approval of a report triggers, in the same transaction. */
  function SettleTripForReport(db: DB, id: Id, actor: Id): Result<DB> {
    if id !in db.trips then Err(InternalError)
    else
      var trip := db.trips[id];
      var _ :- AssertSystemTransition(trip.status, TripStatus.Settled);
      Ok(WriteTrip(db, id, trip.(status := TripStatus.Settled),
                   TripEntry(id, actor, Action.Settle, trip.status, TripStatus.Settled), None))
  }
}
