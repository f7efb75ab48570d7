/** The tables in memory, and the services as they run: rows are fetched, checked, rewritten field by field and flushed;
    a service that fails after a flush rolls the transaction back. Every service is proved against its function. */
module Stores {
  import opened Common
  import opened Tables
  import opened TripRules
  import opened ExpenseRules
  import History
  import Numbering
  import Codes
  import Trips
  import Expenses
  import Accounts
  import Masters
  import UserStatusRules
  import Runs

  /** The outcome of a service: committed with the expected tables, or refused with the expected error and unchanged. */
  ghost predicate Does(before: DB, after: DB, r: Result<()>, expected: Result<DB>) {
    match expected
    case Ok(next) => r.Ok? && after == next
    case Err(e) => r == Err(e) && after == before
  }

  /** The patches: each field that was sent is assigned in turn. */
  method PatchTrip(trip: Trip, patch: Trips.TripPatch) returns (t: Trip)
    requires Trips.Fillable(patch)
    ensures t == Trips.Patched(trip, patch)
  {
    t := trip;
    if patch.title.Set? { t := t.(title := patch.title.value); }
    if patch.purpose.Set? { t := t.(purpose := patch.purpose.value); }
    if patch.destination.Set? { t := t.(destination := patch.destination.value); }
    if patch.country.Set? { t := t.(country := patch.country.value); }
    if patch.startDate.Set? { t := t.(startDate := patch.startDate.value); }
    if patch.endDate.Set? { t := t.(endDate := patch.endDate.value); }
  }

  method PatchItem(item: Item, patch: Expenses.ItemPatch) returns (i: Item)
    requires Expenses.Fillable(patch)
    ensures i == Expenses.Patched(item, patch)
  {
    i := item;
    if patch.category.Set? { i := i.(category := patch.category.value); }
    if patch.amount.Set? { i := i.(amount := StoredCents(patch.amount.value)); }
    if patch.isExcluded.Set? { i := i.(isExcluded := patch.isExcluded.value); }
    if !patch.fundCenter.Unset? { i := i.(fundCenter := Expenses.Sent(patch.fundCenter)); }
    if !patch.costCenter.Unset? { i := i.(costCenter := Expenses.Sent(patch.costCenter)); }
  }

  method PatchUser(user: User, patch: Accounts.UserPatch) returns (u: User)
    requires Accounts.Fillable(patch)
    ensures u == Accounts.Patched(user, patch)
  {
    u := user;
    if patch.name.Set? { u := u.(name := patch.name.value); }
    if patch.department.Set? { u := u.(department := patch.department.value); }
    if !patch.position.Unset? { u := u.(position := OverNullable(patch.position, user.position)); }
    if !patch.manager.Unset? { u := u.(manager := OverNullable(patch.manager, user.manager)); }
    if patch.role.Set? { u := u.(role := patch.role.value); }
    if patch.isActive.Set? { u := u.(isActive := patch.isActive.value); }
  }

  class Store {
    var users: map<Id, User>
    var cards: map<Id, Id>
    var transactions: map<Id, Transaction>
    var funds: map<string, bool>
    var costs: map<string, bool>
    var trips: map<Id, Trip>
    var reports: map<Id, Report>
    var items: map<Id, Item>
    var log: seq<LogEntry>
    var notes: seq<Notification>
    var nextUser: Id
    var nextCard: Id
    var nextTransaction: Id
    var nextTrip: Id
    var nextReport: Id
    var nextItem: Id

    function Snapshot(): DB
      reads this
    {
      DB(users, cards, transactions, funds, costs, trips, reports, items, log, notes,
         nextUser, nextCard, nextTransaction, nextTrip, nextReport, nextItem)
    }

    constructor ()
      ensures Snapshot() == EMPTY
    {
      users, cards, transactions, funds, costs := map[], map[], map[], map[], map[];
      trips, reports, items, log, notes := map[], map[], map[], [], [];
      nextUser, nextCard, nextTransaction, nextTrip, nextReport, nextItem := 0, 0, 0, 0, 0, 0;
    }

    /** Rolls the open transaction back: the tables a service writes before it may still fail. */
    method Rollback(saved: DB)
      requires users == saved.users && cards == saved.cards && transactions == saved.transactions
      requires funds == saved.funds && costs == saved.costs
      requires nextUser == saved.nextUser && nextCard == saved.nextCard && nextTransaction == saved.nextTransaction
      requires nextTrip == saved.nextTrip && nextReport == saved.nextReport
      modifies this`trips, this`reports, this`items, this`log, this`notes, this`nextItem
      ensures Snapshot() == saved
    {
      trips, reports, items := saved.trips, saved.reports, saved.items;
      log, notes, nextItem := saved.log, saved.notes, saved.nextItem;
    }

    /** Writes the log entry and, unless it would go to the actor, the notification. */
    method RecordTransition(
      entity: Entity, actor: Id, action: Action, from: Option<Status>, to: Status, notify: Option<Notification>)
      modifies this`log, this`notes
      ensures Snapshot() == History.Record(old(Snapshot()), LogEntry(entity, actor, action, from, to), notify)
    {
      log := log + [LogEntry(entity, actor, action, from, to)];
      if notify.Some? && notify.value.user != actor {
        notes := notes + [notify.value];
      }
      assert notes == old(notes) + History.Delivered(actor, notify);
    }

    // -------------------------------------------------------------------------
    // Trips

    method LoadVisibleTrip(caller: Id, id: Id) returns (r: Result<Trip>)
      requires caller in users
      ensures r == Trips.VisibleTrip(Snapshot(), caller, id)
    {
      if id !in trips {
        return Err(TripNotFound);
      }
      var trip := trips[id];
      if !CanView(caller, users[caller].role, trip.owner, trip.approver) {
        return Err(TripNotFound);
      }
      r := Ok(trip);
    }

    method CreateTrip(env: Env, caller: Id, form: Trips.TripForm) returns (r: Result<()>)
      modifies this
      ensures Does(old(Snapshot()), Snapshot(), r, Trips.CreateTrip(old(Snapshot()), env, caller, form))
    {
      var _ :- Codes.ValidateCodes(
        env.codes, Trips.TripCodes(Some(form.purpose), Some(form.destination), Some(form.country)));
      var _ :- AssertDateRange(form.startDate, form.endDate);
      var nos := TripNos(trips);
      var no :- Numbering.NextNo(nos, nextTrip, Trips.TRIP_TAG, env.year);
      if Numbering.Taken(nos, no) {
        return Err(InternalError);
      }
      var id := nextTrip;
      nextTrip := nextTrip + 1;
      trips := trips[id := Trip(no, caller, form.title, form.purpose, form.destination, form.country, form.startDate,
                                form.endDate, None, TripStatus.Draft, None, None, None, None)];
      RecordTransition(TripRef(id), caller, Action.Create, None, OfTrip(TripStatus.Draft), None);
      r := Ok(());
    }

    method UpdateTrip(env: Env, caller: Id, id: Id, patch: Trips.TripPatch) returns (r: Result<()>)
      requires caller in users
      modifies this
      ensures Does(old(Snapshot()), Snapshot(), r, Trips.UpdateTrip(old(Snapshot()), env, caller, id, patch))
    {
      var trip :- LoadVisibleTrip(caller, id);
      var _ :- Check(caller == trip.owner, NotTripOwner);
      var _ :- Check(Editable(trip.status), TripNotEditable);
      var _ :- Codes.ValidateCodes(env.codes, Trips.TripCodes(
        patch.purpose.Over(trip.purpose), patch.destination.Over(trip.destination), patch.country.Over(trip.country)));
      if patch.startDate.Null? || patch.endDate.Null? {
        return Err(InternalError);
      }
      var _ :- AssertDateRange(patch.startDate.Over(trip.startDate).value, patch.endDate.Over(trip.endDate).value);
      if !Trips.Fillable(patch) {
        return Err(InternalError);
      }
      var changed := PatchTrip(trip, patch);
      trips := trips[id := changed];
      RecordTransition(TripRef(id), caller, Action.Update, Some(OfTrip(trip.status)), OfTrip(trip.status), None);
      r := Ok(());
    }

    method DeleteTrip(caller: Id, id: Id) returns (r: Result<()>)
      requires caller in users
      modifies this
      ensures Does(old(Snapshot()), Snapshot(), r, Trips.DeleteTrip(old(Snapshot()), caller, id))
    {
      var trip :- LoadVisibleTrip(caller, id);
      var _ :- Check(caller == trip.owner, NotTripOwner);
      var _ :- Check(trip.status.Draft?, TripNotDeletable);
      if HasReport(reports, id) {
        return Err(InternalError);
      }
      trips := trips - {id};
      r := Ok(());
    }

    method SubmitTrip(env: Env, caller: Id, id: Id) returns (r: Result<()>)
      requires caller in users
      modifies this
      ensures Does(old(Snapshot()), Snapshot(), r, Trips.SubmitTrip(old(Snapshot()), env, caller, id))
    {
      var trip :- LoadVisibleTrip(caller, id);
      var _ :- AssertTransitionAllowed(trip.status, TripStatus.Submitted, caller, trip.owner, trip.approver);
      var _ :- AssertDateRange(trip.startDate, trip.endDate);
      var approver :- AssertHasApprover(users[caller].manager);
      var from := trip.status;
      trip := trip.(status := TripStatus.Submitted);
      trip := trip.(approver := Some(approver));
      trip := trip.(submittedAt := Some(env.now));
      trip := trip.(approvedAt := None);
      trip := trip.(rejectReason := None);
      trips := trips[id := trip];
      RecordTransition(TripRef(id), caller, Action.Submit, Some(OfTrip(from)), OfTrip(TripStatus.Submitted),
                       Some(Notification(approver, TripSubmitted, TripRef(id))));
      r := Ok(());
    }

    method ApproveTrip(env: Env, caller: Id, id: Id) returns (r: Result<()>)
      requires caller in users
      modifies this
      ensures Does(old(Snapshot()), Snapshot(), r, Trips.ApproveTrip(old(Snapshot()), env, caller, id))
    {
      var trip :- LoadVisibleTrip(caller, id);
      var _ :- AssertTransitionAllowed(trip.status, TripStatus.Approved, caller, trip.owner, trip.approver);
      var from := trip.status;
      trip := trip.(status := TripStatus.Approved);
      trip := trip.(approvedAt := Some(env.now));
      trips := trips[id := trip];
      RecordTransition(TripRef(id), caller, Action.Approve, Some(OfTrip(from)), OfTrip(TripStatus.Approved),
                       Some(Notification(trip.owner, TripApproved, TripRef(id))));
      r := Ok(());
    }

    method RejectTrip(caller: Id, id: Id, reason: string) returns (r: Result<()>)
      requires caller in users
      modifies this
      ensures Does(old(Snapshot()), Snapshot(), r, Trips.RejectTrip(old(Snapshot()), caller, id, reason))
    {
      var trip :- LoadVisibleTrip(caller, id);
      var _ :- AssertTransitionAllowed(trip.status, TripStatus.Rejected, caller, trip.owner, trip.approver);
      var text :- AssertRejectReason(reason);
      var from := trip.status;
      trip := trip.(status := TripStatus.Rejected);
      trip := trip.(rejectReason := Some(text));
      trips := trips[id := trip];
      RecordTransition(TripRef(id), caller, Action.Reject, Some(OfTrip(from)), OfTrip(TripStatus.Rejected),
                       Some(Notification(trip.owner, TripRejected, TripRef(id))));
      r := Ok(());
    }

    method ReopenTrip(caller: Id, id: Id) returns (r: Result<()>)
      requires caller in users
      modifies this
      ensures Does(old(Snapshot()), Snapshot(), r, Trips.ReopenTrip(old(Snapshot()), caller, id))
    {
      var trip :- LoadVisibleTrip(caller, id);
      var _ :- AssertTransitionAllowed(trip.status, TripStatus.Draft, caller, trip.owner, trip.approver);
      var from := trip.status;
      trip := trip.(status := TripStatus.Draft);
      trip := trip.(approver := None);
      trip := trip.(submittedAt := None);
      trip := trip.(approvedAt := None);
      trips := trips[id := trip];
      RecordTransition(TripRef(id), caller, Action.Update, Some(OfTrip(from)), OfTrip(TripStatus.Draft), None);
      r := Ok(());
    }

    method CompleteTrip(env: Env, caller: Id, id: Id) returns (r: Result<()>)
      requires caller in users
      modifies this
      ensures Does(old(Snapshot()), Snapshot(), r, Trips.CompleteTrip(old(Snapshot()), env, caller, id))
    {
      var trip :- LoadVisibleTrip(caller, id);
      var _ :- AssertTransitionAllowed(trip.status, TripStatus.Completed, caller, trip.owner, trip.approver);
      var _ :- Check(trip.endDate < env.today, TripNotEnded);
      var from := trip.status;
      trips := trips[id := trip.(status := TripStatus.Completed)];
      RecordTransition(TripRef(id), caller, Action.Complete, Some(OfTrip(from)), OfTrip(TripStatus.Completed), None);
      r := Ok(());
    }

    /** Part of the approval of a report: no commit of its own. */
    method SettleTripForReport(id: Id, actor: Id) returns (r: Result<()>)
      modifies this
      ensures Does(old(Snapshot()), Snapshot(), r, Trips.SettleTripForReport(old(Snapshot()), id, actor))
    {
      if id !in trips {
        return Err(InternalError);
      }
      var trip := trips[id];
      var _ :- AssertSystemTransition(trip.status, TripStatus.Settled);
      var from := trip.status;
      trips := trips[id := trip.(status := TripStatus.Settled)];
      RecordTransition(TripRef(id), actor, Action.Settle, Some(OfTrip(from)), OfTrip(TripStatus.Settled), None);
      r := Ok(());
    }

    // -------------------------------------------------------------------------
    // Expense reports

    method LoadVisibleReport(caller: Id, id: Id) returns (r: Result<Report>)
      requires caller in users
      ensures r == Expenses.VisibleReport(Snapshot(), caller, id)
    {
      if id !in reports {
        return Err(ExpenseNotFound);
      }
      var report := reports[id];
      if !CanView(caller, users[caller].role, report.owner, report.approver) {
        return Err(ExpenseNotFound);
      }
      r := Ok(report);
    }

    method LoadEditableReport(caller: Id, id: Id) returns (r: Result<Report>)
      requires caller in users
      ensures r == Expenses.EditableReport(Snapshot(), caller, id)
    {
      var report :- LoadVisibleReport(caller, id);
      var _ :- Check(caller == report.owner, NotExpenseOwner);
      var _ :- Check(ReportEditable(report.status), ExpenseNotEditable);
      r := Ok(report);
    }

    method LoadItemForEdit(caller: Id, id: Id) returns (r: Result<Item>)
      requires caller in users
      ensures r == Expenses.EditableItem(Snapshot(), caller, id)
    {
      if id !in items {
        return Err(ExpenseItemNotFound);
      }
      var _ :- LoadEditableReport(caller, items[id].reportId);
      r := Ok(items[id]);
    }

    method CreateReport(env: Env, caller: Id, tripId: Id) returns (r: Result<()>)
      requires caller in users
      modifies this
      ensures Does(old(Snapshot()), Snapshot(), r, Expenses.CreateReport(old(Snapshot()), env, caller, tripId))
    {
      var trip :- LoadVisibleTrip(caller, tripId);
      var _ :- Check(caller == trip.owner, NotTripOwner);
      var _ :- Check(Reportable(trip.status), TripNotReportable);
      if HasReport(reports, tripId) {
        return Err(ExpenseAlreadyExists);
      }
      var nos := ReportNos(reports);
      var no :- Numbering.NextNo(nos, nextReport, Expenses.REPORT_TAG, env.utcYear);
      if Numbering.Taken(nos, no) {
        return Err(InternalError);
      }
      var id := nextReport;
      nextReport := nextReport + 1;
      reports := reports[id := Report(no, tripId, trip.owner, ReportStatus.Draft, None, trip.costCenter, 0,
                                      trip.approver, None, None, None)];
      RecordTransition(ReportRef(id), caller, Action.Create, None, OfReport(ReportStatus.Draft), None);
      r := Ok(());
    }

    method ValidateCenters(fund: Option<string>, cost: Option<string>) returns (r: Result<()>)
      ensures r == Expenses.ValidateCenters(Snapshot(), fund, cost)
    {
      if fund.Some? {
        var _ :- Expenses.AssertActive(funds, fund, InvalidFundCenter);
      }
      if cost.Some? {
        var _ :- Expenses.AssertActive(costs, cost, InvalidCostCenter);
      }
      r := Ok(());
    }

    method UpdateReport(caller: Id, id: Id, patch: Expenses.ReportPatch) returns (r: Result<()>)
      requires caller in users
      modifies this
      ensures Does(old(Snapshot()), Snapshot(), r, Expenses.UpdateReport(old(Snapshot()), caller, id, patch))
    {
      var report :- LoadEditableReport(caller, id);
      var _ :- ValidateCenters(Expenses.Sent(patch.fundCenter), Expenses.Sent(patch.costCenter));
      var changed := report;
      if !patch.fundCenter.Unset? {
        changed := changed.(fundCenter := Expenses.Sent(patch.fundCenter));
      }
      if !patch.costCenter.Unset? {
        changed := changed.(costCenter := Expenses.Sent(patch.costCenter));
      }
      reports := reports[id := changed];
      RecordTransition(ReportRef(id), caller, Action.Update, Some(OfReport(report.status)), OfReport(report.status),
                       None);
      r := Ok(());
    }

    /** Adds up the included items row by row and stores the sum. */
    method RecalcTotal(id: Id) returns (r: Result<()>)
      requires id in reports
      modifies this`reports
      ensures Does(old(Snapshot()), Snapshot(), r, Expenses.RecalcTotal(old(Snapshot()), id))
    {
      var total := 0;
      for i := 0 to nextItem
        invariant total == SumIncluded(items, id, i)
      {
        if i in items && items[i].reportId == id && !items[i].isExcluded {
          total := total + items[i].amount;
        }
      }
      var _ :- AssertReportTotal(total);
      reports := reports[id := reports[id].(total := total)];
      r := Ok(());
    }

    method AssertUsableTransaction(reportId: Id, transactionId: Id) returns (r: Result<Transaction>)
      requires reportId in reports
      ensures r == Expenses.UsableTransaction(Snapshot(), reportId, transactionId)
    {
      if transactionId !in transactions {
        return Err(InvalidTransaction);
      }
      var t := transactions[transactionId];
      if t.isCancelled || t.card !in cards || cards[t.card] != reports[reportId].owner {
        return Err(InvalidTransaction);
      }
      if exists i | i in items :: items[i].reportId == reportId && items[i].transaction == Some(transactionId) {
        return Err(ExpenseItemDuplicate);
      }
      r := Ok(t);
    }

    /** The amount sent, or else the amount of the transaction. */
    method NewItemAmount(reportId: Id, form: Expenses.ItemForm) returns (r: Result<real>)
      requires reportId in reports
      ensures r == Expenses.NewItemAmount(Snapshot(), reportId, form)
    {
      var amount := form.amount;
      if form.transaction.Some? {
        var t :- AssertUsableTransaction(reportId, form.transaction.value);
        if amount.None? {
          amount := Some(t.amount as real / 100.0);
        }
      } else if amount.None? {
        return Err(AmountRequired);
      }
      r := Ok(amount.value);
    }

    method AddItem(env: Env, caller: Id, reportId: Id, form: Expenses.ItemForm) returns (r: Result<()>)
      requires caller in users
      modifies this
      ensures Does(old(Snapshot()), Snapshot(), r, Expenses.AddItem(old(Snapshot()), env, caller, reportId, form))
    {
      var report :- LoadEditableReport(caller, reportId);
      var _ :- Codes.ValidateCodes(env.codes, Expenses.CategorySpec(form.category));
      var _ :- ValidateCenters(form.fundCenter, form.costCenter);
      var amount :- NewItemAmount(reportId, form);
      var _ :- AssertItemAmount(amount);
      var saved := Snapshot();
      items := items[nextItem := Item(reportId, form.transaction, form.category, StoredCents(amount), false,
                                      form.fundCenter, form.costCenter)];
      nextItem := nextItem + 1;
      r := RecalcTotal(reportId);
      if r.Err? {
        Rollback(saved);
      }
    }

    method UpdateItem(env: Env, caller: Id, id: Id, patch: Expenses.ItemPatch) returns (r: Result<()>)
      requires caller in users
      modifies this
      ensures Does(old(Snapshot()), Snapshot(), r, Expenses.UpdateItem(old(Snapshot()), env, caller, id, patch))
    {
      var item :- LoadItemForEdit(caller, id);
      if patch.category.Set? {
        var _ :- Codes.ValidateCodes(env.codes, Expenses.CategorySpec(patch.category.value));
      }
      var _ :- ValidateCenters(Expenses.Sent(patch.fundCenter), Expenses.Sent(patch.costCenter));
      if patch.amount.Set? {
        var _ :- AssertItemAmount(patch.amount.value);
      }
      if !Expenses.Fillable(patch) {
        return Err(InternalError);
      }
      var saved := Snapshot();
      item := PatchItem(item, patch);
      items := items[id := item];
      r := RecalcTotal(item.reportId);
      if r.Err? {
        Rollback(saved);
      }
    }

    method DeleteItem(caller: Id, id: Id) returns (r: Result<()>)
      requires caller in users
      modifies this
      ensures Does(old(Snapshot()), Snapshot(), r, Expenses.DeleteItem(old(Snapshot()), caller, id))
    {
      var item :- LoadItemForEdit(caller, id);
      var saved := Snapshot();
      items := items - {id};
      r := RecalcTotal(item.reportId);
      if r.Err? {
        Rollback(saved);
      }
    }

    method SubmitReport(env: Env, caller: Id, id: Id) returns (r: Result<()>)
      requires caller in users
      modifies this
      ensures Does(old(Snapshot()), Snapshot(), r, Expenses.SubmitReport(old(Snapshot()), env, caller, id))
    {
      var report :- LoadVisibleReport(caller, id);
      var _ :- AssertReportTransitionAllowed(report.status, ReportStatus.Submitted, caller, report.owner,
                                             report.approver);
      if report.tripId !in trips {
        return Err(InternalError);
      }
      var trip := trips[report.tripId];
      var _ :- Check(trip.status.Completed?, TripNotCompleted);
      var _ :- AssertCentersPresent(report.fundCenter, report.costCenter);
      var _ :- Expenses.AssertActive(funds, report.fundCenter, InvalidFundCenter);
      var _ :- Expenses.AssertActive(costs, report.costCenter, InvalidCostCenter);
      var _ :- Check(HasIncluded(items, id), ExpenseNoItems);
      var saved := Snapshot();
      var recalculated := RecalcTotal(id);
      if recalculated.Err? {
        return recalculated;
      }
      if trip.approver.None? {
        Rollback(saved);
        return Err(NoApprover);
      }
      var submitted := reports[id];
      submitted := submitted.(status := ReportStatus.Submitted);
      submitted := submitted.(approver := trip.approver);
      submitted := submitted.(submittedAt := Some(env.now));
      submitted := submitted.(approvedAt := None);
      submitted := submitted.(rejectReason := None);
      reports := reports[id := submitted];
      RecordTransition(ReportRef(id), caller, Action.Submit, Some(OfReport(report.status)),
                       OfReport(ReportStatus.Submitted),
                       Some(Notification(trip.approver.value, ExpenseSubmitted, ReportRef(id))));
      r := Ok(());
    }

    /** Approves the report and settles its trip; when the settlement fails, the approval is rolled back with it. */
    method ApproveReport(env: Env, caller: Id, id: Id) returns (r: Result<()>)
      requires caller in users
      modifies this
      ensures Does(old(Snapshot()), Snapshot(), r, Expenses.ApproveReport(old(Snapshot()), env, caller, id))
    {
      var report :- LoadVisibleReport(caller, id);
      var _ :- AssertReportTransitionAllowed(report.status, ReportStatus.Approved, caller, report.owner,
                                             report.approver);
      var saved := Snapshot();
      var from := report.status;
      report := report.(status := ReportStatus.Approved);
      report := report.(approvedAt := Some(env.now));
      reports := reports[id := report];
      RecordTransition(ReportRef(id), caller, Action.Approve, Some(OfReport(from)), OfReport(ReportStatus.Approved),
                       Some(Notification(report.owner, ExpenseApproved, ReportRef(id))));
      r := SettleTripForReport(report.tripId, caller);
      if r.Err? {
        Rollback(saved);
      }
    }

    method RejectReport(caller: Id, id: Id, reason: string) returns (r: Result<()>)
      requires caller in users
      modifies this
      ensures Does(old(Snapshot()), Snapshot(), r, Expenses.RejectReport(old(Snapshot()), caller, id, reason))
    {
      var report :- LoadVisibleReport(caller, id);
      var _ :- AssertReportTransitionAllowed(report.status, ReportStatus.Rejected, caller, report.owner,
                                             report.approver);
      var text :- AssertRejectReason(reason);
      var from := report.status;
      report := report.(status := ReportStatus.Rejected);
      report := report.(rejectReason := Some(text));
      reports := reports[id := report];
      RecordTransition(ReportRef(id), caller, Action.Reject, Some(OfReport(from)), OfReport(ReportStatus.Rejected),
                       Some(Notification(report.owner, ExpenseRejected, ReportRef(id))));
      r := Ok(());
    }

    method ReopenReport(caller: Id, id: Id) returns (r: Result<()>)
      requires caller in users
      modifies this
      ensures Does(old(Snapshot()), Snapshot(), r, Expenses.ReopenReport(old(Snapshot()), caller, id))
    {
      var report :- LoadVisibleReport(caller, id);
      var _ :- AssertReportTransitionAllowed(report.status, ReportStatus.Draft, caller, report.owner, report.approver);
      var from := report.status;
      report := report.(status := ReportStatus.Draft);
      report := report.(submittedAt := None);
      report := report.(approvedAt := None);
      reports := reports[id := report];
      RecordTransition(ReportRef(id), caller, Action.Update, Some(OfReport(from)), OfReport(ReportStatus.Draft), None);
      r := Ok(());
    }

    // -------------------------------------------------------------------------
    // Accounts

    method Signup(env: Env, form: Accounts.SignupForm) returns (r: Result<()>)
      modifies this
      ensures Does(old(Snapshot()), Snapshot(), r, Accounts.Signup(old(Snapshot()), env, form))
    {
      var _ :- Accounts.AssertPasswordLength(form.password);
      var _ :- Accounts.AssertDepartment(env, form.department);
      var existing := Accounts.UserWithEmail(users, form.email, nextUser);
      if existing.Some? {
        r := Resubmit(existing.value, form);
        return;
      }
      users := users[nextUser := Accounts.Application(form)];
      nextUser := nextUser + 1;
      r := Ok(());
    }

    method Resubmit(id: Id, form: Accounts.SignupForm) returns (r: Result<()>)
      requires id in users
      modifies this`users
      ensures match Accounts.Resubmit(old(users), id, form)
        case Ok(next) => r.Ok? && users == next
        case Err(e) => r == Err(e) && users == old(users)
    {
      var user := users[id];
      if user.status.Pending? {
        return Err(AlreadyPending);
      }
      if user.status.Active? {
        return Err(DuplicateEmail);
      }
      var allowed := UserStatusRules.AssertSignupTransition(user.status, UserStatus.Pending, UserStatusRules.Applicant);
      assert allowed.Ok?;
      user := user.(name := form.name);
      user := user.(department := form.department);
      user := user.(passwordHash := form.digest);
      user := user.(status := UserStatus.Pending);
      user := user.(isActive := false);
      users := users[id := user];
      r := Ok(());
    }

    method CreateUser(env: Env, form: Accounts.UserForm) returns (r: Result<()>)
      modifies this
      ensures Does(old(Snapshot()), Snapshot(), r, Accounts.CreateUser(old(Snapshot()), env, form))
    {
      var _ :- Accounts.AssertPasswordLength(form.password);
      var _ :- Check(!Accounts.EmailTaken(users, form.email), DuplicateEmail);
      var _ :- Check(!Accounts.EmployeeNoTaken(users, form.employeeNo), DuplicateEmployeeNo);
      var _ :- Accounts.AssertDepartment(env, form.department);
      var _ :- Accounts.AssertManager(users, form.manager, None);
      var _ :- Codes.ValidateCodes(env.codes, Accounts.PositionSpec(form.position));
      users := users[nextUser := User(form.email, form.digest, form.name, Some(form.employeeNo), form.department,
                                      Some(form.position), form.manager, form.role, UserStatus.Active, form.isActive)];
      nextUser := nextUser + 1;
      r := Ok(());
    }

    method UpdateUser(env: Env, actor: Id, id: Id, patch: Accounts.UserPatch) returns (r: Result<()>)
      modifies this
      ensures Does(old(Snapshot()), Snapshot(), r, Accounts.UpdateUser(old(Snapshot()), env, actor, id, patch))
    {
      if id !in users {
        return Err(UserNotFound);
      }
      var user := users[id];
      if id == actor {
        if patch.role.Set? && patch.role.value != Role.Admin {
          return Err(CannotDemoteSelf);
        }
        if patch.isActive.Set? && !patch.isActive.value {
          return Err(CannotDemoteSelf);
        }
      }
      if patch.department.Set? {
        var _ :- Accounts.AssertDepartment(env, patch.department.value);
      }
      if !patch.manager.Unset? {
        var _ :- Accounts.AssertManager(users, OverNullable(patch.manager, user.manager), Some(id));
      }
      if patch.position.Set? {
        var _ :- Codes.ValidateCodes(env.codes, Accounts.PositionSpec(patch.position.value));
      }
      if !Accounts.Fillable(patch) {
        return Err(InternalError);
      }
      user := PatchUser(user, patch);
      users := users[id := user];
      r := Ok(());
    }

    method ApproveUser(env: Env, id: Id, form: Accounts.ApproveForm) returns (r: Result<()>)
      modifies this
      ensures Does(old(Snapshot()), Snapshot(), r, Accounts.ApproveUser(old(Snapshot()), env, id, form))
    {
      if id !in users {
        return Err(UserNotFound);
      }
      var user := users[id];
      var _ :- UserStatusRules.AssertSignupTransition(user.status, UserStatus.Active, UserStatusRules.Administrator);
      var _ :- Check(!Accounts.EmployeeNoTaken(users, form.employeeNo), DuplicateEmployeeNo);
      var _ :- Accounts.AssertManager(users, form.manager, Some(id));
      var _ :- Codes.ValidateCodes(env.codes, Accounts.PositionSpec(form.position));
      user := user.(employeeNo := Some(form.employeeNo));
      user := user.(position := Some(form.position));
      user := user.(manager := form.manager);
      user := user.(role := form.role);
      user := user.(status := UserStatus.Active);
      user := user.(isActive := true);
      users := users[id := user];
      r := Ok(());
    }

    method RejectUser(id: Id) returns (r: Result<()>)
      modifies this
      ensures Does(old(Snapshot()), Snapshot(), r, Accounts.RejectUser(old(Snapshot()), id))
    {
      if id !in users {
        return Err(UserNotFound);
      }
      var user := users[id];
      var _ :- UserStatusRules.AssertSignupTransition(user.status, UserStatus.Rejected, UserStatusRules.Administrator);
      user := user.(status := UserStatus.Rejected);
      user := user.(isActive := false);
      users := users[id := user];
      r := Ok(());
    }

    // -------------------------------------------------------------------------
    // Master data

    method CreateCenter(env: Env, kind: Masters.CenterKind, code: string, department: Option<Id>, isActive: bool)
      returns (r: Result<()>)
      modifies this
      ensures Does(old(Snapshot()), Snapshot(), r,
                   Masters.CreateCenter(old(Snapshot()), env, kind, code, department, isActive))
    {
      var centers := if kind.FundCenter? then funds else costs;
      var _ :- Check(code !in centers, DuplicateCenterCode);
      var _ :- Masters.AssertCenterDepartment(env, department);
      WriteCenters(kind, centers[code := isActive]);
      r := Ok(());
    }

    method WriteCenters(kind: Masters.CenterKind, centers: map<string, bool>)
      modifies this`funds, this`costs
      ensures Snapshot() == Masters.WithCenters(old(Snapshot()), kind, centers)
    {
      if kind.FundCenter? {
        funds := centers;
      } else {
        costs := centers;
      }
    }

    method UpdateCenter(
      env: Env, kind: Masters.CenterKind, code: string, department: Field<Id>, isActive: Field<bool>)
      returns (r: Result<()>)
      modifies this
      ensures Does(old(Snapshot()), Snapshot(), r,
                   Masters.UpdateCenter(old(Snapshot()), env, kind, code, department, isActive))
    {
      var centers := if kind.FundCenter? then funds else costs;
      if code !in centers {
        return Err(CenterNotFound);
      }
      if department.Set? {
        var _ :- Masters.AssertCenterDepartment(env, Some(department.value));
      }
      if isActive.Null? {
        return Err(InternalError);
      }
      WriteCenters(kind, centers[code := isActive.Over(centers[code]).value]);
      r := Ok(());
    }

    /** Looks through every column that may hold the code before the row goes. */
    method DeleteCenter(kind: Masters.CenterKind, code: string) returns (r: Result<()>)
      modifies this
      ensures Does(old(Snapshot()), Snapshot(), r, Masters.DeleteCenter(old(Snapshot()), kind, code))
    {
      var centers := if kind.FundCenter? then funds else costs;
      if code !in centers {
        return Err(CenterNotFound);
      }
      var columns := Masters.References(kind);
      for i := 0 to |columns|
        invariant forall k | 0 <= k < i :: !Masters.Refers(Snapshot(), columns[k], code)
        invariant Snapshot() == old(Snapshot())
      {
        if Masters.Refers(Snapshot(), columns[i], code) {
          assert columns[i] in columns;
          return Err(HasDependents);
        }
      }
      WriteCenters(kind, centers - {code});
      r := Ok(());
    }

    method CreateCard(owner: Id) returns (r: Result<()>)
      modifies this
      ensures Does(old(Snapshot()), Snapshot(), r, Masters.CreateCard(old(Snapshot()), owner))
    {
      var _ :- Check(owner in users, InvalidUser);
      cards := cards[nextCard := owner];
      nextCard := nextCard + 1;
      r := Ok(());
    }

    method DeleteCard(card: Id) returns (r: Result<()>)
      modifies this
      ensures Does(old(Snapshot()), Snapshot(), r, Masters.DeleteCard(old(Snapshot()), card))
    {
      var _ :- Check(card in cards, CardNotFound);
      if exists t | t in transactions :: transactions[t].card == card {
        return Err(HasDependents);
      }
      cards := cards - {card};
      r := Ok(());
    }

    method PostTransaction(t: Transaction) returns (r: Result<()>)
      modifies this
      ensures Does(old(Snapshot()), Snapshot(), r, Masters.PostTransaction(old(Snapshot()), t))
    {
      var _ :- Check(t.card in cards, InternalError);
      transactions := transactions[nextTransaction := t];
      nextTransaction := nextTransaction + 1;
      r := Ok(());
    }

    // -------------------------------------------------------------------------
    // Requests

    method ServeTrip(env: Env, caller: Id, c: Runs.TripCall) returns (r: Result<()>)
      requires caller in users
      modifies this
      ensures Does(old(Snapshot()), Snapshot(), r, Runs.ApplyTrip(old(Snapshot()), env, caller, c))
    {
      match c
      case CreateTrip(form) => r := CreateTrip(env, caller, form);
      case UpdateTrip(id, patch) => r := UpdateTrip(env, caller, id, patch);
      case DeleteTrip(id) => r := DeleteTrip(caller, id);
      case SubmitTrip(id) => r := SubmitTrip(env, caller, id);
      case ApproveTrip(id) => r := ApproveTrip(env, caller, id);
      case RejectTrip(id, reason) => r := RejectTrip(caller, id, reason);
      case ReopenTrip(id) => r := ReopenTrip(caller, id);
      case CompleteTrip(id) => r := CompleteTrip(env, caller, id);
    }

    method ServeReport(env: Env, caller: Id, c: Runs.ReportCall) returns (r: Result<()>)
      requires caller in users
      modifies this
      ensures Does(old(Snapshot()), Snapshot(), r, Runs.ApplyReport(old(Snapshot()), env, caller, c))
    {
      match c
      case CreateReport(tripId) => r := CreateReport(env, caller, tripId);
      case UpdateReport(id, patch) => r := UpdateReport(caller, id, patch);
      case AddItem(id, form) => r := AddItem(env, caller, id, form);
      case UpdateItem(id, patch) => r := UpdateItem(env, caller, id, patch);
      case DeleteItem(id) => r := DeleteItem(caller, id);
      case SubmitReport(id) => r := SubmitReport(env, caller, id);
      case ApproveReport(id) => r := ApproveReport(env, caller, id);
      case RejectReport(id, reason) => r := RejectReport(caller, id, reason);
      case ReopenReport(id) => r := ReopenReport(caller, id);
    }

    method ServeAdmin(env: Env, caller: Id, c: Runs.AdminCall) returns (r: Result<()>)
      modifies this
      ensures Does(old(Snapshot()), Snapshot(), r, Runs.ApplyAdmin(old(Snapshot()), env, caller, c))
    {
      match c
      case Signup(form) => r := Signup(env, form);
      case CreateUser(form) => r := CreateUser(env, form);
      case UpdateUser(user, patch) => r := UpdateUser(env, caller, user, patch);
      case ApproveUser(user, form) => r := ApproveUser(env, user, form);
      case RejectUser(user) => r := RejectUser(user);
      case CreateCenter(kind, code, department, active) => r := CreateCenter(env, kind, code, department, active);
      case UpdateCenter(kind, code, department, active) => r := UpdateCenter(env, kind, code, department, active);
      case DeleteCenter(kind, code) => r := DeleteCenter(kind, code);
      case CreateCard(owner) => r := CreateCard(owner);
      case DeleteCard(card) => r := DeleteCard(card);
      case PostTransaction(t) => r := PostTransaction(t);
    }

    method Serve(q: Runs.Request) returns (r: Result<()>)
      modifies this
      ensures Does(old(Snapshot()), Snapshot(), r, Runs.Apply(old(Snapshot()), q))
      ensures Snapshot() == Runs.Step(old(Snapshot()), q)
    {
      match q.call
      case OnTrip(c) =>
        if q.caller !in users {
          return Err(InvalidToken);
        }
        r := ServeTrip(q.env, q.caller, c);
      case OnReport(c) =>
        if q.caller !in users {
          return Err(InvalidToken);
        }
        r := ServeReport(q.env, q.caller, c);
      case OnAdmin(c) => r := ServeAdmin(q.env, q.caller, c);
    }

    /** The store under a sequence of requests is the run the theorems speak about. */
    method ServeAll(qs: seq<Runs.Request>)
      modifies this
      ensures Snapshot() == Runs.Run(old(Snapshot()), qs)
    {
      for i := 0 to |qs|
        invariant Runs.Run(Snapshot(), qs[i..]) == Runs.Run(old(Snapshot()), qs)
      {
        assert qs[i..][0] == qs[i] && qs[i..][1..] == qs[i + 1..];
        var _ := Serve(qs[i]);
      }
    }
  }
}
