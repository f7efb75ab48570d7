/** The expense report services as functions from the tables to an outcome. */
module Expenses {
  import opened Common
  import opened Codes
  import opened Numbering
  import opened Tables
  import opened TripRules
  import opened ExpenseRules
  import opened History
  import opened Trips

  datatype ReportPatch = ReportPatch(fundCenter: Field<string>, costCenter: Field<string>)

  datatype ItemForm = ItemForm(
    transaction: Option<Id>, category: string, amount: Option<real>, fundCenter: Option<string>,
    costCenter: Option<string>)

  datatype ItemPatch = ItemPatch(
    category: Field<string>, amount: Field<real>, isExcluded: Field<bool>, fundCenter: Field<string>,
    costCenter: Field<string>)

  const REPORT_TAG := "EX"

  function VisibleReport(db: DB, caller: Id, id: Id): (r: Result<Report>)
    requires caller in db.users
    ensures r.Ok? ==> id in db.reports && r.value == db.reports[id]
  {
    if id in db.reports && CanView(caller, db.users[caller].role, db.reports[id].owner, db.reports[id].approver)
    then Ok(db.reports[id])
    else Err(ExpenseNotFound)
  }

  function EditableReport(db: DB, caller: Id, id: Id): (r: Result<Report>)
    requires caller in db.users
    ensures r.Ok? ==> id in db.reports && r.value == db.reports[id]
    ensures r.Ok? ==> caller == r.value.owner && ReportEditable(r.value.status)
  {
    var report :- VisibleReport(db, caller, id);
    var _ :- Check(caller == report.owner, NotExpenseOwner);
    var _ :- Check(ReportEditable(report.status), ExpenseNotEditable);
    Ok(report)
  }

  function EditableItem(db: DB, caller: Id, id: Id): (r: Result<Item>)
    requires caller in db.users
    ensures r.Ok? ==> id in db.items && r.value == db.items[id] && r.value.reportId in db.reports
    ensures r.Ok? ==>
      caller == db.reports[r.value.reportId].owner && ReportEditable(db.reports[r.value.reportId].status)
  {
    if id !in db.items then Err(ExpenseItemNotFound)
    else
      var _ :- EditableReport(db, caller, db.items[id].reportId);
      Ok(db.items[id])
  }

  function AssertActive(centers: map<string, bool>, code: Option<string>, error: Error): (r: Result<()>)
    ensures r.Ok? <==> code.Some? && code.value in centers && centers[code.value]
  {
    Check(code.Some? && code.value in centers && centers[code.value], error)
  }

  /** An absent center means "inherit" and is not checked. */
  function ValidateCenters(db: DB, fund: Option<string>, cost: Option<string>): (r: Result<()>)
    ensures r.Ok? ==> (fund.Some? ==> fund.value in db.funds) && (cost.Some? ==> cost.value in db.costs)
  {
    var _ :- if fund.Some? then AssertActive(db.funds, fund, InvalidFundCenter) else Ok(());
    if cost.Some? then AssertActive(db.costs, cost, InvalidCostCenter) else Ok(())
  }

  function Sent<T>(f: Field<T>): Option<T> {
    if f.Set? then Some(f.value) else None
  }

  function ReportEntry(id: Id, actor: Id, action: Action, from: ReportStatus, to: ReportStatus): LogEntry {
    LogEntry(ReportRef(id), actor, action, Some(OfReport(from)), OfReport(to))
  }

  function WriteReport(db: DB, id: Id, report: Report, e: LogEntry, notify: Option<Notification>): DB {
    Record(db.(reports := db.reports[id := report]), e, notify)
  }

  function CreateReport(db: DB, env: Env, caller: Id, tripId: Id): Result<DB>
    requires caller in db.users
  {
    var trip :- VisibleTrip(db, caller, tripId);
    var _ :- Check(caller == trip.owner, NotTripOwner);
    var _ :- Check(Reportable(trip.status), TripNotReportable);
    var _ :- Check(!HasReport(db.reports, tripId), ExpenseAlreadyExists);
    var no :- NextNo(ReportNos(db.reports), db.nextReport, REPORT_TAG, env.utcYear);
    var _ :- Check(!Taken(ReportNos(db.reports), no), InternalError);
    var id := db.nextReport;
    var report := Report(no, tripId, trip.owner, ReportStatus.Draft, None, trip.costCenter, 0, trip.approver, None,
                         None, None);
    Ok(WriteReport(db.(nextReport := id + 1), id, report,
                   LogEntry(ReportRef(id), caller, Action.Create, None, OfReport(ReportStatus.Draft)), None))
  }

  function UpdateReport(db: DB, caller: Id, id: Id, patch: ReportPatch): Result<DB>
    requires caller in db.users
  {
    var report :- EditableReport(db, caller, id);
    var _ :- ValidateCenters(db, Sent(patch.fundCenter), Sent(patch.costCenter));
    Ok(WriteReport(db, id,
                   report.(fundCenter := OverNullable(patch.fundCenter, report.fundCenter),
                           costCenter := OverNullable(patch.costCenter, report.costCenter)),
                   ReportEntry(id, caller, Action.Update, report.status, report.status), None))
  }

  /** `_recalc_total`: the stored total is derived again from the item rows. */
  function RecalcTotal(db: DB, id: Id): Result<DB>
    requires id in db.reports
  {
    var total := SumIncluded(db.items, id, db.nextItem);
    var _ :- AssertReportTotal(total);
    Ok(db.(reports := db.reports[id := db.reports[id].(total := total)]))
  }

  /** The transaction sits on a card of the report's owner, is not cancelled, and is not yet in the report. */
  function UsableTransaction(db: DB, reportId: Id, transactionId: Id): (r: Result<Transaction>)
    requires reportId in db.reports
    ensures r.Ok? ==> transactionId in db.transactions && r.value == db.transactions[transactionId]
    ensures r.Ok? ==> r.value.card in db.cards && db.cards[r.value.card] == db.reports[reportId].owner
    ensures r.Ok? ==> forall i | i in db.items && db.items[i].reportId == reportId ::
      db.items[i].transaction != Some(transactionId)
  {
    var usable :=
      && transactionId in db.transactions && !db.transactions[transactionId].isCancelled
      && db.transactions[transactionId].card in db.cards
      && db.cards[db.transactions[transactionId].card] == db.reports[reportId].owner;
    var _ :- Check(usable, InvalidTransaction);
    var _ :- Check(forall i | i in db.items && db.items[i].reportId == reportId ::
                     db.items[i].transaction != Some(transactionId), ExpenseItemDuplicate);
    Ok(db.transactions[transactionId])
  }

  /** The amount of a new item: the one sent, or else the transaction's own. */
  function NewItemAmount(db: DB, reportId: Id, form: ItemForm): (r: Result<real>)
    requires reportId in db.reports
    ensures r.Ok? && form.transaction.Some? ==> UsableTransaction(db, reportId, form.transaction.value).Ok?
  {
    if form.transaction.Some? then
      var t :- UsableTransaction(db, reportId, form.transaction.value);
      Ok(if form.amount.Some? then form.amount.value else t.amount as real / 100.0)
    else if form.amount.Some? then Ok(form.amount.value)
    else Err(AmountRequired)
  }

  function CategorySpec(category: string): seq<CodeSpec> {
    [CodeSpec(ExpenseCategory, ExpenseCategoryCode, Some(category))]
  }

  function AddItem(db: DB, env: Env, caller: Id, reportId: Id, form: ItemForm): Result<DB>
    requires caller in db.users
  {
    var report :- EditableReport(db, caller, reportId);
    var _ :- Verdict(env.codes, CategorySpec(form.category));
    var _ :- ValidateCenters(db, form.fundCenter, form.costCenter);
    var amount :- NewItemAmount(db, reportId, form);
    var _ :- AssertItemAmount(amount);
    var item := Item(reportId, form.transaction, form.category, StoredCents(amount), false, form.fundCenter,
                     form.costCenter);
    RecalcTotal(db.(items := db.items[db.nextItem := item], nextItem := db.nextItem + 1), reportId)
  }

  predicate Fillable(patch: ItemPatch) {
    !patch.category.Null? && !patch.amount.Null? && !patch.isExcluded.Null?
  }

  function Patched(item: Item, patch: ItemPatch): Item
    requires Fillable(patch)
  {
    item.(category := patch.category.Over(item.category).value,
          amount := if patch.amount.Set? then StoredCents(patch.amount.value) else item.amount,
          isExcluded := patch.isExcluded.Over(item.isExcluded).value,
          fundCenter := OverNullable(patch.fundCenter, item.fundCenter),
          costCenter := OverNullable(patch.costCenter, item.costCenter))
  }

  function UpdateItem(db: DB, env: Env, caller: Id, id: Id, patch: ItemPatch): Result<DB>
    requires caller in db.users
  {
    var item :- EditableItem(db, caller, id);
    var _ :- if patch.category.Set? then Verdict(env.codes, CategorySpec(patch.category.value)) else Ok(());
    var _ :- ValidateCenters(db, Sent(patch.fundCenter), Sent(patch.costCenter));
    var _ :- if patch.amount.Set? then AssertItemAmount(patch.amount.value) else Ok(());
    var _ :- Check(Fillable(patch), InternalError);
    RecalcTotal(db.(items := db.items[id := Patched(item, patch)]), item.reportId)
  }

  function DeleteItem(db: DB, caller: Id, id: Id): Result<DB>
    requires caller in db.users
  {
    var item :- EditableItem(db, caller, id);
    RecalcTotal(db.(items := db.items - {id}), item.reportId)
  }

  function SubmitReport(db: DB, env: Env, caller: Id, id: Id): Result<DB>
    requires caller in db.users
  {
    var report :- VisibleReport(db, caller, id);
    var _ :- AssertReportTransitionAllowed(report.status, ReportStatus.Submitted, caller, report.owner,
                                           report.approver);
    var _ :- Check(report.tripId in db.trips, InternalError);
    var trip := db.trips[report.tripId];
    var _ :- Check(trip.status.Completed?, TripNotCompleted);
    var _ :- AssertCentersPresent(report.fundCenter, report.costCenter);
    var _ :- AssertActive(db.funds, report.fundCenter, InvalidFundCenter);
    var _ :- AssertActive(db.costs, report.costCenter, InvalidCostCenter);
    var _ :- Check(HasIncluded(db.items, id), ExpenseNoItems);
    var counted :- RecalcTotal(db, id);
    var approver :- AssertHasApprover(trip.approver);
    Ok(WriteReport(counted, id,
                   counted.reports[id].(status := ReportStatus.Submitted, approver := Some(approver),
                                        submittedAt := Some(env.now), approvedAt := None, rejectReason := None),
                   ReportEntry(id, caller, Action.Submit, report.status, ReportStatus.Submitted),
                   Some(Notification(approver, ExpenseSubmitted, ReportRef(id)))))
  }

  function ApproveReport(db: DB, env: Env, caller: Id, id: Id): Result<DB>
    requires caller in db.users
  {
    var report :- VisibleReport(db, caller, id);
    var _ :- AssertReportTransitionAllowed(report.status, ReportStatus.Approved, caller, report.owner, report.approver);
    var approved := WriteReport(db, id, report.(status := ReportStatus.Approved, approvedAt := Some(env.now)),
                                ReportEntry(id, caller, Action.Approve, report.status, ReportStatus.Approved),
                                Some(Notification(report.owner, ExpenseApproved, ReportRef(id))));
    SettleTripForReport(approved, report.tripId, caller)
  }

  function RejectReport(db: DB, caller: Id, id: Id, reason: string): Result<DB>
    requires caller in db.users
  {
    var report :- VisibleReport(db, caller, id);
    var _ :- AssertReportTransitionAllowed(report.status, ReportStatus.Rejected, caller, report.owner, report.approver);
    var text :- AssertRejectReason(reason);
    Ok(WriteReport(db, id, report.(status := ReportStatus.Rejected, rejectReason := Some(text)),
                   ReportEntry(id, caller, Action.Reject, report.status, ReportStatus.Rejected),
                   Some(Notification(report.owner, ExpenseRejected, ReportRef(id)))))
  }

  function ReopenReport(db: DB, caller: Id, id: Id): Result<DB>
    requires caller in db.users
  {
    var report :- VisibleReport(db, caller, id);
    var _ :- AssertReportTransitionAllowed(report.status, ReportStatus.Draft, caller, report.owner, report.approver);
    Ok(WriteReport(db, id, report.(status := ReportStatus.Draft, submittedAt := None, approvedAt := None),
                   ReportEntry(id, caller, Action.Update, report.status, ReportStatus.Draft), None))
  }
}
