/** What each report service that does not touch items does, in terms of the request alone. */
module ReportServices {
  import opened Common
  import opened Numbering
  import opened Tables
  import opened TripServices
  import Expenses

  function ReportLine(id: Id, caller: Id, action: Action, from: ReportStatus, to: ReportStatus): seq<LogEntry> {
    [LogEntry(ReportRef(id), caller, action, Some(OfReport(from)), OfReport(to))]
  }

  lemma ReportIsVisibleExactlyTo(db: DB, caller: Id, id: Id)
    requires caller in db.users
    ensures Expenses.VisibleReport(db, caller, id) ==
      if id in db.reports && Sees(db, caller, db.reports[id].owner, db.reports[id].approver)
      then Ok(db.reports[id]) else Err(ExpenseNotFound)
  {
  }

  predicate MayEdit(db: DB, caller: Id, id: Id) {
    && id in db.reports && db.reports[id].owner == caller
    && (db.reports[id].status == ReportStatus.Draft || db.reports[id].status == ReportStatus.Rejected)
  }

  /** A center is usable if none is named or the one named is active. */
  predicate Usable(centers: map<string, bool>, code: Option<string>) {
    code.Some? ==> code.value in centers && centers[code.value]
  }

  lemma CreatingReportDoes(db: DB, env: Env, caller: Id, tripId: Id)
    requires caller in db.users
    ensures var r := Expenses.CreateReport(db, env, caller, tripId);
      r.Ok? ==>
        && tripId in db.trips && db.trips[tripId].owner == caller
        && (db.trips[tripId].status == TripStatus.Approved || db.trips[tripId].status == TripStatus.Completed)
        && (forall k | k in db.reports :: db.reports[k].tripId != tripId)
        && var no := NextNo(ReportNos(db.reports), db.nextReport, "EX", env.utcYear);
        && no.Ok? && !Taken(ReportNos(db.reports), no.value)
        && var trip := db.trips[tripId];
        && r.value == db.(
             nextReport := db.nextReport + 1,
             reports := db.reports[db.nextReport :=
               Report(no.value, tripId, trip.owner, ReportStatus.Draft, None, trip.costCenter, 0, trip.approver,
                      None, None, None)],
             log := db.log + [LogEntry(ReportRef(db.nextReport), caller, Action.Create, None,
                                       OfReport(ReportStatus.Draft))])
    ensures var r := Expenses.CreateReport(db, env, caller, tripId);
      tripId in db.trips && db.trips[tripId].owner == caller ==>
        var status := db.trips[tripId].status;
        && (status != TripStatus.Approved && status != TripStatus.Completed ==> r == Err(TripNotReportable))
        && (status == TripStatus.Approved || status == TripStatus.Completed ==>
              ((exists k | k in db.reports :: db.reports[k].tripId == tripId) ==> r == Err(ExpenseAlreadyExists)))
  {
    assert db.notes + [] == db.notes;
  }

  /** The centers are rewritten as sent: a value replaces, null clears, silence keeps. */
  lemma UpdatingReportDoes(db: DB, caller: Id, id: Id, patch: Expenses.ReportPatch)
    requires caller in db.users
    ensures var r := Expenses.UpdateReport(db, caller, id, patch);
      && (r.Ok? <==>
            && MayEdit(db, caller, id)
            && (patch.fundCenter.Set? ==> Usable(db.funds, Some(patch.fundCenter.value)))
            && (patch.costCenter.Set? ==> Usable(db.costs, Some(patch.costCenter.value))))
      && (r.Ok? ==>
            var report := db.reports[id];
            r.value == db.(
              reports := db.reports[id := report.(
                fundCenter := if patch.fundCenter.Set? then Some(patch.fundCenter.value)
                              else if patch.fundCenter.Null? then None else report.fundCenter,
                costCenter := if patch.costCenter.Set? then Some(patch.costCenter.value)
                              else if patch.costCenter.Null? then None else report.costCenter)],
              log := db.log + ReportLine(id, caller, Action.Update, report.status, report.status)))
      && (r.Err? && MayEdit(db, caller, id) ==>
            r.error ==
            if patch.fundCenter.Set? && !Usable(db.funds, Some(patch.fundCenter.value)) then InvalidFundCenter
            else InvalidCostCenter)
      && (r.Err? && id in db.reports && db.reports[id].owner == caller && !MayEdit(db, caller, id) ==>
            r.error == ExpenseNotEditable)
  {
    assert db.notes + [] == db.notes;
  }

  lemma RejectingReportDoes(db: DB, caller: Id, id: Id, reason: string) returns (text: string)
    requires caller in db.users
    ensures Trims(reason, text)
    ensures var r := Expenses.RejectReport(db, caller, id, reason);
      && (r.Ok? <==>
            && id in db.reports && db.reports[id].approver == Some(caller)
            && db.reports[id].status == ReportStatus.Submitted && !AllBlank(reason))
      && (r.Ok? ==> text != "" && r.value == db.(
            reports := db.reports[id := db.reports[id].(status := ReportStatus.Rejected, rejectReason := Some(text))],
            log := db.log + ReportLine(id, caller, Action.Reject, ReportStatus.Submitted, ReportStatus.Rejected),
            notes := db.notes + Letter(caller, db.reports[id].owner, ExpenseRejected, ReportRef(id))))
  {
    text := Strip(reason);
    StripTrims(reason);
  }

  lemma ReopeningReportDoes(db: DB, caller: Id, id: Id)
    requires caller in db.users
    ensures var r := Expenses.ReopenReport(db, caller, id);
      && (r.Ok? <==>
            id in db.reports && db.reports[id].owner == caller && db.reports[id].status == ReportStatus.Rejected)
      && (r.Ok? ==> r.value == db.(
            reports := db.reports[id := db.reports[id].(
              status := ReportStatus.Draft, submittedAt := None, approvedAt := None)],
            log := db.log + ReportLine(id, caller, Action.Update, ReportStatus.Rejected, ReportStatus.Draft)))
  {
    assert db.notes + [] == db.notes;
  }

  /** Why a transition of a report is refused before anything else is looked at. */
  lemma ReportTransitionsAreRefused(db: DB, env: Env, caller: Id, id: Id, reason: string)
    requires caller in db.users
    ensures id !in db.reports || !Sees(db, caller, db.reports[id].owner, db.reports[id].approver) ==>
      && Expenses.SubmitReport(db, env, caller, id) == Err(ExpenseNotFound)
      && Expenses.ApproveReport(db, env, caller, id) == Err(ExpenseNotFound)
      && Expenses.RejectReport(db, caller, id, reason) == Err(ExpenseNotFound)
      && Expenses.ReopenReport(db, caller, id) == Err(ExpenseNotFound)
    ensures id in db.reports && Sees(db, caller, db.reports[id].owner, db.reports[id].approver) ==>
      var report := db.reports[id];
      && (report.status != ReportStatus.Draft ==>
            Expenses.SubmitReport(db, env, caller, id) == Err(ExpenseInvalidTransition))
      && (report.status != ReportStatus.Submitted ==>
            && Expenses.ApproveReport(db, env, caller, id) == Err(ExpenseInvalidTransition)
            && Expenses.RejectReport(db, caller, id, reason) == Err(ExpenseInvalidTransition))
      && (report.status != ReportStatus.Rejected ==>
            Expenses.ReopenReport(db, caller, id) == Err(ExpenseInvalidTransition))
      && (report.status == ReportStatus.Draft && caller != report.owner ==>
            Expenses.SubmitReport(db, env, caller, id) == Err(NotExpenseOwner))
      && (report.status == ReportStatus.Submitted && report.approver != Some(caller) ==>
            && Expenses.ApproveReport(db, env, caller, id) == Err(NotExpenseApprover)
            && Expenses.RejectReport(db, caller, id, reason) == Err(NotExpenseApprover))
  {
  }
}
