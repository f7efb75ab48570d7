/** Every expense report service keeps the invariant. */
module ExpenseProofs {
  import opened Common
  import opened Numbering
  import opened Tables
  import opened TripRules
  import opened ExpenseRules
  import opened History
  import opened Trips
  import opened Expenses
  import opened Invariant
  import opened Preservation
  import TripProofs

  // ---------------------------------------------------------------------------
  // Creating a report

  lemma CreateReportShape(db: DB, env: Env, caller: Id, tripId: Id) returns (r: Report)
    requires TripsOk(db.trips, db.users, db.costs, env.today, db.nextTrip) && NumberingOk(db)
    requires caller in db.users && CreateReport(db, env, caller, tripId).Ok?
    ensures r.tripId in db.trips && !HasReport(db.reports, r.tripId) && r.owner == caller
    ensures Coupled(r, db.trips[r.tripId]) && ReportOk(r, db.funds, db.costs) && r.total == 0 && r.status.Draft?
    ensures WellNumbered(REPORT_TAG, r.no) && !Taken(ReportNos(db.reports), r.no)
    ensures CreateReport(db, env, caller, tripId) ==
      Ok(WriteReport(db.(nextReport := db.nextReport + 1), db.nextReport, r, ReportCreation(db.nextReport, caller),
                     None))
  {
    TripProofs.NextNoIsWellNumbered(REPORT_TAG, ReportNos(db.reports), db.nextReport, env.utcYear);
    r := CreateReport(db, env, caller, tripId).value.reports[db.nextReport];
    assert TripOk(db.trips[tripId], db.users, db.costs, env.today);
  }

  function ReportCreation(id: Id, owner: Id): LogEntry {
    LogEntry(ReportRef(id), owner, Action.Create, None, OfReport(ReportStatus.Draft))
  }

  lemma InsertReportKeepsAudit(db: DB, id: Id, r: Report)
    requires AuditOk(db) && id == db.nextReport && id !in db.reports && r.status.Draft?
    ensures AuditOk(WriteReport(db.(nextReport := id + 1), id, r, ReportCreation(id, r.owner), None))
  {
    FreshEntityIsBlank(db, ReportRef(id));
    assert db.reports - {id} == db.reports;
    ReportRecordKeepsAudit(db.(nextReport := id + 1), id, r, Blank, ReportCreation(id, r.owner), None);
  }

  lemma InsertReportKeepsTotals(db: DB, id: Id, r: Report)
    requires TotalsOk(db.reports, db.items, db.nextItem) && id !in db.reports && r.total == 0 && !Locked(r.status)
    requires forall i | i in db.items :: db.items[i].reportId in db.reports
    ensures TotalsOk(db.reports[id := r], db.items, db.nextItem)
  {
    SumPastTheEnd(db.items, id, 0, db.nextItem);
  }

  lemma InsertReportKeepsCoupling(db: DB, id: Id, r: Report)
    requires CouplingOk(db.reports, db.trips) && id !in db.reports
    requires r.tripId in db.trips && Coupled(r, db.trips[r.tripId])
    ensures CouplingOk(db.reports[id := r], db.trips)
  {
    forall t | t in db.trips && db.trips[t].status.Settled? ensures HasReport(db.reports[id := r], t) {
      assert HasReport(db.reports, t);
      var k :| k in db.reports && db.reports[k].tripId == t;
      assert k in db.reports[id := r] && db.reports[id := r][k].tripId == t;
    }
  }

  lemma InsertReportKeepsItems(db: DB, id: Id, r: Report)
    requires ItemsOk(db.items, db.reports, db.transactions, db.cards, db.funds, db.costs, db.nextItem)
    requires id !in db.reports
    ensures ItemsOk(db.items, db.reports[id := r], db.transactions, db.cards, db.funds, db.costs, db.nextItem)
  {
  }

  lemma InsertReportKeepsBusiness(db: DB, today: int, id: Id, r: Report)
    requires BusinessOk(db, today) && id == db.nextReport && !HasReport(db.reports, r.tripId)
    requires r.tripId in db.trips && Coupled(r, db.trips[r.tripId]) && ReportOk(r, db.funds, db.costs)
    requires r.total == 0 && !Locked(r.status)
    ensures BusinessOk(db.(reports := db.reports[id := r], nextReport := id + 1), today)
  {
    assert id !in db.reports;
    InsertReportKeepsTotals(db, id, r);
    InsertReportKeepsCoupling(db, id, r);
    InsertReportKeepsItems(db, id, r);
  }

  lemma InsertReportKeepsNumbering(db: DB, id: Id, r: Report)
    requires NumberingOk(db) && id == db.nextReport && WellNumbered(REPORT_TAG, r.no)
      && !Taken(ReportNos(db.reports), r.no)
    ensures NumbersOk(REPORT_TAG, ReportNos(db.reports[id := r]), id + 1)
  {
    TripProofs.InsertKeepsNumbers(REPORT_TAG, ReportNos(db.reports), id, r.no);
    assert ReportNos(db.reports[id := r]) == ReportNos(db.reports)[id := r.no];
  }

  lemma InsertReportKeepsInv(db: DB, today: int, id: Id, r: Report)
    requires Inv(db, today) && id == db.nextReport && !HasReport(db.reports, r.tripId)
    requires r.tripId in db.trips && Coupled(r, db.trips[r.tripId]) && ReportOk(r, db.funds, db.costs)
    requires r.total == 0 && r.status.Draft?
    requires WellNumbered(REPORT_TAG, r.no) && !Taken(ReportNos(db.reports), r.no)
    ensures Inv(WriteReport(db.(nextReport := id + 1), id, r, ReportCreation(id, r.owner), None), today)
  {
    InsertReportKeepsBusiness(db, today, id, r);
    InsertReportKeepsNumbering(db, id, r);
    InsertReportKeepsAudit(db, id, r);
  }

  lemma CreateReportKeeps(db: DB, env: Env, caller: Id, tripId: Id)
    requires Inv(db, env.today) && caller in db.users
    ensures var r := CreateReport(db, env, caller, tripId); r.Ok? ==> Inv(r.value, env.today)
  {
    if CreateReport(db, env, caller, tripId).Ok? {
      var r := CreateReportShape(db, env, caller, tripId);
      CreatedReportKeepsInv(db, env, caller, tripId, r);
    }
  }

  lemma CreatedReportKeepsInv(db: DB, env: Env, caller: Id, tripId: Id, r: Report)
    requires Inv(db, env.today) && caller in db.users
    requires r.tripId in db.trips && !HasReport(db.reports, r.tripId) && r.owner == caller
    requires Coupled(r, db.trips[r.tripId]) && ReportOk(r, db.funds, db.costs) && r.total == 0 && r.status.Draft?
    requires WellNumbered(REPORT_TAG, r.no) && !Taken(ReportNos(db.reports), r.no)
    requires CreateReport(db, env, caller, tripId) ==
      Ok(WriteReport(db.(nextReport := db.nextReport + 1), db.nextReport, r, ReportCreation(db.nextReport, caller),
                     None))
    ensures Inv(CreateReport(db, env, caller, tripId).value, env.today)
  {
    InsertReportKeepsInv(db, env.today, db.nextReport, r);
  }

  // ---------------------------------------------------------------------------
  // Header and items

  lemma ReheadedKeepsAudit(db: DB, caller: Id, id: Id, r: Report)
    requires AuditOk(db) && id in db.reports && id < db.nextReport
    requires caller == db.reports[id].owner && ReportEditable(db.reports[id].status)
    requires r == db.reports[id].(fundCenter := r.fundCenter, costCenter := r.costCenter)
    ensures AuditOk(WriteReport(db, id, r, ReportEntry(id, caller, Action.Update, r.status, r.status), None))
  {
    ReportWriteKeepsAudit(db, id, r, ReportEntry(id, caller, Action.Update, r.status, r.status), None);
  }

  lemma UpdateReportShape(db: DB, caller: Id, id: Id, patch: ReportPatch) returns (r: Report)
    requires caller in db.users && UpdateReport(db, caller, id, patch).Ok?
    ensures id in db.reports && caller == db.reports[id].owner && ReportEditable(db.reports[id].status)
    ensures r == db.reports[id].(fundCenter := r.fundCenter, costCenter := r.costCenter)
    ensures r.fundCenter == db.reports[id].fundCenter || Exists(r.fundCenter, db.funds)
    ensures r.costCenter == db.reports[id].costCenter || Exists(r.costCenter, db.costs)
    ensures UpdateReport(db, caller, id, patch) ==
      Ok(WriteReport(db, id, r, ReportEntry(id, caller, Action.Update, r.status, r.status), None))
  {
    r := UpdateReport(db, caller, id, patch).value.reports[id];
  }

  lemma UpdateReportKeeps(db: DB, today: int, caller: Id, id: Id, patch: ReportPatch)
    requires Inv(db, today) && caller in db.users
    ensures var r := UpdateReport(db, caller, id, patch); r.Ok? ==> Inv(r.value, today)
  {
    if UpdateReport(db, caller, id, patch).Ok? {
      var r := UpdateReportShape(db, caller, id, patch);
      assert TotalOk(id, db.reports[id], db.items, db.nextItem);
      ReheadedKeepsAudit(db, caller, id, r);
      ReportWriteKeepsInv(db, today, id, r, ReportEntry(id, caller, Action.Update, r.status, r.status), None);
    }
  }

  lemma AddItemShape(db: DB, env: Env, caller: Id, reportId: Id, form: ItemForm) returns (item: Item)
    requires caller in db.users && AddItem(db, env, caller, reportId, form).Ok?
    ensures reportId in db.reports && !Locked(db.reports[reportId].status)
    ensures item.reportId == reportId && item.transaction == form.transaction && 0 <= item.amount <= MAX_ITEM_CENTS
    ensures Exists(item.fundCenter, db.funds) && Exists(item.costCenter, db.costs)
    ensures item.transaction.Some? ==> UsableTransaction(db, reportId, item.transaction.value).Ok?
    ensures AddItem(db, env, caller, reportId, form) ==
      RecalcTotal(db.(items := db.items[db.nextItem := item], nextItem := db.nextItem + 1), reportId)
  {
    var amount := NewItemAmount(db, reportId, form).value;
    StoredAmountStaysInRange(amount);
    item := Item(reportId, form.transaction, form.category, StoredCents(amount), false, form.fundCenter,
                 form.costCenter);
  }

  lemma AddItemKeeps(db: DB, env: Env, caller: Id, reportId: Id, form: ItemForm)
    requires Inv(db, env.today) && caller in db.users
    ensures var r := AddItem(db, env, caller, reportId, form); r.Ok? ==> Inv(r.value, env.today)
  {
    if AddItem(db, env, caller, reportId, form).Ok? {
      var item := AddItemShape(db, env, caller, reportId, form);
      InsertItemKeepsInv(db, env.today, item);
    }
  }

  lemma InsertItemKeepsInv(db: DB, today: int, item: Item)
    requires Inv(db, today) && item.reportId in db.reports && !Locked(db.reports[item.reportId].status)
    requires 0 <= item.amount <= MAX_ITEM_CENTS
    requires Exists(item.fundCenter, db.funds) && Exists(item.costCenter, db.costs)
    requires item.transaction.Some? ==> UsableTransaction(db, item.reportId, item.transaction.value).Ok?
    ensures var r := RecalcTotal(db.(items := db.items[db.nextItem := item], nextItem := db.nextItem + 1),
                                 item.reportId);
      r.Ok? ==> Inv(r.value, today)
  {
    InsertItemKeepsItems(db, item);
    ItemsWriteKeepsInv(db, today, item.reportId, db.items[db.nextItem := item], db.nextItem + 1);
  }

  lemma InsertItemKeepsItems(db: DB, item: Item)
    requires ItemsOk(db.items, db.reports, db.transactions, db.cards, db.funds, db.costs, db.nextItem)
    requires item.reportId in db.reports && 0 <= item.amount <= MAX_ITEM_CENTS
    requires Exists(item.fundCenter, db.funds) && Exists(item.costCenter, db.costs)
    requires item.transaction.Some? ==> UsableTransaction(db, item.reportId, item.transaction.value).Ok?
    ensures ItemsOk(db.items[db.nextItem := item], db.reports, db.transactions, db.cards, db.funds, db.costs,
                    db.nextItem + 1)
    ensures OnlyTouches(db.items, db.items[db.nextItem := item], item.reportId)
  {
  }

  lemma UpdateItemShape(db: DB, env: Env, caller: Id, id: Id, patch: ItemPatch) returns (item: Item)
    requires caller in db.users && UpdateItem(db, env, caller, id, patch).Ok?
    ensures id in db.items && db.items[id].reportId in db.reports && !Locked(db.reports[db.items[id].reportId].status)
    ensures item.reportId == db.items[id].reportId && item.transaction == db.items[id].transaction
    ensures item.amount == db.items[id].amount || 0 <= item.amount <= MAX_ITEM_CENTS
    ensures item.fundCenter == db.items[id].fundCenter || Exists(item.fundCenter, db.funds)
    ensures item.costCenter == db.items[id].costCenter || Exists(item.costCenter, db.costs)
    ensures UpdateItem(db, env, caller, id, patch) == RecalcTotal(db.(items := db.items[id := item]), item.reportId)
  {
    item := UpdateItem(db, env, caller, id, patch).value.items[id];
    if patch.amount.Set? {
      StoredAmountStaysInRange(patch.amount.value);
    }
  }

  lemma UpdateItemKeeps(db: DB, env: Env, caller: Id, id: Id, patch: ItemPatch)
    requires Inv(db, env.today) && caller in db.users
    ensures var r := UpdateItem(db, env, caller, id, patch); r.Ok? ==> Inv(r.value, env.today)
  {
    if UpdateItem(db, env, caller, id, patch).Ok? {
      var item := UpdateItemShape(db, env, caller, id, patch);
      RewriteItemKeepsInv(db, env.today, id, item);
    }
  }

  lemma RewriteItemKeepsInv(db: DB, today: int, id: Id, item: Item)
    requires Inv(db, today)
    requires id in db.items && db.items[id].reportId in db.reports && !Locked(db.reports[db.items[id].reportId].status)
    requires item.reportId == db.items[id].reportId && item.transaction == db.items[id].transaction
    requires item.amount == db.items[id].amount || 0 <= item.amount <= MAX_ITEM_CENTS
    requires item.fundCenter == db.items[id].fundCenter || Exists(item.fundCenter, db.funds)
    requires item.costCenter == db.items[id].costCenter || Exists(item.costCenter, db.costs)
    ensures var r := RecalcTotal(db.(items := db.items[id := item]), item.reportId); r.Ok? ==> Inv(r.value, today)
  {
    RewriteItemKeepsItems(db, id, item);
    ItemsWriteKeepsInv(db, today, item.reportId, db.items[id := item], db.nextItem);
  }

  lemma RewriteItemKeepsItems(db: DB, id: Id, item: Item)
    requires ItemsOk(db.items, db.reports, db.transactions, db.cards, db.funds, db.costs, db.nextItem)
    requires id in db.items && item.reportId == db.items[id].reportId && item.transaction == db.items[id].transaction
    requires item.amount == db.items[id].amount || 0 <= item.amount <= MAX_ITEM_CENTS
    requires item.fundCenter == db.items[id].fundCenter || Exists(item.fundCenter, db.funds)
    requires item.costCenter == db.items[id].costCenter || Exists(item.costCenter, db.costs)
    ensures ItemsOk(db.items[id := item], db.reports, db.transactions, db.cards, db.funds, db.costs, db.nextItem)
    ensures OnlyTouches(db.items, db.items[id := item], item.reportId)
  {
  }

  lemma DeleteItemShape(db: DB, caller: Id, id: Id) returns (report: Id)
    requires caller in db.users && DeleteItem(db, caller, id).Ok?
    ensures id in db.items && db.items[id].reportId == report && report in db.reports
      && !Locked(db.reports[report].status)
    ensures DeleteItem(db, caller, id) == RecalcTotal(db.(items := db.items - {id}), report)
  {
    report := db.items[id].reportId;
  }

  lemma DeleteItemKeeps(db: DB, today: int, caller: Id, id: Id)
    requires Inv(db, today) && caller in db.users
    ensures var r := DeleteItem(db, caller, id); r.Ok? ==> Inv(r.value, today)
  {
    if DeleteItem(db, caller, id).Ok? {
      var report := DeleteItemShape(db, caller, id);
      DropItemKeepsInv(db, today, id, report);
    }
  }

  lemma DropItemKeepsInv(db: DB, today: int, id: Id, report: Id)
    requires Inv(db, today)
    requires id in db.items && db.items[id].reportId == report && report in db.reports
      && !Locked(db.reports[report].status)
    ensures var r := RecalcTotal(db.(items := db.items - {id}), report); r.Ok? ==> Inv(r.value, today)
  {
    DropItemKeepsItems(db, id);
    ItemsWriteKeepsInv(db, today, report, db.items - {id}, db.nextItem);
  }

  lemma DropItemKeepsItems(db: DB, id: Id)
    requires ItemsOk(db.items, db.reports, db.transactions, db.cards, db.funds, db.costs, db.nextItem) && id in db.items
    ensures ItemsOk(db.items - {id}, db.reports, db.transactions, db.cards, db.funds, db.costs, db.nextItem)
    ensures OnlyTouches(db.items, db.items - {id}, db.items[id].reportId)
  {
  }

  // ---------------------------------------------------------------------------
  // Transitions

  lemma SubmitReportShape(db: DB, env: Env, caller: Id, id: Id) returns (r: Report)
    requires caller in db.users && SubmitReport(db, env, caller, id).Ok?
    ensures id in db.reports && db.reports[id].status.Draft? && caller == db.reports[id].owner
    ensures r.tripId in db.trips && db.trips[r.tripId].status.Completed? && db.trips[r.tripId].approver == r.approver
    ensures r == db.reports[id].(status := ReportStatus.Submitted, approver := r.approver, submittedAt := Some(env.now),
                                 approvedAt := None, rejectReason := None, total := r.total)
    ensures r.approver.Some? && AssertCentersPresent(r.fundCenter, r.costCenter).Ok?
    ensures HasIncluded(db.items, id) && r.total == SumIncluded(db.items, id, db.nextItem) <= MAX_TOTAL_CENTS
    ensures SubmitReport(db, env, caller, id) ==
      Ok(WriteReport(db, id, r, ReportEntry(id, caller, Action.Submit, ReportStatus.Draft, ReportStatus.Submitted),
                     Some(Notification(r.approver.value, ExpenseSubmitted, ReportRef(id)))))
  {
    var db' := SubmitReport(db, env, caller, id).value;
    r := db'.reports[id];
    assert db'.reports == db.reports[id := r];
  }

  lemma SubmitReportKeeps(db: DB, env: Env, caller: Id, id: Id)
    requires Inv(db, env.today) && caller in db.users
    ensures var r := SubmitReport(db, env, caller, id); r.Ok? ==> Inv(r.value, env.today)
  {
    if SubmitReport(db, env, caller, id).Ok? {
      var r := SubmitReportShape(db, env, caller, id);
      SubmittedReportKeepsInv(db, env.today, caller, id, r);
    }
  }

  lemma SubmittedKeepsAudit(db: DB, caller: Id, id: Id, r: Report)
    requires AuditOk(db) && id in db.reports && id < db.nextReport
    requires db.reports[id].status.Draft? && caller == db.reports[id].owner
    requires r.status.Submitted? && r.owner == caller && r.approver.Some? && r.approver != Some(caller)
    ensures AuditOk(WriteReport(db, id, r,
                                ReportEntry(id, caller, Action.Submit, ReportStatus.Draft, ReportStatus.Submitted),
                                Some(Notification(r.approver.value, ExpenseSubmitted, ReportRef(id)))))
  {
    ReportWriteKeepsAudit(db, id, r, ReportEntry(id, caller, Action.Submit, ReportStatus.Draft, ReportStatus.Submitted),
                          Some(Notification(r.approver.value, ExpenseSubmitted, ReportRef(id))));
  }

  lemma SubmittedReportKeepsInv(db: DB, today: int, caller: Id, id: Id, r: Report)
    requires Inv(db, today) && id in db.reports && db.reports[id].status.Draft? && caller == db.reports[id].owner
    requires r.tripId in db.trips && db.trips[r.tripId].status.Completed? && db.trips[r.tripId].approver == r.approver
    requires r == db.reports[id].(status := ReportStatus.Submitted, approver := r.approver,
                                  submittedAt := r.submittedAt,
                                  approvedAt := None, rejectReason := None, total := r.total)
    requires r.submittedAt.Some? && r.approver.Some? && AssertCentersPresent(r.fundCenter, r.costCenter).Ok?
    requires HasIncluded(db.items, id) && r.total == SumIncluded(db.items, id, db.nextItem) <= MAX_TOTAL_CENTS
    ensures Inv(WriteReport(db, id, r,
                            ReportEntry(id, caller, Action.Submit, ReportStatus.Draft, ReportStatus.Submitted),
                            Some(Notification(r.approver.value, ExpenseSubmitted, ReportRef(id)))), today)
  {
    assert TotalOk(id, db.reports[id], db.items, db.nextItem);
    assert db.trips[r.tripId].approver != Some(r.owner);
    SubmittedKeepsAudit(db, caller, id, r);
    ReportWriteKeepsInv(db, today, id, r,
                        ReportEntry(id, caller, Action.Submit, ReportStatus.Draft, ReportStatus.Submitted),
                        Some(Notification(r.approver.value, ExpenseSubmitted, ReportRef(id))));
  }

  lemma RejectedKeepsAudit(db: DB, caller: Id, id: Id, r: Report)
    requires AuditOk(db) && id in db.reports && id < db.nextReport
    requires db.reports[id].status.Submitted? && db.reports[id].approver == Some(caller) && caller != r.owner
    requires r == db.reports[id].(status := ReportStatus.Rejected, rejectReason := r.rejectReason)
    ensures AuditOk(WriteReport(db, id, r,
                                ReportEntry(id, caller, Action.Reject, ReportStatus.Submitted, ReportStatus.Rejected),
                                Some(Notification(r.owner, ExpenseRejected, ReportRef(id)))))
  {
    ReportWriteKeepsAudit(db, id, r,
                          ReportEntry(id, caller, Action.Reject, ReportStatus.Submitted, ReportStatus.Rejected),
                          Some(Notification(r.owner, ExpenseRejected, ReportRef(id))));
  }

  lemma RejectReportShape(db: DB, caller: Id, id: Id, reason: string) returns (r: Report)
    requires caller in db.users && RejectReport(db, caller, id, reason).Ok?
    ensures id in db.reports && db.reports[id].status.Submitted? && db.reports[id].approver == Some(caller)
    ensures r == db.reports[id].(status := ReportStatus.Rejected, rejectReason := r.rejectReason)
    ensures r.rejectReason.Some? && Strip(r.rejectReason.value) != ""
    ensures RejectReport(db, caller, id, reason) ==
      Ok(WriteReport(db, id, r, ReportEntry(id, caller, Action.Reject, ReportStatus.Submitted, ReportStatus.Rejected),
                     Some(Notification(r.owner, ExpenseRejected, ReportRef(id)))))
  {
    r := RejectReport(db, caller, id, reason).value.reports[id];
  }

  lemma RejectReportKeeps(db: DB, today: int, caller: Id, id: Id, reason: string)
    requires Inv(db, today) && caller in db.users
    ensures var r := RejectReport(db, caller, id, reason); r.Ok? ==> Inv(r.value, today)
  {
    if RejectReport(db, caller, id, reason).Ok? {
      var r := RejectReportShape(db, caller, id, reason);
      assert TotalOk(id, db.reports[id], db.items, db.nextItem);
      assert db.trips[r.tripId].approver != Some(r.owner);
      RejectedKeepsAudit(db, caller, id, r);
      ReportWriteKeepsInv(db, today, id, r,
                          ReportEntry(id, caller, Action.Reject, ReportStatus.Submitted, ReportStatus.Rejected),
                          Some(Notification(r.owner, ExpenseRejected, ReportRef(id))));
    }
  }

  lemma ReopenedKeepsAudit(db: DB, caller: Id, id: Id, r: Report)
    requires AuditOk(db) && id in db.reports && id < db.nextReport
    requires db.reports[id].status.Rejected? && db.reports[id].owner == caller
    requires r == db.reports[id].(status := ReportStatus.Draft, submittedAt := None, approvedAt := None)
    ensures AuditOk(WriteReport(db, id, r,
                                ReportEntry(id, caller, Action.Update, ReportStatus.Rejected, ReportStatus.Draft),
                                None))
  {
    ReportWriteKeepsAudit(db, id, r,
                          ReportEntry(id, caller, Action.Update, ReportStatus.Rejected, ReportStatus.Draft), None);
  }

  lemma ReopenReportKeeps(db: DB, today: int, caller: Id, id: Id)
    requires Inv(db, today) && caller in db.users
    ensures var r := ReopenReport(db, caller, id); r.Ok? ==> Inv(r.value, today)
  {
    if ReopenReport(db, caller, id).Ok? {
      var r := ReopenReportShape(db, caller, id);
      ReopenedKeepsInv(db, today, caller, id, r);
    }
  }

  lemma ReopenReportShape(db: DB, caller: Id, id: Id) returns (r: Report)
    requires caller in db.users && ReopenReport(db, caller, id).Ok?
    ensures id in db.reports && db.reports[id].status.Rejected? && db.reports[id].owner == caller
    ensures r == db.reports[id].(status := ReportStatus.Draft, submittedAt := None, approvedAt := None)
    ensures ReopenReport(db, caller, id) ==
      Ok(WriteReport(db, id, r, ReportEntry(id, caller, Action.Update, ReportStatus.Rejected, ReportStatus.Draft),
                     None))
  {
    r := db.reports[id].(status := ReportStatus.Draft, submittedAt := None, approvedAt := None);
  }

  lemma ReopenedKeepsInv(db: DB, today: int, caller: Id, id: Id, r: Report)
    requires Inv(db, today) && id in db.reports && db.reports[id].status.Rejected? && db.reports[id].owner == caller
    requires r == db.reports[id].(status := ReportStatus.Draft, submittedAt := None, approvedAt := None)
    ensures Inv(WriteReport(db, id, r,
                            ReportEntry(id, caller, Action.Update, ReportStatus.Rejected, ReportStatus.Draft), None),
                today)
  {
    assert TotalOk(id, db.reports[id], db.items, db.nextItem);
    ReopenedKeepsAudit(db, caller, id, r);
    ReportWriteKeepsInv(db, today, id, r,
                        ReportEntry(id, caller, Action.Update, ReportStatus.Rejected, ReportStatus.Draft), None);
  }

  // ---------------------------------------------------------------------------
  // Approval settles the trip in the same transaction: the invariant is broken in between and restored at the end

  lemma ApproveReportShape(db: DB, env: Env, caller: Id, id: Id) returns (r: Report, t: Trip)
    requires caller in db.users && ApproveReport(db, env, caller, id).Ok?
    ensures id in db.reports && db.reports[id].status.Submitted? && db.reports[id].approver == Some(caller)
    ensures r == db.reports[id].(status := ReportStatus.Approved, approvedAt := Some(env.now))
    ensures r.tripId in db.trips && db.trips[r.tripId].status.Completed?
    ensures t == db.trips[r.tripId].(status := TripStatus.Settled)
    ensures ApproveReport(db, env, caller, id) == Ok(Approved(db, caller, id, r, t))
  {
    r := db.reports[id].(status := ReportStatus.Approved, approvedAt := Some(env.now));
    t := db.trips[r.tripId].(status := TripStatus.Settled);
  }

  /** The tables after both writes. */
  function Approved(db: DB, caller: Id, id: Id, r: Report, t: Trip): DB {
    WriteTrip(
      WriteReport(db, id, r, ReportEntry(id, caller, Action.Approve, ReportStatus.Submitted, ReportStatus.Approved),
                  Some(Notification(r.owner, ExpenseApproved, ReportRef(id)))),
      r.tripId, t, TripEntry(r.tripId, caller, Action.Settle, TripStatus.Completed, TripStatus.Settled), None)
  }

  lemma ReportApprovedKeepsAudit(db: DB, caller: Id, id: Id, r: Report)
    requires AuditOk(db) && id in db.reports && id < db.nextReport
    requires db.reports[id].status.Submitted? && db.reports[id].approver == Some(caller) && caller != r.owner
    requires r == db.reports[id].(status := ReportStatus.Approved, approvedAt := r.approvedAt)
    ensures AuditOk(WriteReport(db, id, r,
                                ReportEntry(id, caller, Action.Approve, ReportStatus.Submitted, ReportStatus.Approved),
                                Some(Notification(r.owner, ExpenseApproved, ReportRef(id)))))
  {
    ReportWriteKeepsAudit(db, id, r,
                          ReportEntry(id, caller, Action.Approve, ReportStatus.Submitted, ReportStatus.Approved),
                          Some(Notification(r.owner, ExpenseApproved, ReportRef(id))));
  }

  lemma TripSettledKeepsAudit(db: DB, caller: Id, id: Id, t: Trip)
    requires AuditOk(db) && id in db.trips && id < db.nextTrip
    requires db.trips[id].status.Completed? && db.trips[id].approver == Some(caller)
    requires t == db.trips[id].(status := TripStatus.Settled)
    ensures AuditOk(WriteTrip(db, id, t,
                              TripEntry(id, caller, Action.Settle, TripStatus.Completed, TripStatus.Settled), None))
  {
    TripWriteKeepsAudit(db, id, t, TripEntry(id, caller, Action.Settle, TripStatus.Completed, TripStatus.Settled),
                        None);
  }

  lemma ApprovedKeepsAudit(db: DB, caller: Id, id: Id, r: Report, t: Trip)
    requires AuditOk(db) && id in db.reports && id < db.nextReport && r.tripId in db.trips && r.tripId < db.nextTrip
    requires db.reports[id].status.Submitted? && db.reports[id].approver == Some(caller) && caller != r.owner
    requires r == db.reports[id].(status := ReportStatus.Approved, approvedAt := r.approvedAt)
    requires db.trips[r.tripId].status.Completed? && db.trips[r.tripId].approver == Some(caller)
    requires t == db.trips[r.tripId].(status := TripStatus.Settled)
    ensures AuditOk(Approved(db, caller, id, r, t))
  {
    ReportApprovedKeepsAudit(db, caller, id, r);
    var e := ReportEntry(id, caller, Action.Approve, ReportStatus.Submitted, ReportStatus.Approved);
    TripSettledKeepsAudit(WriteReport(db, id, r, e, Some(Notification(r.owner, ExpenseApproved, ReportRef(id)))),
                          caller, r.tripId, t);
  }

  lemma ApprovedKeepsCoupling(reports: map<Id, Report>, trips: map<Id, Trip>, id: Id, r: Report, t: Trip)
    requires CouplingOk(reports, trips) && id in reports && reports[id].status.Submitted?
    requires forall i, j | i in reports && j in reports && reports[i].tripId == reports[j].tripId :: i == j
    requires r == reports[id].(status := ReportStatus.Approved, approvedAt := r.approvedAt)
    requires t == trips[r.tripId].(status := TripStatus.Settled)
    ensures CouplingOk(reports[id := r], trips[r.tripId := t])
  {
    var reports', trips' := reports[id := r], trips[r.tripId := t];
    forall k | k in trips' && trips'[k].status.Settled? ensures HasReport(reports', k) {
      if k == r.tripId {
        assert id in reports' && reports'[id].tripId == k;
      } else {
        assert HasReport(reports, k);
        var i :| i in reports && reports[i].tripId == k;
        assert i in reports' && reports'[i].tripId == k;
      }
    }
  }

  lemma ApprovedKeepsBusiness(db: DB, today: int, id: Id, r: Report, t: Trip)
    requires BusinessOk(db, today) && id in db.reports && db.reports[id].status.Submitted?
    requires r == db.reports[id].(status := ReportStatus.Approved, approvedAt := r.approvedAt) && r.approvedAt.Some?
    requires t == db.trips[r.tripId].(status := TripStatus.Settled)
    ensures BusinessOk(db.(reports := db.reports[id := r], trips := db.trips[r.tripId := t]), today)
  {
    ApprovedKeepsCoupling(db.reports, db.trips, id, r, t);
    ReportWriteKeepsItems(db.items, db.reports, db.transactions, db.cards, db.funds, db.costs, db.nextItem, id, r);
    ReportWriteKeepsReports(db.reports, db.funds, db.costs, db.nextReport, id, r);
    SettledTripIsOk(db, today, r.tripId, t);
    ApprovedKeepsTotals(db.reports, db.items, db.nextItem, id, r);
  }

  lemma SettledTripIsOk(db: DB, today: int, id: Id, t: Trip)
    requires TripsOk(db.trips, db.users, db.costs, today, db.nextTrip) && id in db.trips
    requires db.trips[id].status.Completed? && t == db.trips[id].(status := TripStatus.Settled)
    ensures TripsOk(db.trips[id := t], db.users, db.costs, today, db.nextTrip)
  {
  }

  lemma ApprovedKeepsTotals(reports: map<Id, Report>, items: map<Id, Item>, next: Id, id: Id, r: Report)
    requires TotalsOk(reports, items, next) && id in reports && reports[id].status.Submitted?
    requires r == reports[id].(status := ReportStatus.Approved, approvedAt := r.approvedAt)
    ensures TotalsOk(reports[id := r], items, next)
  {
  }

  lemma ApprovedKeepsNumbering(db: DB, caller: Id, id: Id, r: Report, t: Trip)
    requires NumberingOk(db) && id in db.reports && r.no == db.reports[id].no
    requires r.tripId in db.trips && t.no == db.trips[r.tripId].no
    ensures NumberingOk(Approved(db, caller, id, r, t))
  {
    assert ReportNos(db.reports[id := r]) == ReportNos(db.reports);
    assert TripNos(db.trips[r.tripId := t]) == TripNos(db.trips);
  }

  lemma ApprovedKeepsInv(db: DB, today: int, caller: Id, id: Id, r: Report, t: Trip)
    requires Inv(db, today) && id in db.reports
    requires db.reports[id].status.Submitted? && db.reports[id].approver == Some(caller)
    requires r == db.reports[id].(status := ReportStatus.Approved, approvedAt := r.approvedAt) && r.approvedAt.Some?
    requires t == db.trips[r.tripId].(status := TripStatus.Settled)
    ensures Inv(Approved(db, caller, id, r, t), today)
  {
    assert db.trips[r.tripId].approver != Some(r.owner);
    ApprovedKeepsAudit(db, caller, id, r, t);
    ApprovedKeepsNumbering(db, caller, id, r, t);
    ApprovedKeepsBusiness(db, today, id, r, t);
  }

  lemma ApproveReportKeeps(db: DB, env: Env, caller: Id, id: Id)
    requires Inv(db, env.today) && caller in db.users
    ensures var r := ApproveReport(db, env, caller, id); r.Ok? ==> Inv(r.value, env.today)
  {
    if ApproveReport(db, env, caller, id).Ok? {
      var r, t := ApproveReportShape(db, env, caller, id);
      ApprovedKeepsInv(db, env.today, caller, id, r, t);
    }
  }
}
