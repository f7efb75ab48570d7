/** What one call may change, and what it may not. */
module StepProofs {
  import opened Common
  import opened Tables
  import opened TripRules
  import opened ExpenseRules
  import opened History
  import opened Trips
  import opened Expenses
  import opened Invariant
  import opened Runs
  import Preservation
  import AdminProofs
  import Masters
  import TripProofs
  import ExpenseProofs

  // ---------------------------------------------------------------------------
  // The rows each kind of call leaves alone

  /** One trip row is written (or dropped, or created), by its owner or its approver. */
  ghost predicate TripsWrittenBy(trips: map<Id, Trip>, trips': map<Id, Trip>, caller: Id) {
    && (forall t | t in trips && !(t in trips' && trips'[t] == trips[t]) ::
          caller == trips[t].owner || trips[t].approver == Some(caller))
    && (forall t | t in trips' && t !in trips :: trips'[t].owner == caller)
  }

  ghost predicate ReportsWrittenBy(reports: map<Id, Report>, reports': map<Id, Report>, caller: Id) {
    && (forall r | r in reports && !(r in reports' && reports'[r] == reports[r]) ::
          caller == reports[r].owner || reports[r].approver == Some(caller))
    && (forall r | r in reports' && r !in reports :: reports'[r].owner == caller)
  }

  /** Every item that is added, changed or removed belongs to an editable report of the caller. */
  ghost predicate ItemsWrittenBy(db: DB, db': DB, caller: Id) {
    && (forall i | i in db.items && !(i in db'.items && db'.items[i] == db.items[i]) ::
          MayEdit(db, db.items[i].reportId, caller))
    && (forall i | i in db'.items && i !in db.items :: MayEdit(db, db'.items[i].reportId, caller))
    && (forall i | i in db.items && i in db'.items ::
          db'.items[i].reportId == db.items[i].reportId && db'.items[i].transaction == db.items[i].transaction)
  }

  predicate MayEdit(db: DB, report: Id, caller: Id) {
    report in db.reports && db.reports[report].owner == caller && !Locked(db.reports[report].status)
  }

  predicate Appends(db: DB, db': DB) {
    db.log <= db'.log && db.notes <= db'.notes
  }

  /** A trip never changes hands; past drafting nothing that was requested changes; a settled trip is final. */
  predicate TripEvolves(t: Trip, t': Trip) {
    && t'.no == t.no && t'.owner == t.owner && t'.costCenter == t.costCenter
    && (t.status == t'.status || t'.status in AllowedTransitions(t.status))
    && (t.status.Settled? ==> t' == t)
    && (!Editable(t.status) ==>
          t' == t.(status := t'.status, approvedAt := t'.approvedAt, rejectReason := t'.rejectReason))
  }

  ghost predicate TripsEvolve(trips: map<Id, Trip>, trips': map<Id, Trip>) {
    && (forall t | t in trips && t in trips' :: TripEvolves(trips[t], trips'[t]))
    && (forall t | t in trips && t !in trips' :: trips[t].status.Draft?)
  }

  /** An approved report is final; while a report is locked its money and its centers do not move. */
  predicate ReportEvolves(r: Report, r': Report) {
    && r'.no == r.no && r'.tripId == r.tripId && r'.owner == r.owner
    && (r.status == r'.status || r'.status in AllowedReportTransitions(r.status))
    && (r.status.Approved? ==> r' == r)
    && (Locked(r.status) ==>
          && r'.total == r.total && r'.fundCenter == r.fundCenter && r'.costCenter == r.costCenter
          && r'.approver == r.approver && r'.submittedAt == r.submittedAt)
  }

  ghost predicate ReportsEvolve(reports: map<Id, Report>, reports': map<Id, Report>) {
    forall r | r in reports :: r in reports' && ReportEvolves(reports[r], reports'[r])
  }

  // ---------------------------------------------------------------------------
  // Trip calls

  ghost predicate TripCallEffect(db: DB, db': DB, caller: Id) {
    && TripsWrittenBy(db.trips, db'.trips, caller) && TripsEvolve(db.trips, db'.trips) && Appends(db, db')
    && db' == db.(trips := db'.trips, log := db'.log, notes := db'.notes, nextTrip := db'.nextTrip)
  }

  lemma TripWriteEffect(db: DB, caller: Id, id: Id, t: Trip, e: LogEntry, notify: Option<Notification>)
    requires id in db.trips && (caller == db.trips[id].owner || db.trips[id].approver == Some(caller))
    requires TripEvolves(db.trips[id], t)
    ensures TripCallEffect(db, WriteTrip(db, id, t, e, notify), caller)
  {
  }

  lemma OwnerTransitionEffect(db: DB, env: Env, caller: Id, c: TripCall)
    requires caller in db.users && (c.SubmitTrip? || c.ReopenTrip? || c.CompleteTrip?)
    requires ApplyTrip(db, env, caller, c).Ok?
    ensures TripCallEffect(db, ApplyTrip(db, env, caller, c).value, caller)
  {
    var t := ApplyTrip(db, env, caller, c).value.trips[c.id];
    assert c.id in db.trips && TripEvolves(db.trips[c.id], t);
  }

  lemma DecisionEffect(db: DB, env: Env, caller: Id, c: TripCall)
    requires caller in db.users && (c.ApproveTrip? || c.RejectTrip?)
    requires ApplyTrip(db, env, caller, c).Ok?
    ensures TripCallEffect(db, ApplyTrip(db, env, caller, c).value, caller)
  {
    var t := ApplyTrip(db, env, caller, c).value.trips[c.id];
    assert c.id in db.trips && TripEvolves(db.trips[c.id], t);
  }

  lemma TripCallEffects(db: DB, env: Env, caller: Id, c: TripCall)
    requires caller in db.users && db.nextTrip !in db.trips && ApplyTrip(db, env, caller, c).Ok?
    ensures TripCallEffect(db, ApplyTrip(db, env, caller, c).value, caller)
  {
    match c
    case CreateTrip(form) => var t := TripProofs.CreateTripShape(db, env, caller, form);
    case UpdateTrip(id, patch) =>
      var t := TripProofs.UpdateTripShape(db, env, caller, id, patch);
      TripWriteEffect(db, caller, id, t, TripEntry(id, caller, Action.Update, t.status, t.status), None);
    case DeleteTrip(id) =>
    case ApproveTrip(_) => DecisionEffect(db, env, caller, c);
    case RejectTrip(_, _) => DecisionEffect(db, env, caller, c);
    case _ => OwnerTransitionEffect(db, env, caller, c);
  }

  // ---------------------------------------------------------------------------
  // Report calls

  ghost predicate ReportCallEffect(db: DB, db': DB, caller: Id) {
    && ReportsWrittenBy(db.reports, db'.reports, caller) && ReportsEvolve(db.reports, db'.reports)
    && ItemsWrittenBy(db, db', caller) && Appends(db, db')
    && TripsWrittenBy(db.trips, db'.trips, caller) && TripsEvolve(db.trips, db'.trips)
    && db' == db.(reports := db'.reports, items := db'.items, trips := db'.trips, log := db'.log, notes := db'.notes,
                  nextReport := db'.nextReport, nextItem := db'.nextItem)
  }

  lemma ReportWriteEffect(db: DB, caller: Id, id: Id, r: Report, e: LogEntry, notify: Option<Notification>)
    requires id in db.reports && (caller == db.reports[id].owner || db.reports[id].approver == Some(caller))
    requires ReportEvolves(db.reports[id], r)
    ensures ReportCallEffect(db, WriteReport(db, id, r, e, notify), caller)
  {
  }

  lemma ItemsWriteEffect(db: DB, caller: Id, id: Id, items: map<Id, Item>, next: Id)
    requires id in db.reports && MayEdit(db, id, caller)
    requires forall i | i in db.items && !(i in items && items[i] == db.items[i]) :: db.items[i].reportId == id
    requires forall i | i in items && i !in db.items :: items[i].reportId == id
    requires forall i | i in db.items && i in items ::
      items[i].reportId == db.items[i].reportId && items[i].transaction == db.items[i].transaction
    ensures var r := RecalcTotal(db.(items := items, nextItem := next), id);
      r.Ok? ==> ReportCallEffect(db, r.value, caller)
  {
  }

  lemma SettlementEffect(trips: map<Id, Trip>, id: Id, t: Trip, caller: Id)
    requires id in trips && trips[id].approver == Some(caller) && trips[id].status.Completed?
    requires t == trips[id].(status := TripStatus.Settled)
    ensures TripsWrittenBy(trips, trips[id := t], caller) && TripsEvolve(trips, trips[id := t])
  {
  }

  lemma ApprovalEffect(reports: map<Id, Report>, id: Id, r: Report, caller: Id)
    requires id in reports && reports[id].approver == Some(caller) && reports[id].status.Submitted?
    requires r == reports[id].(status := ReportStatus.Approved, approvedAt := r.approvedAt)
    ensures ReportsWrittenBy(reports, reports[id := r], caller) && ReportsEvolve(reports, reports[id := r])
  {
  }

  lemma ApprovedEffect(db: DB, caller: Id, id: Id, r: Report, t: Trip)
    requires CouplingOk(db.reports, db.trips) && id in db.reports && r.tripId == db.reports[id].tripId
    requires db.reports[id].status.Submitted? && db.reports[id].approver == Some(caller)
    requires r == db.reports[id].(status := ReportStatus.Approved, approvedAt := r.approvedAt)
    requires t == db.trips[r.tripId].(status := TripStatus.Settled)
    ensures ReportCallEffect(db, ExpenseProofs.Approved(db, caller, id, r, t), caller)
  {
    SettlementEffect(db.trips, r.tripId, t, caller);
    ApprovalEffect(db.reports, id, r, caller);
  }

  lemma ItemCallEffects(db: DB, env: Env, caller: Id, c: ReportCall)
    requires caller in db.users && db.nextItem !in db.items && ApplyReport(db, env, caller, c).Ok?
    requires c.AddItem? || c.UpdateItem? || c.DeleteItem?
    ensures ReportCallEffect(db, ApplyReport(db, env, caller, c).value, caller)
  {
    match c
    case AddItem(id, form) =>
      var item := ExpenseProofs.AddItemShape(db, env, caller, id, form);
      ItemsWriteEffect(db, caller, id, db.items[db.nextItem := item], db.nextItem + 1);
    case UpdateItem(id, patch) =>
      var item := ExpenseProofs.UpdateItemShape(db, env, caller, id, patch);
      ItemsWriteEffect(db, caller, item.reportId, db.items[id := item], db.nextItem);
    case DeleteItem(id) =>
      ItemsWriteEffect(db, caller, db.items[id].reportId, db.items - {id}, db.nextItem);
  }

  lemma ReportTransitionEffects(db: DB, env: Env, caller: Id, c: ReportCall)
    requires caller in db.users && CouplingOk(db.reports, db.trips) && ApplyReport(db, env, caller, c).Ok?
    requires c.SubmitReport? || c.ApproveReport? || c.RejectReport? || c.ReopenReport?
    ensures ReportCallEffect(db, ApplyReport(db, env, caller, c).value, caller)
  {
    match c
    case SubmitReport(id) =>
      var r := ExpenseProofs.SubmitReportShape(db, env, caller, id);
      ReportWriteEffect(db, caller, id, r,
                        ReportEntry(id, caller, Action.Submit, ReportStatus.Draft, ReportStatus.Submitted),
                        Some(Notification(r.approver.value, ExpenseSubmitted, ReportRef(id))));
    case ApproveReport(id) =>
      var r, t := ExpenseProofs.ApproveReportShape(db, env, caller, id);
      ApprovedEffect(db, caller, id, r, t);
    case RejectReport(id, reason) =>
      var r := ExpenseProofs.RejectReportShape(db, caller, id, reason);
      ReportWriteEffect(db, caller, id, r,
                        ReportEntry(id, caller, Action.Reject, ReportStatus.Submitted, ReportStatus.Rejected),
                        Some(Notification(r.owner, ExpenseRejected, ReportRef(id))));
    case ReopenReport(id) =>
      ReportWriteEffect(db, caller, id,
                        db.reports[id].(status := ReportStatus.Draft, submittedAt := None, approvedAt := None),
                        ReportEntry(id, caller, Action.Update, ReportStatus.Rejected, ReportStatus.Draft), None);
    case _ =>
  }

  lemma HeaderCallEffects(db: DB, env: Env, caller: Id, c: ReportCall)
    requires TripsOk(db.trips, db.users, db.costs, env.today, db.nextTrip) && NumberingOk(db)
    requires caller in db.users && db.nextReport !in db.reports && ApplyReport(db, env, caller, c).Ok?
    requires c.CreateReport? || c.UpdateReport?
    ensures ReportCallEffect(db, ApplyReport(db, env, caller, c).value, caller)
  {
    match c
    case CreateReport(tripId) =>
      var r := ExpenseProofs.CreateReportShape(db, env, caller, tripId);
    case UpdateReport(id, patch) =>
      var r := ExpenseProofs.UpdateReportShape(db, caller, id, patch);
      ReportWriteEffect(db, caller, id, r, ReportEntry(id, caller, Action.Update, r.status, r.status), None);
    case _ =>
  }

  lemma ReportCallEffects(db: DB, env: Env, caller: Id, c: ReportCall)
    requires BusinessOk(db, env.today) && NumberingOk(db) && caller in db.users && ApplyReport(db, env, caller, c).Ok?
    ensures ReportCallEffect(db, ApplyReport(db, env, caller, c).value, caller)
  {
    if c.CreateReport? || c.UpdateReport? {
      assert db.nextReport !in db.reports;
      HeaderCallEffects(db, env, caller, c);
    } else if c.AddItem? || c.UpdateItem? || c.DeleteItem? {
      assert db.nextItem !in db.items;
      ItemCallEffects(db, env, caller, c);
    } else {
      ReportTransitionEffects(db, env, caller, c);
    }
  }

  // ---------------------------------------------------------------------------
  // Administrative calls

  predicate SameBusiness(db: DB, db': DB) {
    && db'.trips == db.trips && db'.reports == db.reports && db'.items == db.items
    && db'.log == db.log && db'.notes == db.notes
  }

  lemma DeleteCenterFrame(db: DB, kind: Masters.CenterKind, code: string)
    requires Masters.DeleteCenter(db, kind, code).Ok?
    ensures var db' := Masters.DeleteCenter(db, kind, code).value; SameBusiness(db, db') && db'.users == db.users
  {
  }

  lemma CreateCenterFrame(db: DB, env: Env, kind: Masters.CenterKind, code: string, department: Option<Id>,
                          active: bool)
    requires Masters.CreateCenter(db, env, kind, code, department, active).Ok?
    ensures var db' := Masters.CreateCenter(db, env, kind, code, department, active).value;
      SameBusiness(db, db') && db'.users == db.users
  {
  }

  lemma UpdateCenterFrame(db: DB, env: Env, kind: Masters.CenterKind, code: string, department: Field<Id>,
                          active: Field<bool>)
    requires Masters.UpdateCenter(db, env, kind, code, department, active).Ok?
    ensures var db' := Masters.UpdateCenter(db, env, kind, code, department, active).value;
      SameBusiness(db, db') && db'.users == db.users
  {
  }

  lemma CenterCallFrame(db: DB, env: Env, caller: Id, c: AdminCall)
    requires ApplyAdmin(db, env, caller, c).Ok? && (c.CreateCenter? || c.UpdateCenter? || c.DeleteCenter?)
    ensures var db' := ApplyAdmin(db, env, caller, c).value; SameBusiness(db, db') && db'.users == db.users
  {
    match c
    case CreateCenter(kind, code, department, active) => CreateCenterFrame(db, env, kind, code, department, active);
    case UpdateCenter(kind, code, department, active) => UpdateCenterFrame(db, env, kind, code, department, active);
    case DeleteCenter(kind, code) => DeleteCenterFrame(db, kind, code);
    case _ =>
  }

  lemma CardCallFrame(db: DB, env: Env, caller: Id, c: AdminCall)
    requires ApplyAdmin(db, env, caller, c).Ok? && (c.CreateCard? || c.DeleteCard? || c.PostTransaction?)
    ensures SameBusiness(db, ApplyAdmin(db, env, caller, c).value)
    ensures ApplyAdmin(db, env, caller, c).value.users == db.users
  {
  }

  /** Administration never touches trips, reports, items, the log or the notifications, and lets accounts only
      evolve. */
  lemma AdminCallFrame(db: DB, env: Env, caller: Id, c: AdminCall)
    requires UsersOk(db.users, db.nextUser) && ApplyAdmin(db, env, caller, c).Ok?
    ensures SameBusiness(db, ApplyAdmin(db, env, caller, c).value)
    ensures AdminProofs.UsersEvolve(db.users, ApplyAdmin(db, env, caller, c).value.users)
  {
    if IsAccountCall(c) {
      ApplyAccountKeepsUsers(db, env, caller, c);
    } else if c.CreateCard? || c.DeleteCard? || c.PostTransaction? {
      CardCallFrame(db, env, caller, c);
    } else {
      CenterCallFrame(db, env, caller, c);
    }
  }

  // ---------------------------------------------------------------------------
  // One step of a run

  /** Everything one call may do to the business tables and the accounts. */
  ghost predicate StepEffect(db: DB, db': DB, q: Request) {
    && TripsWrittenBy(db.trips, db'.trips, q.caller) && TripsEvolve(db.trips, db'.trips)
    && ReportsWrittenBy(db.reports, db'.reports, q.caller) && ReportsEvolve(db.reports, db'.reports)
    && ItemsWrittenBy(db, db', q.caller)
    && AdminProofs.UsersEvolve(db.users, db'.users) && Appends(db, db')
    && (q.call.OnAdmin? ==> SameBusiness(db, db'))
  }

  lemma NothingChanged(db: DB, q: Request)
    ensures StepEffect(db, db, q)
  {
  }

  lemma StepEffects(db: DB, q: Request, today: int)
    requires Inv(db, today) && today <= q.env.today
    ensures StepEffect(db, Step(db, q), q)
  {
    NothingChanged(db, q);
    if Apply(db, q).Ok? {
      Preservation.LaterDay(db, today, q.env.today);
      OkStepEffects(db, q);
    }
  }

  lemma TripEffectIsStepEffect(db: DB, db': DB, q: Request)
    requires TripCallEffect(db, db', q.caller) && q.call.OnTrip?
    ensures StepEffect(db, db', q)
  {
  }

  lemma ReportEffectIsStepEffect(db: DB, db': DB, q: Request)
    requires ReportCallEffect(db, db', q.caller) && q.call.OnReport?
    ensures StepEffect(db, db', q)
  {
  }

  lemma SameBusinessIsStepEffect(db: DB, db': DB, q: Request)
    requires SameBusiness(db, db') && AdminProofs.UsersEvolve(db.users, db'.users)
    ensures StepEffect(db, db', q)
  {
  }

  lemma OkStepEffects(db: DB, q: Request)
    requires UsersOk(db.users, db.nextUser) && BusinessOk(db, q.env.today) && NumberingOk(db) && Apply(db, q).Ok?
    ensures StepEffect(db, Apply(db, q).value, q)
  {
    var db' := Apply(db, q).value;
    match q.call
    case OnTrip(c) =>
      assert db.nextTrip !in db.trips;
      TripCallEffects(db, q.env, q.caller, c);
      TripEffectIsStepEffect(db, db', q);
    case OnReport(c) =>
      ReportCallEffects(db, q.env, q.caller, c);
      ReportEffectIsStepEffect(db, db', q);
    case OnAdmin(c) =>
      AdminCallFrame(db, q.env, q.caller, c);
      SameBusinessIsStepEffect(db, db', q);
  }
}
