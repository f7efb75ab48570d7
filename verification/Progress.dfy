/** No status is a dead end: whether a trip can still be settled by trip and report calls alone, without any
    administration and with the reference data as they are, depends only on whether its report can have an item. */
module Progress {
  import opened Common
  import opened Numbering
  import opened Codes
  import opened Tables
  import opened TripRules
  import opened ExpenseRules
  import opened History
  import opened Invariant
  import opened Runs
  import opened StepProofs
  import Trips
  import Expenses
  import ExpenseProofs
  import Preservation
  import Theorems

  /** Everything a call reads besides the tables is as given; only the date moves on. */
  function At(env: Env, day: int): Env {
    env.(today := day)
  }

  /** Some continuation of the run, without administration and under fixed codes, settles the trip. */
  ghost predicate CanSettle(db: DB, env: Env, t: Id, today: int) {
    exists qs :: Settles(qs, db, env, t, today)
  }

  ghost predicate Settles(qs: seq<Request>, db: DB, env: Env, t: Id, today: int) {
    && ClockRuns(qs, today) && Unaided(qs, env)
    && t in Run(db, qs).trips && Run(db, qs).trips[t].status.Settled?
  }

  ghost predicate Unaided(qs: seq<Request>, env: Env) {
    forall q | q in qs :: !q.call.OnAdmin? && q.env == At(env, q.env.today)
  }

  lemma SettledAlready(db: DB, env: Env, t: Id, today: int)
    requires t in db.trips && db.trips[t].status.Settled?
    ensures CanSettle(db, env, t, today)
  {
    assert Settles([], db, env, t, today);
  }

  lemma OneMoreCall(db: DB, env: Env, q: Request, t: Id, today: int)
    requires today <= q.env.today && CanSettle(Step(db, q), env, t, q.env.today)
    requires !q.call.OnAdmin? && q.env == At(env, q.env.today)
    ensures CanSettle(db, env, t, today)
  {
    var qs :| Settles(qs, Step(db, q), env, t, q.env.today);
    assert ([q] + qs)[1..] == qs;
    assert Settles([q] + qs, db, env, t, today);
  }

  /** A report can be filled: some expense category is active, or the report already has a row, excluded or not. */
  ghost predicate ActiveCategory(env: Env) {
    exists category: string :: Verdict(env.codes, Expenses.CategorySpec(category)).Ok?
  }

  predicate HasRow(db: DB, t: Id) {
    exists i | i in db.items :: db.items[i].reportId in db.reports && db.reports[db.items[i].reportId].tripId == t
  }

  ghost predicate Suppliable(db: DB, env: Env, t: Id) {
    ActiveCategory(env) || HasRow(db, t)
  }

  /** Two centers a report can be submitted with. */
  predicate Chargeable(db: DB, fund: string, cost: string) {
    && fund in db.funds && db.funds[fund] && Strip(fund) != ""
    && cost in db.costs && db.costs[cost] && Strip(cost) != ""
  }

  lemma ReportFacts(db: DB, today: int, r: Id)
    requires Inv(db, today) && r in db.reports
    ensures db.reports[r].tripId in db.trips && Coupled(db.reports[r], db.trips[db.reports[r].tripId])
    ensures TripOk(db.trips[db.reports[r].tripId], db.users, db.costs, today)
    ensures TotalOk(r, db.reports[r], db.items, db.nextItem) && ReportOk(db.reports[r], db.funds, db.costs)
  {
  }

  // ---------------------------------------------------------------------------
  // The report's part

  lemma ApprovalSettles(db: DB, env: Env, caller: Id, r: Id)
    requires CouplingOk(db.reports, db.trips) && caller in db.users
    requires r in db.reports && db.reports[r].status.Submitted? && db.reports[r].approver == Some(caller)
    ensures var next, t := Step(db, Request(env, caller, OnReport(ApproveReport(r)))), db.reports[r].tripId;
      t in next.trips && next.trips[t].status.Settled?
  {
    Theorems.ApprovalOfSubmittedIsOk(db, env, caller, r);
    var report, trip := ExpenseProofs.ApproveReportShape(db, env, caller, r);
  }

  lemma FromSubmittedReport(db: DB, env: Env, today: int, r: Id)
    requires Inv(db, today) && r in db.reports && db.reports[r].status.Submitted?
    ensures CanSettle(db, env, db.reports[r].tripId, today)
  {
    ReportFacts(db, today, r);
    var approver, t := db.reports[r].approver.value, db.reports[r].tripId;
    var q := Request(At(env, today), approver, OnReport(ApproveReport(r)));
    ApprovalSettles(db, At(env, today), approver, r);
    SettledAlready(Step(db, q), env, t, today);
    OneMoreCall(db, env, q, t, today);
  }

  /** The report is a draft of a completed trip. */
  predicate Drafted(db: DB, r: Id) {
    r in db.reports && db.reports[r].status.Draft? && db.reports[r].tripId in db.trips
    && db.trips[db.reports[r].tripId].status.Completed?
  }

  predicate Charged(db: DB, r: Id, fund: string, cost: string)
    requires r in db.reports
  {
    db.reports[r].fundCenter == Some(fund) && db.reports[r].costCenter == Some(cost)
  }

  lemma SubmissionGoesThrough(db: DB, today: int, env: Env, r: Id, fund: string, cost: string)
    requires Drafted(db, r) && Charged(db, r, fund, cost) && Chargeable(db, fund, cost) && HasIncluded(db.items, r)
    requires TotalOk(r, db.reports[r], db.items, db.nextItem) && ReportOk(db.reports[r], db.funds, db.costs)
    requires TripOk(db.trips[db.reports[r].tripId], db.users, db.costs, today)
    requires db.reports[r].owner in db.users
    ensures var next := Step(db, Request(env, db.reports[r].owner, OnReport(SubmitReport(r))));
      r in next.reports && next.reports[r].status.Submitted? && next.reports[r].tripId == db.reports[r].tripId
  {
    Theorems.SubmissionConditions(db, today, env, db.reports[r].owner, r);
    var report := ExpenseProofs.SubmitReportShape(db, env, db.reports[r].owner, r);
  }

  lemma FromFilledReport(db: DB, env: Env, today: int, r: Id, fund: string, cost: string)
    requires Inv(db, today) && Drafted(db, r) && Charged(db, r, fund, cost) && Chargeable(db, fund, cost)
    requires HasIncluded(db.items, r)
    ensures CanSettle(db, env, db.reports[r].tripId, today)
  {
    ReportFacts(db, today, r);
    var t, q := db.reports[r].tripId, Request(At(env, today), db.reports[r].owner, OnReport(SubmitReport(r)));
    SubmissionGoesThrough(db, today, At(env, today), r, fund, cost);
    StepKeepsInv(db, q, today);
    FromSubmittedReport(Step(db, q), env, today, r);
    OneMoreCall(db, env, q, t, today);
  }

  /** A manual item of nothing, and the patch that brings an excluded item back as nothing. */
  function Nothing(category: string): Expenses.ItemForm {
    Expenses.ItemForm(None, category, Some(0.0), None, None)
  }

  const REVIVAL := Expenses.ItemPatch(Unset, Set(0.0), Set(false), Unset, Unset)

  lemma SumOnlyGrows(items: map<Id, Item>, r: Id, n: nat, item: Item)
    requires (forall i | i in items :: i < n) && item.reportId == r && item.amount == 0
    ensures SumIncluded(items[n := item], r, n + 1) == SumIncluded(items, r, n)
  {
    Preservation.SumOnlyReadsTheReport(items, items[n := item], r, n);
  }

  lemma {:induction false} SumSkipsNothing(items: map<Id, Item>, id: Id, item: Item, r: Id, n: nat)
    requires id in items && items[id].isExcluded && item.amount == 0 && item.reportId == items[id].reportId
    ensures SumIncluded(items[id := item], r, n) == SumIncluded(items, r, n)
  {
    if n > 0 {
      SumSkipsNothing(items, id, item, r, n - 1);
    }
  }

  /** What the item calls below have in common: an included row more, and otherwise nothing new. */
  ghost predicate Fills(db: DB, q: Request, r: Id) {
    var next := Step(db, q);
    && next == db.(items := next.items, reports := next.reports, nextItem := next.nextItem)
    && r in db.reports && r in next.reports && next.reports[r] == db.reports[r] && HasIncluded(next.items, r)
  }

  lemma RecountFills(db: DB, q: Request, r: Id, items: map<Id, Item>, next: Id, i: Id)
    requires Drafted(db, r) && TotalOk(r, db.reports[r], db.items, db.nextItem)
    requires SumIncluded(items, r, next) == SumIncluded(db.items, r, db.nextItem)
    requires i in items && items[i].reportId == r && !items[i].isExcluded
    requires Apply(db, q) == Expenses.RecalcTotal(db.(items := items, nextItem := next), r)
    ensures Fills(db, q, r)
  {
    assert db.reports[r].(total := db.reports[r].total) == db.reports[r];
  }

  lemma AddingFills(db: DB, env: Env, r: Id, category: string)
    requires Drafted(db, r) && TotalOk(r, db.reports[r], db.items, db.nextItem) && db.reports[r].owner in db.users
    requires forall i | i in db.items :: i < db.nextItem
    requires Verdict(env.codes, Expenses.CategorySpec(category)).Ok?
    ensures Fills(db, Request(env, db.reports[r].owner, OnReport(AddItem(r, Nothing(category)))), r)
  {
    var item := Item(r, None, category, 0, false, None, None);
    var items, owner := db.items[db.nextItem := item], db.reports[r].owner;
    assert StoredCents(0.0) == 0;
    SumOnlyGrows(db.items, r, db.nextItem, item);
    AddItemOfNothing(db, env, owner, r, category, item);
    var q := Request(env, owner, OnReport(AddItem(r, Nothing(category))));
    RecountFills(db, q, r, items, db.nextItem + 1, db.nextItem);
  }

  lemma AddItemOfNothing(db: DB, env: Env, caller: Id, r: Id, category: string, item: Item)
    requires Drafted(db, r) && caller == db.reports[r].owner && caller in db.users
    requires Verdict(env.codes, Expenses.CategorySpec(category)).Ok?
    requires item == Item(r, None, category, StoredCents(0.0), false, None, None)
    ensures Expenses.AddItem(db, env, caller, r, Nothing(category)) ==
      Expenses.RecalcTotal(db.(items := db.items[db.nextItem := item], nextItem := db.nextItem + 1), r)
  {
  }

  lemma RevivingFills(db: DB, env: Env, r: Id, i: Id)
    requires Drafted(db, r) && TotalOk(r, db.reports[r], db.items, db.nextItem) && db.reports[r].owner in db.users
    requires i in db.items && db.items[i].reportId == r && db.items[i].isExcluded
    ensures Fills(db, Request(env, db.reports[r].owner, OnReport(UpdateItem(i, REVIVAL))), r)
  {
    var item := db.items[i].(amount := 0, isExcluded := false);
    var items, owner := db.items[i := item], db.reports[r].owner;
    assert StoredCents(0.0) == 0;
    SumSkipsNothing(db.items, i, item, r, db.nextItem);
    UpdateItemToNothing(db, env, owner, i, item);
    RecountFills(db, Request(env, owner, OnReport(UpdateItem(i, REVIVAL))), r, items, db.nextItem, i);
  }

  lemma UpdateItemToNothing(db: DB, env: Env, caller: Id, i: Id, item: Item)
    requires i in db.items && Drafted(db, db.items[i].reportId)
    requires caller == db.reports[db.items[i].reportId].owner && caller in db.users
    requires item == db.items[i].(amount := StoredCents(0.0), isExcluded := false)
    ensures Expenses.UpdateItem(db, env, caller, i, REVIVAL) ==
      Expenses.RecalcTotal(db.(items := db.items[i := item]), item.reportId)
  {
  }

  lemma FromFilling(db: DB, env: Env, today: int, q: Request, r: Id, fund: string, cost: string)
    requires Inv(db, today) && Drafted(db, r) && Charged(db, r, fund, cost) && Chargeable(db, fund, cost)
    requires Fills(db, q, r) && q.env == At(env, today) && !q.call.OnAdmin?
    ensures CanSettle(db, env, db.reports[r].tripId, today)
  {
    StepKeepsInv(db, q, today);
    FromFilledReport(Step(db, q), env, today, r, fund, cost);
    OneMoreCall(db, env, q, db.reports[r].tripId, today);
  }

  lemma FromChargedReport(db: DB, env: Env, today: int, r: Id, fund: string, cost: string)
    requires Inv(db, today) && Drafted(db, r) && Charged(db, r, fund, cost) && Chargeable(db, fund, cost)
    requires Suppliable(db, env, db.reports[r].tripId)
    ensures CanSettle(db, env, db.reports[r].tripId, today)
  {
    ReportFacts(db, today, r);
    var owner := db.reports[r].owner;
    if HasIncluded(db.items, r) {
      FromFilledReport(db, env, today, r, fund, cost);
    } else if ActiveCategory(env) {
      var category: string :| Verdict(env.codes, Expenses.CategorySpec(category)).Ok?;
      AddingFills(db, At(env, today), r, category);
      var q := Request(At(env, today), owner, OnReport(AddItem(r, Nothing(category))));
      FromFilling(db, env, today, q, r, fund, cost);
    } else {
      var i := RowOf(db, today, r);
      RevivingFills(db, At(env, today), r, i);
      FromFilling(db, env, today, Request(At(env, today), owner, OnReport(UpdateItem(i, REVIVAL))), r, fund, cost);
    }
  }

  lemma RowOf(db: DB, today: int, r: Id) returns (i: Id)
    requires Inv(db, today) && r in db.reports && HasRow(db, db.reports[r].tripId)
    ensures i in db.items && db.items[i].reportId == r
  {
    i :| i in db.items && db.items[i].reportId in db.reports
         && db.reports[db.items[i].reportId].tripId == db.reports[r].tripId;
  }

  /** The items are the same, and each report is still that of its trip. */
  ghost predicate SameRows(db: DB, next: DB) {
    && next.items == db.items
    && forall r | r in db.reports :: r in next.reports && next.reports[r].tripId == db.reports[r].tripId
  }

  lemma RowsStay(db: DB, next: DB, env: Env, t: Id)
    requires SameRows(db, next) && Suppliable(db, env, t)
    ensures Suppliable(next, env, t)
  {
    if HasRow(db, t) {
      var i :| i in db.items && db.items[i].reportId in db.reports && db.reports[db.items[i].reportId].tripId == t;
      assert next.items[i].reportId in next.reports;
    }
  }

  lemma ChargingGoesThrough(db: DB, env: Env, r: Id, fund: string, cost: string)
    requires Drafted(db, r) && Chargeable(db, fund, cost) && db.reports[r].owner in db.users
    ensures var patch := Expenses.ReportPatch(Set(fund), Set(cost));
      var next := Step(db, Request(env, db.reports[r].owner, OnReport(UpdateReport(r, patch))));
      && Drafted(next, r) && Charged(next, r, fund, cost) && Chargeable(next, fund, cost) && SameRows(db, next)
      && next.reports[r].tripId == db.reports[r].tripId
  {
  }

  lemma FromDraftReport(db: DB, env: Env, today: int, r: Id, fund: string, cost: string)
    requires Inv(db, today) && Drafted(db, r) && Chargeable(db, fund, cost)
    requires Suppliable(db, env, db.reports[r].tripId)
    ensures CanSettle(db, env, db.reports[r].tripId, today)
  {
    ReportFacts(db, today, r);
    var patch := Expenses.ReportPatch(Set(fund), Set(cost));
    var t, q := db.reports[r].tripId, Request(At(env, today), db.reports[r].owner, OnReport(UpdateReport(r, patch)));
    ChargingGoesThrough(db, At(env, today), r, fund, cost);
    StepKeepsInv(db, q, today);
    RowsStay(db, Step(db, q), env, t);
    FromChargedReport(Step(db, q), env, today, r, fund, cost);
    OneMoreCall(db, env, q, t, today);
  }

  lemma ReportReopens(db: DB, env: Env, r: Id, fund: string, cost: string)
    requires r in db.reports && db.reports[r].status.Rejected? && db.reports[r].owner in db.users
    requires db.reports[r].tripId in db.trips && db.trips[db.reports[r].tripId].status.Completed?
    requires Chargeable(db, fund, cost)
    ensures var next := Step(db, Request(env, db.reports[r].owner, OnReport(ReopenReport(r))));
      && Drafted(next, r) && Chargeable(next, fund, cost) && next.reports[r].tripId == db.reports[r].tripId
      && SameRows(db, next)
  {
  }

  lemma FromReport(db: DB, env: Env, today: int, r: Id, fund: string, cost: string)
    requires Inv(db, today) && Chargeable(db, fund, cost)
    requires r in db.reports && db.reports[r].tripId in db.trips && db.trips[db.reports[r].tripId].status.Completed?
    requires Suppliable(db, env, db.reports[r].tripId)
    ensures CanSettle(db, env, db.reports[r].tripId, today)
  {
    ReportFacts(db, today, r);
    match db.reports[r].status
    case Draft => FromDraftReport(db, env, today, r, fund, cost);
    case Submitted => FromSubmittedReport(db, env, today, r);
    case Rejected =>
      var t, q := db.reports[r].tripId, Request(At(env, today), db.reports[r].owner, OnReport(ReopenReport(r)));
      ReportReopens(db, At(env, today), r, fund, cost);
      StepKeepsInv(db, q, today);
      RowsStay(db, Step(db, q), env, t);
      FromDraftReport(Step(db, q), env, today, r, fund, cost);
      OneMoreCall(db, env, q, t, today);
    case Approved =>
  }

  // ---------------------------------------------------------------------------
  // The trip's part

  /** What creating a report needs besides the trip. */
  ghost predicate Room(db: DB, env: Env, fund: string, cost: string) {
    Chargeable(db, fund, cost) && !RollsOver(Expenses.REPORT_TAG, ReportNos(db.reports), env.utcYear)
  }

  lemma ReportIsCreated(db: DB, env: Env, t: Id, fund: string, cost: string)
    requires db.nextReport !in db.reports
    requires NumberingOk(db) && Room(db, env, fund, cost)
    requires t in db.trips && db.trips[t].status.Completed? && !HasReport(db.reports, t)
      && db.trips[t].owner in db.users
    ensures var next := Step(db, Request(env, db.trips[t].owner, OnReport(CreateReport(t))));
      && Drafted(next, db.nextReport) && Chargeable(next, fund, cost) && next.reports[db.nextReport].tripId == t
      && SameRows(db, next) && next.reports[db.nextReport].owner == db.trips[t].owner
      && next == db.(reports := next.reports, nextReport := next.nextReport, log := next.log, notes := next.notes)
  {
    NextNoIsTakenExactlyAtRollOver(Expenses.REPORT_TAG, ReportNos(db.reports), db.nextReport, env.utcYear);
  }

  lemma FromCompletedTrip(db: DB, env: Env, today: int, t: Id, fund: string, cost: string)
    requires Inv(db, today) && Room(db, env, fund, cost) && t in db.trips && db.trips[t].status.Completed?
    requires Suppliable(db, env, t)
    ensures CanSettle(db, env, t, today)
  {
    if HasReport(db.reports, t) {
      var r :| r in db.reports && db.reports[r].tripId == t;
      FromReport(db, env, today, r, fund, cost);
    } else {
      var q := Request(At(env, today), db.trips[t].owner, OnReport(CreateReport(t)));
      assert TripOk(db.trips[t], db.users, db.costs, today);
      assert db.nextReport !in db.reports;
      ReportIsCreated(db, At(env, today), t, fund, cost);
      StepKeepsInv(db, q, today);
      RowsStay(db, Step(db, q), env, t);
      FromReport(Step(db, q), env, today, db.nextReport, fund, cost);
      OneMoreCall(db, env, q, t, today);
    }
  }

  /** A call on the trip that leads to the given status, on the same dates, and writes nothing but trip and history. */
  ghost predicate Leads(db: DB, q: Request, t: Id, status: TripStatus) {
    var next := Step(db, q);
    && next == db.(trips := next.trips, log := next.log, notes := next.notes)
    && t in db.trips && t in next.trips && next.trips[t].status == status
    && next.trips[t].owner == db.trips[t].owner
    && next.trips[t].startDate == db.trips[t].startDate && next.trips[t].endDate == db.trips[t].endDate
  }

  lemma WriteLeads(db: DB, q: Request, t: Id, row: Trip, e: LogEntry, notify: Option<Notification>)
    requires t in db.trips && row.owner == db.trips[t].owner
    requires row.startDate == db.trips[t].startDate && row.endDate == db.trips[t].endDate
    requires Apply(db, q) == Ok(Trips.WriteTrip(db, t, row, e, notify))
    ensures Leads(db, q, t, row.status) && Step(db, q).trips[t] == row
  {
  }

  lemma CompletionLeads(db: DB, env: Env, t: Id)
    requires t in db.trips && db.trips[t].status.Approved? && db.trips[t].owner in db.users
    requires db.trips[t].endDate < env.today
    ensures Leads(db, Request(env, db.trips[t].owner, OnTrip(CompleteTrip(t))), t, TripStatus.Completed)
  {
    var row := db.trips[t].(status := TripStatus.Completed);
    var e := Trips.TripEntry(t, db.trips[t].owner, Action.Complete, TripStatus.Approved, TripStatus.Completed);
    assert Trips.CompleteTrip(db, env, db.trips[t].owner, t) == Ok(Trips.WriteTrip(db, t, row, e, None));
    WriteLeads(db, Request(env, db.trips[t].owner, OnTrip(CompleteTrip(t))), t, row, e, None);
  }

  lemma FromApprovedTrip(db: DB, env: Env, today: int, t: Id, fund: string, cost: string)
    requires Inv(db, today) && Room(db, env, fund, cost) && t in db.trips && db.trips[t].status.Approved?
    requires Suppliable(db, env, t)
    ensures CanSettle(db, env, t, today)
  {
    assert TripOk(db.trips[t], db.users, db.costs, today);
    var day := if today <= db.trips[t].endDate then db.trips[t].endDate + 1 else today;
    var q := Request(At(env, day), db.trips[t].owner, OnTrip(CompleteTrip(t)));
    CompletionLeads(db, At(env, day), t);
    StepKeepsInv(db, q, today);
    RowsStay(db, Step(db, q), env, t);
    FromCompletedTrip(Step(db, q), env, day, t, fund, cost);
    OneMoreCall(db, env, q, t, today);
  }

  lemma ApprovalLeads(db: DB, env: Env, caller: Id, t: Id)
    requires t in db.trips && db.trips[t].status.Submitted? && db.trips[t].approver == Some(caller)
      && caller in db.users
    ensures Leads(db, Request(env, caller, OnTrip(ApproveTrip(t))), t, TripStatus.Approved)
  {
    var row := db.trips[t].(status := TripStatus.Approved, approvedAt := Some(env.now));
    var e := Trips.TripEntry(t, caller, Action.Approve, TripStatus.Submitted, TripStatus.Approved);
    var notify := Some(Notification(db.trips[t].owner, TripApproved, TripRef(t)));
    assert Trips.ApproveTrip(db, env, caller, t) == Ok(Trips.WriteTrip(db, t, row, e, notify));
    WriteLeads(db, Request(env, caller, OnTrip(ApproveTrip(t))), t, row, e, notify);
  }

  lemma FromSubmittedTrip(db: DB, env: Env, today: int, t: Id, fund: string, cost: string)
    requires Inv(db, today) && Room(db, env, fund, cost) && t in db.trips && db.trips[t].status.Submitted?
    requires Suppliable(db, env, t)
    ensures CanSettle(db, env, t, today)
  {
    assert TripOk(db.trips[t], db.users, db.costs, today);
    var approver := db.trips[t].approver.value;
    var q := Request(At(env, today), approver, OnTrip(ApproveTrip(t)));
    ApprovalLeads(db, At(env, today), approver, t);
    StepKeepsInv(db, q, today);
    RowsStay(db, Step(db, q), env, t);
    FromApprovedTrip(Step(db, q), env, today, t, fund, cost);
    OneMoreCall(db, env, q, t, today);
  }

  predicate Managed(db: DB, t: Id)
    requires t in db.trips
  {
    db.trips[t].owner in db.users && db.users[db.trips[t].owner].manager.Some?
  }

  lemma SubmissionLeads(db: DB, env: Env, t: Id)
    requires t in db.trips && db.trips[t].status.Draft? && Managed(db, t)
      && db.trips[t].startDate <= db.trips[t].endDate
    ensures Leads(db, Request(env, db.trips[t].owner, OnTrip(SubmitTrip(t))), t, TripStatus.Submitted)
    ensures Step(db, Request(env, db.trips[t].owner, OnTrip(SubmitTrip(t)))).trips[t].approver
         == db.users[db.trips[t].owner].manager
  {
    var owner := db.trips[t].owner;
    var approver := db.users[owner].manager.value;
    var row := db.trips[t].(status := TripStatus.Submitted, approver := Some(approver), submittedAt := Some(env.now),
                            approvedAt := None, rejectReason := None);
    var e := Trips.TripEntry(t, owner, Action.Submit, TripStatus.Draft, TripStatus.Submitted);
    var notify := Some(Notification(approver, TripSubmitted, TripRef(t)));
    assert Trips.SubmitTrip(db, env, owner, t) == Ok(Trips.WriteTrip(db, t, row, e, notify));
    WriteLeads(db, Request(env, owner, OnTrip(SubmitTrip(t))), t, row, e, notify);
  }

  lemma FromDraftTrip(db: DB, env: Env, today: int, t: Id, fund: string, cost: string)
    requires Inv(db, today) && Room(db, env, fund, cost) && t in db.trips && db.trips[t].status.Draft? && Managed(db, t)
    requires Suppliable(db, env, t)
    ensures CanSettle(db, env, t, today)
  {
    assert TripOk(db.trips[t], db.users, db.costs, today);
    var q := Request(At(env, today), db.trips[t].owner, OnTrip(SubmitTrip(t)));
    SubmissionLeads(db, At(env, today), t);
    StepKeepsInv(db, q, today);
    RowsStay(db, Step(db, q), env, t);
    FromSubmittedTrip(Step(db, q), env, today, t, fund, cost);
    OneMoreCall(db, env, q, t, today);
  }

  lemma RejectionLeads(db: DB, env: Env, caller: Id, t: Id, reason: string)
    requires t in db.trips && db.trips[t].status.Submitted? && db.trips[t].approver == Some(caller)
      && caller in db.users
    requires Strip(reason) != ""
    ensures Leads(db, Request(env, caller, OnTrip(RejectTrip(t, reason))), t, TripStatus.Rejected)
  {
    var row := db.trips[t].(status := TripStatus.Rejected, rejectReason := Some(Strip(reason)));
    var e := Trips.TripEntry(t, caller, Action.Reject, TripStatus.Submitted, TripStatus.Rejected);
    var notify := Some(Notification(db.trips[t].owner, TripRejected, TripRef(t)));
    assert Trips.RejectTrip(db, caller, t, reason) == Ok(Trips.WriteTrip(db, t, row, e, notify));
    WriteLeads(db, Request(env, caller, OnTrip(RejectTrip(t, reason))), t, row, e, notify);
  }

  lemma ReopeningLeads(db: DB, env: Env, t: Id)
    requires t in db.trips && db.trips[t].status.Rejected? && db.trips[t].owner in db.users
    ensures Leads(db, Request(env, db.trips[t].owner, OnTrip(ReopenTrip(t))), t, TripStatus.Draft)
  {
    var row := db.trips[t].(status := TripStatus.Draft, approver := None, submittedAt := None, approvedAt := None);
    var e := Trips.TripEntry(t, db.trips[t].owner, Action.Update, TripStatus.Rejected, TripStatus.Draft);
    assert Trips.ReopenTrip(db, db.trips[t].owner, t) == Ok(Trips.WriteTrip(db, t, row, e, None));
    WriteLeads(db, Request(env, db.trips[t].owner, OnTrip(ReopenTrip(t))), t, row, e, None);
  }

  lemma FromRejectedTrip(db: DB, env: Env, today: int, t: Id, fund: string, cost: string)
    requires Inv(db, today) && Room(db, env, fund, cost) && t in db.trips && db.trips[t].status.Rejected?
      && Managed(db, t)
    requires Suppliable(db, env, t)
    ensures CanSettle(db, env, t, today)
  {
    var q := Request(At(env, today), db.trips[t].owner, OnTrip(ReopenTrip(t)));
    ReopeningLeads(db, At(env, today), t);
    StepKeepsInv(db, q, today);
    RowsStay(db, Step(db, q), env, t);
    FromDraftTrip(Step(db, q), env, today, t, fund, cost);
    OneMoreCall(db, env, q, t, today);
  }

  // ---------------------------------------------------------------------------
  // Without a category

  lemma NoItemIsAdded(db: DB, env: Env, caller: Id, r: Id, form: Expenses.ItemForm)
    requires caller in db.users && !ActiveCategory(env)
    ensures Expenses.AddItem(db, env, caller, r, form).Err?
  {
    assert Verdict(env.codes, Expenses.CategorySpec(form.category)).Err?;
  }

  /** Only adding an item brings a row. */
  lemma NoOtherCallAddsRows(db: DB, env: Env, caller: Id, c: ReportCall)
    requires TripsOk(db.trips, db.users, db.costs, env.today, db.nextTrip) && NumberingOk(db)
    requires caller in db.users && ApplyReport(db, env, caller, c).Ok? && !c.AddItem?
    ensures ApplyReport(db, env, caller, c).value.items.Keys <= db.items.Keys
  {
    match c
    case CreateReport(t) => var r := ExpenseProofs.CreateReportShape(db, env, caller, t);
    case UpdateReport(id, patch) => var r := ExpenseProofs.UpdateReportShape(db, caller, id, patch);
    case UpdateItem(id, patch) => var i := ExpenseProofs.UpdateItemShape(db, env, caller, id, patch);
    case DeleteItem(id) => var r := ExpenseProofs.DeleteItemShape(db, caller, id);
    case SubmitReport(id) => var r := ExpenseProofs.SubmitReportShape(db, env, caller, id);
    case ApproveReport(id) => var r, t := ExpenseProofs.ApproveReportShape(db, env, caller, id);
    case RejectReport(id, reason) => var r := ExpenseProofs.RejectReportShape(db, caller, id, reason);
    case ReopenReport(id) => var r := ExpenseProofs.ReopenReportShape(db, caller, id);
    case _ =>
  }

  lemma NoNewRows(db: DB, q: Request, today: int)
    requires Inv(db, today) && today <= q.env.today && !q.call.OnAdmin? && !ActiveCategory(q.env)
    ensures Step(db, q).items.Keys <= db.items.Keys
  {
    if Apply(db, q).Ok? {
      match q.call
      case OnTrip(c) =>
        assert db.nextTrip !in db.trips;
        TripCallEffects(db, q.env, q.caller, c);
      case OnReport(c) =>
        Preservation.LaterDay(db, today, q.env.today);
        if c.AddItem? {
          NoItemIsAdded(db, q.env, q.caller, c.reportId, c.itemForm);
        }
        NoOtherCallAddsRows(db, q.env, q.caller, c);
      case OnAdmin(_) =>
    }
  }

  lemma RowlessStays(db: DB, q: Request, t: Id, today: int)
    requires Inv(db, today) && today <= q.env.today && !q.call.OnAdmin? && !ActiveCategory(q.env)
    requires !HasRow(db, t)
    ensures !HasRow(Step(db, q), t)
  {
    var next := Step(db, q);
    NoNewRows(db, q, today);
    StepEffects(db, q, today);
    RowsComeFrom(db, next, q.caller, today, t);
  }

  lemma RowsComeFrom(db: DB, next: DB, caller: Id, today: int, t: Id)
    requires BusinessOk(db, today) && ItemsWrittenBy(db, next, caller) && ReportsEvolve(db.reports, next.reports)
    requires next.items.Keys <= db.items.Keys
    ensures HasRow(next, t) ==> HasRow(db, t)
  {
    if HasRow(next, t) {
      var i :| i in next.items && next.items[i].reportId in next.reports
        && next.reports[next.items[i].reportId].tripId == t;
      assert i in db.items.Keys && db.items[i].reportId in db.reports;
    }
  }

  lemma SettledTripsHaveRows(db: DB, today: int, t: Id)
    requires BusinessOk(db, today) && t in db.trips && db.trips[t].status.Settled?
    ensures HasRow(db, t)
  {
    var r :| r in db.reports && db.reports[r].tripId == t;
    assert Coupled(db.reports[r], db.trips[t]) && TotalOk(r, db.reports[r], db.items, db.nextItem);
    var i :| i in db.items && db.items[i].reportId == r && !db.items[i].isExcluded;
    assert db.items[i].reportId in db.reports;
  }

  /** A trip whose report has no row is not settled by any run without administration in which no expense category is
      ever active, whatever else changes from call to call. */
  lemma {:induction false} RowlessNeverSettles(db: DB, qs: seq<Request>, t: Id, today: int)
    requires Inv(db, today) && ClockRuns(qs, today) && !HasRow(db, t)
    requires forall q | q in qs :: !q.call.OnAdmin? && !ActiveCategory(q.env)
    ensures !(t in Run(db, qs).trips && Run(db, qs).trips[t].status.Settled?)
    decreases |qs|
  {
    if qs == [] {
      if t in db.trips && db.trips[t].status.Settled? {
        SettledTripsHaveRows(db, today, t);
      }
    } else {
      assert qs[0] in qs && forall q | q in qs[1..] :: q in qs;
      RowlessStays(db, qs[0], t, today);
      StepKeepsInv(db, qs[0], today);
      RowlessNeverSettles(Step(db, qs[0]), qs[1..], t, qs[0].env.today);
    }
  }

  lemma UnaidedKeepsCodes(qs: seq<Request>, env: Env)
    requires Unaided(qs, env) && !ActiveCategory(env)
    ensures forall q | q in qs :: !ActiveCategory(q.env)
  {
    forall q | q in qs ensures !ActiveCategory(q.env) {
      assert q.env.codes == env.codes;
      assert forall category: string :: Verdict(env.codes, Expenses.CategorySpec(category)).Err?;
    }
  }

  // ---------------------------------------------------------------------------
  // The result

  lemma FromAnyTrip(db: DB, env: Env, today: int, t: Id, fund: string, cost: string)
    requires Inv(db, today) && Room(db, env, fund, cost) && t in db.trips
    requires db.trips[t].status.Draft? || db.trips[t].status.Rejected? ==> Managed(db, t)
    requires Suppliable(db, env, t)
    ensures CanSettle(db, env, t, today)
  {
    match db.trips[t].status
    case Draft => FromDraftTrip(db, env, today, t, fund, cost);
    case Submitted => FromSubmittedTrip(db, env, today, t, fund, cost);
    case Approved => FromApprovedTrip(db, env, today, t, fund, cost);
    case Rejected => FromRejectedTrip(db, env, today, t, fund, cost);
    case Completed => FromCompletedTrip(db, env, today, t, fund, cost);
    case Settled => SettledAlready(db, env, t, today);
  }

  /** Given two active centers, a report numbering that has not rolled over and, before submission, a manager for the
      owner, a trip in any status can be settled without administration exactly if some expense category is active or
      its report already has a row. */
  lemma CanSettleExactlyWhen(db: DB, today: int, env: Env, t: Id, fund: string, cost: string)
    requires Theorems.Reachable(db, today) && t in db.trips && Chargeable(db, fund, cost)
    requires !RollsOver(Expenses.REPORT_TAG, ReportNos(db.reports), env.utcYear)
    requires db.trips[t].status.Draft? || db.trips[t].status.Rejected? ==> Managed(db, t)
    ensures CanSettle(db, env, t, today) <==> ActiveCategory(env) || HasRow(db, t)
  {
    Theorems.ReachableIsOk(db, today);
    if Suppliable(db, env, t) {
      FromAnyTrip(db, env, today, t, fund, cost);
    }
    if CanSettle(db, env, t, today) && !Suppliable(db, env, t) {
      var qs :| Settles(qs, db, env, t, today);
      UnaidedKeepsCodes(qs, env);
      RowlessNeverSettles(db, qs, t, today);
    }
  }
}
