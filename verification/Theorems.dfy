/** What follows for every reachable state and every continuation of a run. */
module Theorems {
  import opened Common
  import opened Numbering
  import opened Tables
  import opened TripRules
  import opened ExpenseRules
  import opened History
  import opened Invariant
  import opened Runs
  import opened StepProofs
  import Trips
  import Expenses
  import Accounts
  import Masters
  import AdminProofs
  import ExpenseProofs
  import TripProofs
  import UserStatusRules
  import Preservation
  import Codes
  import Totals
  import TripServices

  /** Some run from empty tables, by any callers and with time moving forward, ends here on this day. */
  ghost predicate Reachable(db: DB, today: int) {
    exists qs, day :: ClockRuns(qs, day) && Run(EMPTY, qs) == db && LastDay(qs, day) == today
  }

  lemma ReachableIsOk(db: DB, today: int)
    requires Reachable(db, today)
    ensures Inv(db, today)
  {
    var qs, day :| ClockRuns(qs, day) && Run(EMPTY, qs) == db && LastDay(qs, day) == today;
    ReachableStatesAreOk(qs, day);
  }

  // ---------------------------------------------------------------------------
  // Reports and trips

  /** Each report follows its trip: same owner, same approver, matching statuses, one report per trip. */
  lemma EveryReportFollowsItsTrip(db: DB, today: int)
    requires Reachable(db, today)
    ensures forall r | r in db.reports ::
      && db.reports[r].tripId in db.trips
      && var report, trip := db.reports[r], db.trips[db.reports[r].tripId];
      && report.owner == trip.owner && report.approver == trip.approver && report.approver.Some?
      && (report.status.Draft? ==> trip.status.Approved? || trip.status.Completed?)
      && (report.status.Submitted? || report.status.Rejected? ==> trip.status.Completed?)
      && (report.status.Approved? <==> trip.status.Settled?)
    ensures forall r, s | r in db.reports && s in db.reports && db.reports[r].tripId == db.reports[s].tripId :: r == s
    ensures forall t | t in db.trips && db.trips[t].status.Settled? ::
      exists r :: r in db.reports && db.reports[r].tripId == t && db.reports[r].status.Approved?
  {
    ReachableIsOk(db, today);
    CouplingMeans(db, today);
  }

  lemma CouplingMeans(db: DB, today: int)
    requires BusinessOk(db, today)
    ensures forall r | r in db.reports ::
      && db.reports[r].tripId in db.trips && Coupled(db.reports[r], db.trips[db.reports[r].tripId])
      && db.reports[r].approver.Some?
    ensures forall t | t in db.trips && db.trips[t].status.Settled? ::
      exists r :: r in db.reports && db.reports[r].tripId == t && db.reports[r].status.Approved?
  {
    forall t | t in db.trips && db.trips[t].status.Settled?
      ensures exists r :: r in db.reports && db.reports[r].tripId == t && db.reports[r].status.Approved?
    {
      assert HasReport(db.reports, t);
      var r :| r in db.reports && db.reports[r].tripId == t;
      assert Coupled(db.reports[r], db.trips[t]);
    }
  }

  /** The tables after an approval: report and trip, two log entries and one notification; everything else stays. */
  function AfterApproval(db: DB, env: Env, caller: Id, id: Id): DB
    requires id in db.reports && db.reports[id].tripId in db.trips
  {
    var report, t := db.reports[id], db.reports[id].tripId;
    db.(reports := db.reports[id := report.(status := ReportStatus.Approved, approvedAt := Some(env.now))],
        trips := db.trips[t := db.trips[t].(status := TripStatus.Settled)],
        log := db.log + [
          LogEntry(ReportRef(id), caller, Action.Approve,
                   Some(OfReport(ReportStatus.Submitted)), OfReport(ReportStatus.Approved)),
          LogEntry(TripRef(t), caller, Action.Settle, Some(OfTrip(TripStatus.Completed)), OfTrip(TripStatus.Settled))],
        notes := db.notes + [Notification(report.owner, ExpenseApproved, ReportRef(id))])
  }

  /** Approving succeeds exactly for the approver of a submitted report: the settlement inside never aborts it. */
  lemma ApprovalSucceedsExactlyForTheApprover(db: DB, today: int, env: Env, caller: Id, id: Id)
    requires Reachable(db, today) && caller in db.users
    ensures id in db.reports ==> db.reports[id].tripId in db.trips
    ensures var r := Expenses.ApproveReport(db, env, caller, id);
      && (r.Ok? <==> id in db.reports && db.reports[id].status.Submitted? && db.reports[id].approver == Some(caller))
      && (r.Ok? ==> r.value == AfterApproval(db, env, caller, id))
  {
    ReachableCoupling(db, today);
    NobodyApprovesTheirOwn(db, today);
    if id in db.reports && db.reports[id].status.Submitted? && db.reports[id].approver == Some(caller) {
      ApprovalOfSubmittedIsOk(db, env, caller, id);
    }
    if Expenses.ApproveReport(db, env, caller, id).Ok? {
      var r, t := ExpenseProofs.ApproveReportShape(db, env, caller, id);
      ApprovedTables(db, env, caller, id, r, t);
    }
  }

  lemma ApprovedTables(db: DB, env: Env, caller: Id, id: Id, r: Report, t: Trip)
    requires id in db.reports && db.reports[id].tripId in db.trips && db.reports[id].owner != caller
    requires r == db.reports[id].(status := ReportStatus.Approved, approvedAt := Some(env.now))
    requires t == db.trips[r.tripId].(status := TripStatus.Settled)
    ensures ExpenseProofs.Approved(db, caller, id, r, t) == AfterApproval(db, env, caller, id)
  {
    var next, after := ExpenseProofs.Approved(db, caller, id, r, t), AfterApproval(db, env, caller, id);
    assert next.log == after.log;
    assert next.notes == after.notes;
  }

  lemma ApprovalOfSubmittedIsOk(db: DB, env: Env, caller: Id, id: Id)
    requires CouplingOk(db.reports, db.trips) && caller in db.users
    requires id in db.reports && db.reports[id].status.Submitted? && db.reports[id].approver == Some(caller)
    ensures Expenses.ApproveReport(db, env, caller, id).Ok?
  {
    assert db.trips[db.reports[id].tripId].status.Completed?;
  }

  /** A center that is named, not blank, and active. */
  predicate Chargeable(centers: map<string, bool>, code: Option<string>) {
    Named(code) && code.value in centers && centers[code.value]
  }

  /** The tables after a submission: the report, one log entry and one notification to its approver. */
  function AfterSubmission(db: DB, env: Env, caller: Id, id: Id): DB
    requires id in db.reports && db.reports[id].approver.Some?
  {
    var report := db.reports[id];
    db.(reports := db.reports[id := report.(status := ReportStatus.Submitted, submittedAt := Some(env.now),
                                            approvedAt := None, rejectReason := None)],
        log := db.log + [LogEntry(ReportRef(id), caller, Action.Submit,
                                  Some(OfReport(ReportStatus.Draft)), OfReport(ReportStatus.Submitted))],
        notes := db.notes + [Notification(report.approver.value, ExpenseSubmitted, ReportRef(id))])
  }

  /** What is missing for a submission: the trip's end, a center, an active one, or an included item, in this order. */
  function SubmissionProblem(db: DB, id: Id): Error
    requires id in db.reports && db.reports[id].tripId in db.trips
  {
    var report := db.reports[id];
    if db.trips[report.tripId].status != TripStatus.Completed then TripNotCompleted
    else if !Named(report.fundCenter) || !Named(report.costCenter) then CenterRequired
    else if !Chargeable(db.funds, report.fundCenter) then InvalidFundCenter
    else if !Chargeable(db.costs, report.costCenter) then InvalidCostCenter
    else ExpenseNoItems
  }

  /** Submitting a report succeeds exactly when the checks on the report itself pass: an approver is always there, and
      the recomputed total is the stored one, so the bound on the total is never what refuses it. */
  lemma SubmissionSucceedsExactlyWhen(db: DB, today: int, env: Env, caller: Id, id: Id)
    requires Reachable(db, today) && caller in db.users
    ensures id in db.reports ==> db.reports[id].tripId in db.trips && db.reports[id].approver.Some?
    ensures var r := Expenses.SubmitReport(db, env, caller, id);
      && (r.Ok? <==>
            && id in db.reports && db.reports[id].owner == caller && db.reports[id].status == ReportStatus.Draft
            && db.trips[db.reports[id].tripId].status == TripStatus.Completed
            && Chargeable(db.funds, db.reports[id].fundCenter) && Chargeable(db.costs, db.reports[id].costCenter)
            && exists i | i in db.items :: db.items[i].reportId == id && !db.items[i].isExcluded)
      && (r.Ok? ==> r.value == AfterSubmission(db, env, caller, id))
      && (r.Err? && id in db.reports && db.reports[id].owner == caller
          && db.reports[id].status == ReportStatus.Draft ==>
            r.error == SubmissionProblem(db, id))
  {
    ReachableIsOk(db, today);
    if id in db.reports {
      assert TotalOk(id, db.reports[id], db.items, db.nextItem);
      assert ReportOk(db.reports[id], db.funds, db.costs) && Coupled(db.reports[id], db.trips[db.reports[id].tripId]);
      assert TripOk(db.trips[db.reports[id].tripId], db.users, db.costs, today);
      SubmissionMeans(db, today, env, caller, id);
    }
  }

  lemma SubmissionMeans(db: DB, today: int, env: Env, caller: Id, id: Id)
    requires caller in db.users && id in db.reports && TotalOk(id, db.reports[id], db.items, db.nextItem)
    requires ReportOk(db.reports[id], db.funds, db.costs)
    requires db.reports[id].tripId in db.trips && TripOk(db.trips[db.reports[id].tripId], db.users, db.costs, today)
    requires Coupled(db.reports[id], db.trips[db.reports[id].tripId]) && db.reports[id].approver.Some?
    ensures var r := Expenses.SubmitReport(db, env, caller, id);
      && (r.Ok? <==>
            && db.reports[id].owner == caller && db.reports[id].status == ReportStatus.Draft
            && db.trips[db.reports[id].tripId].status == TripStatus.Completed
            && Chargeable(db.funds, db.reports[id].fundCenter) && Chargeable(db.costs, db.reports[id].costCenter)
            && exists i | i in db.items :: db.items[i].reportId == id && !db.items[i].isExcluded)
      && (r.Ok? ==> r.value == AfterSubmission(db, env, caller, id))
      && (r.Err? && db.reports[id].owner == caller && db.reports[id].status == ReportStatus.Draft ==>
            r.error == SubmissionProblem(db, id))
  {
    SubmissionConditions(db, today, env, caller, id);
    if Expenses.SubmitReport(db, env, caller, id).Ok? {
      var report := ExpenseProofs.SubmitReportShape(db, env, caller, id);
      var next, after := Expenses.SubmitReport(db, env, caller, id).value, AfterSubmission(db, env, caller, id);
      assert report == after.reports[id];
      assert next.notes == after.notes && next.log == after.log;
    }
  }

  lemma SubmissionConditions(db: DB, today: int, env: Env, caller: Id, id: Id)
    requires caller in db.users && id in db.reports && TotalOk(id, db.reports[id], db.items, db.nextItem)
    requires ReportOk(db.reports[id], db.funds, db.costs)
    requires db.reports[id].tripId in db.trips && TripOk(db.trips[db.reports[id].tripId], db.users, db.costs, today)
    ensures var r := Expenses.SubmitReport(db, env, caller, id);
      && (r.Ok? <==>
            && db.reports[id].owner == caller && db.reports[id].status.Draft?
            && db.reports[id].tripId in db.trips && db.trips[db.reports[id].tripId].status.Completed?
            && AssertCentersPresent(db.reports[id].fundCenter, db.reports[id].costCenter).Ok?
            && Expenses.AssertActive(db.funds, db.reports[id].fundCenter, InvalidFundCenter).Ok?
            && Expenses.AssertActive(db.costs, db.reports[id].costCenter, InvalidCostCenter).Ok?
            && HasIncluded(db.items, id))
      && (r.Ok? ==> r.value.reports[id].total == db.reports[id].total && r.value.items == db.items)
  {
  }

  /** A trip can be deleted exactly by its owner while it is a draft; the foreign key from the reports never fires,
      and no report loses its trip. */
  lemma DeletionNeverOrphansAReport(db: DB, today: int, caller: Id, id: Id)
    requires Reachable(db, today) && caller in db.users
    ensures var r := Trips.DeleteTrip(db, caller, id);
      && (r.Ok? <==> id in db.trips && db.trips[id].owner == caller && db.trips[id].status.Draft?)
      && (r.Ok? ==> r.value.trips == db.trips - {id}
                    && forall k | k in r.value.reports :: r.value.reports[k].tripId in r.value.trips)
  {
    ReachableCoupling(db, today);
    DeletionKeepsTheTrips(db, caller, id);
  }

  lemma ReachableCoupling(db: DB, today: int)
    requires Reachable(db, today)
    ensures CouplingOk(db.reports, db.trips)
  {
    ReachableIsOk(db, today);
  }

  lemma DeletionKeepsTheTrips(db: DB, caller: Id, id: Id)
    requires CouplingOk(db.reports, db.trips) && caller in db.users
    ensures var r := Trips.DeleteTrip(db, caller, id);
      && (r.Ok? <==> id in db.trips && db.trips[id].owner == caller && db.trips[id].status.Draft?)
      && (r.Ok? ==> r.value.trips == db.trips - {id}
                    && forall k | k in r.value.reports :: r.value.reports[k].tripId in r.value.trips)
  {
  }

  // ---------------------------------------------------------------------------
  // The audit trail

  /** For every live trip and report, the log entries form an unbroken chain from creation to the current status, and
      every submission and decision is matched by one notification to the right person. */
  lemma EveryHistoryIsComplete(db: DB, today: int)
    requires Reachable(db, today)
    ensures forall t | t in db.trips ::
      HistoryOf(db, TripRef(t), OfTrip(db.trips[t].status), db.trips[t].owner, db.trips[t].approver)
    ensures forall r | r in db.reports ::
      HistoryOf(db, ReportRef(r), OfReport(db.reports[r].status), db.reports[r].owner,
                if db.reports[r].status.Draft? then None else db.reports[r].approver)
  {
    ReachableIsOk(db, today);
    HistoriesFollow(db);
  }

  ghost predicate HistoryOf(db: DB, x: Entity, status: Status, owner: Id, approver: Option<Id>) {
    var trail, mail := Trail(db.log, x), Mail(db.notes, x);
    && trail != [] && Unbroken(trail, View(status, owner, approver))
    && ProperlyMailed(trail, mail) && ApproverIsAddressee(trail, mail, View(status, owner, approver), x)
  }

  lemma HistoriesFollow(db: DB)
    requires AuditOk(db)
    ensures forall t | t in db.trips ::
      HistoryOf(db, TripRef(t), OfTrip(db.trips[t].status), db.trips[t].owner, db.trips[t].approver)
    ensures forall r | r in db.reports ::
      HistoryOf(db, ReportRef(r), OfReport(db.reports[r].status), db.reports[r].owner,
                if db.reports[r].status.Draft? then None else db.reports[r].approver)
  {
    forall t | t in db.trips
      ensures HistoryOf(db, TripRef(t), OfTrip(db.trips[t].status), db.trips[t].owner, db.trips[t].approver)
    {
      assert TripStory(t, db.trips[t], db.log, db.notes);
      ToldHistory(db, TripRef(t), TripView(db.trips[t]));
    }
    forall r | r in db.reports
      ensures HistoryOf(db, ReportRef(r), OfReport(db.reports[r].status), db.reports[r].owner,
                        if db.reports[r].status.Draft? then None else db.reports[r].approver)
    {
      ToldHistory(db, ReportRef(r), ReportView(db.reports[r]));
    }
  }

  lemma ToldHistory(db: DB, x: Entity, v: View)
    requires Tells(db.log, db.notes, x, v) && v.View?
    ensures HistoryOf(db, x, v.status, v.owner, v.approver)
  {
    TrailIsAboutEntity(db.log, x);
    ReplayIsUnbroken(Trail(db.log, x), Mail(db.notes, x), v);
    ReplayIsProperlyMailed(Trail(db.log, x), Mail(db.notes, x), v, x);
  }

  /** Deleting a trip leaves behind a history of drafting only exactly when the trip carries no reject reason; the
      history of a trip that was rejected and reopened keeps its submission and its rejection. */
  lemma DeletedTripHistory(db: DB, today: int, caller: Id, id: Id)
    requires Reachable(db, today) && caller in db.users && Trips.DeleteTrip(db, caller, id).Ok?
    ensures OnlyDrafting(Trail(Trips.DeleteTrip(db, caller, id).value.log, TripRef(id))) <==>
      db.trips[id].rejectReason.None?
  {
    ReachableIsOk(db, today);
    assert TripStory(id, db.trips[id], db.log, db.notes);
  }

  /** Such trips exist: any rejected trip can be reopened and then deleted. */
  lemma RejectedTripCanVanish(db: DB, today: int, id: Id)
    requires Reachable(db, today) && id in db.trips && db.trips[id].status.Rejected?
    ensures var owner := db.trips[id].owner;
      && owner in db.users && Trips.ReopenTrip(db, owner, id).Ok?
      && var reopened := Trips.ReopenTrip(db, owner, id).value;
      && owner in reopened.users && Trips.DeleteTrip(reopened, owner, id).Ok?
      && !OnlyDrafting(Trail(Trips.DeleteTrip(reopened, owner, id).value.log, TripRef(id)))
  {
    ReachableIsOk(db, today);
    assert TripOk(db.trips[id], db.users, db.costs, today);
    TripProofs.NoReportYet(db, id);
    RejectedCanBeReopenedAndDeleted(db, today, id);
  }

  lemma RejectedCanBeReopenedAndDeleted(db: DB, today: int, id: Id)
    requires id in db.trips && db.trips[id].status.Rejected? && TripOk(db.trips[id], db.users, db.costs, today)
    requires !HasReport(db.reports, id) && TripStory(id, db.trips[id], db.log, db.notes)
    ensures var owner := db.trips[id].owner;
      && Trips.ReopenTrip(db, owner, id).Ok?
      && var reopened := Trips.ReopenTrip(db, owner, id).value;
      && owner in reopened.users && Trips.DeleteTrip(reopened, owner, id).Ok?
      && !OnlyDrafting(Trail(Trips.DeleteTrip(reopened, owner, id).value.log, TripRef(id)))
  {
    var owner := db.trips[id].owner;
    var e := Trips.TripEntry(id, owner, Action.Update, TripStatus.Rejected, TripStatus.Draft);
    assert Trips.ReopenTrip(db, owner, id).value.log == db.log + [e];
    TrailAppend(db.log, e, TripRef(id));
    Preservation.OnlyDraftingSnoc(Trail(db.log, TripRef(id)), e);
  }

  // ---------------------------------------------------------------------------
  // Money, people, fields

  /** A center is named, and not by blanks only. */
  predicate Named(code: Option<string>) {
    code.Some? && !AllBlank(code.value)
  }

  /** The stored total is the amount of exactly the rows of the report that are not excluded, with or without a card
      transaction, and within bounds; so is every stored amount. */
  lemma TotalsAreExact(db: DB, today: int)
    requires Reachable(db, today)
    ensures forall r | r in db.reports :: TotalIsExact(db, r)
    ensures forall i | i in db.items :: i < db.nextItem && 0 <= db.items[i].amount <= 999999999999
  {
    ReachableIsOk(db, today);
    ItemAmountsAreBounded(db, today);
    forall r | r in db.reports ensures TotalIsExact(db, r) {
      TotalMeans(db, r);
    }
  }

  ghost predicate TotalIsExact(db: DB, r: Id)
    requires r in db.reports
  {
    var rows := set i | i in db.items && db.items[i].reportId == r && !db.items[i].isExcluded;
    && db.reports[r].total == Totals.AmountOf(db.items, rows)
    && 0 <= db.reports[r].total <= 99999999999999
    && (db.reports[r].status == ReportStatus.Submitted || db.reports[r].status == ReportStatus.Approved ==>
          && (exists i | i in db.items :: db.items[i].reportId == r && !db.items[i].isExcluded)
          && Named(db.reports[r].fundCenter) && Named(db.reports[r].costCenter))
  }

  lemma TotalMeans(db: DB, r: Id)
    requires r in db.reports && (forall i | i in db.items :: i < db.nextItem)
    requires TotalOk(r, db.reports[r], db.items, db.nextItem) && ReportOk(db.reports[r], db.funds, db.costs)
    ensures TotalIsExact(db, r)
  {
    Totals.SumIsAmountOfIncludedRows(db.items, r, db.nextItem);
    assert (set i | i in db.items && db.items[i].reportId == r && !db.items[i].isExcluded)
        == Totals.IncludedRows(db.items, r);
  }

  lemma ItemAmountsAreBounded(db: DB, today: int)
    requires BusinessOk(db, today)
    ensures forall i | i in db.items :: i < db.nextItem && 0 <= db.items[i].amount <= 999999999999
  {
    forall i | i in db.items ensures i < db.nextItem && 0 <= db.items[i].amount <= 999999999999 {
      assert ItemOk(db.items[i], db.reports, db.transactions, db.cards, db.funds, db.costs);
    }
  }

  /** Nobody is their own approver: no user is their own manager, and no trip or report is up for its owner's
      decision. */
  lemma NobodyApprovesTheirOwn(db: DB, today: int)
    requires Reachable(db, today)
    ensures forall u | u in db.users :: db.users[u].manager != Some(u)
    ensures forall t | t in db.trips :: db.trips[t].approver != Some(db.trips[t].owner)
    ensures forall r | r in db.reports :: db.reports[r].approver != Some(db.reports[r].owner)
  {
    ReachableIsOk(db, today);
    forall t | t in db.trips ensures db.trips[t].approver != Some(db.trips[t].owner) {
      assert TripOk(db.trips[t], db.users, db.costs, today);
    }
    CouplingMeans(db, today);
    forall u | u in db.users ensures db.users[u].manager != Some(u) {
      assert db.users[u].manager.Some? ==> db.users[u].manager.value != u;
    }
  }

  /** Every card transaction in a report sits on a card of the report's owner, and occurs in it at most once. */
  lemma TransactionsBelongToTheOwner(db: DB, today: int)
    requires Reachable(db, today)
    ensures forall i | i in db.items && db.items[i].transaction.Some? ::
      && db.items[i].transaction.value in db.transactions && db.items[i].reportId in db.reports
      && db.transactions[db.items[i].transaction.value].card in db.cards
      && db.cards[db.transactions[db.items[i].transaction.value].card] == db.reports[db.items[i].reportId].owner
    ensures forall i, j | i in db.items && j in db.items && i != j && db.items[i].reportId == db.items[j].reportId
      && db.items[i].transaction.Some? :: db.items[i].transaction != db.items[j].transaction
  {
    ReachableIsOk(db, today);
    forall i | i in db.items ensures ItemOk(db.items[i], db.reports, db.transactions, db.cards, db.funds, db.costs) {
    }
  }

  /** Every center code a trip, a report or an item holds names an existing center, without any foreign key. */
  lemma CenterCodesAlwaysExist(db: DB, today: int)
    requires Reachable(db, today)
    ensures AdminProofs.CodesStillExist(db, db.funds, db.costs)
  {
    ReachableIsOk(db, today);
    AdminProofs.InvCodesExist(db, today);
  }

  /** The fields of trips and reports agree with their status. */
  lemma FieldsAgreeWithStatus(db: DB, today: int)
    requires Reachable(db, today)
    ensures forall t | t in db.trips :: TripOk(db.trips[t], db.users, db.costs, today)
    ensures forall r | r in db.reports :: ReportOk(db.reports[r], db.funds, db.costs)
  {
    ReachableIsOk(db, today);
  }

  // ---------------------------------------------------------------------------
  // Numbers

  /** Live trip numbers are pairwise distinct, and so are live report numbers. */
  lemma NumbersStayDistinct(db: DB, today: int)
    requires Reachable(db, today)
    ensures forall s, t | s in db.trips && t in db.trips && s != t :: db.trips[s].no != db.trips[t].no
    ensures forall s, t | s in db.reports && t in db.reports && s != t :: db.reports[s].no != db.reports[t].no
  {
    ReachableIsOk(db, today);
    forall s, t | s in db.trips && t in db.trips && s != t ensures db.trips[s].no != db.trips[t].no {
      assert TripNos(db.trips)[s] != TripNos(db.trips)[t];
    }
    forall s, t | s in db.reports && t in db.reports && s != t ensures db.reports[s].no != db.reports[t].no {
      assert ReportNos(db.reports)[s] != ReportNos(db.reports)[t];
    }
  }

  /** Creating a trip succeeds exactly when the checks on the request pass and the year's numbering has not rolled over;
      once it has, every sound request is refused by the uniqueness constraint. */
  lemma TripCreationSucceedsExactlyWhen(db: DB, today: int, env: Env, caller: Id, form: Trips.TripForm)
    requires Reachable(db, today)
    ensures var r := Trips.CreateTrip(db, env, caller, form);
      var rolled := RollsOver(Trips.TRIP_TAG, TripNos(db.trips), env.year);
      && (r.Ok? <==> SoundTrip(env, form) && !rolled)
      && (r == Err(InternalError) <==> SoundTrip(env, form) && rolled)
  {
    ReachableNumbers(db, today);
    NextNoIsTakenExactlyAtRollOver(Trips.TRIP_TAG, TripNos(db.trips), db.nextTrip, env.year);
    TripServices.TripCodesAreChecked(env.codes, Some(form.purpose), Some(form.destination), Some(form.country));
  }

  /** Each code is an active one of its own group, and the dates are in order. */
  predicate SoundTrip(env: Env, form: Trips.TripForm) {
    && Codes.CodeActive(env.codes, Codes.TripPurpose, Some(form.purpose))
    && Codes.CodeActive(env.codes, Codes.DestinationType, Some(form.destination))
    && Codes.CodeActive(env.codes, Codes.GroupCode.Country, Some(form.country))
    && form.startDate <= form.endDate
  }

  lemma ReachableNumbers(db: DB, today: int)
    requires Reachable(db, today)
    ensures NumberingOk(db)
  {
    ReachableIsOk(db, today);
  }

  /** The same for reports. */
  lemma ReportCreationSucceedsExactlyWhen(db: DB, today: int, env: Env, caller: Id, tripId: Id)
    requires Reachable(db, today) && caller in db.users
    ensures var r := Expenses.CreateReport(db, env, caller, tripId);
      var rolled := RollsOver(Expenses.REPORT_TAG, ReportNos(db.reports), env.utcYear);
      && (r.Ok? <==> SoundReport(db, caller, tripId) && !rolled)
      && (r == Err(InternalError) <==> SoundReport(db, caller, tripId) && rolled)
  {
    ReachableNumbers(db, today);
    NextNoIsTakenExactlyAtRollOver(Expenses.REPORT_TAG, ReportNos(db.reports), db.nextReport, env.utcYear);
    var no := NextNo(ReportNos(db.reports), db.nextReport, Expenses.REPORT_TAG, env.utcYear).value;
    ReportCreationMeans(db, env, caller, tripId, no);
  }

  lemma ReportCreationMeans(db: DB, env: Env, caller: Id, tripId: Id, no: string)
    requires NextNo(ReportNos(db.reports), db.nextReport, Expenses.REPORT_TAG, env.utcYear) == Ok(no)
    requires caller in db.users
    ensures var r := Expenses.CreateReport(db, env, caller, tripId);
      && (SoundReport(db, caller, tripId) && !Taken(ReportNos(db.reports), no) ==> r.Ok?)
      && (SoundReport(db, caller, tripId) && Taken(ReportNos(db.reports), no) ==> r == Err(InternalError))
      && (!SoundReport(db, caller, tripId) ==> r.Err? && r != Err(InternalError))
  {
  }

  predicate SoundReport(db: DB, caller: Id, tripId: Id) {
    && tripId in db.trips && db.trips[tripId].owner == caller
    && (db.trips[tripId].status == TripStatus.Approved || db.trips[tripId].status == TripStatus.Completed)
    && forall r | r in db.reports :: db.reports[r].tripId != tripId
  }

  // ---------------------------------------------------------------------------
  // One step

  /** A trip, a report or an item changes in a call only at the hand of its owner or its approver, whatever the
      caller's role: an administrator who is neither can read everything and change nothing. */
  lemma OnlyOwnersAndApproversWrite(db: DB, today: int, q: Request)
    requires Reachable(db, today) && today <= q.env.today
    ensures var db' := Step(db, q);
      && TripsWrittenBy(db.trips, db'.trips, q.caller) && ReportsWrittenBy(db.reports, db'.reports, q.caller)
      && ItemsWrittenBy(db, db', q.caller)
  {
    ReachableIsOk(db, today);
    StepEffects(db, q, today);
  }

  /** Trips and reports move only along their transition tables, trips vanish only as drafts, and accounts move only
      along the sign-up table. */
  lemma StatusesFollowTheTables(db: DB, today: int, q: Request)
    requires Reachable(db, today) && today <= q.env.today
    ensures var db' := Step(db, q);
      && TripsEvolve(db.trips, db'.trips) && ReportsEvolve(db.reports, db'.reports)
      && AdminProofs.UsersEvolve(db.users, db'.users)
  {
    ReachableIsOk(db, today);
    StepEffects(db, q, today);
  }

  // ---------------------------------------------------------------------------
  // Every continuation of a run

  /** The items of one report are the same rows in both states. */
  ghost predicate SameItems(items: map<Id, Item>, items': map<Id, Item>, report: Id) {
    && (forall i | i in items && items[i].reportId == report :: i in items' && items'[i] == items[i])
    && (forall i | i in items' && items'[i].reportId == report :: i in items && items'[i] == items[i])
  }

  lemma SameItemsIsTransitive(a: map<Id, Item>, b: map<Id, Item>, c: map<Id, Item>, report: Id)
    requires SameItems(a, b, report) && SameItems(b, c, report)
    ensures SameItems(a, c, report)
  {
  }

  lemma LockedItemsStay(db: DB, db': DB, caller: Id, report: Id)
    requires ItemsWrittenBy(db, db', caller) && report in db.reports && Locked(db.reports[report].status)
    ensures SameItems(db.items, db'.items, report)
  {
  }

  /** One step, as seen from one trip and one locked report. */
  lemma StepFromHere(db: DB, q: Request, today: int)
    requires Inv(db, today) && today <= q.env.today
    ensures var next := Step(db, q);
      && TripsEvolve(db.trips, next.trips) && ReportsEvolve(db.reports, next.reports)
      && Inv(next, q.env.today) && Appends(db, next) && AdminProofs.UsersEvolve(db.users, next.users)
      && (forall r | r in db.reports && Locked(db.reports[r].status) :: SameItems(db.items, next.items, r))
  {
    StepKeepsInv(db, q, today);
    StepEffects(db, q, today);
    forall r | r in db.reports && Locked(db.reports[r].status) ensures SameItems(db.items, Step(db, q).items, r) {
      LockedItemsStay(db, Step(db, q), q.caller, r);
    }
  }

  lemma {:induction false} SettledTripStays(db: DB, qs: seq<Request>, today: int, id: Id)
    requires Inv(db, today) && ClockRuns(qs, today) && id in db.trips && db.trips[id].status.Settled?
    ensures id in Run(db, qs).trips && Run(db, qs).trips[id] == db.trips[id]
    decreases |qs|
  {
    if qs != [] {
      StepFromHere(db, qs[0], today);
      assert id in Step(db, qs[0]).trips;
      SettledTripStays(Step(db, qs[0]), qs[1..], qs[0].env.today, id);
    }
  }

  /** A settled trip never changes again. */
  lemma SettledTripIsFinal(db: DB, qs: seq<Request>, today: int)
    requires Reachable(db, today) && ClockRuns(qs, today)
    ensures forall t | t in db.trips && db.trips[t].status.Settled? ::
      t in Run(db, qs).trips && Run(db, qs).trips[t] == db.trips[t]
  {
    ReachableIsOk(db, today);
    forall t | t in db.trips && db.trips[t].status.Settled?
      ensures t in Run(db, qs).trips && Run(db, qs).trips[t] == db.trips[t]
    {
      SettledTripStays(db, qs, today, t);
    }
  }

  lemma {:induction false} ApprovedReportStays(db: DB, qs: seq<Request>, today: int, id: Id)
    requires Inv(db, today) && ClockRuns(qs, today) && id in db.reports && db.reports[id].status.Approved?
    ensures id in Run(db, qs).reports && Run(db, qs).reports[id] == db.reports[id]
    ensures SameItems(db.items, Run(db, qs).items, id)
    decreases |qs|
  {
    if qs != [] {
      var next := Step(db, qs[0]);
      StepFromHere(db, qs[0], today);
      assert ReportEvolves(db.reports[id], next.reports[id]);
      ApprovedReportStays(next, qs[1..], qs[0].env.today, id);
      SameItemsIsTransitive(db.items, next.items, Run(next, qs[1..]).items, id);
    }
  }

  /** An approved report and its items never change again. */
  lemma ApprovedReportIsFinal(db: DB, qs: seq<Request>, today: int)
    requires Reachable(db, today) && ClockRuns(qs, today)
    ensures forall r | r in db.reports && db.reports[r].status.Approved? ::
      && r in Run(db, qs).reports && Run(db, qs).reports[r] == db.reports[r]
      && SameItems(db.items, Run(db, qs).items, r)
  {
    ReachableIsOk(db, today);
    forall r | r in db.reports && db.reports[r].status.Approved?
      ensures r in Run(db, qs).reports && Run(db, qs).reports[r] == db.reports[r]
      ensures SameItems(db.items, Run(db, qs).items, r)
    {
      ApprovedReportStays(db, qs, today, r);
    }
  }

  /** The report is in no state of the run rejected. */
  predicate NeverRejected(db: DB, qs: seq<Request>, id: Id)
    decreases |qs|
  {
    qs != [] ==>
      var next := Step(db, qs[0]);
      id in next.reports && !next.reports[id].status.Rejected? && NeverRejected(next, qs[1..], id)
  }

  /** The report is still under review or approved, and nothing but its status, decision time and reason has changed. */
  ghost predicate Frozen(db: DB, end: DB, id: Id)
    requires id in db.reports
  {
    && id in end.reports && Locked(end.reports[id].status)
    && end.reports[id] == db.reports[id].(status := end.reports[id].status, approvedAt := end.reports[id].approvedAt,
                                          rejectReason := end.reports[id].rejectReason)
    && SameItems(db.items, end.items, id)
  }

  lemma {:induction false} SubmittedReportStays(db: DB, qs: seq<Request>, today: int, id: Id)
    requires Inv(db, today) && ClockRuns(qs, today) && id in db.reports && Locked(db.reports[id].status)
    requires NeverRejected(db, qs, id)
    ensures Frozen(db, Run(db, qs), id)
    decreases |qs|
  {
    if qs != [] {
      var next := Step(db, qs[0]);
      StepFromHere(db, qs[0], today);
      assert ReportEvolves(db.reports[id], next.reports[id]);
      SubmittedReportStays(next, qs[1..], qs[0].env.today, id);
      SameItemsIsTransitive(db.items, next.items, Run(next, qs[1..]).items, id);
    }
  }

  /** From submission until a rejection, or forever, a report's items, total, centers and approver do not move: what is
      approved is what was submitted. */
  lemma SubmittedReportIsFrozen(db: DB, qs: seq<Request>, today: int)
    requires Reachable(db, today) && ClockRuns(qs, today)
    ensures forall r | r in db.reports && Locked(db.reports[r].status) && NeverRejected(db, qs, r) ::
      Frozen(db, Run(db, qs), r)
  {
    ReachableIsOk(db, today);
    forall r | r in db.reports && Locked(db.reports[r].status) && NeverRejected(db, qs, r)
      ensures Frozen(db, Run(db, qs), r)
    {
      SubmittedReportStays(db, qs, today, r);
    }
  }

  predicate TripNeverRejected(db: DB, qs: seq<Request>, id: Id)
    decreases |qs|
  {
    qs != [] ==>
      var next := Step(db, qs[0]);
      id in next.trips && !next.trips[id].status.Rejected? && TripNeverRejected(next, qs[1..], id)
  }

  /** Past drafting, nothing but status, approval time and reject reason differs. */
  predicate SameRequest(t: Trip, t': Trip) {
    && !Editable(t'.status)
    && t' == t.(status := t'.status, approvedAt := t'.approvedAt, rejectReason := t'.rejectReason)
  }

  lemma SameRequestIsTransitive(a: Trip, b: Trip, c: Trip)
    requires SameRequest(a, b) && SameRequest(b, c)
    ensures SameRequest(a, c)
  {
  }

  predicate TripFrozen(trips: map<Id, Trip>, end: map<Id, Trip>, id: Id)
    requires id in trips
  {
    id in end && SameRequest(trips[id], end[id])
  }

  lemma TripNext(trips: map<Id, Trip>, next: map<Id, Trip>, id: Id)
    requires TripsEvolve(trips, next) && id in trips && !Editable(trips[id].status)
    ensures id in next && (!next[id].status.Rejected? ==> SameRequest(trips[id], next[id]))
  {
    assert id in next;
    assert TripEvolves(trips[id], next[id]);
  }

  lemma {:induction false} SubmittedTripStays(db: DB, qs: seq<Request>, today: int, id: Id)
    requires Inv(db, today) && ClockRuns(qs, today) && id in db.trips && !Editable(db.trips[id].status)
    requires TripNeverRejected(db, qs, id)
    ensures TripFrozen(db.trips, Run(db, qs).trips, id)
    decreases |qs|
  {
    if qs != [] {
      var next := Step(db, qs[0]);
      StepFromHere(db, qs[0], today);
      TripNext(db.trips, next.trips, id);
      SubmittedTripStays(next, qs[1..], qs[0].env.today, id);
      SameRequestIsTransitive(db.trips[id], next.trips[id], Run(next, qs[1..]).trips[id]);
    }
  }

  /** From submission until a rejection, or forever, everything that was requested stays as it was: the trip that is
      approved, taken and settled is the trip that was submitted, under the same approver. */
  lemma SubmittedTripIsFrozen(db: DB, qs: seq<Request>, today: int)
    requires Reachable(db, today) && ClockRuns(qs, today)
    ensures forall t | t in db.trips && !Editable(db.trips[t].status) && TripNeverRejected(db, qs, t) ::
      TripFrozen(db.trips, Run(db, qs).trips, t)
  {
    ReachableIsOk(db, today);
    forall t | t in db.trips && !Editable(db.trips[t].status) && TripNeverRejected(db, qs, t)
      ensures TripFrozen(db.trips, Run(db, qs).trips, t)
    {
      SubmittedTripStays(db, qs, today, t);
    }
  }

  /** The log and the notifications are append-only. */
  lemma {:induction false} HistoryOnlyGrows(db: DB, qs: seq<Request>, today: int)
    requires Inv(db, today) && ClockRuns(qs, today)
    ensures Appends(db, Run(db, qs))
    decreases |qs|
  {
    if qs != [] {
      StepFromHere(db, qs[0], today);
      HistoryOnlyGrows(Step(db, qs[0]), qs[1..], qs[0].env.today);
    }
  }

  // ---------------------------------------------------------------------------
  // Accounts

  /** An account never disappears and keeps its e-mail; an active one stays active and keeps its employee number. */
  lemma {:induction false} ActiveAccountsStayActive(db: DB, qs: seq<Request>, today: int, u: Id)
    requires Inv(db, today) && ClockRuns(qs, today) && u in db.users
    ensures u in Run(db, qs).users && Run(db, qs).users[u].email == db.users[u].email
    ensures db.users[u].status.Active? ==>
      Run(db, qs).users[u].status.Active? && Run(db, qs).users[u].employeeNo == db.users[u].employeeNo
    decreases |qs|
  {
    if qs != [] {
      StepFromHere(db, qs[0], today);
      assert AdminProofs.UserEvolves(db.users[u], Step(db, qs[0]).users[u]);
      assert db.users[u].status.Active? ==> db.users[u].employeeNo.Some?;
      ActiveAccountsStayActive(Step(db, qs[0]), qs[1..], qs[0].env.today, u);
    }
  }

  /** The accounts with an employee number are exactly the active ones; e-mails and employee numbers are unique. */
  lemma AccountsAreIdentified(db: DB, today: int)
    requires Reachable(db, today)
    ensures forall u | u in db.users :: db.users[u].status.Active? <==> db.users[u].employeeNo.Some?
    ensures forall u, v | u in db.users && v in db.users && u != v ::
      db.users[u].email != db.users[v].email
      && (db.users[u].employeeNo.Some? ==> db.users[u].employeeNo != db.users[v].employeeNo)
  {
    ReachableIsOk(db, today);
  }

  /** No row is lost; a row changes only if it was rejected and has the applicant's e-mail, and then only in the
      applicant's own fields. */
  ghost predicate OverwritesOnlyRejected(users: map<Id, User>, users': map<Id, User>, form: Accounts.SignupForm) {
    forall u | u in users ::
      && u in users'
      && (users'[u] != users[u] ==>
            && users[u].status.Rejected? && users[u].email == form.email
            && users'[u] == users[u].(name := form.name, department := form.department, passwordHash := form.digest,
                                      status := UserStatus.Pending, isActive := false))
  }

  /** An application with the form's data is pending, its login closed. */
  ghost predicate Applied(users: map<Id, User>, form: Accounts.SignupForm) {
    exists u | u in users ::
      && users[u].email == form.email && users[u].passwordHash == form.digest
      && users[u].status.Pending? && !users[u].isActive
  }

  /** A sign-up goes through exactly when the password and the department pass and no pending or active account has
      the e-mail; it overwrites nothing but a rejected application. */
  lemma SignupOverwritesOnlyRejected(db: DB, today: int, env: Env, form: Accounts.SignupForm)
    requires Reachable(db, today)
    ensures var r := Accounts.Signup(db, env, form);
      && (r.Ok? <==>
            && Accounts.AssertPasswordLength(form.password).Ok? && form.department in env.departments
            && forall u | u in db.users && db.users[u].email == form.email :: db.users[u].status.Rejected?)
      && (r.Ok? ==> OverwritesOnlyRejected(db.users, r.value.users, form) && Applied(r.value.users, form))
  {
    ReachableIsOk(db, today);
    SignupRules(db, env, form);
  }

  lemma SignupRules(db: DB, env: Env, form: Accounts.SignupForm)
    requires UsersOk(db.users, db.nextUser)
    ensures var r := Accounts.Signup(db, env, form);
      && (r.Ok? <==>
            && Accounts.AssertPasswordLength(form.password).Ok? && form.department in env.departments
            && forall u | u in db.users && db.users[u].email == form.email :: db.users[u].status.Rejected?)
      && (r.Ok? ==> OverwritesOnlyRejected(db.users, r.value.users, form) && Applied(r.value.users, form))
  {
    var found := Accounts.UserWithEmail(db.users, form.email, db.nextUser);
    var r := Accounts.Signup(db, env, form);
    match found
    case Some(id) =>
      assert forall u | u in db.users && db.users[u].email == form.email :: u == id;
      assert r.Ok? ==> id in r.value.users && r.value.users[id].status.Pending?;
    case None =>
      assert forall u | u in db.users :: db.users[u].email != form.email;
      assert r.Ok? ==> db.nextUser in r.value.users && r.value.users[db.nextUser].status.Pending?;
  }

  /** Approval opens the login and fills in the employee number; rejection closes it. */
  lemma DecisionsSetTheLogin(db: DB, env: Env, id: Id, approval: Accounts.ApproveForm)
    requires id in db.users
    ensures var r := Accounts.ApproveUser(db, env, id, approval); r.Ok? ==>
      && db.users[id].status.Pending? && r.value.users[id].status.Active? && r.value.users[id].isActive
      && r.value.users[id].employeeNo == Some(approval.employeeNo)
      && r.value.users[id].manager == approval.manager != Some(id)
    ensures var r := Accounts.RejectUser(db, id); r.Ok? ==>
      db.users[id].status.Pending? && r.value.users[id].status.Rejected? && !r.value.users[id].isActive
  {
  }

  /** Only active accounts can log in. */
  ghost predicate LoginsClosed(users: map<Id, User>) {
    forall u | u in users && !users[u].status.Active? :: !users[u].isActive
  }

  predicate EditsNoAccount(q: Request) {
    !(q.call.OnAdmin? && q.call.admin.UpdateUser?)
  }

  lemma WriteKeepsLogins(users: map<Id, User>, id: Id, u: User)
    requires LoginsClosed(users) && (u.status.Active? || !u.isActive)
    ensures LoginsClosed(users[id := u])
  {
  }

  lemma SignupKeepsLogins(db: DB, env: Env, form: Accounts.SignupForm)
    requires LoginsClosed(db.users)
    ensures var r := Accounts.Signup(db, env, form); r.Ok? ==> LoginsClosed(r.value.users)
  {
    match Accounts.UserWithEmail(db.users, form.email, db.nextUser)
    case Some(id) =>
      var r := Accounts.Resubmit(db.users, id, form);
      if r.Ok? {
        WriteKeepsLogins(db.users, id, r.value[id]);
      }
    case None => WriteKeepsLogins(db.users, db.nextUser, Accounts.Application(form));
  }

  lemma AccountCallKeepsLogins(db: DB, env: Env, caller: Id, c: AdminCall)
    requires UsersOk(db.users, db.nextUser) && LoginsClosed(db.users) && IsAccountCall(c) && !c.UpdateUser?
    ensures var r := ApplyAdmin(db, env, caller, c); r.Ok? ==> LoginsClosed(r.value.users)
  {
    match c
    case Signup(form) => SignupKeepsLogins(db, env, form);
    case _ =>
  }

  lemma StepKeepsLogins(db: DB, q: Request, today: int)
    requires Inv(db, today) && today <= q.env.today && LoginsClosed(db.users) && EditsNoAccount(q)
    ensures LoginsClosed(Step(db, q).users)
  {
    if Apply(db, q).Ok? {
      Preservation.LaterDay(db, today, q.env.today);
      match q.call
      case OnTrip(c) =>
        assert db.nextTrip !in db.trips;
        TripCallEffects(db, q.env, q.caller, c);
      case OnReport(c) => ReportCallEffects(db, q.env, q.caller, c);
      case OnAdmin(c) =>
        if IsAccountCall(c) {
          AccountCallKeepsLogins(db, q.env, q.caller, c);
        } else if c.CreateCard? || c.DeleteCard? || c.PostTransaction? {
          CardCallFrame(db, q.env, q.caller, c);
        } else {
          CenterCallFrame(db, q.env, q.caller, c);
        }
    }
  }

  lemma {:induction false} RunKeepsLogins(db: DB, qs: seq<Request>, today: int)
    requires Inv(db, today) && ClockRuns(qs, today) && LoginsClosed(db.users)
    requires forall q | q in qs :: EditsNoAccount(q)
    ensures LoginsClosed(Run(db, qs).users)
    decreases |qs|
  {
    if qs != [] {
      assert qs[0] in qs && forall q | q in qs[1..] :: q in qs;
      StepKeepsLogins(db, qs[0], today);
      StepKeepsInv(db, qs[0], today);
      RunKeepsLogins(Step(db, qs[0]), qs[1..], qs[0].env.today);
    }
  }

  /** Along every run from empty tables in which no administrator edits an account, an account that is not active has
      its login closed. */
  lemma OnlyActiveAccountsLogIn(qs: seq<Request>, today: int)
    requires ClockRuns(qs, today) && forall q | q in qs :: EditsNoAccount(q)
    ensures LoginsClosed(Run(EMPTY, qs).users)
  {
    Preservation.EmptyIsOk(today);
    RunKeepsLogins(EMPTY, qs, today);
  }
}
