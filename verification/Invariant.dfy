/** What holds in every state the services can reach. Nothing here is checked by any one service: each clause follows
    from guards spread over several of them. */
module Invariant {
  import opened Common
  import opened Numbering
  import opened Tables
  import opened TripRules
  import opened ExpenseRules
  import opened History
  import opened Trips
  import opened Expenses

  ghost predicate UsersOk(users: map<Id, User>, next: Id) {
    && (forall u {:trigger users[u]} | u in users ::
          && u < next
          && (users[u].manager.Some? ==> users[u].manager.value in users && users[u].manager.value != u)
          && (users[u].status.Active? <==> users[u].employeeNo.Some?))
    && (forall u, v {:trigger users[u], users[v]} | u in users && v in users && u != v ::
          && users[u].email != users[v].email
          && (users[u].employeeNo.Some? ==> users[u].employeeNo != users[v].employeeNo))
  }

  ghost predicate CardsOk(cards: map<Id, Id>, users: map<Id, User>, next: Id) {
    forall c | c in cards :: c < next && cards[c] in users
  }

  ghost predicate TransactionsOk(transactions: map<Id, Transaction>, cards: map<Id, Id>, next: Id) {
    forall t | t in transactions :: t < next && transactions[t].card in cards
  }

  predicate Exists(code: Option<string>, centers: map<string, bool>) {
    code.Some? ==> code.value in centers
  }

  /** The fields of a trip agree with its status. */
  predicate TripOk(t: Trip, users: map<Id, User>, costs: map<string, bool>, today: int) {
    && t.owner in users && t.approver != Some(t.owner)
    && (t.approver.Some? ==> t.approver.value in users)
    && (t.approver.None? <==> t.status.Draft?)
    && (t.submittedAt.None? <==> t.status.Draft?)
    && (t.approvedAt.Some? <==> t.status.Approved? || t.status.Completed? || t.status.Settled?)
    && (t.status.Rejected? ==> t.rejectReason.Some? && Strip(t.rejectReason.value) != "")
    && (t.rejectReason.Some? ==> t.status.Draft? || t.status.Rejected?)
    && t.startDate <= t.endDate
    && (t.status.Completed? || t.status.Settled? ==> t.endDate < today)
    && Exists(t.costCenter, costs)
  }

  ghost predicate TripsOk(
    trips: map<Id, Trip>, users: map<Id, User>, costs: map<string, bool>, today: int, next: Id) {
    forall id | id in trips :: id < next && TripOk(trips[id], users, costs, today)
  }

  /** How a report's status and people are tied to its trip's. */
  predicate Coupled(r: Report, t: Trip) {
    && r.owner == t.owner && r.approver == t.approver
    && (r.status.Draft? ==> t.status.Approved? || t.status.Completed?)
    && (r.status.Submitted? || r.status.Rejected? ==> t.status.Completed?)
    && (r.status.Approved? <==> t.status.Settled?)
  }

  predicate Locked(s: ReportStatus) {
    s.Submitted? || s.Approved?
  }

  /** The fields of a report agree with its status. */
  predicate ReportOk(r: Report, funds: map<string, bool>, costs: map<string, bool>) {
    && (r.submittedAt.None? <==> r.status.Draft?)
    && (r.approvedAt.Some? <==> r.status.Approved?)
    && (r.status.Rejected? ==> r.rejectReason.Some? && Strip(r.rejectReason.value) != "")
    && (r.rejectReason.Some? ==> r.status.Draft? || r.status.Rejected?)
    && Exists(r.fundCenter, funds) && Exists(r.costCenter, costs)
    && (Locked(r.status) ==> AssertCentersPresent(r.fundCenter, r.costCenter).Ok?)
  }

  ghost predicate ReportsOk(reports: map<Id, Report>, funds: map<string, bool>, costs: map<string, bool>, next: Id) {
    && (forall id | id in reports :: id < next && ReportOk(reports[id], funds, costs))
    && (forall i, j | i in reports && j in reports && reports[i].tripId == reports[j].tripId :: i == j)
  }

  ghost predicate CouplingOk(reports: map<Id, Report>, trips: map<Id, Trip>) {
    && (forall id | id in reports :: reports[id].tripId in trips && Coupled(reports[id], trips[reports[id].tripId]))
    && (forall t | t in trips && trips[t].status.Settled? :: HasReport(reports, t))
  }

  predicate ItemOk(
    i: Item, reports: map<Id, Report>, transactions: map<Id, Transaction>, cards: map<Id, Id>,
    funds: map<string, bool>, costs: map<string, bool>) {
    && i.reportId in reports
    && 0 <= i.amount <= MAX_ITEM_CENTS
    && Exists(i.fundCenter, funds) && Exists(i.costCenter, costs)
    && (i.transaction.Some? ==>
          && i.transaction.value in transactions
          && transactions[i.transaction.value].card in cards
          && cards[transactions[i.transaction.value].card] == reports[i.reportId].owner)
  }

  ghost predicate ItemsOk(
    items: map<Id, Item>, reports: map<Id, Report>, transactions: map<Id, Transaction>, cards: map<Id, Id>,
    funds: map<string, bool>, costs: map<string, bool>, next: Id) {
    && (forall i | i in items :: i < next && ItemOk(items[i], reports, transactions, cards, funds, costs))
    && (forall i, j | i in items && j in items && i != j && items[i].reportId == items[j].reportId ::
          items[i].transaction.Some? ==> items[i].transaction != items[j].transaction)
  }

  ghost predicate TotalOk(id: Id, r: Report, items: map<Id, Item>, next: Id) {
    && r.total == SumIncluded(items, id, next)
    && 0 <= r.total <= MAX_TOTAL_CENTS
    && (Locked(r.status) ==> HasIncluded(items, id))
  }

  ghost predicate TotalsOk(reports: map<Id, Report>, items: map<Id, Item>, next: Id) {
    forall id | id in reports :: TotalOk(id, reports[id], items, next)
  }

  /** The log and the notifications of every live entity replay to its status, owner and approver. */
  function TripView(t: Trip): View {
    View(OfTrip(t.status), t.owner, t.approver)
  }

  function ReportView(r: Report): View {
    View(OfReport(r.status), r.owner, if r.status.Draft? then None else r.approver)
  }

  ghost predicate OnlyDrafting(trail: seq<LogEntry>) {
    forall i | 0 <= i < |trail| :: trail[i].action in {Action.Create, Action.Update}
  }

  predicate NeverSubmitted(t: Trip) {
    t.status.Draft? && t.rejectReason.None?
  }

  ghost predicate TripStory(id: Id, t: Trip, log: seq<LogEntry>, notes: seq<Notification>) {
    && Tells(log, notes, TripRef(id), TripView(t))
    && (OnlyDrafting(Trail(log, TripRef(id))) <==> NeverSubmitted(t))
  }

  ghost predicate TripStories(trips: map<Id, Trip>, log: seq<LogEntry>, notes: seq<Notification>) {
    forall id | id in trips :: TripStory(id, trips[id], log, notes)
  }

  ghost predicate ReportStories(reports: map<Id, Report>, log: seq<LogEntry>, notes: seq<Notification>) {
    forall id | id in reports :: Tells(log, notes, ReportRef(id), ReportView(reports[id]))
  }

  predicate Known(x: Entity, nextTrip: Id, nextReport: Id) {
    match x
    case TripRef(id) => id < nextTrip
    case ReportRef(id) => id < nextReport
  }

  ghost predicate MentionsOk(log: seq<LogEntry>, notes: seq<Notification>, nextTrip: Id, nextReport: Id) {
    && (forall i | 0 <= i < |log| :: Known(log[i].entity, nextTrip, nextReport))
    && (forall i | 0 <= i < |notes| :: Known(notes[i].link, nextTrip, nextReport))
  }

  ghost predicate AuditOk(db: DB) {
    && TripStories(db.trips, db.log, db.notes) && ReportStories(db.reports, db.log, db.notes)
    && MentionsOk(db.log, db.notes, db.nextTrip, db.nextReport)
  }

  ghost predicate NumberingOk(db: DB) {
    && NumbersOk(TRIP_TAG, TripNos(db.trips), db.nextTrip)
    && NumbersOk(REPORT_TAG, ReportNos(db.reports), db.nextReport)
  }

  ghost predicate MastersOk(db: DB) {
    && UsersOk(db.users, db.nextUser)
    && CardsOk(db.cards, db.users, db.nextCard)
    && TransactionsOk(db.transactions, db.cards, db.nextTransaction)
  }

  ghost predicate BusinessOk(db: DB, today: int) {
    && TripsOk(db.trips, db.users, db.costs, today, db.nextTrip)
    && ReportsOk(db.reports, db.funds, db.costs, db.nextReport)
    && CouplingOk(db.reports, db.trips)
    && ItemsOk(db.items, db.reports, db.transactions, db.cards, db.funds, db.costs, db.nextItem)
    && TotalsOk(db.reports, db.items, db.nextItem)
  }

  ghost predicate Inv(db: DB, today: int) {
    MastersOk(db) && BusinessOk(db, today) && AuditOk(db) && NumberingOk(db)
  }
}

/** Each kind of write keeps the invariant. */
module Preservation {
  import opened Common
  import opened Numbering
  import opened Tables
  import opened TripRules
  import opened ExpenseRules
  import opened History
  import opened Trips
  import opened Expenses
  import opened Invariant

  lemma EmptyIsOk(today: int)
    ensures Inv(EMPTY, today)
  {
  }

  lemma LaterDay(db: DB, today: int, later: int)
    requires Inv(db, today) && today <= later
    ensures Inv(db, later)
  {
  }

  // ---------------------------------------------------------------------------
  // The audit trail

  predicate MailsProperly(e: LogEntry, notify: Option<Notification>) {
    && (Mailed(e.action) <==> notify.Some?)
    && (notify.Some? ==> notify.value.link == e.entity && notify.value.user != e.actor)
  }

  lemma RecordKeepsMentions(db: DB, e: LogEntry, notify: Option<Notification>)
    requires MentionsOk(db.log, db.notes, db.nextTrip, db.nextReport)
    requires Known(e.entity, db.nextTrip, db.nextReport) && MailsProperly(e, notify)
    ensures var db' := Record(db, e, notify); MentionsOk(db'.log, db'.notes, db.nextTrip, db.nextReport)
  {
  }

  lemma OnlyDraftingSnoc(trail: seq<LogEntry>, e: LogEntry)
    ensures OnlyDrafting(trail + [e]) <==> OnlyDrafting(trail) && e.action in {Action.Create, Action.Update}
  {
    assert (trail + [e])[|trail|] == e;
    assert forall i | 0 <= i < |trail| :: (trail + [e])[i] == trail[i];
  }

  lemma TripRecordKeepsAudit(db: DB, id: Id, t: Trip, v: View, e: LogEntry, notify: Option<Notification>)
    requires AuditOk(db.(trips := db.trips - {id})) && id < db.nextTrip
    requires Tells(db.log, db.notes, TripRef(id), v)
    requires e.entity == TripRef(id) && MailsProperly(e, notify)
    requires Advance(v, e, notify) == Some(TripView(t))
    requires NeverSubmitted(t) <==>
      OnlyDrafting(Trail(db.log, TripRef(id))) && e.action in {Action.Create, Action.Update}
    ensures AuditOk(WriteTrip(db, id, t, e, notify))
  {
    OwnTripStory(db, id, t, v, e, notify);
    RecordKeepsMentions(db, e, notify);
    OtherTripStories(db, e, notify, db.trips - {id});
    OtherReportStories(db, e, notify, db.reports);
    StoriesJoin(db.trips, id, t, Record(db, e, notify).log, Record(db, e, notify).notes);
  }

  lemma OwnTripStory(db: DB, id: Id, t: Trip, v: View, e: LogEntry, notify: Option<Notification>)
    requires Tells(db.log, db.notes, TripRef(id), v)
    requires e.entity == TripRef(id) && MailsProperly(e, notify)
    requires Advance(v, e, notify) == Some(TripView(t))
    requires NeverSubmitted(t) <==>
      OnlyDrafting(Trail(db.log, TripRef(id))) && e.action in {Action.Create, Action.Update}
    ensures TripStory(id, t, Record(db, e, notify).log, Record(db, e, notify).notes)
  {
    RecordAdvances(db, e, notify, v, TripView(t));
    TrailAppend(db.log, e, e.entity);
    OnlyDraftingSnoc(Trail(db.log, e.entity), e);
  }

  lemma StoriesJoin(trips: map<Id, Trip>, id: Id, t: Trip, log: seq<LogEntry>, notes: seq<Notification>)
    requires TripStories(trips - {id}, log, notes) && TripStory(id, t, log, notes)
    ensures TripStories(trips[id := t], log, notes)
  {
    var others, all := trips - {id}, trips[id := t];
    forall i | i in all ensures TripStory(i, all[i], log, notes) {
      if i != id {
        assert i in others && others[i] == all[i];
      }
    }
  }

  lemma OtherTripStories(db: DB, e: LogEntry, notify: Option<Notification>, trips: map<Id, Trip>)
    requires TripStories(trips, db.log, db.notes) && MailsProperly(e, notify)
    requires forall i | i in trips :: e.entity != TripRef(i)
    ensures TripStories(trips, Record(db, e, notify).log, Record(db, e, notify).notes)
  {
    var db' := Record(db, e, notify);
    forall i | i in trips ensures TripStory(i, trips[i], db'.log, db'.notes) {
      assert TripStory(i, trips[i], db.log, db.notes);
      RecordKeepsOthers(db, e, notify, TripRef(i));
    }
  }

  lemma OtherReportStories(db: DB, e: LogEntry, notify: Option<Notification>, reports: map<Id, Report>)
    requires ReportStories(reports, db.log, db.notes) && MailsProperly(e, notify)
    requires forall i | i in reports :: e.entity != ReportRef(i)
    ensures ReportStories(reports, Record(db, e, notify).log, Record(db, e, notify).notes)
  {
    var db' := Record(db, e, notify);
    forall i | i in reports ensures Tells(db'.log, db'.notes, ReportRef(i), ReportView(reports[i])) {
      RecordKeepsOthers(db, e, notify, ReportRef(i));
    }
  }

  lemma ReportRecordKeepsAudit(db: DB, id: Id, r: Report, v: View, e: LogEntry, notify: Option<Notification>)
    requires AuditOk(db.(reports := db.reports - {id})) && id < db.nextReport
    requires Tells(db.log, db.notes, ReportRef(id), v)
    requires e.entity == ReportRef(id) && MailsProperly(e, notify)
    requires Advance(v, e, notify) == Some(ReportView(r))
    ensures AuditOk(WriteReport(db, id, r, e, notify))
  {
    var db' := WriteReport(db, id, r, e, notify);
    RecordAdvances(db, e, notify, v, ReportView(r));
    RecordKeepsMentions(db, e, notify);
    forall i | i in db'.trips ensures TripStory(i, db'.trips[i], db'.log, db'.notes) {
      assert TripStory(i, db.trips[i], db.log, db.notes);
      RecordKeepsOthers(db, e, notify, TripRef(i));
    }
    forall i | i in db'.reports ensures Tells(db'.log, db'.notes, ReportRef(i), ReportView(db'.reports[i])) {
      if i != id {
        assert i in db.reports - {id};
        RecordKeepsOthers(db, e, notify, ReportRef(i));
      }
    }
  }

  lemma FreshEntityIsBlank(db: DB, x: Entity)
    requires AuditOk(db) && !Known(x, db.nextTrip, db.nextReport)
    ensures Tells(db.log, db.notes, x, Blank) && Trail(db.log, x) == []
  {
    UnmentionedIsBlank(db.log, db.notes, x);
  }

  // ---------------------------------------------------------------------------
  // Rewriting a trip

  lemma TripWriteKeepsAudit(db: DB, id: Id, t: Trip, e: LogEntry, notify: Option<Notification>)
    requires AuditOk(db) && id in db.trips && id < db.nextTrip
    requires e.entity == TripRef(id) && MailsProperly(e, notify)
    requires Advance(TripView(db.trips[id]), e, notify) == Some(TripView(t))
    requires NeverSubmitted(t) <==> NeverSubmitted(db.trips[id]) && e.action in {Action.Create, Action.Update}
    ensures AuditOk(WriteTrip(db, id, t, e, notify))
  {
    assert TripStory(id, db.trips[id], db.log, db.notes);
    assert forall i | i in db.trips - {id} :: TripStory(i, db.trips[i], db.log, db.notes);
    TripRecordKeepsAudit(db, id, t, TripView(db.trips[id]), e, notify);
  }

  lemma TripWriteKeepsBusiness(db: DB, today: int, id: Id, t: Trip, e: LogEntry, notify: Option<Notification>)
    requires BusinessOk(db, today) && id in db.trips && TripOk(t, db.users, db.costs, today)
    requires forall r | r in db.reports && db.reports[r].tripId == id :: Coupled(db.reports[r], t)
    requires t.status.Settled? ==> HasReport(db.reports, id)
    ensures BusinessOk(WriteTrip(db, id, t, e, notify), today)
  {
  }

  lemma TripWriteKeepsNumbering(db: DB, id: Id, t: Trip, e: LogEntry, notify: Option<Notification>)
    requires NumberingOk(db) && id in db.trips && t.no == db.trips[id].no
    ensures NumberingOk(WriteTrip(db, id, t, e, notify))
  {
    assert TripNos(db.trips[id := t]) == TripNos(db.trips);
  }

  /** A rewritten trip that stays well-formed and coupled to its report keeps the invariant, provided that its log
      entry keeps the audit trail. */
  lemma TripWriteKeepsInv(db: DB, today: int, id: Id, t: Trip, e: LogEntry, notify: Option<Notification>)
    requires MastersOk(db) && BusinessOk(db, today) && NumberingOk(db)
    requires AuditOk(WriteTrip(db, id, t, e, notify))
    requires id in db.trips && t.no == db.trips[id].no && TripOk(t, db.users, db.costs, today)
    requires forall r | r in db.reports && db.reports[r].tripId == id :: Coupled(db.reports[r], t)
    requires t.status.Settled? ==> HasReport(db.reports, id)
    ensures Inv(WriteTrip(db, id, t, e, notify), today)
  {
    TripWriteKeepsBusiness(db, today, id, t, e, notify);
    TripWriteKeepsNumbering(db, id, t, e, notify);
  }

  // ---------------------------------------------------------------------------
  // Rewriting a report

  lemma ReportWriteKeepsAudit(db: DB, id: Id, r: Report, e: LogEntry, notify: Option<Notification>)
    requires AuditOk(db) && id in db.reports && id < db.nextReport
    requires e.entity == ReportRef(id) && MailsProperly(e, notify)
    requires Advance(ReportView(db.reports[id]), e, notify) == Some(ReportView(r))
    ensures AuditOk(WriteReport(db, id, r, e, notify))
  {
    ReportRecordKeepsAudit(db, id, r, ReportView(db.reports[id]), e, notify);
  }

  lemma ReportWriteKeepsCoupling(reports: map<Id, Report>, trips: map<Id, Trip>, id: Id, r: Report)
    requires CouplingOk(reports, trips) && id in reports && r.tripId == reports[id].tripId
    requires Coupled(r, trips[r.tripId])
    ensures CouplingOk(reports[id := r], trips)
  {
    forall t | t in trips && trips[t].status.Settled? ensures HasReport(reports[id := r], t) {
      assert HasReport(reports, t);
      var k :| k in reports && reports[k].tripId == t;
      assert k in reports[id := r] && reports[id := r][k].tripId == t;
    }
  }

  /** Items only look at the owner of their report. */
  lemma ReportWriteKeepsItems(
    items: map<Id, Item>, reports: map<Id, Report>, transactions: map<Id, Transaction>, cards: map<Id, Id>,
    funds: map<string, bool>, costs: map<string, bool>, next: Id, id: Id, r: Report)
    requires ItemsOk(items, reports, transactions, cards, funds, costs, next)
    requires id in reports && r.owner == reports[id].owner
    ensures ItemsOk(items, reports[id := r], transactions, cards, funds, costs, next)
  {
  }

  lemma ReportWriteKeepsReports(
    reports: map<Id, Report>, funds: map<string, bool>, costs: map<string, bool>, next: Id, id: Id, r: Report)
    requires ReportsOk(reports, funds, costs, next)
    requires id in reports && r.tripId == reports[id].tripId && ReportOk(r, funds, costs)
    ensures ReportsOk(reports[id := r], funds, costs, next)
  {
  }

  lemma ReportWriteKeepsBusiness(db: DB, today: int, id: Id, r: Report, e: LogEntry, notify: Option<Notification>)
    requires BusinessOk(db, today) && id in db.reports
    requires r.tripId == db.reports[id].tripId && r.owner == db.reports[id].owner
    requires ReportOk(r, db.funds, db.costs) && TotalOk(id, r, db.items, db.nextItem)
    requires CouplingOk(db.reports[id := r], db.trips)
    ensures BusinessOk(WriteReport(db, id, r, e, notify), today)
  {
    ReportWriteKeepsItems(db.items, db.reports, db.transactions, db.cards, db.funds, db.costs, db.nextItem, id, r);
    ReportWriteKeepsReports(db.reports, db.funds, db.costs, db.nextReport, id, r);
    assert TotalsOk(db.reports[id := r], db.items, db.nextItem);
  }

  lemma ReportWriteKeepsNumbering(db: DB, id: Id, r: Report, e: LogEntry, notify: Option<Notification>)
    requires NumberingOk(db) && id in db.reports && r.no == db.reports[id].no
    ensures NumberingOk(WriteReport(db, id, r, e, notify))
  {
    assert ReportNos(db.reports[id := r]) == ReportNos(db.reports);
  }

  lemma ReportWriteKeepsInv(db: DB, today: int, id: Id, r: Report, e: LogEntry, notify: Option<Notification>)
    requires MastersOk(db) && BusinessOk(db, today) && NumberingOk(db)
    requires AuditOk(WriteReport(db, id, r, e, notify))
    requires id in db.reports && r.no == db.reports[id].no && r.tripId == db.reports[id].tripId
    requires r.owner == db.reports[id].owner
    requires ReportOk(r, db.funds, db.costs) && Coupled(r, db.trips[r.tripId])
    requires TotalOk(id, r, db.items, db.nextItem)
    ensures Inv(WriteReport(db, id, r, e, notify), today)
  {
    ReportWriteKeepsCoupling(db.reports, db.trips, id, r);
    ReportWriteKeepsBusiness(db, today, id, r, e, notify);
    ReportWriteKeepsNumbering(db, id, r, e, notify);
  }

  // ---------------------------------------------------------------------------
  // Sums

  lemma {:induction false} SumOnlyReadsTheReport(items: map<Id, Item>, items': map<Id, Item>, report: Id, bound: nat)
    requires forall i | i < bound ::
      (i in items && items[i].reportId == report) || (i in items' && items'[i].reportId == report) ==>
        i in items && i in items' && items[i] == items'[i]
    ensures SumIncluded(items, report, bound) == SumIncluded(items', report, bound)
  {
    if bound > 0 {
      SumOnlyReadsTheReport(items, items', report, bound - 1);
    }
  }

  lemma {:induction false} SumIsNonNegative(items: map<Id, Item>, report: Id, bound: nat)
    requires forall i | i in items :: items[i].amount >= 0
    ensures SumIncluded(items, report, bound) >= 0
  {
    if bound > 0 {
      SumIsNonNegative(items, report, bound - 1);
    }
  }

  lemma {:induction false} SumPastTheEnd(items: map<Id, Item>, report: Id, bound: nat, bound': nat)
    requires bound <= bound'
    requires forall i | i in items && items[i].reportId == report :: i < bound
    ensures SumIncluded(items, report, bound') == SumIncluded(items, report, bound)
  {
    if bound < bound' {
      SumPastTheEnd(items, report, bound, bound' - 1);
    }
  }

  /** The two item tables differ at most in the items of one report. */
  ghost predicate OnlyTouches(items: map<Id, Item>, items': map<Id, Item>, report: Id) {
    && (forall i | i in items' && items'[i].reportId != report :: i in items && items'[i] == items[i])
    && (forall i | i in items && items[i].reportId != report :: i in items' && items'[i] == items[i])
  }

  lemma ItemsWriteKeepsTotals(
    reports: map<Id, Report>, items: map<Id, Item>, next: Id, items': map<Id, Item>, next': Id, id: Id, total: int)
    requires TotalsOk(reports, items, next) && id in reports && !Locked(reports[id].status) && next <= next'
    requires OnlyTouches(items, items', id) && forall i | i in items :: i < next
    requires forall i | i in items' :: items'[i].amount >= 0
    requires total == SumIncluded(items', id, next') && total <= MAX_TOTAL_CENTS
    ensures TotalsOk(reports[id := reports[id].(total := total)], items', next')
  {
    SumIsNonNegative(items', id, next');
    forall k | k in reports && k != id ensures TotalOk(k, reports[k], items', next') {
      assert TotalOk(k, reports[k], items, next);
      SumOnlyReadsTheReport(items, items', k, next);
      SumPastTheEnd(items', k, next, next');
      if HasIncluded(items, k) {
        var i :| i in items && items[i].reportId == k && !items[i].isExcluded;
        assert i in items' && items'[i].reportId == k;
      }
    }
  }

  lemma RetotalKeepsCoupling(reports: map<Id, Report>, trips: map<Id, Trip>, id: Id, total: int)
    requires CouplingOk(reports, trips) && id in reports
    ensures CouplingOk(reports[id := reports[id].(total := total)], trips)
  {
    ReportWriteKeepsCoupling(reports, trips, id, reports[id].(total := total));
  }

  lemma RetotalKeepsStories(reports: map<Id, Report>, log: seq<LogEntry>, notes: seq<Notification>, id: Id, total: int)
    requires ReportStories(reports, log, notes) && id in reports
    ensures ReportStories(reports[id := reports[id].(total := total)], log, notes)
  {
  }

  lemma RetotalKeepsNumbers(reports: map<Id, Report>, id: Id, total: int)
    requires id in reports
    ensures ReportNos(reports[id := reports[id].(total := total)]) == ReportNos(reports)
  {
  }

  lemma ItemsWriteKeepsBusiness(db: DB, today: int, id: Id, items: map<Id, Item>, next: Id, total: int)
    requires BusinessOk(db, today) && id in db.reports && !Locked(db.reports[id].status)
    requires next >= db.nextItem
    requires ItemsOk(items, db.reports, db.transactions, db.cards, db.funds, db.costs, next)
    requires OnlyTouches(db.items, items, id)
    requires total == SumIncluded(items, id, next) && total <= MAX_TOTAL_CENTS
    ensures BusinessOk(db.(items := items, nextItem := next,
                           reports := db.reports[id := db.reports[id].(total := total)]), today)
  {
    var r := db.reports[id].(total := total);
    ItemBounds(items, db.reports, db.transactions, db.cards, db.funds, db.costs, next);
    ItemBounds(db.items, db.reports, db.transactions, db.cards, db.funds, db.costs, db.nextItem);
    ItemsWriteKeepsTotals(db.reports, db.items, db.nextItem, items, next, id, total);
    RetotalKeepsCoupling(db.reports, db.trips, id, total);
    ReportWriteKeepsItems(items, db.reports, db.transactions, db.cards, db.funds, db.costs, next, id, r);
    RetotalKeepsReports(db.reports, db.funds, db.costs, db.nextReport, id, total);
  }

  lemma ItemBounds(
    items: map<Id, Item>, reports: map<Id, Report>, transactions: map<Id, Transaction>, cards: map<Id, Id>,
    funds: map<string, bool>, costs: map<string, bool>, next: Id)
    requires ItemsOk(items, reports, transactions, cards, funds, costs, next)
    ensures forall i | i in items :: i < next && items[i].amount >= 0
  {
  }

  lemma RetotalKeepsReports(
    reports: map<Id, Report>, funds: map<string, bool>, costs: map<string, bool>, next: Id, id: Id, total: int)
    requires ReportsOk(reports, funds, costs, next) && id in reports
    ensures ReportsOk(reports[id := reports[id].(total := total)], funds, costs, next)
  {
    ReportWriteKeepsReports(reports, funds, costs, next, id, reports[id].(total := total));
  }

  /** Replacing the items of one editable report and recomputing its total keeps the invariant. */
  lemma ItemsWriteKeepsInv(db: DB, today: int, id: Id, items: map<Id, Item>, next: Id)
    requires Inv(db, today) && id in db.reports && !Locked(db.reports[id].status)
    requires next >= db.nextItem
    requires ItemsOk(items, db.reports, db.transactions, db.cards, db.funds, db.costs, next)
    requires OnlyTouches(db.items, items, id)
    ensures var r := RecalcTotal(db.(items := items, nextItem := next), id); r.Ok? ==> Inv(r.value, today)
  {
    var r := RecalcTotal(db.(items := items, nextItem := next), id);
    if r.Ok? {
      var total := SumIncluded(items, id, next);
      ItemsWriteKeepsBusiness(db, today, id, items, next, total);
      RetotalKeepsStories(db.reports, db.log, db.notes, id, total);
      RetotalKeepsNumbers(db.reports, id, total);
    }
  }
}
