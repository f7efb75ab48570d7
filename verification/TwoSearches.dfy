/** The two places that hide taken card transactions: the "unsettled" card search and the suggestions of a report. */
module TwoSearches {
  import opened Common
  import opened Tables
  import opened Invariant
  import opened Matching
  import opened MatchCandidates
  import opened CardSearch
  import Theorems

  /** All the items that hold the transaction are in this report or in reports in DRAFT or REJECTED. */
  predicate OnlyLooselyHeld(db: DB, report: Id, t: Id) {
    forall i | i in db.items && db.items[i].transaction == Some(t) ::
      && db.items[i].reportId in db.reports
      && (db.items[i].reportId == report
          || db.reports[db.items[i].reportId].status in {ReportStatus.Draft, ReportStatus.Rejected})
  }

  /** The transaction passes everything but the question who holds it: it is not cancelled, lies in the trip's window,
      and the other filters of the search let it through. */
  predicate Eligible(db: DB, report: Id, t: Id, f: Filters, lower: char -> char)
    requires report in db.reports && db.reports[report].tripId in db.trips
  {
    var owner, trip := db.reports[report].owner, db.trips[db.reports[report].tripId];
    && Wanted(db, owner, f.(unsettled := false), lower, t) && !db.transactions[t].isCancelled
    && trip.startDate - 1 <= KoreanDay(db.transactions[t].approvedAt) <= trip.endDate + 1
  }

  /** For every eligible transaction, the suggestions of a report and the unsettled search of its owner disagree exactly
      when something holds the transaction, but only this report or reports in DRAFT or REJECTED; and then it is the
      search that hides it. */
  lemma SearchesDifferExactlyWhen(
    db: DB, today: int, report: Id, t: Id, f: Filters, lower: char -> char)
    requires Theorems.Reachable(db, today) && report in db.reports && f.unsettled
    ensures db.reports[report].tripId in db.trips
    ensures Eligible(db, report, t, f, lower) ==>
      var suggested, found := Suggestable(db, report, t, KST), Wanted(db, db.reports[report].owner, f, lower, t);
      && (suggested != found <==> Held(db.items, t) && OnlyLooselyHeld(db, report, t))
      && (found ==> suggested)
  {
    Theorems.EveryReportFollowsItsTrip(db, today);
    ItemsHaveReports(db, today);
    if Eligible(db, report, t, f, lower) {
      HoldingDecides(db, report, t, f, lower);
      LooselyHeldIsNotTaken(db, report, t);
    }
  }

  lemma HoldingDecides(db: DB, report: Id, t: Id, f: Filters, lower: char -> char)
    requires report in db.reports && db.reports[report].tripId in db.trips && f.unsettled
    requires Eligible(db, report, t, f, lower)
    ensures Suggestable(db, report, t, KST) <==> !TakenElsewhere(db, report, t)
    ensures Wanted(db, db.reports[report].owner, f, lower, t) <==> !Held(db.items, t)
  {
  }

  lemma LooselyHeldIsNotTaken(db: DB, report: Id, t: Id)
    requires forall i | i in db.items :: db.items[i].reportId in db.reports
    ensures OnlyLooselyHeld(db, report, t) <==> !TakenElsewhere(db, report, t)
    ensures TakenElsewhere(db, report, t) ==> Held(db.items, t)
  {
  }

  lemma ItemsHaveReports(db: DB, today: int)
    requires Theorems.Reachable(db, today)
    ensures forall i | i in db.items :: db.items[i].reportId in db.reports
  {
    Theorems.ReachableIsOk(db, today);
  }
}
