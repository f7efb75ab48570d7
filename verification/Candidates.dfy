/** The suggestion list of a report: the owner's card transactions in a coarse window, minus those another submitted
    report already took, handed to the matching rules. */
module MatchCandidates {
  import opened Common
  import opened Tables
  import opened Invariant
  import opened Matching
  import Expenses
  import Theorems

  /** One line of the answer. */
  datatype Suggestion = Suggestion(
    transaction: Id, row: Transaction, suggested: string, reasons: seq<Reason>, alreadyAdded: bool)

  predicate OnCardOf(db: DB, owner: Id, t: Id) {
    t in db.transactions && db.transactions[t].card in db.cards && db.cards[db.transactions[t].card] == owner
  }

  function ViewOf(id: Id, t: Transaction): Matching.View {
    Matching.View(id, Aware(t.approvedAt), t.category, t.amount, t.isCancelled)
  }

  /** The transaction is in another report that is submitted or approved. */
  predicate TakenElsewhere(db: DB, report: Id, t: Id) {
    exists i | i in db.items ::
      && db.items[i].transaction == Some(t) && db.items[i].reportId != report
      && db.items[i].reportId in db.reports && Locked(db.reports[db.items[i].reportId].status)
  }

  function TransactionsElsewhere(db: DB, report: Id): (r: set<Id>)
    ensures forall t :: t in r <==> TakenElsewhere(db, report, t)
  {
    set i | && i in db.items && db.items[i].transaction.Some? && db.items[i].reportId != report
            && db.items[i].reportId in db.reports && Locked(db.reports[db.items[i].reportId].status) ::
      db.items[i].transaction.value
  }

  predicate Added(db: DB, report: Id, t: Id) {
    exists i | i in db.items :: db.items[i].reportId == report && db.items[i].transaction == Some(t)
  }

  /** Some item holds the transaction, whatever its report. */
  predicate Held(items: map<Id, Item>, t: Id) {
    exists i | i in items :: items[i].transaction == Some(t)
  }

  /** What the query may return: the owner's rows in the coarse window, each once, in any order. */
  ghost predicate Fetches(rows: seq<Matching.View>, db: DB, owner: Id, startDate: int, endDate: int) {
    && DistinctIds(rows)
    && forall v :: v in rows <==>
         && OnCardOf(db, owner, v.id) && v == ViewOf(v.id, db.transactions[v.id])
         && Fetched(db.transactions[v.id].approvedAt, startDate, endDate)
  }

  /** At the time of every transaction, local time is at most a day ahead of or behind UTC. */
  ghost predicate WithinADay(db: DB, zone: Zone) {
    forall t | t in db.transactions :: -DAY <= zone(db.transactions[t].approvedAt) <= DAY
  }

  /** What the service promises to suggest. The coarse window plays no part in it. */
  predicate Suggestable(db: DB, report: Id, t: Id, zone: Zone)
    requires report in db.reports && db.reports[report].tripId in db.trips
  {
    var trip := db.trips[db.reports[report].tripId];
    && OnCardOf(db, db.reports[report].owner, t)
    && !db.transactions[t].isCancelled && !TakenElsewhere(db, report, t)
    && trip.startDate - 1 <= DayIn(zone, db.transactions[t].approvedAt) <= trip.endDate + 1
  }

  predicate Earlier(x: Suggestion, y: Suggestion) {
    x.row.approvedAt < y.row.approvedAt || (x.row.approvedAt == y.row.approvedAt && x.transaction < y.transaction)
  }

  predicate LineOk(line: Suggestion, db: DB, report: Id, zone: Zone)
    requires report in db.reports && db.reports[report].tripId in db.trips
  {
    var trip := db.trips[db.reports[report].tripId];
    && line.transaction in db.transactions && line.row == db.transactions[line.transaction]
    && (line.row.category in {"MEAL", "TRANSPORT", "LODGING", "ENTERTAIN", "ETC"} ==>
          line.suggested == line.row.category)
    && (line.row.category !in {"MEAL", "TRANSPORT", "LODGING", "ENTERTAIN", "ETC"} ==> line.suggested == "ETC")
    && ReasonsFit(line.reasons, DayIn(zone, line.row.approvedAt), trip.startDate, trip.endDate, line.row.category)
    && (line.alreadyAdded <==>
          exists i | i in db.items ::
            db.items[i].reportId == report && db.items[i].transaction == Some(line.transaction))
  }

  ghost predicate IsAnswer(out: seq<Suggestion>, db: DB, report: Id, zone: Zone)
    requires report in db.reports && db.reports[report].tripId in db.trips
  {
    && (forall i, j | 0 <= i < j < |out| :: Earlier(out[i], out[j]))
    && (forall i | 0 <= i < |out| ::
          LineOk(out[i], db, report, zone) && Suggestable(db, report, out[i].transaction, zone))
    && (forall t | t in db.transactions && Suggestable(db, report, t, zone) ::
          exists i | 0 <= i < |out| :: out[i].transaction == t)
  }

  function Line(c: Candidate, db: DB, report: Id): Suggestion
    requires c.transactionId in db.transactions
  {
    Suggestion(c.transactionId, db.transactions[c.transactionId], c.suggested, c.reasons,
               Added(db, report, c.transactionId))
  }

  /** The service, given the rows the database returned. */
  method ListMatchCandidates(db: DB, caller: Id, id: Id, rows: seq<Matching.View>, zone: Zone)
    returns (r: Result<seq<Suggestion>>)
    requires caller in db.users && WithinADay(db, zone)
    requires id in db.reports && db.reports[id].tripId in db.trips ==>
      var trip := db.trips[db.reports[id].tripId];
      Fetches(rows, db, db.reports[id].owner, trip.startDate, trip.endDate)
    ensures Expenses.VisibleReport(db, caller, id).Err? ==> r == Err(ExpenseNotFound)
    ensures Expenses.VisibleReport(db, caller, id).Ok? && db.reports[id].tripId in db.trips ==>
      r.Ok? && IsAnswer(r.value, db, id, zone)
  {
    var report :- Expenses.VisibleReport(db, caller, id);
    if report.tripId !in db.trips {
      return Err(InternalError);
    }
    var out := Suggest(db, id, rows, zone);
    r := Ok(out);
  }

  method Suggest(db: DB, report: Id, rows: seq<Matching.View>, zone: Zone) returns (out: seq<Suggestion>)
    requires report in db.reports && db.reports[report].tripId in db.trips && WithinADay(db, zone)
    requires var trip := db.trips[db.reports[report].tripId];
      Fetches(rows, db, db.reports[report].owner, trip.startDate, trip.endDate)
    ensures IsAnswer(out, db, report, zone)
  {
    var trip := db.trips[db.reports[report].tripId];
    var excluded := TransactionsElsewhere(db, report);
    CandidatesAreExactlyTheWindow(rows, trip.startDate, trip.endDate, excluded, zone);
    ghost var picks := Picks(rows, trip.startDate, trip.endDate, excluded, zone).value;
    PicksAreRows(picks, rows, db, report, excluded, zone);
    var found := FindCandidates(trip.startDate, trip.endDate, rows, excluded, zone);
    assert found == Ok(Candidates(picks));
    CandidatesAreKnown(picks, db, report, zone);
    out := Lines(found.value, db, report);
    LinesAnswer(picks, out, rows, db, report, excluded, zone);
  }

  method Lines(candidates: seq<Candidate>, db: DB, report: Id) returns (out: seq<Suggestion>)
    requires forall c | c in candidates :: c.transactionId in db.transactions
    ensures |out| == |candidates|
    ensures forall k | 0 <= k < |out| :: out[k] == Line(candidates[k], db, report)
  {
    out := [];
    for i := 0 to |candidates|
      invariant |out| == i
      invariant forall k | 0 <= k < i :: out[k] == Line(candidates[k], db, report)
    {
      out := out + [Line(candidates[i], db, report)];
    }
  }

  lemma CandidatesAreKnown(picks: seq<Pick>, db: DB, report: Id, zone: Zone)
    requires report in db.reports && db.reports[report].tripId in db.trips
    requires forall p | p in picks :: PicksARow(p, db, report, zone)
    ensures forall c | c in Candidates(picks) :: c.transactionId in db.transactions
  {
    forall c | c in Candidates(picks) ensures c.transactionId in db.transactions {
      var i :| 0 <= i < |picks| && Candidates(picks)[i] == c;
      assert PicksARow(picks[i], db, report, zone);
    }
  }

  ghost predicate PicksARow(p: Pick, db: DB, report: Id, zone: Zone)
    requires report in db.reports && db.reports[report].tripId in db.trips
  {
    var trip := db.trips[db.reports[report].tripId];
    && p.id in db.transactions && Suggestable(db, report, p.id, zone)
    && p == PickOf(ViewOf(p.id, db.transactions[p.id]), trip.startDate, trip.endDate, zone)
  }

  lemma PicksAreRows(picks: seq<Pick>, rows: seq<Matching.View>, db: DB, report: Id, excluded: set<Id>, zone: Zone)
    requires report in db.reports && db.reports[report].tripId in db.trips
    requires forall t :: t in excluded <==> TakenElsewhere(db, report, t)
    requires var trip := db.trips[db.reports[report].tripId];
      && Fetches(rows, db, db.reports[report].owner, trip.startDate, trip.endDate)
      && Exactly(picks, rows, trip.startDate, trip.endDate, excluded, zone)
    ensures forall p | p in picks :: PicksARow(p, db, report, zone)
  {
    var trip := db.trips[db.reports[report].tripId];
    forall p | p in picks ensures PicksARow(p, db, report, zone) {
      assert PickedFrom(p, rows, trip.startDate, trip.endDate, excluded, zone);
      var v :| v in rows && Chosen(v, trip.startDate, trip.endDate, excluded, zone)
               && p == PickOf(v, trip.startDate, trip.endDate, zone);
    }
  }

  /** No suggestable transaction is outside the coarse window. */
  lemma SuggestableIsPicked(picks: seq<Pick>, rows: seq<Matching.View>, db: DB, report: Id, excluded: set<Id>,
                            zone: Zone, t: Id)
    requires report in db.reports && db.reports[report].tripId in db.trips && WithinADay(db, zone)
    requires forall t :: t in excluded <==> TakenElsewhere(db, report, t)
    requires var trip := db.trips[db.reports[report].tripId];
      && Fetches(rows, db, db.reports[report].owner, trip.startDate, trip.endDate)
      && Exactly(picks, rows, trip.startDate, trip.endDate, excluded, zone)
    requires t in db.transactions && Suggestable(db, report, t, zone)
    ensures exists k | 0 <= k < |picks| :: picks[k].id == t
  {
    var trip, v := db.trips[db.reports[report].tripId], ViewOf(t, db.transactions[t]);
    var at := db.transactions[t].approvedAt;
    MarginCoversTheWindow(at, zone(at), trip.startDate, trip.endDate);
    assert v in rows;
    assert Chosen(v, trip.startDate, trip.endDate, excluded, zone);
    assert PickOf(v, trip.startDate, trip.endDate, zone) in picks;
  }

  lemma LinesAnswer(
    picks: seq<Pick>, out: seq<Suggestion>, rows: seq<Matching.View>, db: DB, report: Id, excluded: set<Id>, zone: Zone)
    requires report in db.reports && db.reports[report].tripId in db.trips && WithinADay(db, zone)
    requires forall t :: t in excluded <==> TakenElsewhere(db, report, t)
    requires var trip := db.trips[db.reports[report].tripId];
      && Fetches(rows, db, db.reports[report].owner, trip.startDate, trip.endDate)
      && Exactly(picks, rows, trip.startDate, trip.endDate, excluded, zone)
    requires StrictlySorted(picks) && |out| == |picks|
    requires forall p | p in picks :: PicksARow(p, db, report, zone)
    requires forall k | 0 <= k < |picks| ::
      picks[k].candidate.transactionId in db.transactions && out[k] == Line(picks[k].candidate, db, report)
    ensures IsAnswer(out, db, report, zone)
  {
    forall i | 0 <= i < |out|
      ensures LineOk(out[i], db, report, zone) && Suggestable(db, report, out[i].transaction, zone)
      ensures out[i].row.approvedAt == picks[i].at && out[i].transaction == picks[i].id
    {
      assert PicksARow(picks[i], db, report, zone);
    }
    forall i, j | 0 <= i < j < |out| ensures Earlier(out[i], out[j]) {
      assert Before(picks[i], picks[j]);
    }
    forall t | t in db.transactions && Suggestable(db, report, t, zone)
      ensures exists i | 0 <= i < |out| :: out[i].transaction == t
    {
      SuggestableIsPicked(picks, rows, db, report, excluded, zone, t);
      var k :| 0 <= k < |picks| && picks[k].id == t;
      assert out[k].transaction == t;
    }
  }

  /** In a reachable state the trip of a visible report exists, so the service always answers. */
  lemma VisibleReportsAreAnswered(db: DB, today: int, caller: Id, id: Id)
    requires Theorems.Reachable(db, today) && caller in db.users
    ensures Expenses.VisibleReport(db, caller, id).Ok? ==> db.reports[id].tripId in db.trips
  {
    Theorems.EveryReportFollowsItsTrip(db, today);
  }
}
