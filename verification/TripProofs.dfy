/** Every trip service keeps the invariant. */
module TripProofs {
  import opened Common
  import opened Numbering
  import opened Tables
  import opened TripRules
  import opened History
  import opened Trips
  import opened Invariant
  import opened Preservation

  /** Before its approval a trip has no report. */
  lemma NoReportYet(db: DB, id: Id)
    requires CouplingOk(db.reports, db.trips) && id in db.trips
    requires db.trips[id].status.Draft? || db.trips[id].status.Submitted? || db.trips[id].status.Rejected?
    ensures !HasReport(db.reports, id)
  {
  }

  lemma NextNoIsWellNumbered(tag: string, nos: map<Id, string>, bound: nat, year: nat)
    requires NumbersOk(tag, nos, bound)
    ensures NextNo(nos, bound, tag, year).Ok? && WellNumbered(tag, NextNo(nos, bound, tag, year).value)
  {
    var last := NextNoFollowsTheMaximum(tag, nos, bound, year);
  }

  function TripCreation(id: Id, owner: Id): LogEntry {
    LogEntry(TripRef(id), owner, Action.Create, None, OfTrip(TripStatus.Draft))
  }

  lemma InsertTripKeepsAudit(db: DB, id: Id, t: Trip)
    requires AuditOk(db) && id == db.nextTrip && id !in db.trips && NeverSubmitted(t) && t.approver == None
    ensures AuditOk(WriteTrip(db.(nextTrip := id + 1), id, t, TripCreation(id, t.owner), None))
  {
    FreshEntityIsBlank(db, TripRef(id));
    assert db.trips - {id} == db.trips;
    TripRecordKeepsAudit(db.(nextTrip := id + 1), id, t, Blank, TripCreation(id, t.owner), None);
  }

  lemma InsertKeepsNumbers(tag: string, nos: map<Id, string>, id: Id, no: string)
    requires NumbersOk(tag, nos, id) && WellNumbered(tag, no) && !Taken(nos, no)
    ensures NumbersOk(tag, nos[id := no], id + 1)
  {
  }

  lemma InsertTripKeepsNumbering(db: DB, id: Id, t: Trip)
    requires NumberingOk(db) && id == db.nextTrip && WellNumbered(TRIP_TAG, t.no) && !Taken(TripNos(db.trips), t.no)
    ensures NumbersOk(TRIP_TAG, TripNos(db.trips[id := t]), id + 1)
  {
    InsertKeepsNumbers(TRIP_TAG, TripNos(db.trips), id, t.no);
    assert TripNos(db.trips[id := t]) == TripNos(db.trips)[id := t.no];
  }

  lemma CreateTripShape(db: DB, env: Env, caller: Id, form: TripForm) returns (t: Trip)
    requires CreateTrip(db, env, caller, form).Ok?
    ensures t == Trip(t.no, caller, t.title, t.purpose, t.destination, t.country, t.startDate, t.endDate, None,
                      TripStatus.Draft, None, None, None, None)
    ensures t.startDate <= t.endDate && !Taken(TripNos(db.trips), t.no)
    ensures NextNo(TripNos(db.trips), db.nextTrip, TRIP_TAG, env.year) == Ok(t.no)
    ensures CreateTrip(db, env, caller, form) ==
      Ok(WriteTrip(db.(nextTrip := db.nextTrip + 1), db.nextTrip, t,
                   TripCreation(db.nextTrip, caller), None))
  {
    t := CreateTrip(db, env, caller, form).value.trips[db.nextTrip];
  }

  lemma InsertTripKeepsBusiness(db: DB, today: int, id: Id, t: Trip)
    requires BusinessOk(db, today) && id == db.nextTrip && TripOk(t, db.users, db.costs, today) && t.status.Draft?
    ensures BusinessOk(db.(trips := db.trips[id := t], nextTrip := id + 1), today)
  {
  }

  lemma InsertTripKeepsInv(db: DB, today: int, id: Id, t: Trip)
    requires Inv(db, today) && id == db.nextTrip && TripOk(t, db.users, db.costs, today) && NeverSubmitted(t)
    requires WellNumbered(TRIP_TAG, t.no) && !Taken(TripNos(db.trips), t.no)
    ensures Inv(WriteTrip(db.(nextTrip := id + 1), id, t, TripCreation(id, t.owner), None), today)
  {
    assert id !in db.trips;
    InsertTripKeepsAudit(db, id, t);
    InsertTripKeepsNumbering(db, id, t);
    InsertTripKeepsBusiness(db, today, id, t);
  }

  lemma CreateTripKeeps(db: DB, env: Env, caller: Id, form: TripForm)
    requires Inv(db, env.today) && caller in db.users
    ensures var r := CreateTrip(db, env, caller, form); r.Ok? ==> Inv(r.value, env.today)
  {
    if CreateTrip(db, env, caller, form).Ok? {
      var t := CreateTripShape(db, env, caller, form);
      NextNoIsWellNumbered(TRIP_TAG, TripNos(db.trips), db.nextTrip, env.year);
      CreatedTripKeepsInv(db, env.today, caller, t);
    }
  }

  lemma CreatedTripKeepsInv(db: DB, today: int, caller: Id, t: Trip)
    requires Inv(db, today) && caller in db.users
    requires t == Trip(t.no, caller, t.title, t.purpose, t.destination, t.country, t.startDate, t.endDate, None,
                       TripStatus.Draft, None, None, None, None)
    requires t.startDate <= t.endDate && WellNumbered(TRIP_TAG, t.no) && !Taken(TripNos(db.trips), t.no)
    ensures Inv(WriteTrip(db.(nextTrip := db.nextTrip + 1), db.nextTrip, t, TripCreation(db.nextTrip, caller), None),
                today)
  {
    InsertTripKeepsInv(db, today, db.nextTrip, t);
  }

  lemma UpdateTripShape(db: DB, env: Env, caller: Id, id: Id, patch: TripPatch) returns (t: Trip)
    requires caller in db.users && UpdateTrip(db, env, caller, id, patch).Ok?
    ensures id in db.trips && caller == db.trips[id].owner && Editable(db.trips[id].status)
    ensures t == db.trips[id].(title := t.title, purpose := t.purpose, destination := t.destination,
                               country := t.country, startDate := t.startDate, endDate := t.endDate)
    ensures t.startDate <= t.endDate
    ensures UpdateTrip(db, env, caller, id, patch) ==
      Ok(WriteTrip(db, id, t, TripEntry(id, caller, Action.Update, t.status, t.status), None))
  {
    t := UpdateTrip(db, env, caller, id, patch).value.trips[id];
  }

  lemma RedraftedKeepsAudit(db: DB, caller: Id, id: Id, t: Trip)
    requires AuditOk(db) && id in db.trips && id < db.nextTrip
    requires caller == db.trips[id].owner && Editable(db.trips[id].status)
    requires t == db.trips[id].(title := t.title, purpose := t.purpose, destination := t.destination,
                                country := t.country, startDate := t.startDate, endDate := t.endDate)
    ensures AuditOk(WriteTrip(db, id, t, TripEntry(id, caller, Action.Update, t.status, t.status), None))
  {
    TripWriteKeepsAudit(db, id, t, TripEntry(id, caller, Action.Update, t.status, t.status), None);
  }

  lemma RedraftKeepsInv(db: DB, today: int, caller: Id, id: Id, t: Trip)
    requires Inv(db, today) && id in db.trips && caller == db.trips[id].owner && Editable(db.trips[id].status)
    requires t == db.trips[id].(title := t.title, purpose := t.purpose, destination := t.destination,
                                country := t.country, startDate := t.startDate, endDate := t.endDate)
    requires t.startDate <= t.endDate
    ensures Inv(WriteTrip(db, id, t, TripEntry(id, caller, Action.Update, t.status, t.status), None), today)
  {
    NoReportYet(db, id);
    RedraftedKeepsAudit(db, caller, id, t);
    TripWriteKeepsInv(db, today, id, t, TripEntry(id, caller, Action.Update, t.status, t.status), None);
  }

  lemma UpdateTripKeeps(db: DB, env: Env, caller: Id, id: Id, patch: TripPatch)
    requires Inv(db, env.today) && caller in db.users
    ensures var r := UpdateTrip(db, env, caller, id, patch); r.Ok? ==> Inv(r.value, env.today)
  {
    if UpdateTrip(db, env, caller, id, patch).Ok? {
      var t := UpdateTripShape(db, env, caller, id, patch);
      RedraftKeepsInv(db, env.today, caller, id, t);
    }
  }

  lemma DeletedTripKeepsInv(db: DB, today: int, id: Id)
    requires Inv(db, today) && id in db.trips && !HasReport(db.reports, id)
    ensures Inv(db.(trips := db.trips - {id}), today)
  {
    DeletedTripKeepsTables(db, today, id);
    DeletedTripKeepsNumbers(db.trips, id, db.nextTrip);
  }

  lemma DeletedTripKeepsNumbers(trips: map<Id, Trip>, id: Id, bound: nat)
    requires NumbersOk(TRIP_TAG, TripNos(trips), bound)
    ensures NumbersOk(TRIP_TAG, TripNos(trips - {id}), bound)
  {
    assert TripNos(trips - {id}) == TripNos(trips) - {id};
  }

  lemma DeletedTripKeepsTables(db: DB, today: int, id: Id)
    requires BusinessOk(db, today) && TripStories(db.trips, db.log, db.notes) && !HasReport(db.reports, id)
    ensures BusinessOk(db.(trips := db.trips - {id}), today) && TripStories(db.trips - {id}, db.log, db.notes)
  {
    forall i | i in db.trips - {id} ensures TripStory(i, db.trips[i], db.log, db.notes) {
    }
  }

  lemma DeleteTripKeeps(db: DB, today: int, caller: Id, id: Id)
    requires Inv(db, today) && caller in db.users
    ensures var r := DeleteTrip(db, caller, id); r.Ok? ==> Inv(r.value, today)
  {
    if DeleteTrip(db, caller, id).Ok? {
      DeletedTripKeepsInv(db, today, id);
    }
  }

  // ---------------------------------------------------------------------------
  // Transitions

  lemma SubmittedKeepsInv(db: DB, today: int, caller: Id, id: Id, t: Trip)
    requires Inv(db, today) && id in db.trips
    requires db.trips[id].status.Draft? && db.trips[id].owner == caller && t.approver.Some? && t.submittedAt.Some?
    requires t.approver.value in db.users && t.approver.value != caller
    requires t == db.trips[id].(status := TripStatus.Submitted, approver := t.approver, submittedAt := t.submittedAt,
                                approvedAt := None, rejectReason := None)
    ensures Inv(WriteTrip(db, id, t, TripEntry(id, caller, Action.Submit, TripStatus.Draft, TripStatus.Submitted),
                          Some(Notification(t.approver.value, TripSubmitted, TripRef(id)))), today)
  {
    var e, notify := TripEntry(id, caller, Action.Submit, TripStatus.Draft, TripStatus.Submitted),
      Some(Notification(t.approver.value, TripSubmitted, TripRef(id)));
    NoReportYet(db, id);
    TripWriteKeepsAudit(db, id, t, e, notify);
    TripWriteKeepsInv(db, today, id, t, e, notify);
  }

  lemma SubmitTripKeeps(db: DB, env: Env, caller: Id, id: Id)
    requires Inv(db, env.today) && caller in db.users
    ensures var r := SubmitTrip(db, env, caller, id); r.Ok? ==> Inv(r.value, env.today)
  {
    var r := SubmitTrip(db, env, caller, id);
    if r.Ok? {
      SubmittedKeepsInv(db, env.today, caller, id,
                        db.trips[id].(status := TripStatus.Submitted, approver := db.users[caller].manager,
                                      submittedAt := Some(env.now), approvedAt := None, rejectReason := None));
    }
  }

  lemma ApprovedKeepsInv(db: DB, today: int, caller: Id, id: Id, t: Trip)
    requires Inv(db, today) && id in db.trips
    requires db.trips[id].status.Submitted? && db.trips[id].approver == Some(caller) && t.approvedAt.Some?
    requires t == db.trips[id].(status := TripStatus.Approved, approvedAt := t.approvedAt)
    ensures Inv(WriteTrip(db, id, t, TripEntry(id, caller, Action.Approve, TripStatus.Submitted, TripStatus.Approved),
                          Some(Notification(t.owner, TripApproved, TripRef(id)))), today)
  {
    var e, notify := TripEntry(id, caller, Action.Approve, TripStatus.Submitted, TripStatus.Approved),
      Some(Notification(t.owner, TripApproved, TripRef(id)));
    NoReportYet(db, id);
    TripWriteKeepsAudit(db, id, t, e, notify);
    TripWriteKeepsInv(db, today, id, t, e, notify);
  }

  lemma ApproveTripKeeps(db: DB, env: Env, caller: Id, id: Id)
    requires Inv(db, env.today) && caller in db.users
    ensures var r := ApproveTrip(db, env, caller, id); r.Ok? ==> Inv(r.value, env.today)
  {
    var r := ApproveTrip(db, env, caller, id);
    if r.Ok? {
      var t := db.trips[id].(status := TripStatus.Approved, approvedAt := Some(env.now));
      ApprovedKeepsInv(db, env.today, caller, id, t);
    }
  }

  lemma RejectedKeepsInv(db: DB, today: int, caller: Id, id: Id, t: Trip)
    requires Inv(db, today) && id in db.trips
    requires db.trips[id].status.Submitted? && db.trips[id].approver == Some(caller)
    requires t == db.trips[id].(status := TripStatus.Rejected, rejectReason := t.rejectReason)
    requires t.rejectReason.Some? && Strip(t.rejectReason.value) != ""
    ensures Inv(WriteTrip(db, id, t, TripEntry(id, caller, Action.Reject, TripStatus.Submitted, TripStatus.Rejected),
                          Some(Notification(t.owner, TripRejected, TripRef(id)))), today)
  {
    var e, notify := TripEntry(id, caller, Action.Reject, TripStatus.Submitted, TripStatus.Rejected),
      Some(Notification(t.owner, TripRejected, TripRef(id)));
    NoReportYet(db, id);
    TripWriteKeepsAudit(db, id, t, e, notify);
    TripWriteKeepsInv(db, today, id, t, e, notify);
  }

  lemma RejectTripKeeps(db: DB, today: int, caller: Id, id: Id, reason: string)
    requires Inv(db, today) && caller in db.users
    ensures var r := RejectTrip(db, caller, id, reason); r.Ok? ==> Inv(r.value, today)
  {
    var r := RejectTrip(db, caller, id, reason);
    if r.Ok? {
      RejectedKeepsInv(db, today, caller, id,
                       db.trips[id].(status := TripStatus.Rejected,
                                     rejectReason := Some(AssertRejectReason(reason).value)));
    }
  }

  lemma ReopenedKeepsInv(db: DB, today: int, caller: Id, id: Id, t: Trip)
    requires Inv(db, today) && id in db.trips
    requires db.trips[id].status.Rejected? && db.trips[id].owner == caller
    requires t == db.trips[id].(status := TripStatus.Draft, approver := None, submittedAt := None, approvedAt := None)
    ensures Inv(WriteTrip(db, id, t, TripEntry(id, caller, Action.Update, TripStatus.Rejected, TripStatus.Draft),
                          None), today)
  {
    var e, notify := TripEntry(id, caller, Action.Update, TripStatus.Rejected, TripStatus.Draft), None;
    NoReportYet(db, id);
    TripWriteKeepsAudit(db, id, t, e, notify);
    TripWriteKeepsInv(db, today, id, t, e, notify);
  }

  lemma ReopenTripKeeps(db: DB, today: int, caller: Id, id: Id)
    requires Inv(db, today) && caller in db.users
    ensures var r := ReopenTrip(db, caller, id); r.Ok? ==> Inv(r.value, today)
  {
    var r := ReopenTrip(db, caller, id);
    if r.Ok? {
      ReopenedKeepsInv(db, today, caller, id,
                       db.trips[id].(status := TripStatus.Draft, approver := None, submittedAt := None,
                                     approvedAt := None));
    }
  }

  lemma CompletedKeepsInv(db: DB, today: int, caller: Id, id: Id, t: Trip)
    requires Inv(db, today) && id in db.trips
    requires db.trips[id].status.Approved? && db.trips[id].owner == caller && t.endDate < today
    requires t == db.trips[id].(status := TripStatus.Completed)
    ensures Inv(WriteTrip(db, id, t,
                          TripEntry(id, caller, Action.Complete, TripStatus.Approved, TripStatus.Completed), None),
                today)
  {
    var e, notify := TripEntry(id, caller, Action.Complete, TripStatus.Approved, TripStatus.Completed), None;
    TripWriteKeepsAudit(db, id, t, e, notify);
    TripWriteKeepsInv(db, today, id, t, e, notify);
  }

  lemma CompleteTripKeeps(db: DB, env: Env, caller: Id, id: Id)
    requires Inv(db, env.today) && caller in db.users
    ensures var r := CompleteTrip(db, env, caller, id); r.Ok? ==> Inv(r.value, env.today)
  {
    var r := CompleteTrip(db, env, caller, id);
    if r.Ok? {
      CompletedKeepsInv(db, env.today, caller, id, db.trips[id].(status := TripStatus.Completed));
    }
  }
}
