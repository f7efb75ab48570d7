/** What each trip service does, in terms of the request alone: when it succeeds, all the tables afterwards, and why it
    refuses. */
module TripServices {
  import opened Common
  import opened Codes
  import opened Numbering
  import opened Tables
  import Trips

  /** Whoever may see a trip or report: administrators, the owner, and the approver. */
  predicate Sees(db: DB, caller: Id, owner: Id, approver: Option<Id>)
    requires caller in db.users
  {
    db.users[caller].role == Role.Admin || caller == owner || approver == Some(caller)
  }

  /** The notification, unless it would go to the caller. */
  function Letter(caller: Id, to: Id, kind: NotificationType, link: Entity): seq<Notification> {
    if to == caller then [] else [Notification(to, kind, link)]
  }

  function TripLine(id: Id, caller: Id, action: Action, from: TripStatus, to: TripStatus): seq<LogEntry> {
    [LogEntry(TripRef(id), caller, action, Some(OfTrip(from)), OfTrip(to))]
  }

  lemma TripIsVisibleExactlyTo(db: DB, caller: Id, id: Id)
    requires caller in db.users
    ensures Trips.VisibleTrip(db, caller, id) ==
      if id in db.trips && Sees(db, caller, db.trips[id].owner, db.trips[id].approver)
      then Ok(db.trips[id]) else Err(TripNotFound)
  {
  }

  /** The value a field has after the patch; none if it was cleared. */
  function Merged<T>(f: Field<T>, current: T): Option<T> {
    if f.Set? then Some(f.value) else if f.Null? then None else Some(current)
  }

  predicate SoundCodes(
    codes: CodeTable, purpose: Option<string>, destination: Option<string>, country: Option<string>)
  {
    && CodeActive(codes, TripPurpose, purpose) && CodeActive(codes, DestinationType, destination)
    && CodeActive(codes, GroupCode.Country, country)
  }

  /** The first problem with the codes: an unknown group counts before any bad value. */
  function FirstProblem(codes: CodeTable, purpose: Option<string>, destination: Option<string>,
                        country: Option<string>): Error
    requires !SoundCodes(codes, purpose, destination, country)
  {
    if !GroupActive(codes, TripPurpose) then UnknownCodeGroup(PurposeCode)
    else if !GroupActive(codes, DestinationType) then UnknownCodeGroup(DestinationTypeCode)
    else if !GroupActive(codes, GroupCode.Country) then UnknownCodeGroup(CountryCode)
    else if !CodeActive(codes, TripPurpose, purpose) then InvalidCode(PurposeCode)
    else if !CodeActive(codes, DestinationType, destination) then InvalidCode(DestinationTypeCode)
    else InvalidCode(CountryCode)
  }

  lemma TripCodesAreChecked(
    codes: CodeTable, purpose: Option<string>, destination: Option<string>, country: Option<string>)
    ensures Verdict(codes, Trips.TripCodes(purpose, destination, country)) ==
      if SoundCodes(codes, purpose, destination, country) then Ok(())
      else Err(FirstProblem(codes, purpose, destination, country))
  {
    if SoundCodes(codes, purpose, destination, country) {
      ActiveCodeHasGroup(codes, TripPurpose, purpose);
      ActiveCodeHasGroup(codes, DestinationType, destination);
      ActiveCodeHasGroup(codes, GroupCode.Country, country);
    }
    var p := CodeSpec(TripPurpose, PurposeCode, purpose);
    var d := CodeSpec(DestinationType, DestinationTypeCode, destination);
    var c := CodeSpec(GroupCode.Country, CountryCode, country);
    assert Trips.TripCodes(purpose, destination, country) == [p] + ([d] + ([c] + []));
    CheckedFirst(codes, c, []);
    CheckedFirst(codes, d, [c] + []);
    CheckedFirst(codes, p, [d] + ([c] + []));
  }

  lemma CheckedFirst(codes: CodeTable, spec: CodeSpec, rest: seq<CodeSpec>)
    ensures FirstUnknownGroup(codes, [spec] + rest) ==
      if GroupActive(codes, spec.group) then FirstUnknownGroup(codes, rest) else Err(UnknownCodeGroup(spec.field))
    ensures FirstBadValue(codes, [spec] + rest) ==
      if CodeActive(codes, spec.group, spec.value) then FirstBadValue(codes, rest) else Err(InvalidCode(spec.field))
  {
    assert ([spec] + rest)[0] == spec && ([spec] + rest)[1..] == rest;
  }

  /** Creating: refused for the first bad code, then for the dates; otherwise one row, numbered in the caller's year. */
  lemma CreatingDoes(db: DB, env: Env, caller: Id, form: Trips.TripForm)
    ensures var r := Trips.CreateTrip(db, env, caller, form);
      var sound := SoundCodes(env.codes, Some(form.purpose), Some(form.destination), Some(form.country));
      && (!sound ==>
            r == Err(FirstProblem(env.codes, Some(form.purpose), Some(form.destination), Some(form.country))))
      && (sound && form.startDate > form.endDate ==> r == Err(InvalidDateRange))
      && (r.Ok? ==>
            && sound && form.startDate <= form.endDate
            && var no := NextNo(TripNos(db.trips), db.nextTrip, "BT", env.year);
            && no.Ok? && !Taken(TripNos(db.trips), no.value)
            && r.value == db.(
                 nextTrip := db.nextTrip + 1,
                 trips := db.trips[db.nextTrip :=
                   Trip(no.value, caller, form.title, form.purpose, form.destination, form.country, form.startDate,
                        form.endDate, None, TripStatus.Draft, None, None, None, None)],
                 log := db.log + [LogEntry(TripRef(db.nextTrip), caller, Action.Create, None,
                                           OfTrip(TripStatus.Draft))]))
  {
    TripCodesAreChecked(env.codes, Some(form.purpose), Some(form.destination), Some(form.country));
    assert db.notes + [] == db.notes;
  }

  /** The row after a patch: each field sent with a value has that value, the others are as before. */
  function Rewritten(trip: Trip, patch: Trips.TripPatch): Trip {
    trip.(title := if patch.title.Set? then patch.title.value else trip.title,
          purpose := if patch.purpose.Set? then patch.purpose.value else trip.purpose,
          destination := if patch.destination.Set? then patch.destination.value else trip.destination,
          country := if patch.country.Set? then patch.country.value else trip.country,
          startDate := if patch.startDate.Set? then patch.startDate.value else trip.startDate,
          endDate := if patch.endDate.Set? then patch.endDate.value else trip.endDate)
  }

  predicate SoundPatch(codes: CodeTable, trip: Trip, patch: Trips.TripPatch) {
    && SoundCodes(codes, Merged(patch.purpose, trip.purpose), Merged(patch.destination, trip.destination),
                  Merged(patch.country, trip.country))
    && !patch.title.Null? && !patch.startDate.Null? && !patch.endDate.Null?
    && Rewritten(trip, patch).startDate <= Rewritten(trip, patch).endDate
  }

  /** Updating: the merged values are validated, also those that were not sent. */
  lemma UpdatingDoes(db: DB, env: Env, caller: Id, id: Id, patch: Trips.TripPatch)
    requires caller in db.users
    ensures var r := Trips.UpdateTrip(db, env, caller, id, patch);
      && (r.Ok? <==>
            && id in db.trips && db.trips[id].owner == caller
            && (db.trips[id].status == TripStatus.Draft || db.trips[id].status == TripStatus.Rejected)
            && SoundPatch(env.codes, db.trips[id], patch))
      && (r.Ok? ==>
            var status := db.trips[id].status;
            r.value == db.(trips := db.trips[id := Rewritten(db.trips[id], patch)],
                           log := db.log + TripLine(id, caller, Action.Update, status, status)))
  {
    if id in db.trips {
      var trip := db.trips[id];
      TripCodesAreChecked(env.codes, Merged(patch.purpose, trip.purpose), Merged(patch.destination, trip.destination),
                          Merged(patch.country, trip.country));
    }
    assert db.notes + [] == db.notes;
  }

  lemma UpdatingRefuses(db: DB, env: Env, caller: Id, id: Id, patch: Trips.TripPatch)
    requires caller in db.users
    ensures var r := Trips.UpdateTrip(db, env, caller, id, patch);
      && (id !in db.trips || !Sees(db, caller, db.trips[id].owner, db.trips[id].approver) ==> r == Err(TripNotFound))
      && (id in db.trips && Sees(db, caller, db.trips[id].owner, db.trips[id].approver) ==>
            var trip := db.trips[id];
            var purpose := Merged(patch.purpose, trip.purpose);
            var destination := Merged(patch.destination, trip.destination);
            var country := Merged(patch.country, trip.country);
            && (caller != trip.owner ==> r == Err(NotTripOwner))
            && (caller == trip.owner && trip.status != TripStatus.Draft && trip.status != TripStatus.Rejected ==>
                  r == Err(TripNotEditable))
            && (caller == trip.owner && (trip.status == TripStatus.Draft || trip.status == TripStatus.Rejected) ==>
                  && (!SoundCodes(env.codes, purpose, destination, country) ==>
                        r == Err(FirstProblem(env.codes, purpose, destination, country)))
                  && (SoundCodes(env.codes, purpose, destination, country)
                      && !patch.startDate.Null? && !patch.endDate.Null?
                      && Rewritten(trip, patch).startDate > Rewritten(trip, patch).endDate ==>
                        r == Err(InvalidDateRange))))
  {
    if id in db.trips {
      var trip := db.trips[id];
      TripCodesAreChecked(env.codes, Merged(patch.purpose, trip.purpose), Merged(patch.destination, trip.destination),
                          Merged(patch.country, trip.country));
    }
  }

  lemma DeletingDoes(db: DB, caller: Id, id: Id)
    requires caller in db.users
    ensures var r := Trips.DeleteTrip(db, caller, id);
      && (r.Ok? <==> id in db.trips && db.trips[id].owner == caller && db.trips[id].status == TripStatus.Draft
                     && forall k | k in db.reports :: db.reports[k].tripId != id)
      && (r.Ok? ==> r.value == db.(trips := db.trips - {id}))
      && (id in db.trips && db.trips[id].owner == caller && db.trips[id].status != TripStatus.Draft ==>
            r == Err(TripNotDeletable))
  {
  }

  lemma SubmittingDoes(db: DB, env: Env, caller: Id, id: Id)
    requires caller in db.users
    ensures var r := Trips.SubmitTrip(db, env, caller, id);
      && (r.Ok? <==>
            && id in db.trips && db.trips[id].owner == caller && db.trips[id].status == TripStatus.Draft
            && db.trips[id].startDate <= db.trips[id].endDate && db.users[caller].manager.Some?)
      && (r.Ok? ==>
            var manager := db.users[caller].manager.value;
            r.value == db.(
              trips := db.trips[id := db.trips[id].(
                status := TripStatus.Submitted, approver := Some(manager), submittedAt := Some(env.now),
                approvedAt := None, rejectReason := None)],
              log := db.log + TripLine(id, caller, Action.Submit, TripStatus.Draft, TripStatus.Submitted),
              notes := db.notes + Letter(caller, manager, TripSubmitted, TripRef(id))))
  {
  }

  lemma ApprovingDoes(db: DB, env: Env, caller: Id, id: Id)
    requires caller in db.users
    ensures var r := Trips.ApproveTrip(db, env, caller, id);
      && (r.Ok? <==>
            id in db.trips && db.trips[id].approver == Some(caller) && db.trips[id].status == TripStatus.Submitted)
      && (r.Ok? ==> r.value == db.(
            trips := db.trips[id := db.trips[id].(status := TripStatus.Approved, approvedAt := Some(env.now))],
            log := db.log + TripLine(id, caller, Action.Approve, TripStatus.Submitted, TripStatus.Approved),
            notes := db.notes + Letter(caller, db.trips[id].owner, TripApproved, TripRef(id))))
  {
  }

  lemma RejectingDoes(db: DB, caller: Id, id: Id, reason: string) returns (text: string)
    requires caller in db.users
    ensures Trims(reason, text)
    ensures var r := Trips.RejectTrip(db, caller, id, reason);
      && (r.Ok? <==>
            && id in db.trips && db.trips[id].approver == Some(caller) && db.trips[id].status == TripStatus.Submitted
            && !AllBlank(reason))
      && (r.Ok? ==> text != "" && r.value == db.(
            trips := db.trips[id := db.trips[id].(status := TripStatus.Rejected, rejectReason := Some(text))],
            log := db.log + TripLine(id, caller, Action.Reject, TripStatus.Submitted, TripStatus.Rejected),
            notes := db.notes + Letter(caller, db.trips[id].owner, TripRejected, TripRef(id))))
  {
    text := Strip(reason);
    StripTrims(reason);
  }

  lemma ReopeningDoes(db: DB, caller: Id, id: Id)
    requires caller in db.users
    ensures var r := Trips.ReopenTrip(db, caller, id);
      && (r.Ok? <==> id in db.trips && db.trips[id].owner == caller && db.trips[id].status == TripStatus.Rejected)
      && (r.Ok? ==> r.value == db.(
            trips := db.trips[id := db.trips[id].(
              status := TripStatus.Draft, approver := None, submittedAt := None, approvedAt := None)],
            log := db.log + TripLine(id, caller, Action.Update, TripStatus.Rejected, TripStatus.Draft)))
  {
    assert db.notes + [] == db.notes;
  }

  lemma CompletingDoes(db: DB, env: Env, caller: Id, id: Id)
    requires caller in db.users
    ensures var r := Trips.CompleteTrip(db, env, caller, id);
      && (r.Ok? <==>
            && id in db.trips && db.trips[id].owner == caller && db.trips[id].status == TripStatus.Approved
            && db.trips[id].endDate < env.today)
      && (r.Ok? ==> r.value == db.(
            trips := db.trips[id := db.trips[id].(status := TripStatus.Completed)],
            log := db.log + TripLine(id, caller, Action.Complete, TripStatus.Approved, TripStatus.Completed)))
      && (id in db.trips && db.trips[id].owner == caller && db.trips[id].status == TripStatus.Approved ==>
            (db.trips[id].endDate >= env.today ==> r == Err(TripNotEnded)))
  {
    assert db.notes + [] == db.notes;
  }

  /** Why a transition of a trip is refused before anything else is looked at. */
  lemma TransitionsAreRefused(db: DB, env: Env, caller: Id, id: Id, reason: string)
    requires caller in db.users
    ensures id !in db.trips || !Sees(db, caller, db.trips[id].owner, db.trips[id].approver) ==>
      && Trips.SubmitTrip(db, env, caller, id) == Err(TripNotFound)
      && Trips.ApproveTrip(db, env, caller, id) == Err(TripNotFound)
      && Trips.RejectTrip(db, caller, id, reason) == Err(TripNotFound)
      && Trips.ReopenTrip(db, caller, id) == Err(TripNotFound)
      && Trips.CompleteTrip(db, env, caller, id) == Err(TripNotFound)
    ensures id in db.trips && Sees(db, caller, db.trips[id].owner, db.trips[id].approver) ==>
      var trip := db.trips[id];
      && (trip.status != TripStatus.Draft ==> Trips.SubmitTrip(db, env, caller, id) == Err(TripInvalidTransition))
      && (trip.status != TripStatus.Submitted ==>
            && Trips.ApproveTrip(db, env, caller, id) == Err(TripInvalidTransition)
            && Trips.RejectTrip(db, caller, id, reason) == Err(TripInvalidTransition))
      && (trip.status != TripStatus.Rejected ==> Trips.ReopenTrip(db, caller, id) == Err(TripInvalidTransition))
      && (trip.status != TripStatus.Approved ==> Trips.CompleteTrip(db, env, caller, id) == Err(TripInvalidTransition))
      && (trip.status == TripStatus.Draft && caller != trip.owner ==>
            Trips.SubmitTrip(db, env, caller, id) == Err(NotTripOwner))
      && (trip.status == TripStatus.Submitted && trip.approver != Some(caller) ==>
            && Trips.ApproveTrip(db, env, caller, id) == Err(NotTripApprover)
            && Trips.RejectTrip(db, caller, id, reason) == Err(NotTripApprover))
  {
  }
}
