/** Runs: any sequence of service calls, by any callers, with time moving forward. */
module Runs {
  import opened Common
  import opened Tables
  import opened Invariant
  import Preservation
  import Trips
  import Expenses
  import Accounts
  import Masters
  import TripProofs
  import ExpenseProofs
  import AdminProofs

  datatype TripCall =
    | CreateTrip(tripForm: Trips.TripForm) | UpdateTrip(id: Id, tripPatch: Trips.TripPatch) | DeleteTrip(id: Id)
    | SubmitTrip(id: Id) | ApproveTrip(id: Id) | RejectTrip(id: Id, reason: string) | ReopenTrip(id: Id)
    | CompleteTrip(id: Id)

  datatype ReportCall =
    | CreateReport(tripId: Id) | UpdateReport(id: Id, reportPatch: Expenses.ReportPatch)
    | AddItem(reportId: Id, itemForm: Expenses.ItemForm) | UpdateItem(itemId: Id, itemPatch: Expenses.ItemPatch)
    | DeleteItem(itemId: Id)
    | SubmitReport(id: Id) | ApproveReport(id: Id) | RejectReport(id: Id, reason: string) | ReopenReport(id: Id)

  datatype AdminCall =
    | Signup(signup: Accounts.SignupForm) | CreateUser(userForm: Accounts.UserForm)
    | UpdateUser(user: Id, userPatch: Accounts.UserPatch) | ApproveUser(user: Id, approval: Accounts.ApproveForm)
    | RejectUser(user: Id)
    | CreateCenter(kind: Masters.CenterKind, code: string, department: Option<Id>, active: bool)
    | UpdateCenter(kind: Masters.CenterKind, code: string, newDepartment: Field<Id>, newActive: Field<bool>)
    | DeleteCenter(kind: Masters.CenterKind, code: string)
    | CreateCard(owner: Id) | DeleteCard(card: Id) | PostTransaction(transaction: Transaction)

  datatype Call = OnTrip(trip: TripCall) | OnReport(report: ReportCall) | OnAdmin(admin: AdminCall)

  datatype Request = Request(env: Env, caller: Id, call: Call)

  function ApplyTrip(db: DB, env: Env, caller: Id, c: TripCall): Result<DB>
    requires caller in db.users
  {
    match c
    case CreateTrip(form) => Trips.CreateTrip(db, env, caller, form)
    case UpdateTrip(id, patch) => Trips.UpdateTrip(db, env, caller, id, patch)
    case DeleteTrip(id) => Trips.DeleteTrip(db, caller, id)
    case SubmitTrip(id) => Trips.SubmitTrip(db, env, caller, id)
    case ApproveTrip(id) => Trips.ApproveTrip(db, env, caller, id)
    case RejectTrip(id, reason) => Trips.RejectTrip(db, caller, id, reason)
    case ReopenTrip(id) => Trips.ReopenTrip(db, caller, id)
    case CompleteTrip(id) => Trips.CompleteTrip(db, env, caller, id)
  }

  function ApplyReport(db: DB, env: Env, caller: Id, c: ReportCall): Result<DB>
    requires caller in db.users
  {
    match c
    case CreateReport(tripId) => Expenses.CreateReport(db, env, caller, tripId)
    case UpdateReport(id, patch) => Expenses.UpdateReport(db, caller, id, patch)
    case AddItem(id, form) => Expenses.AddItem(db, env, caller, id, form)
    case UpdateItem(id, patch) => Expenses.UpdateItem(db, env, caller, id, patch)
    case DeleteItem(id) => Expenses.DeleteItem(db, caller, id)
    case SubmitReport(id) => Expenses.SubmitReport(db, env, caller, id)
    case ApproveReport(id) => Expenses.ApproveReport(db, env, caller, id)
    case RejectReport(id, reason) => Expenses.RejectReport(db, caller, id, reason)
    case ReopenReport(id) => Expenses.ReopenReport(db, caller, id)
  }

  function ApplyAdmin(db: DB, env: Env, caller: Id, c: AdminCall): Result<DB> {
    match c
    case Signup(form) => Accounts.Signup(db, env, form)
    case CreateUser(form) => Accounts.CreateUser(db, env, form)
    case UpdateUser(user, patch) => Accounts.UpdateUser(db, env, caller, user, patch)
    case ApproveUser(user, form) => Accounts.ApproveUser(db, env, user, form)
    case RejectUser(user) => Accounts.RejectUser(db, user)
    case CreateCenter(kind, code, department, active) => Masters.CreateCenter(db, env, kind, code, department, active)
    case UpdateCenter(kind, code, department, active) => Masters.UpdateCenter(db, env, kind, code, department, active)
    case DeleteCenter(kind, code) => Masters.DeleteCenter(db, kind, code)
    case CreateCard(owner) => Masters.CreateCard(db, owner)
    case DeleteCard(card) => Masters.DeleteCard(db, card)
    case PostTransaction(t) => Masters.PostTransaction(db, t)
  }

  /** Trip and report services act for an existing user; sign-up and administration need none here, since the guards
      of the routers are not part of this model. */
  function Apply(db: DB, q: Request): Result<DB> {
    match q.call
    case OnTrip(c) => if q.caller in db.users then ApplyTrip(db, q.env, q.caller, c) else Err(InvalidToken)
    case OnReport(c) => if q.caller in db.users then ApplyReport(db, q.env, q.caller, c) else Err(InvalidToken)
    case OnAdmin(c) => ApplyAdmin(db, q.env, q.caller, c)
  }

  /** Each call reaches its own service. */
  lemma TripEditsReachTheirServices(
    db: DB, env: Env, caller: Id, id: Id, form: Trips.TripForm, patch: Trips.TripPatch)
    requires caller in db.users
    ensures ApplyTrip(db, env, caller, CreateTrip(form)) == Trips.CreateTrip(db, env, caller, form)
    ensures ApplyTrip(db, env, caller, UpdateTrip(id, patch)) == Trips.UpdateTrip(db, env, caller, id, patch)
    ensures ApplyTrip(db, env, caller, DeleteTrip(id)) == Trips.DeleteTrip(db, caller, id)
  {
  }

  lemma TripMovesReachTheirServices(db: DB, env: Env, caller: Id, id: Id, reason: string)
    requires caller in db.users
    ensures ApplyTrip(db, env, caller, SubmitTrip(id)) == Trips.SubmitTrip(db, env, caller, id)
    ensures ApplyTrip(db, env, caller, ApproveTrip(id)) == Trips.ApproveTrip(db, env, caller, id)
    ensures ApplyTrip(db, env, caller, RejectTrip(id, reason)) == Trips.RejectTrip(db, caller, id, reason)
    ensures ApplyTrip(db, env, caller, ReopenTrip(id)) == Trips.ReopenTrip(db, caller, id)
    ensures ApplyTrip(db, env, caller, CompleteTrip(id)) == Trips.CompleteTrip(db, env, caller, id)
  {
  }

  lemma ReportEditsReachTheirServices(
    db: DB, env: Env, caller: Id, id: Id, patch: Expenses.ReportPatch, form: Expenses.ItemForm,
    itemPatch: Expenses.ItemPatch)
    requires caller in db.users
    ensures ApplyReport(db, env, caller, CreateReport(id)) == Expenses.CreateReport(db, env, caller, id)
    ensures ApplyReport(db, env, caller, UpdateReport(id, patch)) == Expenses.UpdateReport(db, caller, id, patch)
    ensures ApplyReport(db, env, caller, AddItem(id, form)) == Expenses.AddItem(db, env, caller, id, form)
    ensures ApplyReport(db, env, caller, UpdateItem(id, itemPatch)) ==
      Expenses.UpdateItem(db, env, caller, id, itemPatch)
    ensures ApplyReport(db, env, caller, DeleteItem(id)) == Expenses.DeleteItem(db, caller, id)
  {
  }

  lemma ReportMovesReachTheirServices(db: DB, env: Env, caller: Id, id: Id)
    requires caller in db.users
    ensures ApplyReport(db, env, caller, SubmitReport(id)) == Expenses.SubmitReport(db, env, caller, id)
    ensures ApplyReport(db, env, caller, ApproveReport(id)) == Expenses.ApproveReport(db, env, caller, id)
  {
  }

  lemma ReportReturnsReachTheirServices(db: DB, env: Env, caller: Id, id: Id, reason: string)
    requires caller in db.users
    ensures ApplyReport(db, env, caller, RejectReport(id, reason)) == Expenses.RejectReport(db, caller, id, reason)
    ensures ApplyReport(db, env, caller, ReopenReport(id)) == Expenses.ReopenReport(db, caller, id)
  {
  }

  /** A refused call changes nothing. */
  function Step(db: DB, q: Request): DB {
    match Apply(db, q)
    case Ok(next) => next
    case Err(_) => db
  }

  function Run(db: DB, qs: seq<Request>): DB
    decreases |qs|
  {
    if qs == [] then db else Run(Step(db, qs[0]), qs[1..])
  }

  predicate ClockRuns(qs: seq<Request>, today: int) {
    qs != [] ==> today <= qs[0].env.today && ClockRuns(qs[1..], qs[0].env.today)
  }

  function LastDay(qs: seq<Request>, today: int): int {
    if qs == [] then today else LastDay(qs[1..], qs[0].env.today)
  }

  lemma ApplyTripKeeps(db: DB, env: Env, caller: Id, c: TripCall)
    requires Inv(db, env.today) && caller in db.users
    ensures var r := ApplyTrip(db, env, caller, c); r.Ok? ==> Inv(r.value, env.today)
  {
    match c
    case CreateTrip(form) => TripProofs.CreateTripKeeps(db, env, caller, form);
    case UpdateTrip(id, patch) => TripProofs.UpdateTripKeeps(db, env, caller, id, patch);
    case DeleteTrip(id) => TripProofs.DeleteTripKeeps(db, env.today, caller, id);
    case SubmitTrip(id) => TripProofs.SubmitTripKeeps(db, env, caller, id);
    case ApproveTrip(id) => TripProofs.ApproveTripKeeps(db, env, caller, id);
    case RejectTrip(id, reason) => TripProofs.RejectTripKeeps(db, env.today, caller, id, reason);
    case ReopenTrip(id) => TripProofs.ReopenTripKeeps(db, env.today, caller, id);
    case CompleteTrip(id) => TripProofs.CompleteTripKeeps(db, env, caller, id);
  }

  lemma ApplyReportKeeps(db: DB, env: Env, caller: Id, c: ReportCall)
    requires Inv(db, env.today) && caller in db.users
    ensures var r := ApplyReport(db, env, caller, c); r.Ok? ==> Inv(r.value, env.today)
  {
    match c
    case CreateReport(tripId) => ExpenseProofs.CreateReportKeeps(db, env, caller, tripId);
    case UpdateReport(id, patch) => ExpenseProofs.UpdateReportKeeps(db, env.today, caller, id, patch);
    case AddItem(id, form) => ExpenseProofs.AddItemKeeps(db, env, caller, id, form);
    case UpdateItem(id, patch) => ExpenseProofs.UpdateItemKeeps(db, env, caller, id, patch);
    case DeleteItem(id) => ExpenseProofs.DeleteItemKeeps(db, env.today, caller, id);
    case SubmitReport(id) => ExpenseProofs.SubmitReportKeeps(db, env, caller, id);
    case ApproveReport(id) => ExpenseProofs.ApproveReportKeeps(db, env, caller, id);
    case RejectReport(id, reason) => ExpenseProofs.RejectReportKeeps(db, env.today, caller, id, reason);
    case ReopenReport(id) => ExpenseProofs.ReopenReportKeeps(db, env.today, caller, id);
  }

  predicate IsAccountCall(c: AdminCall) {
    c.Signup? || c.CreateUser? || c.UpdateUser? || c.ApproveUser? || c.RejectUser?
  }

  lemma ApplyAccountKeepsUsers(db: DB, env: Env, caller: Id, c: AdminCall)
    requires UsersOk(db.users, db.nextUser) && IsAccountCall(c)
    ensures var r := ApplyAdmin(db, env, caller, c); r.Ok? ==>
      UsersOk(r.value.users, r.value.nextUser) && AdminProofs.UsersEvolve(db.users, r.value.users)
      && r.value == db.(users := r.value.users, nextUser := r.value.nextUser)
  {
    match c
    case Signup(form) => AdminProofs.SignupKeepsUsers(db, env, form);
    case CreateUser(form) => AdminProofs.CreateUserKeepsUsers(db, env, form);
    case UpdateUser(user, patch) => AdminProofs.UpdateUserKeepsUsers(db, env, caller, user, patch);
    case ApproveUser(user, form) => AdminProofs.ApproveUserKeepsUsers(db, env, user, form);
    case RejectUser(user) => AdminProofs.RejectUserKeepsUsers(db, user);
    case _ =>
  }

  lemma ApplyMasterKeeps(db: DB, env: Env, caller: Id, c: AdminCall)
    requires Inv(db, env.today) && !IsAccountCall(c)
    ensures var r := ApplyAdmin(db, env, caller, c); r.Ok? ==> Inv(r.value, env.today)
  {
    match c
    case CreateCenter(kind, code, d, active) => AdminProofs.CreateCenterKeeps(db, env, kind, code, d, active);
    case UpdateCenter(kind, code, d, active) => AdminProofs.UpdateCenterKeeps(db, env, kind, code, d, active);
    case DeleteCenter(kind, code) => AdminProofs.DeleteCenterKeeps(db, env.today, kind, code);
    case CreateCard(owner) => AdminProofs.CreateCardKeeps(db, env.today, owner);
    case DeleteCard(card) => AdminProofs.DeleteCardKeeps(db, env.today, card);
    case PostTransaction(t) => AdminProofs.PostTransactionKeeps(db, env.today, t);
    case _ =>
  }

  lemma ApplyAdminKeeps(db: DB, env: Env, caller: Id, c: AdminCall)
    requires Inv(db, env.today)
    ensures var r := ApplyAdmin(db, env, caller, c); r.Ok? ==> Inv(r.value, env.today)
  {
    if !IsAccountCall(c) {
      ApplyMasterKeeps(db, env, caller, c);
    } else if ApplyAdmin(db, env, caller, c).Ok? {
      ApplyAccountKeepsUsers(db, env, caller, c);
      var next := ApplyAdmin(db, env, caller, c).value;
      AdminProofs.UsersWriteKeepsInv(db, env.today, next.users, next.nextUser);
    }
  }

  lemma StepKeepsInv(db: DB, q: Request, today: int)
    requires Inv(db, today) && today <= q.env.today
    ensures Inv(Step(db, q), q.env.today)
  {
    Preservation.LaterDay(db, today, q.env.today);
    match q.call
    case OnTrip(c) =>
      if q.caller in db.users {
        ApplyTripKeeps(db, q.env, q.caller, c);
      }
    case OnReport(c) =>
      if q.caller in db.users {
        ApplyReportKeeps(db, q.env, q.caller, c);
      }
    case OnAdmin(c) => ApplyAdminKeeps(db, q.env, q.caller, c);
  }

  /** The invariant holds along every run. */
  lemma {:induction false} RunKeepsInv(db: DB, qs: seq<Request>, today: int)
    requires Inv(db, today) && ClockRuns(qs, today)
    ensures Inv(Run(db, qs), LastDay(qs, today))
    decreases |qs|
  {
    if qs != [] {
      StepKeepsInv(db, qs[0], today);
      RunKeepsInv(Step(db, qs[0]), qs[1..], qs[0].env.today);
    }
  }

  /** Every state reached from empty tables satisfies the invariant. */
  lemma ReachableStatesAreOk(qs: seq<Request>, today: int)
    requires ClockRuns(qs, today)
    ensures Inv(Run(EMPTY, qs), LastDay(qs, today))
  {
    Preservation.EmptyIsOk(today);
    RunKeepsInv(EMPTY, qs, today);
  }
}
