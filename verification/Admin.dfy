/** Sign-up and the user master. */
module Accounts {
  import opened Common
  import opened Codes
  import opened Tables
  import opened UserStatusRules

  type Users = map<Id, User>

  datatype SignupForm = SignupForm(email: string, password: string, digest: string, name: string, department: Id)
  datatype UserForm = UserForm(
    email: string, password: string, digest: string, name: string, employeeNo: string, department: Id,
    position: string, manager: Option<Id>, role: Role, isActive: bool)
  datatype UserPatch = UserPatch(
    name: Field<string>, department: Field<Id>, position: Field<string>, manager: Field<Id>,
    role: Field<Role>, isActive: Field<bool>)
  datatype ApproveForm = ApproveForm(employeeNo: string, position: string, manager: Option<Id>, role: Role)

  function Utf8Length(s: string): nat {
    if s == "" then 0
    else Utf8Length(s[1..]) +
         if s[0] < '\U{80}' then 1 else if s[0] < '\U{800}' then 2 else if s[0] < '\U{10000}' then 3 else 4
  }

  function AssertPasswordLength(password: string): Result<()> {
    var _ :- Check(|password| >= 8, PasswordTooShort);
    Check(Utf8Length(password) <= 72, PasswordTooLong)
  }

  function AssertDepartment(env: Env, department: Id): Result<()> {
    Check(department in env.departments, InvalidDepartment)
  }

  predicate EmailTaken(users: Users, email: string) {
    exists u | u in users :: users[u].email == email
  }

  predicate EmployeeNoTaken(users: Users, no: string) {
    exists u | u in users :: users[u].employeeNo == Some(no)
  }

  function AssertManager(users: Users, manager: Option<Id>, self: Option<Id>): (r: Result<()>)
    ensures r.Ok? && manager.Some? ==> manager.value in users && manager != self
  {
    if manager.None? then Ok(())
    else
      var _ :- Check(manager != self, InvalidManager);
      Check(manager.value in users, InvalidManager)
  }

  function PositionSpec(position: string): seq<CodeSpec> {
    [CodeSpec(Position, PositionCode, Some(position))]
  }

  function UserWithEmail(users: Users, email: string, bound: nat): (r: Option<Id>)
    ensures r.Some? ==> r.value in users && users[r.value].email == email
    ensures r.None? ==> forall u | u in users && u < bound :: users[u].email != email
  {
    if bound == 0 then None
    else if bound - 1 in users && users[bound - 1].email == email then Some(bound - 1)
    else UserWithEmail(users, email, bound - 1)
  }

  function Signup(db: DB, env: Env, form: SignupForm): Result<DB> {
    var _ :- AssertPasswordLength(form.password);
    var _ :- AssertDepartment(env, form.department);
    match UserWithEmail(db.users, form.email, db.nextUser)
    case Some(id) =>
      var users :- Resubmit(db.users, id, form);
      Ok(db.(users := users))
    case None =>
      Ok(db.(users := db.users[db.nextUser := Application(form)], nextUser := db.nextUser + 1))
  }

  function Application(form: SignupForm): User {
    User(form.email, form.digest, form.name, None, form.department, None, None, Role.Employee, UserStatus.Pending,
         false)
  }

  /** Only a rejected application may be overwritten. */
  function Resubmit(users: Users, id: Id, form: SignupForm): Result<Users>
    requires id in users
  {
    var user := users[id];
    var _ :- Check(!user.status.Pending?, AlreadyPending);
    var _ :- Check(!user.status.Active?, DuplicateEmail);
    var _ :- AssertSignupTransition(user.status, UserStatus.Pending, Applicant);
    Ok(users[id := user.(name := form.name, department := form.department, passwordHash := form.digest,
                         status := UserStatus.Pending, isActive := false)])
  }

  function CreateUser(db: DB, env: Env, form: UserForm): Result<DB> {
    var _ :- AssertPasswordLength(form.password);
    var _ :- Check(!EmailTaken(db.users, form.email), DuplicateEmail);
    var _ :- Check(!EmployeeNoTaken(db.users, form.employeeNo), DuplicateEmployeeNo);
    var _ :- AssertDepartment(env, form.department);
    var _ :- AssertManager(db.users, form.manager, None);
    var _ :- Verdict(env.codes, PositionSpec(form.position));
    var user := User(form.email, form.digest, form.name, Some(form.employeeNo), form.department,
                     Some(form.position), form.manager, form.role, UserStatus.Active, form.isActive);
    Ok(db.(users := db.users[db.nextUser := user], nextUser := db.nextUser + 1))
  }

  predicate Fillable(patch: UserPatch) {
    !patch.name.Null? && !patch.department.Null? && !patch.role.Null? && !patch.isActive.Null?
  }

  function Patched(user: User, patch: UserPatch): User
    requires Fillable(patch)
  {
    user.(name := patch.name.Over(user.name).value,
          department := patch.department.Over(user.department).value,
          position := OverNullable(patch.position, user.position),
          manager := OverNullable(patch.manager, user.manager),
          role := patch.role.Over(user.role).value,
          isActive := patch.isActive.Over(user.isActive).value)
  }

  function UpdateUser(db: DB, env: Env, actor: Id, id: Id, patch: UserPatch): Result<DB> {
    if id !in db.users then Err(UserNotFound)
    else
      var user := db.users[id];
      var _ :- Check(id == actor ==> patch.role in {Unset, Null, Set(Role.Admin)}, CannotDemoteSelf);
      var _ :- Check(id == actor ==> patch.isActive != Set(false), CannotDemoteSelf);
      var _ :- if patch.department.Set? then AssertDepartment(env, patch.department.value) else Ok(());
      var _ :- if patch.manager.Unset? then Ok(())
               else AssertManager(db.users, OverNullable(patch.manager, user.manager), Some(id));
      var _ :- if patch.position.Set? then Verdict(env.codes, PositionSpec(patch.position.value)) else Ok(());
      var _ :- Check(Fillable(patch), InternalError);
      Ok(db.(users := db.users[id := Patched(user, patch)]))
  }

  function ApproveUser(db: DB, env: Env, id: Id, form: ApproveForm): Result<DB> {
    if id !in db.users then Err(UserNotFound)
    else
      var user := db.users[id];
      var _ :- AssertSignupTransition(user.status, UserStatus.Active, Administrator);
      var _ :- Check(!EmployeeNoTaken(db.users, form.employeeNo), DuplicateEmployeeNo);
      var _ :- AssertManager(db.users, form.manager, Some(id));
      var _ :- Verdict(env.codes, PositionSpec(form.position));
      Ok(db.(users := db.users[id := user.(
               employeeNo := Some(form.employeeNo), position := Some(form.position), manager := form.manager,
               role := form.role, status := UserStatus.Active, isActive := true)]))
  }

  function RejectUser(db: DB, id: Id): Result<DB> {
    if id !in db.users then Err(UserNotFound)
    else
      var user := db.users[id];
      var _ :- AssertSignupTransition(user.status, UserStatus.Rejected, Administrator);
      Ok(db.(users := db.users[id := user.(status := UserStatus.Rejected, isActive := false)]))
  }
}

/** Fund centers, cost centers and corporate cards: master data that business rows point to. */
module Masters {
  import opened Common
  import opened Tables

  datatype CenterKind = FundCenter | CostCenter
  datatype Column = TripCost | ReportCost | ItemCost | ReportFund | ItemFund

  /** The columns that hold codes of this kind of center. No foreign key backs them. */
  function References(kind: CenterKind): seq<Column> {
    match kind
    case CostCenter => [TripCost, ReportCost, ItemCost]
    case FundCenter => [ReportFund, ItemFund]
  }

  predicate Refers(db: DB, column: Column, code: string) {
    match column
    case TripCost => exists t | t in db.trips :: db.trips[t].costCenter == Some(code)
    case ReportCost => exists r | r in db.reports :: db.reports[r].costCenter == Some(code)
    case ReportFund => exists r | r in db.reports :: db.reports[r].fundCenter == Some(code)
    case ItemCost => exists i | i in db.items :: db.items[i].costCenter == Some(code)
    case ItemFund => exists i | i in db.items :: db.items[i].fundCenter == Some(code)
  }

  function CentersOf(db: DB, kind: CenterKind): map<string, bool> {
    if kind.FundCenter? then db.funds else db.costs
  }

  function WithCenters(db: DB, kind: CenterKind, centers: map<string, bool>): DB {
    if kind.FundCenter? then db.(funds := centers) else db.(costs := centers)
  }

  function AssertCenterDepartment(env: Env, department: Option<Id>): Result<()> {
    Check(department.Some? ==> department.value in env.departments, InvalidDepartment)
  }

  function CreateCenter(db: DB, env: Env, kind: CenterKind, code: string, department: Option<Id>,
                        isActive: bool): Result<DB> {
    var _ :- Check(code !in CentersOf(db, kind), DuplicateCenterCode);
    var _ :- AssertCenterDepartment(env, department);
    Ok(WithCenters(db, kind, CentersOf(db, kind)[code := isActive]))
  }

  function UpdateCenter(db: DB, env: Env, kind: CenterKind, code: string, department: Field<Id>,
                        isActive: Field<bool>): Result<DB> {
    if code !in CentersOf(db, kind) then Err(CenterNotFound)
    else
      var _ :- AssertCenterDepartment(env, if department.Set? then Some(department.value) else None);
      var _ :- Check(!isActive.Null?, InternalError);
      Ok(WithCenters(db, kind, CentersOf(db, kind)[code := isActive.Over(CentersOf(db, kind)[code]).value]))
  }

  function DeleteCenter(db: DB, kind: CenterKind, code: string): Result<DB> {
    if code !in CentersOf(db, kind) then Err(CenterNotFound)
    else
      var _ :- Check(forall c | c in References(kind) :: !Refers(db, c, code), HasDependents);
      Ok(WithCenters(db, kind, CentersOf(db, kind) - {code}))
  }

  function CreateCard(db: DB, owner: Id): Result<DB> {
    var _ :- Check(owner in db.users, InvalidUser);
    Ok(db.(cards := db.cards[db.nextCard := owner], nextCard := db.nextCard + 1))
  }

  function DeleteCard(db: DB, card: Id): Result<DB> {
    var _ :- Check(card in db.cards, CardNotFound);
    // The foreign key from card_transaction refuses the delete.
    var _ :- Check(forall t | t in db.transactions :: db.transactions[t].card != card, HasDependents);
    Ok(db.(cards := db.cards - {card}))
  }

  /** The card feed, outside the services: a transaction arrives on an existing card. */
  function PostTransaction(db: DB, t: Transaction): Result<DB> {
    var _ :- Check(t.card in db.cards, InternalError);
    Ok(db.(transactions := db.transactions[db.nextTransaction := t], nextTransaction := db.nextTransaction + 1))
  }
}
