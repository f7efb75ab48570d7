/** Every account and master-data service keeps the invariant. */
module AdminProofs {
  import opened Common
  import opened Codes
  import opened Tables
  import opened UserStatusRules
  import opened Accounts
  import opened Masters
  import opened Invariant

  // ---------------------------------------------------------------------------
  // Users

  /** No user row ever disappears, so everything that points to a user stays valid. */
  lemma UsersWriteKeepsInv(db: DB, today: int, users: Users, next: Id)
    requires Inv(db, today) && UsersOk(users, next) && UsersEvolve(db.users, users)
    ensures Inv(db.(users := users, nextUser := next), today)
  {
    UsersWriteKeepsTables(db, today, users, next);
  }

  lemma UsersWriteKeepsTables(db: DB, today: int, users: Users, next: Id)
    requires BusinessOk(db, today) && CardsOk(db.cards, db.users, db.nextCard) && UsersEvolve(db.users, users)
    ensures BusinessOk(db.(users := users, nextUser := next), today) && CardsOk(db.cards, users, db.nextCard)
  {
    forall t | t in db.trips ensures TripOk(db.trips[t], users, db.costs, today) {
      assert TripOk(db.trips[t], db.users, db.costs, today);
    }
  }

  /** One account row evolves: along the sign-up table, keeping its e-mail and any employee number it has. */
  predicate UserEvolves(u: User, u': User) {
    && u'.email == u.email
    && (u'.status == u.status || u'.status in AllowedSignupTransitions(u.status))
    && (u.employeeNo.Some? ==> u'.employeeNo == u.employeeNo)
  }

  ghost predicate UsersEvolve(users: Users, users': Users) {
    forall u | u in users :: u in users' && UserEvolves(users[u], users'[u])
  }

  lemma ResubmitKeepsUsers(users: Users, next: Id, id: Id, form: SignupForm)
    requires UsersOk(users, next) && id in users
    ensures var r := Resubmit(users, id, form); r.Ok? ==> UsersOk(r.value, next) && UsersEvolve(users, r.value)
  {
    var r := Resubmit(users, id, form);
    if r.Ok? {
      RewriteUserKeepsUsers(users, next, id, r.value[id]);
    }
  }

  lemma ApplicationKeepsUsers(users: Users, next: Id, form: SignupForm)
    requires UsersOk(users, next) && !EmailTaken(users, form.email)
    ensures UsersOk(users[next := Application(form)], next + 1) && UsersEvolve(users, users[next := Application(form)])
  {
    assert next !in users;
    InsertUserKeepsUsers(users, next, Application(form));
  }

  lemma SignupKeepsUsers(db: DB, env: Env, form: SignupForm)
    requires UsersOk(db.users, db.nextUser)
    ensures var r := Signup(db, env, form); r.Ok? ==>
      UsersOk(r.value.users, r.value.nextUser) && UsersEvolve(db.users, r.value.users)
      && r.value == db.(users := r.value.users, nextUser := r.value.nextUser)
  {
    match UserWithEmail(db.users, form.email, db.nextUser)
    case Some(id) => ResubmitKeepsUsers(db.users, db.nextUser, id, form);
    case None =>
      assert forall u | u in db.users :: db.users[u].email != form.email;
      ApplicationKeepsUsers(db.users, db.nextUser, form);
  }

  lemma CreateUserKeepsUsers(db: DB, env: Env, form: UserForm)
    requires UsersOk(db.users, db.nextUser)
    ensures var r := CreateUser(db, env, form); r.Ok? ==>
      UsersOk(r.value.users, r.value.nextUser) && UsersEvolve(db.users, r.value.users)
      && r.value == db.(users := r.value.users, nextUser := r.value.nextUser)
  {
    var r := CreateUser(db, env, form);
    if r.Ok? {
      var id, u := db.nextUser, r.value.users[db.nextUser];
      assert id !in db.users;
      assert u.manager.Some? ==> u.manager.value in db.users;
      InsertUserKeepsUsers(db.users, id, u);
    }
  }

  lemma InsertUserKeepsUsers(users: Users, id: Id, u: User)
    requires UsersOk(users, id)
    requires u.manager.Some? ==> u.manager.value in users
    requires u.status.Active? <==> u.employeeNo.Some?
    requires !EmailTaken(users, u.email) && (u.employeeNo.Some? ==> !EmployeeNoTaken(users, u.employeeNo.value))
    ensures UsersOk(users[id := u], id + 1) && UsersEvolve(users, users[id := u])
  {
  }

  /** Rewriting one account: its e-mail stays, and a new employee number is one nobody has. */
  lemma RewriteUserKeepsUsers(users: Users, next: Id, id: Id, u: User)
    requires UsersOk(users, next) && id in users && UserEvolves(users[id], u)
    requires u.manager == users[id].manager || (u.manager.Some? ==> u.manager.value in users && u.manager.value != id)
    requires u.status.Active? <==> u.employeeNo.Some?
    requires u.employeeNo == users[id].employeeNo || (u.employeeNo.Some? && !EmployeeNoTaken(users, u.employeeNo.value))
    ensures UsersOk(users[id := u], next) && UsersEvolve(users, users[id := u])
  {
  }

  /** An edit touches one account and neither its status, e-mail, employee number nor password, and never leaves it its
      own manager. */
  lemma UpdateUserKeepsUsers(db: DB, env: Env, actor: Id, id: Id, patch: UserPatch)
    requires UsersOk(db.users, db.nextUser)
    ensures var r := UpdateUser(db, env, actor, id, patch); r.Ok? ==>
      && UsersOk(r.value.users, r.value.nextUser) && UsersEvolve(db.users, r.value.users)
      && id in db.users && id in r.value.users
      && var u, u' := db.users[id], r.value.users[id];
      && r.value == db.(users := db.users[id := u']) && u'.manager != Some(id)
      && u'.status == u.status && u'.email == u.email && u'.employeeNo == u.employeeNo
      && u'.passwordHash == u.passwordHash
  {
    var r := UpdateUser(db, env, actor, id, patch);
    if r.Ok? {
      RewriteUserKeepsUsers(db.users, db.nextUser, id, r.value.users[id]);
    }
  }

  lemma ApproveUserKeepsUsers(db: DB, env: Env, id: Id, form: ApproveForm)
    requires UsersOk(db.users, db.nextUser)
    ensures var r := ApproveUser(db, env, id, form); r.Ok? ==>
      UsersOk(r.value.users, r.value.nextUser) && UsersEvolve(db.users, r.value.users)
      && r.value == db.(users := r.value.users)
  {
    var r := ApproveUser(db, env, id, form);
    if r.Ok? {
      RewriteUserKeepsUsers(db.users, db.nextUser, id, r.value.users[id]);
    }
  }

  lemma RejectUserKeepsUsers(db: DB, id: Id)
    requires UsersOk(db.users, db.nextUser)
    ensures var r := RejectUser(db, id); r.Ok? ==>
      UsersOk(r.value.users, r.value.nextUser) && UsersEvolve(db.users, r.value.users)
      && r.value == db.(users := r.value.users)
  {
    var r := RejectUser(db, id);
    if r.Ok? {
      RewriteUserKeepsUsers(db.users, db.nextUser, id, r.value.users[id]);
    }
  }

  // ---------------------------------------------------------------------------
  // Centers: no foreign key guards them

  ghost predicate CodesStillExist(db: DB, funds: map<string, bool>, costs: map<string, bool>) {
    && (forall t | t in db.trips :: Exists(db.trips[t].costCenter, costs))
    && (forall r | r in db.reports ::
          Exists(db.reports[r].fundCenter, funds) && Exists(db.reports[r].costCenter, costs))
    && (forall i | i in db.items :: Exists(db.items[i].fundCenter, funds) && Exists(db.items[i].costCenter, costs))
  }

  lemma InvCodesExist(db: DB, today: int)
    requires BusinessOk(db, today)
    ensures CodesStillExist(db, db.funds, db.costs)
  {
    forall t | t in db.trips ensures Exists(db.trips[t].costCenter, db.costs) {
      assert TripOk(db.trips[t], db.users, db.costs, today);
    }
    forall i | i in db.items
      ensures Exists(db.items[i].fundCenter, db.funds) && Exists(db.items[i].costCenter, db.costs)
    {
      assert ItemOk(db.items[i], db.reports, db.transactions, db.cards, db.funds, db.costs);
    }
  }

  lemma CentersWriteKeepsBusiness(db: DB, today: int, funds: map<string, bool>, costs: map<string, bool>)
    requires BusinessOk(db, today) && CodesStillExist(db, funds, costs)
    ensures BusinessOk(db.(funds := funds, costs := costs), today)
  {
    forall t | t in db.trips ensures TripOk(db.trips[t], db.users, costs, today) {
      assert TripOk(db.trips[t], db.users, db.costs, today);
    }
    forall i | i in db.items ensures ItemOk(db.items[i], db.reports, db.transactions, db.cards, funds, costs) {
      assert ItemOk(db.items[i], db.reports, db.transactions, db.cards, db.funds, db.costs);
    }
  }

  lemma CentersWriteKeepsInv(db: DB, today: int, funds: map<string, bool>, costs: map<string, bool>)
    requires Inv(db, today) && CodesStillExist(db, funds, costs)
    ensures Inv(db.(funds := funds, costs := costs), today)
  {
    CentersWriteKeepsBusiness(db, today, funds, costs);
  }

  lemma MoreCentersDangleNothing(db: DB, kind: CenterKind, centers: map<string, bool>)
    requires CodesStillExist(db, db.funds, db.costs) && CentersOf(db, kind).Keys <= centers.Keys
    ensures var db' := WithCenters(db, kind, centers); CodesStillExist(db, db'.funds, db'.costs)
  {
  }

  lemma MoreCentersKeepInv(db: DB, today: int, kind: CenterKind, centers: map<string, bool>)
    requires Inv(db, today) && CentersOf(db, kind).Keys <= centers.Keys
    ensures Inv(WithCenters(db, kind, centers), today)
  {
    InvCodesExist(db, today);
    MoreCentersDangleNothing(db, kind, centers);
    var db' := WithCenters(db, kind, centers);
    CentersWriteKeepsInv(db, today, db'.funds, db'.costs);
  }

  lemma CreateCenterKeeps(db: DB, env: Env, kind: CenterKind, code: string, department: Option<Id>, isActive: bool)
    requires Inv(db, env.today)
    ensures var r := CreateCenter(db, env, kind, code, department, isActive); r.Ok? ==> Inv(r.value, env.today)
  {
    MoreCentersKeepInv(db, env.today, kind, CentersOf(db, kind)[code := isActive]);
  }

  lemma UpdateCenterKeeps(db: DB, env: Env, kind: CenterKind, code: string, department: Field<Id>,
                          isActive: Field<bool>)
    requires Inv(db, env.today)
    ensures var r := UpdateCenter(db, env, kind, code, department, isActive); r.Ok? ==> Inv(r.value, env.today)
  {
    if UpdateCenter(db, env, kind, code, department, isActive).Ok? {
      MoreCentersKeepInv(db, env.today, kind,
                         CentersOf(db, kind)[code := isActive.Over(CentersOf(db, kind)[code]).value]);
    }
  }

  /** The enumerated columns are all there are: when none refers to the code, dropping it dangles nothing. */
  lemma UnreferencedCodeMayGo(db: DB, kind: CenterKind, code: string)
    requires CodesStillExist(db, db.funds, db.costs)
    requires forall c | c in References(kind) :: !Refers(db, c, code)
    ensures var db' := WithCenters(db, kind, CentersOf(db, kind) - {code}); CodesStillExist(db, db'.funds, db'.costs)
  {
    if kind.FundCenter? {
      assert ReportFund in References(kind) && ItemFund in References(kind);
    } else {
      assert TripCost in References(kind) && ReportCost in References(kind) && ItemCost in References(kind);
    }
  }

  lemma DeleteCenterKeeps(db: DB, today: int, kind: CenterKind, code: string)
    requires Inv(db, today)
    ensures var r := DeleteCenter(db, kind, code); r.Ok? ==> Inv(r.value, today)
  {
    var r := DeleteCenter(db, kind, code);
    if r.Ok? {
      InvCodesExist(db, today);
      UnreferencedCodeMayGo(db, kind, code);
      CentersWriteKeepsInv(db, today, r.value.funds, r.value.costs);
    }
  }

  // ---------------------------------------------------------------------------
  // Cards and their transactions

  lemma CardsWriteKeepsInv(
    db: DB, today: int, cards: map<Id, Id>, next: Id, transactions: map<Id, Transaction>, next': Id)
    requires Inv(db, today) && CardsOk(cards, db.users, next) && TransactionsOk(transactions, cards, next')
    requires forall t | t in db.transactions ::
      && t in transactions && transactions[t] == db.transactions[t]
      && (db.transactions[t].card in db.cards ==>
            db.transactions[t].card in cards && cards[db.transactions[t].card] == db.cards[db.transactions[t].card])
    ensures Inv(db.(cards := cards, nextCard := next, transactions := transactions, nextTransaction := next'), today)
  {
    CardsWriteKeepsItems(db, cards, transactions);
  }

  lemma CardsWriteKeepsItems(db: DB, cards: map<Id, Id>, transactions: map<Id, Transaction>)
    requires ItemsOk(db.items, db.reports, db.transactions, db.cards, db.funds, db.costs, db.nextItem)
    requires forall t | t in db.transactions ::
      && t in transactions && transactions[t] == db.transactions[t]
      && (db.transactions[t].card in db.cards ==>
            db.transactions[t].card in cards && cards[db.transactions[t].card] == db.cards[db.transactions[t].card])
    ensures ItemsOk(db.items, db.reports, transactions, cards, db.funds, db.costs, db.nextItem)
  {
    forall i | i in db.items ensures ItemOk(db.items[i], db.reports, transactions, cards, db.funds, db.costs) {
      assert ItemOk(db.items[i], db.reports, db.transactions, db.cards, db.funds, db.costs);
    }
  }

  lemma CreateCardKeeps(db: DB, today: int, owner: Id)
    requires Inv(db, today)
    ensures var r := CreateCard(db, owner); r.Ok? ==> Inv(r.value, today)
  {
    var r := CreateCard(db, owner);
    if r.Ok? {
      assert db.nextCard !in db.cards;
      CardsWriteKeepsInv(db, today, r.value.cards, r.value.nextCard, db.transactions, db.nextTransaction);
    }
  }

  lemma DeleteCardKeeps(db: DB, today: int, card: Id)
    requires Inv(db, today)
    ensures var r := DeleteCard(db, card); r.Ok? ==> Inv(r.value, today)
  {
    var r := DeleteCard(db, card);
    if r.Ok? {
      CardsWriteKeepsInv(db, today, r.value.cards, db.nextCard, db.transactions, db.nextTransaction);
    }
  }

  lemma PostTransactionKeeps(db: DB, today: int, t: Transaction)
    requires Inv(db, today)
    ensures var r := PostTransaction(db, t); r.Ok? ==> Inv(r.value, today)
  {
    var r := PostTransaction(db, t);
    if r.Ok? {
      assert db.nextTransaction !in db.transactions;
      CardsWriteKeepsInv(db, today, db.cards, db.nextCard, r.value.transactions, r.value.nextTransaction);
    }
  }
}
