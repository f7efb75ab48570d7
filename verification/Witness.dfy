/** What runs from empty tables really reach: a settled trip and a rejected one, a trip that cannot be settled for want
    of a category, a transaction on which the two searches differ, and a year whose numbering is exhausted. */
module Witness {
  import opened Common
  import opened Numbering
  import opened Codes
  import opened Tables
  import opened ExpenseRules
  import opened Invariant
  import opened Runs
  import Trips
  import Accounts
  import Masters
  import Expenses
  import Theorems
  import Progress
  import TripServices
  import CardSearch
  import Matching
  import MatchCandidates
  import TwoSearches

  lemma {:induction false} RunOneMore(db: DB, qs: seq<Request>, q: Request, day: int)
    requires ClockRuns(qs, day) && LastDay(qs, day) <= q.env.today
    ensures ClockRuns(qs + [q], day) && LastDay(qs + [q], day) == q.env.today
    ensures Run(db, qs + [q]) == Step(Run(db, qs), q)
    decreases |qs|
  {
    if qs == [] {
      assert qs + [q] == [q] && [q][1..] == [];
    } else {
      assert (qs + [q])[1..] == qs[1..] + [q];
      RunOneMore(Step(db, qs[0]), qs[1..], q, qs[0].env.today);
    }
  }

  lemma ReachableStep(db: DB, today: int, q: Request)
    requires Theorems.Reachable(db, today) && today <= q.env.today
    ensures Theorems.Reachable(Step(db, q), q.env.today)
  {
    var qs, day :| ClockRuns(qs, day) && Run(EMPTY, qs) == db && LastDay(qs, day) == today;
    RunOneMore(EMPTY, qs, q, day);
  }

  lemma {:induction false} ReachableRun(db: DB, today: int, qs: seq<Request>)
    requires Theorems.Reachable(db, today) && ClockRuns(qs, today)
    ensures Theorems.Reachable(Run(db, qs), LastDay(qs, today))
    decreases |qs|
  {
    if qs != [] {
      ReachableStep(db, today, qs[0]);
      ReachableRun(Step(db, qs[0]), qs[0].env.today, qs[1..]);
    }
  }

  lemma EmptyIsReachable()
    ensures Theorems.Reachable(EMPTY, 0)
  {
    assert ClockRuns([], 0) && Run(EMPTY, []) == EMPTY && LastDay([], 0) == 0;
  }

  // ---------------------------------------------------------------------------
  // A company of two

  const REFERENCE: CodeTable :=
    CodeRows([CodeGroup(0, Position, true), CodeGroup(1, TripPurpose, true), CodeGroup(2, DestinationType, true),
              CodeGroup(3, Country, true), CodeGroup(4, ExpenseCategory, true)],
             [Code(0, "X", true), Code(1, "X", true), Code(2, "X", true), Code(3, "X", true), Code(4, "X", true)])

  const DAY_ONE := Env(0, 0, 0, 0, REFERENCE, {0})

  lemma ReferenceHolds(group: GroupCode)
    requires group in {Position, TripPurpose, DestinationType, Country, ExpenseCategory}
    ensures GroupActive(REFERENCE, group) && CodeActive(REFERENCE, group, Some("X"))
  {
    var i :=
      match group
      case Position => 0 case TripPurpose => 1 case DestinationType => 2 case Country => 3 case _ => 4;
    var g, c := REFERENCE.groups[i], REFERENCE.codes[i];
    assert g in REFERENCE.groups && c in REFERENCE.codes;
    assert g.groupCode == group && c.groupId == g.id;
  }

  lemma PositionHolds()
    ensures Verdict(REFERENCE, Accounts.PositionSpec("X")).Ok?
  {
    ReferenceHolds(Position);
    assert Accounts.PositionSpec("X")[1..] == [];
  }

  lemma CategoryHolds()
    ensures Verdict(REFERENCE, Expenses.CategorySpec("X")).Ok?
  {
    ReferenceHolds(ExpenseCategory);
    assert Expenses.CategorySpec("X")[1..] == [];
  }

  lemma TripCodesHold()
    ensures TripServices.SoundCodes(REFERENCE, Some("X"), Some("X"), Some("X"))
  {
    ReferenceHolds(TripPurpose);
    ReferenceHolds(DestinationType);
    ReferenceHolds(Country);
  }

  lemma {:induction false} Utf8AtMostFour(s: string)
    ensures Accounts.Utf8Length(s) <= 4 * |s|
  {
    if s != "" {
      Utf8AtMostFour(s[1..]);
    }
  }

  const PASSWORD := "password"

  lemma PasswordHolds()
    ensures Accounts.AssertPasswordLength(PASSWORD).Ok?
  {
    Utf8AtMostFour(PASSWORD);
  }

  function Form(email: string, no: string, manager: Option<Id>): Accounts.UserForm {
    Accounts.UserForm(email, PASSWORD, "", "", no, 0, "X", manager, Role.Employee, true)
  }

  function Hired(form: Accounts.UserForm): User {
    User(form.email, form.digest, form.name, Some(form.employeeNo), form.department, Some(form.position), form.manager,
         form.role, UserStatus.Active, form.isActive)
  }

  function Employ(email: string, no: string, manager: Option<Id>): Request {
    Request(DAY_ONE, 0, OnAdmin(CreateUser(Form(email, no, manager))))
  }

  lemma HiringGoesThrough(db: DB, env: Env, caller: Id, form: Accounts.UserForm)
    requires Accounts.AssertPasswordLength(form.password).Ok? && form.department in env.departments
    requires !Accounts.EmailTaken(db.users, form.email) && !Accounts.EmployeeNoTaken(db.users, form.employeeNo)
    requires form.manager.Some? ==> form.manager.value in db.users
    requires Verdict(env.codes, Accounts.PositionSpec(form.position)).Ok?
    ensures Step(db, Request(env, caller, OnAdmin(CreateUser(form)))) ==
      db.(users := db.users[db.nextUser := Hired(form)], nextUser := db.nextUser + 1)
  {
  }

  lemma EmploymentGoesThrough(db: DB, email: string, no: string, manager: Option<Id>)
    requires !Accounts.EmailTaken(db.users, email) && !Accounts.EmployeeNoTaken(db.users, no)
    requires manager.Some? ==> manager.value in db.users
    ensures Step(db, Employ(email, no, manager)) ==
      db.(users := db.users[db.nextUser := Hired(Form(email, no, manager))], nextUser := db.nextUser + 1)
  {
    PasswordHolds();
    PositionHolds();
    HiringGoesThrough(db, DAY_ONE, 0, Form(email, no, manager));
  }

  lemma CompanyOfOne() returns (db: DB)
    ensures Theorems.Reachable(db, 0)
    ensures db == EMPTY.(users := map[0 := Hired(Form("a", "1", None))], nextUser := 1)
  {
    EmptyIsReachable();
    EmploymentGoesThrough(EMPTY, "a", "1", None);
    ReachableStep(EMPTY, 0, Employ("a", "1", None));
    db := Step(EMPTY, Employ("a", "1", None));
  }

  lemma CompanyOfTwo() returns (db: DB)
    ensures Theorems.Reachable(db, 0) && 1 in db.users && db.users[1].manager == Some(0)
    ensures db == EMPTY.(users := db.users, nextUser := 2)
  {
    var one := CompanyOfOne();
    EmploymentGoesThrough(one, "b", "2", Some(0));
    ReachableStep(one, 0, Employ("b", "2", Some(0)));
    db := Step(one, Employ("b", "2", Some(0)));
  }

  function Open(kind: Masters.CenterKind): Request {
    Request(DAY_ONE, 0, OnAdmin(CreateCenter(kind, "C", None, true)))
  }

  lemma CompanyWithCenters() returns (db: DB)
    ensures Theorems.Reachable(db, 0) && 1 in db.users && db.users[1].manager == Some(0)
    ensures db == EMPTY.(users := db.users, nextUser := 2, funds := map["C" := true], costs := map["C" := true])
  {
    var two := CompanyOfTwo();
    ReachableStep(two, 0, Open(Masters.FundCenter));
    var three := Step(two, Open(Masters.FundCenter));
    assert three == two.(funds := map["C" := true]);
    ReachableStep(three, 0, Open(Masters.CostCenter));
    db := Step(three, Open(Masters.CostCenter));
    assert db == three.(costs := map["C" := true]);
  }

  const A_FORM := Trips.TripForm("", "X", "X", "X", 0, 0)
  const A_TRIP := Request(DAY_ONE, 1, OnTrip(CreateTrip(A_FORM)))

  /** One more draft of employee 1, numbered `no`, lasting day 0. */
  ghost predicate OneMoreTrip(db: DB, next: DB, no: string) {
    && next == db.(trips := next.trips, log := next.log, nextTrip := db.nextTrip + 1)
    && next.trips == db.trips[db.nextTrip :=
         Trip(no, 1, "", "X", "X", "X", 0, 0, None, TripStatus.Draft, None, None, None, None)]
  }

  lemma TripIsCreated(db: DB, no: string)
    requires 1 in db.users && NextNo(TripNos(db.trips), db.nextTrip, Trips.TRIP_TAG, 0) == Ok(no)
    requires !Taken(TripNos(db.trips), no)
    ensures OneMoreTrip(db, Step(db, A_TRIP), no)
  {
    TripCodesHold();
    CreationGoesThrough(db, DAY_ONE, 1, A_FORM, no);
  }

  lemma CreationGoesThrough(db: DB, env: Env, caller: Id, form: Trips.TripForm, no: string)
    requires Theorems.SoundTrip(env, form)
    requires NextNo(TripNos(db.trips), db.nextTrip, Trips.TRIP_TAG, env.year) == Ok(no) && !Taken(TripNos(db.trips), no)
    ensures var r := Trips.CreateTrip(db, env, caller, form);
      && r.Ok? && r.value == db.(trips := r.value.trips, log := r.value.log, nextTrip := db.nextTrip + 1)
      && r.value.trips == db.trips[db.nextTrip :=
           Trip(no, caller, form.title, form.purpose, form.destination, form.country, form.startDate, form.endDate,
                None, TripStatus.Draft, None, None, None, None)]
  {
    TripServices.TripCodesAreChecked(env.codes, Some(form.purpose), Some(form.destination), Some(form.country));
    TripServices.CreatingDoes(db, env, caller, form);
  }

  lemma NameIsNotBlank()
    ensures Strip("C") != ""
  {
    assert !IsSpace("C"[0]);
  }

  lemma FirstNumber(tag: string)
    ensures NextNo(map[], 0, tag, 0) == Ok(DocNo(tag, 0, 1))
  {
  }

  lemma CompanyWithTrip() returns (db: DB)
    ensures Theorems.Reachable(db, 0) && 0 in db.trips && db.trips[0].status.Draft? && Progress.Managed(db, 0)
    ensures db.trips[0].owner == 1 && db.users[1].manager == Some(0)
    ensures db.trips[0].startDate == 0 && db.trips[0].endDate == 0
    ensures db == EMPTY.(users := db.users, trips := db.trips, log := db.log, nextUser := 2, nextTrip := 1,
                         funds := map["C" := true], costs := map["C" := true])
  {
    var base := CompanyWithCenters();
    assert TripNos(base.trips) == map[];
    FirstNumber(Trips.TRIP_TAG);
    TripIsCreated(base, DocNo(Trips.TRIP_TAG, 0, 1));
    ReachableStep(base, 0, A_TRIP);
    db := Step(base, A_TRIP);
  }

  lemma CentersAreChargeable(db: DB)
    requires db.funds == map["C" := true] && db.costs == map["C" := true]
    ensures Progress.Chargeable(db, "C", "C")
  {
    NameIsNotBlank();
  }

  lemma NoReportsHaveNotRolledOver()
    ensures !RollsOver(Expenses.REPORT_TAG, ReportNos(map[]), 0)
  {
    var nos := ReportNos(map[]);
    assert nos == map[];
    FourDigitsHaveNotRolledOver(Expenses.REPORT_TAG, nos, 0, 0);
  }

  // ---------------------------------------------------------------------------
  // Trips

  /** Some run from empty tables ends with a settled trip. */
  lemma SettledTripsAreReachable()
    ensures exists db, today, t :: Theorems.Reachable(db, today) && t in db.trips && db.trips[t].status.Settled?
  {
    var db := CompanyWithTrip();
    CentersAreChargeable(db);
    NoReportsHaveNotRolledOver();
    CategoryHolds();
    Progress.CanSettleExactlyWhen(db, 0, DAY_ONE, 0, "C", "C");
    var qs :| Progress.Settles(qs, db, DAY_ONE, 0, 0);
    ReachableRun(db, 0, qs);
    var end := Run(db, qs);
    assert 0 in end.trips && end.trips[0].status.Settled?;
  }

  /** Without an active expense category a trip can be stuck although centers, numbering and manager are there. */
  lemma StuckTripsAreReachable()
    ensures exists db, env, t ::
      && Theorems.Reachable(db, 0) && t in db.trips && Progress.Managed(db, t) && Progress.Chargeable(db, "C", "C")
      && !Progress.CanSettle(db, env, t, 0)
  {
    var db := CompanyWithTrip();
    var env := DAY_ONE.(codes := CodeRows([], []));
    CentersAreChargeable(db);
    NoReportsHaveNotRolledOver();
    forall category: string ensures Verdict(env.codes, Expenses.CategorySpec(category)).Err? {
      assert !GroupActive(env.codes, ExpenseCategory);
    }
    Progress.CanSettleExactlyWhen(db, 0, env, 0, "C", "C");
    assert !Progress.CanSettle(db, env, 0, 0);
  }

  lemma SubmittedTrip() returns (db: DB)
    ensures Theorems.Reachable(db, 0) && 0 in db.trips && db.trips[0].status.Submitted?
    ensures db.trips[0].approver == Some(0) && db.trips[0].owner == 1 && 0 in db.users && 1 in db.users
    ensures db.trips[0].startDate == 0 && db.trips[0].endDate == 0
    ensures db == EMPTY.(users := db.users, trips := db.trips, log := db.log, notes := db.notes, nextUser := 2,
                         nextTrip := 1, funds := map["C" := true], costs := map["C" := true])
  {
    var draft := CompanyWithTrip();
    var q := Request(DAY_ONE, 1, OnTrip(SubmitTrip(0)));
    Progress.SubmissionLeads(draft, DAY_ONE, 0);
    ReachableStep(draft, 0, q);
    db := Step(draft, q);
    ApproverIsKnown(db, 0);
  }

  lemma ApproverIsKnown(db: DB, t: Id)
    requires Theorems.Reachable(db, 0) && t in db.trips && db.trips[t].approver.Some?
    ensures db.trips[t].approver.value in db.users
  {
    Theorems.FieldsAgreeWithStatus(db, 0);
  }

  /** Some run from empty tables ends with a rejected trip. */
  lemma RejectedTripsAreReachable()
    ensures exists db, today, t :: Theorems.Reachable(db, today) && t in db.trips && db.trips[t].status.Rejected?
  {
    var db := SubmittedTrip();
    var q := Request(DAY_ONE, 0, OnTrip(RejectTrip(0, "C")));
    NameIsNotBlank();
    Progress.RejectionLeads(db, DAY_ONE, 0, 0, "C");
    ReachableStep(db, 0, q);
    assert Step(db, q).trips[0].status.Rejected?;
  }

  // ---------------------------------------------------------------------------
  // A transaction held by a draft

  const DAY_TWO := DAY_ONE.(today := 1)
  const TAXI := Transaction(0, 0, "C", "X", 0, false)

  lemma CompletedTrip() returns (db: DB)
    ensures Theorems.Reachable(db, 1) && 0 in db.trips && db.trips[0].status.Completed? && db.trips[0].owner == 1
    ensures db.trips[0].startDate == 0 && db.trips[0].endDate == 0 && 1 in db.users
    ensures db == EMPTY.(users := db.users, trips := db.trips, log := db.log, notes := db.notes, nextUser := 2,
                         nextTrip := 1, funds := map["C" := true], costs := map["C" := true])
  {
    var submitted := SubmittedTrip();
    var approval := Request(DAY_ONE, 0, OnTrip(ApproveTrip(0)));
    var completion := Request(DAY_TWO, 1, OnTrip(CompleteTrip(0)));
    Progress.ApprovalLeads(submitted, DAY_ONE, 0, 0);
    ReachableStep(submitted, 0, approval);
    var approved := Step(submitted, approval);
    Progress.CompletionLeads(approved, DAY_TWO, 0);
    ReachableStep(approved, 0, completion);
    db := Step(approved, completion);
  }

  lemma TripWithTransaction() returns (db: DB)
    ensures Theorems.Reachable(db, 1) && 0 in db.trips && db.trips[0].status.Completed? && db.trips[0].owner == 1
    ensures db.trips[0].startDate == 0 && db.trips[0].endDate == 0 && 1 in db.users
    ensures db == EMPTY.(users := db.users, trips := db.trips, log := db.log, notes := db.notes, nextUser := 2,
                         nextTrip := 1, funds := map["C" := true], costs := map["C" := true],
                         cards := map[0 := 1], nextCard := 1, transactions := map[0 := TAXI], nextTransaction := 1)
  {
    var completed := CompletedTrip();
    var issue, feed := Request(DAY_TWO, 0, OnAdmin(CreateCard(1))), Request(DAY_TWO, 0, OnAdmin(PostTransaction(TAXI)));
    ReachableStep(completed, 1, issue);
    var carded := Step(completed, issue);
    assert carded == completed.(cards := map[0 := 1], nextCard := 1);
    ReachableStep(carded, 1, feed);
    db := Step(carded, feed);
    assert db == carded.(transactions := map[0 := TAXI], nextTransaction := 1);
  }

  lemma ReportWithoutItems() returns (db: DB)
    ensures Theorems.Reachable(db, 1) && Progress.Drafted(db, 0) && db.reports[0].owner == 1 && 1 in db.users
    ensures db.reports[0].tripId == 0 && db.trips[0].startDate == 0 && db.trips[0].endDate == 0
    ensures db.items == map[] && db.nextItem == 0
    ensures db.cards == map[0 := 1] && db.transactions == map[0 := TAXI]
  {
    var before := TripWithTransaction();
    var q := Request(DAY_TWO, 1, OnReport(CreateReport(0)));
    CentersAreChargeable(before);
    NoReportsHaveNotRolledOver();
    Theorems.ReachableNumbers(before, 1);
    Progress.ReportIsCreated(before, DAY_TWO, 0, "C", "C");
    ReachableStep(before, 1, q);
    db := Step(before, q);
  }

  const A_RIDE := Expenses.ItemForm(Some(0), "X", Some(0.0), None, None)

  lemma HoldingGoesThrough(db: DB, env: Env, caller: Id, form: Expenses.ItemForm, t: Id)
    requires Progress.Drafted(db, 0) && caller == db.reports[0].owner && caller in db.users
    requires TotalOk(0, db.reports[0], db.items, db.nextItem) && forall i | i in db.items :: i < db.nextItem
    requires form == Expenses.ItemForm(Some(t), form.category, Some(0.0), None, None)
    requires Verdict(env.codes, Expenses.CategorySpec(form.category)).Ok? && Expenses.UsableTransaction(db, 0, t).Ok?
    ensures var next, item := Step(db, Request(env, caller, OnReport(AddItem(0, form)))),
                              Item(0, Some(t), form.category, 0, false, None, None);
      next == db.(items := db.items[db.nextItem := item], nextItem := db.nextItem + 1)
  {
    var item := Item(0, Some(t), form.category, 0, false, None, None);
    assert StoredCents(0.0) == 0;
    Progress.SumOnlyGrows(db.items, 0, db.nextItem, item);
    AddingIsRecounting(db, env, caller, form, item);
    assert db.reports[0].(total := db.reports[0].total) == db.reports[0];
    assert db.reports[0 := db.reports[0]] == db.reports;
  }

  lemma AddingIsRecounting(db: DB, env: Env, caller: Id, form: Expenses.ItemForm, item: Item)
    requires Progress.Drafted(db, 0) && caller == db.reports[0].owner && caller in db.users
    requires form.transaction.Some? && form.amount == Some(0.0) && form.fundCenter.None? && form.costCenter.None?
    requires Verdict(env.codes, Expenses.CategorySpec(form.category)).Ok?
    requires Expenses.UsableTransaction(db, 0, form.transaction.value).Ok?
    requires item == Item(0, form.transaction, form.category, StoredCents(0.0), false, None, None)
    ensures Expenses.AddItem(db, env, caller, 0, form) ==
      Expenses.RecalcTotal(db.(items := db.items[db.nextItem := item], nextItem := db.nextItem + 1), 0)
  {
  }

  lemma ReportWithTransaction() returns (db: DB)
    ensures Theorems.Reachable(db, 1) && Progress.Drafted(db, 0) && db.reports[0].owner == 1
    ensures db.reports[0].tripId == 0 && db.trips[0].startDate == 0 && db.trips[0].endDate == 0
    ensures db.items == map[0 := Item(0, Some(0), "X", 0, false, None, None)]
    ensures db.cards == map[0 := 1] && db.transactions == map[0 := TAXI]
  {
    var before := ReportWithoutItems();
    var q := Request(DAY_TWO, 1, OnReport(AddItem(0, A_RIDE)));
    CategoryHolds();
    ReachableTotal(before, 1, 0);
    HoldingGoesThrough(before, DAY_TWO, 1, A_RIDE, 0);
    ReachableStep(before, 1, q);
    db := Step(before, q);
  }

  lemma ReachableTotal(db: DB, today: int, r: Id)
    requires Theorems.Reachable(db, today) && r in db.reports
    ensures TotalOk(r, db.reports[r], db.items, db.nextItem)
  {
    Theorems.ReachableIsOk(db, today);
    Progress.ReportFacts(db, today, r);
  }

  const ANYTHING := CardSearch.Filters(None, None, None, None, None, true, true, 1, 20)

  /** A reachable state in which a draft holds a transaction: the report still suggests it, the search hides it. */
  lemma SearchesDifferInAReachableState(lower: char -> char)
    ensures exists db, today, report, t ::
      && Theorems.Reachable(db, today) && report in db.reports && db.reports[report].tripId in db.trips
      && TwoSearches.Eligible(db, report, t, ANYTHING, lower)
      && MatchCandidates.Suggestable(db, report, t, Matching.KST)
      && !CardSearch.Wanted(db, db.reports[report].owner, ANYTHING, lower, t)
  {
    var db := ReportWithTransaction();
    assert db.items[0].transaction == Some(0);
    assert MatchCandidates.Held(db.items, 0);
    assert Matching.KoreanDay(0) == 0;
    assert TwoSearches.Eligible(db, 0, 0, ANYTHING, lower);
    TwoSearches.SearchesDifferExactlyWhen(db, 1, 0, 0, ANYTHING, lower);
  }

  // ---------------------------------------------------------------------------
  // A year whose numbers have run out

  /** The trips are numbered 1 to `n` in year 0 and there are no others. */
  ghost predicate FirstNumbers(trips: map<Id, Trip>, n: nat) {
    forall no: string :: no in TripNos(trips).Values <==> IsOneOf(no, n)
  }

  ghost predicate IsOneOf(no: string, n: nat) {
    exists m: nat :: 1 <= m <= n && no == DocNo(Trips.TRIP_TAG, 0, m)
  }

  lemma FirstNumbersMean(trips: map<Id, Trip>, n: nat, year: nat, m: nat)
    requires FirstNumbers(trips, n)
    ensures DocNo(Trips.TRIP_TAG, year, m) in TripNos(trips).Values <==> year == 0 && 1 <= m <= n
  {
    var no := DocNo(Trips.TRIP_TAG, year, m);
    if no in TripNos(trips).Values {
      var k: nat :| 1 <= k <= n && no == DocNo(Trips.TRIP_TAG, 0, k);
      DocNoIsInjective(Trips.TRIP_TAG, year, m, 0, k);
    }
    if year == 0 && 1 <= m <= n {
      assert IsOneOf(no, n);
    }
  }

  lemma FirstNumbersFit(trips: map<Id, Trip>, n: nat)
    requires FirstNumbers(trips, n) && n <= 9999
    ensures SerialsFitFourDigits(Trips.TRIP_TAG, TripNos(trips))
  {
    var nos := TripNos(trips);
    forall id, year: nat, m: nat | id in nos && nos[id] == DocNo(Trips.TRIP_TAG, year, m) ensures m <= 9999 {
      assert nos[id] in nos.Values;
      FirstNumbersMean(trips, n, year, m);
    }
  }

  lemma LastOfFirstNumbers(trips: map<Id, Trip>, n: nat, s: nat)
    requires FirstNumbers(trips, n)
    requires s == 0 || DocNo(Trips.TRIP_TAG, 0, s) in TripNos(trips).Values
    requires var nos := TripNos(trips);
      forall id, m: nat | id in nos && nos[id] == DocNo(Trips.TRIP_TAG, 0, m) :: m <= s
    ensures s == n
  {
    FirstNumbersMean(trips, n, 0, s);
    FirstNumbersMean(trips, n, 0, n);
    if n >= 1 {
      var nos := TripNos(trips);
      var id :| id in nos && nos[id] == DocNo(Trips.TRIP_TAG, 0, n);
    }
  }

  lemma NextOfFirstNumbers(db: DB, n: nat)
    requires NumberingOk(db) && FirstNumbers(db.trips, n) && n <= 9999
    ensures NextNo(TripNos(db.trips), db.nextTrip, Trips.TRIP_TAG, 0) == Ok(DocNo(Trips.TRIP_TAG, 0, n + 1))
    ensures !Taken(TripNos(db.trips), DocNo(Trips.TRIP_TAG, 0, n + 1))
  {
    FirstNumbersFit(db.trips, n);
    var s := FourDigitSerialsNeverCollide(Trips.TRIP_TAG, TripNos(db.trips), db.nextTrip, 0);
    LastOfFirstNumbers(db.trips, n, s);
  }

  lemma OneMoreNumber(db: DB, next: DB, n: nat)
    requires FirstNumbers(db.trips, n) && OneMoreTrip(db, next, DocNo(Trips.TRIP_TAG, 0, n + 1))
    requires db.nextTrip !in db.trips
    ensures FirstNumbers(next.trips, n + 1)
  {
    var added := DocNo(Trips.TRIP_TAG, 0, n + 1);
    var nos, nos' := TripNos(db.trips), TripNos(next.trips);
    assert nos' == nos[db.nextTrip := added];
    forall no: string ensures no in nos'.Values <==> IsOneOf(no, n + 1) {
      ValuesAfterInsert(nos, db.nextTrip, added, no);
      OneOfMore(no, n);
    }
  }

  lemma ValuesAfterInsert(nos: map<Id, string>, id: Id, added: string, no: string)
    requires id !in nos
    ensures no in nos[id := added].Values <==> no in nos.Values || no == added
  {
    var after := nos[id := added];
    if no == added {
      assert after[id] == no;
    }
    if no in nos.Values {
      var i :| i in nos && nos[i] == no;
      assert after[i] == no;
    }
  }

  lemma OneOfMore(no: string, n: nat)
    ensures IsOneOf(no, n + 1) <==> IsOneOf(no, n) || no == DocNo(Trips.TRIP_TAG, 0, n + 1)
  {
    if no == DocNo(Trips.TRIP_TAG, 0, n + 1) {
      assert IsOneOf(no, n + 1);
    }
  }

  lemma {:induction false} ManyTrips(n: nat) returns (db: DB)
    requires n <= 10000
    ensures Theorems.Reachable(db, 0) && 1 in db.users && FirstNumbers(db.trips, n)
  {
    if n == 0 {
      db := CompanyWithCenters();
      assert forall no: string :: !IsOneOf(no, 0);
    } else {
      var before := ManyTrips(n - 1);
      ReachableTripIds(before, 0);
      NextOfFirstNumbers(before, n - 1);
      TripIsCreated(before, DocNo(Trips.TRIP_TAG, 0, n));
      ReachableStep(before, 0, A_TRIP);
      db := Step(before, A_TRIP);
      OneMoreNumber(before, db, n - 1);
    }
  }

  lemma ReachableTripIds(db: DB, today: int)
    requires Theorems.Reachable(db, today)
    ensures NumberingOk(db) && db.nextTrip !in db.trips
  {
    Theorems.ReachableIsOk(db, today);
  }

  /** A reachable state in which a sound request is refused: the ten-thousand-and-first trip of a year. */
  lemma NumbersRunOut()
    ensures exists db, env, caller, form ::
      && Theorems.Reachable(db, 0) && caller in db.users && Theorems.SoundTrip(env, form)
      && Trips.CreateTrip(db, env, caller, form) == Err(InternalError)
  {
    var db := ManyTrips(10000);
    forall m: nat ensures DocNo(Trips.TRIP_TAG, 0, m) in TripNos(db.trips).Values <==> 1 <= m <= 10000 {
      FirstNumbersMean(db.trips, 10000, 0, m);
    }
    TenThousandRollsOver(Trips.TRIP_TAG, TripNos(db.trips), 0);
    TripCodesHold();
    Theorems.TripCreationSucceedsExactlyWhen(db, 0, DAY_ONE, 1, A_FORM);
    assert Trips.CreateTrip(db, DAY_ONE, 1, A_FORM) == Err(InternalError);
  }
}
