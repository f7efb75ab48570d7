/** Trip rules: the transition table, the actor table, and the checks that return or raise. */
module TripRules {
  import opened Common
  import opened Tables

  function AllowedTransitions(current: TripStatus): set<TripStatus> {
    match current
    case Draft => {TripStatus.Submitted}
    case Submitted => {TripStatus.Approved, TripStatus.Rejected}
    case Rejected => {TripStatus.Draft}
    case Approved => {TripStatus.Completed}
    case Completed => {TripStatus.Settled}
    case Settled => {}
  }

  datatype TransitionActor = Owner | Approver | System

  function ActorOf(current: TripStatus, target: TripStatus): Option<TransitionActor> {
    match (current, target)
    case (Draft, Submitted) => Some(Owner)
    case (Submitted, Approved) => Some(Approver)
    case (Submitted, Rejected) => Some(Approver)
    case (Rejected, Draft) => Some(Owner)
    case (Approved, Completed) => Some(Owner)
    case (Completed, Settled) => Some(System)
    case _ => None
  }

  /** The import-time guard: the actor table has an entry for exactly the allowed transitions. */
  lemma ActorTableIsComplete(current: TripStatus, target: TripStatus)
    ensures target in AllowedTransitions(current) <==> ActorOf(current, target).Some?
  {
  }

  predicate Editable(s: TripStatus) {
    s in {TripStatus.Draft, TripStatus.Rejected}
  }

  predicate CanView(user: Id, role: Role, owner: Id, approver: Option<Id>) {
    role.Admin? || user == owner || approver == Some(user)
  }

  function AssertDateRange(startDate: int, endDate: int): Result<()> {
    Check(startDate <= endDate, InvalidDateRange)
  }

  function AssertTripTransition(current: TripStatus, target: TripStatus): Result<()> {
    Check(target in AllowedTransitions(current), TripInvalidTransition)
  }

  function AssertTransitionAllowed(
    current: TripStatus, target: TripStatus, user: Id, owner: Id, approver: Option<Id>): (r: Result<()>)
    ensures r.Ok? <==>
      || (ActorOf(current, target) == Some(Owner) && user == owner)
      || (ActorOf(current, target) == Some(Approver) && approver == Some(user))
  {
    var _ :- AssertTripTransition(current, target);
    ActorTableIsComplete(current, target);
    match ActorOf(current, target).value
    case Owner => Check(user == owner, NotTripOwner)
    case Approver => Check(approver == Some(user), NotTripApprover)
    case System => Err(SystemTransitionOnly)
  }

  function AssertSystemTransition(current: TripStatus, target: TripStatus): (r: Result<()>)
    ensures r.Ok? <==> ActorOf(current, target) == Some(System)
  {
    var _ :- AssertTripTransition(current, target);
    ActorTableIsComplete(current, target);
    Check(ActorOf(current, target).value.System?, UserTransitionOnly)
  }

  function AssertRejectReason(reason: string): (r: Result<string>)
    ensures r.Ok? <==> Strip(reason) != ""
    ensures r.Ok? ==> Strip(r.value) != ""
  {
    var text := Strip(reason);
    if text == "" then Err(RejectReasonRequired) else Ok(text)
  }

  function AssertHasApprover(manager: Option<Id>): Result<Id> {
    match manager
    case None => Err(NoApprover)
    case Some(id) => Ok(id)
  }
}

/** Expense report rules. */
module ExpenseRules {
  import opened Common
  import opened Tables
  import opened TripRules

  function AllowedReportTransitions(current: ReportStatus): set<ReportStatus> {
    match current
    case Draft => {ReportStatus.Submitted}
    case Submitted => {ReportStatus.Approved, ReportStatus.Rejected}
    case Rejected => {ReportStatus.Draft}
    case Approved => {}
  }

  function ReportActorOf(current: ReportStatus, target: ReportStatus): Option<TransitionActor> {
    match (current, target)
    case (Draft, Submitted) => Some(Owner)
    case (Submitted, Approved) => Some(Approver)
    case (Submitted, Rejected) => Some(Approver)
    case (Rejected, Draft) => Some(Owner)
    case _ => None
  }

  lemma ReportActorTableIsComplete(current: ReportStatus, target: ReportStatus)
    ensures target in AllowedReportTransitions(current) <==> ReportActorOf(current, target).Some?
  {
  }

  function AssertReportTransitionAllowed(
    current: ReportStatus, target: ReportStatus, user: Id, owner: Id, approver: Option<Id>): (r: Result<()>)
    ensures r.Ok? <==>
      || (ReportActorOf(current, target) == Some(Owner) && user == owner)
      || (ReportActorOf(current, target) == Some(Approver) && approver == Some(user))
  {
    var _ :- Check(target in AllowedReportTransitions(current), ExpenseInvalidTransition);
    ReportActorTableIsComplete(current, target);
    match ReportActorOf(current, target).value
    case Owner => Check(user == owner, NotExpenseOwner)
    case Approver => Check(approver == Some(user), NotExpenseApprover)
    case System => Err(SystemTransitionOnly)
  }

  predicate ReportEditable(s: ReportStatus) {
    s in {ReportStatus.Draft, ReportStatus.Rejected}
  }

  predicate Reportable(s: TripStatus) {
    s in {TripStatus.Approved, TripStatus.Completed}
  }

  // Amounts: the bounds as the callers see them, and as the columns hold them.

  const MAX_ITEM_AMOUNT: real := 9999999999.99
  const MAX_ITEM_CENTS := 999999999999
  const MAX_TOTAL_CENTS := 99999999999999

  function AssertItemAmount(amount: real): Result<()> {
    Check(0.0 <= amount <= MAX_ITEM_AMOUNT, InvalidAmount)
  }

  /** Storing an amount rounds it half away from zero to two decimals. */
  function StoredCents(amount: real): int {
    if amount >= 0.0 then (amount * 100.0 + 0.5).Floor else -((-amount * 100.0 + 0.5).Floor)
  }

  /** An amount passes exactly from zero to the largest amount; it is in range after rounding, too, and is off by at
      most half a hundredth, a half being rounded up. */
  lemma StoredAmountStaysInRange(amount: real)
    ensures AssertItemAmount(amount).Ok? <==> 0.0 <= amount <= 9999999999.99
    ensures AssertItemAmount(amount).Ok? ==>
      && 0 <= StoredCents(amount) <= 999999999999
      && -0.5 < StoredCents(amount) as real - amount * 100.0 <= 0.5
  {
    if AssertItemAmount(amount).Ok? {
      assert amount * 100.0 <= 999999999999.0;
    }
  }

  /** A card transaction's own amount is stored unchanged. */
  lemma StoredCentsOfCents(cents: int)
    ensures StoredCents(cents as real / 100.0) == cents
  {
    var x := cents as real / 100.0;
    assert x * 100.0 == cents as real;
  }

  function AssertReportTotal(total: int): Result<()> {
    Check(total <= MAX_TOTAL_CENTS, TotalAmountExceeded)
  }

  function AssertCentersPresent(fund: Option<string>, cost: Option<string>): Result<()> {
    var _ :- Check(fund.Some? && Strip(fund.value) != "", CenterRequired);
    Check(cost.Some? && Strip(cost.value) != "", CenterRequired)
  }

  /** `sum_included` over the items of one report, read in id order below `bound`. */
  function SumIncluded(items: map<Id, Item>, report: Id, bound: nat): int {
    if bound == 0 then 0
    else
      var id := bound - 1;
      SumIncluded(items, report, id)
      + if id in items && items[id].reportId == report && !items[id].isExcluded then items[id].amount else 0
  }

  predicate HasIncluded(items: map<Id, Item>, report: Id) {
    exists id | id in items :: items[id].reportId == report && !items[id].isExcluded
  }
}

/** The sign-up status machine. */
module UserStatusRules {
  import opened Common
  import opened Tables

  datatype SignupActor = Administrator | Applicant

  function AllowedSignupTransitions(current: UserStatus): set<UserStatus> {
    match current
    case Pending => {UserStatus.Active, UserStatus.Rejected}
    case Rejected => {UserStatus.Pending}
    case Active => {}
  }

  function SignupActorOf(current: UserStatus, target: UserStatus): Option<SignupActor> {
    match (current, target)
    case (Pending, Active) => Some(Administrator)
    case (Pending, Rejected) => Some(Administrator)
    case (Rejected, Pending) => Some(Applicant)
    case _ => None
  }

  function AssertSignupTransition(current: UserStatus, target: UserStatus, actor: SignupActor): (r: Result<()>)
    ensures r.Ok? <==> SignupActorOf(current, target) == Some(actor)
  {
    var _ :- Check(target in AllowedSignupTransitions(current), UserInvalidTransition);
    assert SignupActorOf(current, target).Some?;
    Check(actor == SignupActorOf(current, target).value, WrongTransitionActor)
  }
}
