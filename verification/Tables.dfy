/** The tables of the system as one value. Rows are records in maps keyed by surrogate id; ids are handed out by
    counters that never go back, as database sequences do. Centers are keyed by their unique, immutable code. */
module Tables {
  import opened Common
  import opened Codes

  datatype TripStatus = Draft | Submitted | Approved | Rejected | Completed | Settled
  datatype ReportStatus = Draft | Submitted | Approved | Rejected
  datatype UserStatus = Pending | Active | Rejected
  datatype Role = Employee | Manager | Admin

  datatype User = User(
    email: string, passwordHash: string, name: string, employeeNo: Option<string>, department: Id,
    position: Option<string>, manager: Option<Id>, role: Role, status: UserStatus, isActive: bool)

  datatype Trip = Trip(
    no: string, owner: Id, title: string, purpose: string, destination: string, country: string,
    startDate: int, endDate: int, costCenter: Option<string>, status: TripStatus, approver: Option<Id>,
    submittedAt: Option<int>, approvedAt: Option<int>, rejectReason: Option<string>)

  /** Amounts are stored in hundredths of a won, the precision of the columns. */
  datatype Report = Report(
    no: string, tripId: Id, owner: Id, status: ReportStatus, fundCenter: Option<string>,
    costCenter: Option<string>, total: int, approver: Option<Id>,
    submittedAt: Option<int>, approvedAt: Option<int>, rejectReason: Option<string>)

  datatype Item = Item(
    reportId: Id, transaction: Option<Id>, category: string, amount: int, isExcluded: bool,
    fundCenter: Option<string>, costCenter: Option<string>)

  /** `approvedAt` is an instant in microseconds since the epoch. */
  datatype Transaction = Transaction(
    card: Id, approvedAt: int, merchant: string, category: string, amount: int, isCancelled: bool)

  // The log and the notifications

  datatype Entity = TripRef(id: Id) | ReportRef(id: Id)
  datatype Status = OfTrip(trip: TripStatus) | OfReport(report: ReportStatus)
  datatype Action = Create | Update | Submit | Approve | Reject | Complete | Settle
  datatype LogEntry = LogEntry(entity: Entity, actor: Id, action: Action, from: Option<Status>, to: Status)
  datatype NotificationType =
    | TripSubmitted | TripApproved | TripRejected | ExpenseSubmitted | ExpenseApproved | ExpenseRejected
  datatype Notification = Notification(user: Id, kind: NotificationType, link: Entity)

  datatype DB = DB(
    users: map<Id, User>, cards: map<Id, Id>, transactions: map<Id, Transaction>,
    funds: map<string, bool>, costs: map<string, bool>,
    trips: map<Id, Trip>, reports: map<Id, Report>, items: map<Id, Item>,
    log: seq<LogEntry>, notes: seq<Notification>,
    nextUser: Id, nextCard: Id, nextTransaction: Id, nextTrip: Id, nextReport: Id, nextItem: Id)

  const EMPTY := DB(map[], map[], map[], map[], map[], map[], map[], map[], [], [], 0, 0, 0, 0, 0, 0)

  /** What a call reads besides the tables: the clocks, and the reference data other services maintain. */
  datatype Env = Env(now: int, today: int, year: nat, utcYear: nat, codes: CodeTable, departments: set<Id>)

  /** One field of a PATCH body: not sent, sent as null, or sent with a value. */
  datatype Field<+T> = Unset | Null | Set(value: T) {
    /** `changes.get(name, current)` */
    function Over(current: T): Option<T> {
      match this
      case Unset => Some(current)
      case Null => None
      case Set(v) => Some(v)
    }
  }

  /** The write to a nullable column. */
  function OverNullable<T>(f: Field<T>, current: Option<T>): Option<T> {
    match f
    case Unset => current
    case Null => None
    case Set(v) => Some(v)
  }

  function TripNos(trips: map<Id, Trip>): map<Id, string> {
    map id | id in trips :: trips[id].no
  }

  function ReportNos(reports: map<Id, Report>): map<Id, string> {
    map id | id in reports :: reports[id].no
  }

  predicate HasReport(reports: map<Id, Report>, trip: Id) {
    exists id | id in reports :: reports[id].tripId == trip
  }
}
