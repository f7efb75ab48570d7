/** The append-only log and the notifications, written together, and the reader that replays them. */
module History {
  import opened Common
  import opened Tables
  import TripRules
  import ExpenseRules

  /** The notification actually sent: none to the actor about their own action. */
  function Delivered(actor: Id, notify: Option<Notification>): seq<Notification> {
    if notify.Some? && notify.value.user != actor then [notify.value] else []
  }

  /** `record_transition`: one log entry and at most one notification. */
  function Record(db: DB, e: LogEntry, notify: Option<Notification>): DB {
    db.(log := db.log + [e], notes := db.notes + Delivered(e.actor, notify))
  }

  // ---------------------------------------------------------------------------
  // Reading one entity's history back

  /** The log entries of one entity, oldest first. */
  function Trail(log: seq<LogEntry>, x: Entity): seq<LogEntry> {
    if log == [] then []
    else
      var last := log[|log| - 1];
      Trail(log[..|log| - 1], x) + if last.entity == x then [last] else []
  }

  /** The notifications that link to one entity, oldest first. */
  function Mail(notes: seq<Notification>, x: Entity): seq<Notification> {
    if notes == [] then []
    else
      var last := notes[|notes| - 1];
      Mail(notes[..|notes| - 1], x) + if last.link == x then [last] else []
  }

  predicate Edge(from: Status, to: Status) {
    match (from, to)
    case (OfTrip(f), OfTrip(t)) => t in TripRules.AllowedTransitions(f)
    case (OfReport(f), OfReport(t)) => t in ExpenseRules.AllowedReportTransitions(f)
    case _ => false
  }

  function Initial(x: Entity): Status {
    if x.TripRef? then OfTrip(TripStatus.Draft) else OfReport(ReportStatus.Draft)
  }

  predicate InDraft(s: Status) {
    s == OfTrip(TripStatus.Draft) || s == OfReport(ReportStatus.Draft)
  }

  predicate InRejected(s: Status) {
    s == OfTrip(TripStatus.Rejected) || s == OfReport(ReportStatus.Rejected)
  }

  predicate Mailed(a: Action) {
    a in {Action.Submit, Action.Approve, Action.Reject}
  }

  function KindOf(x: Entity, a: Action): NotificationType
    requires Mailed(a)
  {
    match a
    case Submit => if x.TripRef? then TripSubmitted else ExpenseSubmitted
    case Approve => if x.TripRef? then TripApproved else ExpenseApproved
    case _ => if x.TripRef? then TripRejected else ExpenseRejected
  }

  /** The status an action leads to. */
  function Target(x: Entity, a: Action, current: Status): Status {
    match a
    case Create => Initial(x)
    case Update => if InRejected(current) then Initial(x) else current
    case Submit => if x.TripRef? then OfTrip(TripStatus.Submitted) else OfReport(ReportStatus.Submitted)
    case Approve => if x.TripRef? then OfTrip(TripStatus.Approved) else OfReport(ReportStatus.Approved)
    case Reject => if x.TripRef? then OfTrip(TripStatus.Rejected) else OfReport(ReportStatus.Rejected)
    case Complete => OfTrip(TripStatus.Completed)
    case Settle => OfTrip(TripStatus.Settled)
  }

  /** What a reader of the history knows about an entity: nothing yet, or its status, its owner, and the person
      the last submission went to. */
  datatype View = Blank | View(status: Status, owner: Id, approver: Option<Id>)

  /** One step of the reader. `None` means that the history is not one the workflow can have written:
      a gap in the chain, an illegal edge, the wrong actor, or a missing or misdirected notification. */
  function Advance(v: View, e: LogEntry, mail: Option<Notification>): Option<View> {
    if v.Blank? then
      if e.action.Create? && e.from == None && e.to == Initial(e.entity) && mail == None
      then Some(View(e.to, e.actor, None)) else None
    else if e.from != Some(v.status) then None
    else match e.action
      case Create => None
      case Update =>
        if e.actor != v.owner || mail.Some? then None
        else if e.to == v.status && (InDraft(v.status) || InRejected(v.status)) then Some(v)
        else if InRejected(v.status) && Edge(v.status, e.to) then Some(View(e.to, v.owner, None))
        else None
      case Submit =>
        if e.to == Target(e.entity, Action.Submit, v.status) && Edge(v.status, e.to) && e.actor == v.owner
           && mail.Some? && mail.value.user != v.owner
           && mail.value == Notification(mail.value.user, KindOf(e.entity, Action.Submit), e.entity)
        then Some(View(e.to, v.owner, Some(mail.value.user))) else None
      case Complete =>
        if e.to == Target(e.entity, Action.Complete, v.status) && Edge(v.status, e.to) && e.actor == v.owner
           && mail == None
        then Some(View(e.to, v.owner, v.approver)) else None
      case Settle =>
        if e.to == Target(e.entity, Action.Settle, v.status) && Edge(v.status, e.to)
           && v.approver == Some(e.actor) && mail == None
        then Some(View(e.to, v.owner, v.approver)) else None
      case _ =>  // Approve, Reject
        if e.to == Target(e.entity, e.action, v.status) && Edge(v.status, e.to) && v.approver == Some(e.actor)
           && mail == Some(Notification(v.owner, KindOf(e.entity, e.action), e.entity))
        then Some(View(e.to, v.owner, v.approver)) else None
  }

  /** Replays a trail against the mail it sent; every mailed action consumes exactly one notification. */
  function Replay(trail: seq<LogEntry>, mail: seq<Notification>): Option<View> {
    if trail == [] then
      if mail == [] then Some(Blank) else None
    else
      var n, e := |trail| - 1, trail[|trail| - 1];
      if !Mailed(e.action) then
        var v := Replay(trail[..n], mail);
        if v.None? then None else Advance(v.value, e, None)
      else if mail == [] then None
      else
        var m := |mail| - 1;
        var v := Replay(trail[..n], mail[..m]);
        if v.None? then None else Advance(v.value, e, Some(mail[m]))
  }

  /** The whole history of one entity replays to the given view. */
  predicate Tells(log: seq<LogEntry>, notes: seq<Notification>, x: Entity, v: View) {
    Replay(Trail(log, x), Mail(notes, x)) == Some(v)
  }

  // ---------------------------------------------------------------------------
  // Appending

  lemma TrailAppend(log: seq<LogEntry>, e: LogEntry, x: Entity)
    ensures Trail(log + [e], x) == Trail(log, x) + if e.entity == x then [e] else []
  {
    assert (log + [e])[..|log|] == log;
  }

  lemma MailAppend(notes: seq<Notification>, sent: seq<Notification>, x: Entity)
    requires |sent| <= 1
    ensures Mail(notes + sent, x) == Mail(notes, x) + if sent != [] && sent[0].link == x then sent else []
  {
    if sent == [] {
      assert notes + sent == notes;
    } else {
      assert (notes + sent)[..|notes|] == notes;
      assert sent == [sent[0]];
    }
  }

  /** Recording an entry of one entity leaves the history of every other entity as it was. */
  lemma RecordKeepsOthers(db: DB, e: LogEntry, notify: Option<Notification>, x: Entity)
    requires x != e.entity && (notify.Some? ==> notify.value.link == e.entity)
    ensures Trail(Record(db, e, notify).log, x) == Trail(db.log, x)
    ensures Mail(Record(db, e, notify).notes, x) == Mail(db.notes, x)
  {
    TrailAppend(db.log, e, x);
    MailAppend(db.notes, Delivered(e.actor, notify), x);
  }

  lemma ReplaySnoc(trail: seq<LogEntry>, mail: seq<Notification>, v: View, e: LogEntry, note: Option<Notification>,
                   v': View)
    requires Replay(trail, mail) == Some(v) && (Mailed(e.action) <==> note.Some?) && Advance(v, e, note) == Some(v')
    ensures Replay(trail + [e], mail + if note.Some? then [note.value] else []) == Some(v')
  {
    assert (trail + [e])[..|trail|] == trail;
    if note.Some? {
      assert (mail + [note.value])[..|mail|] == mail;
    } else {
      assert mail + [] == mail;
    }
  }

  /** Recording an entry advances the reader of that entity by one step, provided that an action that must be
      mailed really was: a notification to the actor would have been dropped. */
  lemma RecordAdvances(db: DB, e: LogEntry, notify: Option<Notification>, v: View, v': View)
    requires Tells(db.log, db.notes, e.entity, v)
    requires Mailed(e.action) <==> notify.Some?
    requires notify.Some? ==> notify.value.link == e.entity && notify.value.user != e.actor
    requires Advance(v, e, notify) == Some(v')
    ensures Tells(Record(db, e, notify).log, Record(db, e, notify).notes, e.entity, v')
  {
    TrailAppend(db.log, e, e.entity);
    MailAppend(db.notes, Delivered(e.actor, notify), e.entity);
    ReplaySnoc(Trail(db.log, e.entity), Mail(db.notes, e.entity), v, e, notify, v');
  }

  /** An entity the log and the mail never mention has an empty history. */
  lemma {:induction false} UnmentionedIsBlank(log: seq<LogEntry>, notes: seq<Notification>, x: Entity)
    requires forall i | 0 <= i < |log| :: log[i].entity != x
    requires forall i | 0 <= i < |notes| :: notes[i].link != x
    ensures Trail(log, x) == [] && Mail(notes, x) == [] && Tells(log, notes, x, Blank)
  {
    if log != [] {
      UnmentionedIsBlank(log[..|log| - 1], notes, x);
    } else if notes != [] {
      UnmentionedIsBlank(log, notes[..|notes| - 1], x);
    }
  }

  // ---------------------------------------------------------------------------
  // What a successful replay says about the trail

  lemma ReplayStep(trail: seq<LogEntry>, mail: seq<Notification>, v: View)
    returns (v0: View, mail0: seq<Notification>, note: Option<Notification>)
    requires trail != [] && Replay(trail, mail) == Some(v)
    ensures Replay(trail[..|trail| - 1], mail0) == Some(v0)
    ensures Advance(v0, trail[|trail| - 1], note) == Some(v)
    ensures Mailed(trail[|trail| - 1].action) <==> note.Some?
    ensures mail == mail0 + if note.Some? then [note.value] else []
  {
    var n, e := |trail| - 1, trail[|trail| - 1];
    if Mailed(e.action) {
      mail0, note := mail[..|mail| - 1], Some(mail[|mail| - 1]);
    } else {
      mail0, note := mail, None;
    }
    v0 := Replay(trail[..n], mail0).value;
  }

  /** The chain condition of one step. */
  lemma AdvanceFollowsTheTable(v: View, e: LogEntry, note: Option<Notification>, v': View)
    requires Advance(v, e, note) == Some(v')
    ensures v'.View? && e.to == v'.status
    ensures v.Blank? ==> e.action == Create && e.from == None && InDraft(e.to) && v'.owner == e.actor
    ensures v.View? ==> e.action != Create && v'.owner == v.owner && e.from == Some(v.status)
    ensures v.View? ==> Edge(v.status, e.to) || (e.action == Update && e.to == v.status)
  {
  }

  predicate UnderReview(s: Status) {
    s in {OfTrip(TripStatus.Submitted), OfReport(ReportStatus.Submitted)}
  }

  /** The mail and actor condition of one step. */
  lemma AdvanceChecksTheActor(v: View, e: LogEntry, note: Option<Notification>, v': View)
    requires Advance(v, e, note) == Some(v')
    ensures e.action == Submit ==>
      && v.View? && note.Some? && e.actor == v.owner && note.value.user != v.owner
      && v'.approver == Some(note.value.user)
    ensures e.action in {Action.Approve, Action.Reject} ==>
      && v.View? && note.Some? && v.approver == Some(e.actor)
      && UnderReview(v.status) && note.value.user == v.owner
    ensures Mailed(e.action) ==> note.value.kind == KindOf(e.entity, e.action) && note.value.link == e.entity
    ensures v'.approver == None || (e.action == Submit && note.Some?) || (v.View? && v'.approver == v.approver)
    ensures UnderReview(v'.status) <==> e.action == Submit
  {
  }

  /** The chain is unbroken: it starts at creation, each entry starts where the previous one ended and is an edge of
      the transition table or an update in place, and it ends in the status of the view. */
  ghost predicate Unbroken(trail: seq<LogEntry>, v: View) {
    && (v.Blank? <==> trail == [])
    && (trail != [] ==> trail[0].from == None && trail[0].action == Create && InDraft(trail[0].to))
    && (trail != [] ==> trail[|trail| - 1].to == v.status && trail[0].actor == v.owner)
    && forall i | 0 < i < |trail| ::
         && trail[i].from == Some(trail[i - 1].to)
         && (Edge(trail[i - 1].to, trail[i].to) || (trail[i].action == Update && trail[i].to == trail[i - 1].to))
  }

  lemma {:induction false} ReplayIsUnbroken(trail: seq<LogEntry>, mail: seq<Notification>, v: View)
    requires Replay(trail, mail) == Some(v)
    ensures Unbroken(trail, v)
  {
    if trail != [] {
      var n := |trail| - 1;
      var v0, mail0, note := ReplayStep(trail, mail, v);
      ReplayIsUnbroken(trail[..n], mail0, v0);
      AdvanceFollowsTheTable(v0, trail[n], note, v);
      UnbrokenSnoc(trail[..n], v0, trail[n], v);
      assert trail == trail[..n] + [trail[n]];
    }
  }

  lemma UnbrokenSnoc(trail: seq<LogEntry>, v: View, e: LogEntry, v': View)
    requires Unbroken(trail, v) && v'.View? && e.to == v'.status
    requires v.Blank? ==> e.action == Create && e.from == None && InDraft(e.to) && v'.owner == e.actor
    requires v.View? ==> v'.owner == v.owner && e.from == Some(v.status)
    requires v.View? ==> Edge(v.status, e.to) || (e.action == Update && e.to == v.status)
    ensures Unbroken(trail + [e], v')
  {
  }

  /** How many of the first `n` entries were mailed. */
  function MailedCount(trail: seq<LogEntry>, n: nat): nat
    requires n <= |trail|
  {
    if n == 0 then 0 else MailedCount(trail, n - 1) + if Mailed(trail[n - 1].action) then 1 else 0
  }

  lemma {:induction false} MailedCountOfPrefix(trail: seq<LogEntry>, k: nat, n: nat)
    requires n <= k <= |trail|
    ensures MailedCount(trail[..k], n) == MailedCount(trail, n)
    ensures MailedCount(trail, n) <= MailedCount(trail, k)
    decreases k, n
  {
    if n > 0 {
      MailedCountOfPrefix(trail, k, n - 1);
    }
    if n < k {
      MailedCountOfPrefix(trail, k - 1, n);
    }
  }

  /** The mail of entry `i`, the `MailedCount(trail, i)`-th mailed one. A submission, made by the owner, is announced
      to somebody else; a decision is announced to the owner, and was made by the person, never the owner, to whom the
      submission just before it was sent. */
  ghost predicate EntryMailed(trail: seq<LogEntry>, mail: seq<Notification>, i: nat)
    requires i < |trail| && Mailed(trail[i].action)
  {
    var k, e, owner := MailedCount(trail, i), trail[i], trail[0].actor;
    && k < |mail| && mail[k].kind == KindOf(e.entity, e.action) && mail[k].link == e.entity
    && (e.action == Submit ==> e.actor == owner && mail[k].user != owner)
    && (e.action != Submit ==>
          && e.actor != owner && mail[k].user == owner
          && 0 < k && mail[k - 1].user == e.actor && mail[k - 1].kind == KindOf(e.entity, Action.Submit))
  }

  /** Notifications and mailed entries correspond one to one and in order. */
  ghost predicate ProperlyMailed(trail: seq<LogEntry>, mail: seq<Notification>) {
    && MailedCount(trail, |trail|) == |mail|
    && forall i: nat | i < |trail| && Mailed(trail[i].action) :: EntryMailed(trail, mail, i)
  }

  /** The view's approver is the addressee of the latest submission, never the owner, and the latest mail while the
      entity is under review. */
  ghost predicate ApproverIsAddressee(trail: seq<LogEntry>, mail: seq<Notification>, v: View, x: Entity) {
    v.View? ==>
      && v.approver != Some(v.owner)
      && (UnderReview(v.status) ==>
            && mail != [] && v.approver == Some(mail[|mail| - 1].user)
            && mail[|mail| - 1].kind == KindOf(x, Action.Submit))
  }

  lemma {:induction false} ReplayIsProperlyMailed(trail: seq<LogEntry>, mail: seq<Notification>, v: View, x: Entity)
    requires Replay(trail, mail) == Some(v)
    requires forall i | 0 <= i < |trail| :: trail[i].entity == x
    ensures ProperlyMailed(trail, mail) && ApproverIsAddressee(trail, mail, v, x)
  {
    if trail != [] {
      var n := |trail| - 1;
      var v0, mail0, note := ReplayStep(trail, mail, v);
      ReplayIsProperlyMailed(trail[..n], mail0, v0, x);
      ReplayIsUnbroken(trail[..n], mail0, v0);
      AdvanceFollowsTheTable(v0, trail[n], note, v);
      AdvanceChecksTheActor(v0, trail[n], note, v);
      ProperlyMailedSnoc(trail[..n], mail0, v0, trail[n], note, v, x);
      assert trail == trail[..n] + [trail[n]];
    }
  }

  lemma ProperlyMailedSnoc(
    trail: seq<LogEntry>, mail: seq<Notification>, v: View, e: LogEntry, note: Option<Notification>, v': View,
    x: Entity)
    requires ProperlyMailed(trail, mail) && ApproverIsAddressee(trail, mail, v, x) && Unbroken(trail, v)
    requires e.entity == x && v'.View? && (v.View? ==> v'.owner == v.owner)
    requires v.Blank? ==> e.action == Create
    requires Mailed(e.action) <==> note.Some?
    requires e.action == Submit ==>
      e.actor == v.owner && note.value.user != v.owner && v'.approver == Some(note.value.user)
    requires e.action in {Action.Approve, Action.Reject} ==>
      v.approver == Some(e.actor) && UnderReview(v.status) && note.value.user == v.owner
    requires Mailed(e.action) ==> note.value.kind == KindOf(e.entity, e.action) && note.value.link == e.entity
    requires v'.approver == None || (e.action == Submit && note.Some?) || (v.View? && v'.approver == v.approver)
    requires UnderReview(v'.status) <==> e.action == Submit
    ensures var mail' := mail + if note.Some? then [note.value] else [];
      ProperlyMailed(trail + [e], mail') && ApproverIsAddressee(trail + [e], mail', v', x)
  {
    var n, trail' := |trail|, trail + [e];
    var mail' := mail + if note.Some? then [note.value] else [];
    assert trail'[..n] == trail;
    MailedCountOfPrefix(trail', n, n);
    forall i: nat | i < |trail'| && Mailed(trail'[i].action)
      ensures EntryMailed(trail', mail', i)
    {
      if i < n {
        MailedCountOfPrefix(trail', n, i);
        assert EntryMailed(trail, mail, i);
      }
    }
  }

  lemma {:induction false} TrailIsAboutEntity(log: seq<LogEntry>, x: Entity)
    ensures forall i | 0 <= i < |Trail(log, x)| :: Trail(log, x)[i].entity == x
  {
    if log != [] {
      TrailIsAboutEntity(log[..|log| - 1], x);
    }
  }
}
