/** Matching card transactions to a trip: local calendar days, a window of one day around the trip, a deterministic
    order, and the coarser window in UTC days that the database is asked for. */
module Matching {
  import opened Common

  /** Days are day numbers since the epoch. */
  const HOUR := 3_600_000_000

  /** The offset from UTC in force at an instant. */
  type Zone = int -> int

  /** Korean time, as in force since October 1988. */
  const KST: Zone := t => 9 * HOUR

  function DayIn(zone: Zone, instant: int): int {
    (instant + zone(instant)) / DAY
  }

  function KoreanDay(instant: int): int {
    DayIn(KST, instant)
  }

  datatype Moment = Aware(instant: int) | Naive(wallClock: int)

  /** The calendar day of an instant; a moment without a time zone is refused. */
  function LocalDate(m: Moment, zone: Zone): Result<int> {
    match m
    case Aware(t) => Ok(DayIn(zone, t))
    case Naive(_) => Err(InternalError)
  }

  datatype View = View(id: Id, approvedAt: Moment, category: string, amount: int, isCancelled: bool)

  datatype Reason = DayBeforeFare | DayBefore | DayAfterFare | DayAfter | DuringTrip | DuringStay

  datatype Candidate = Candidate(transactionId: Id, reasons: seq<Reason>, suggested: string)

  /** A picked transaction with its sort key. */
  datatype Pick = Pick(at: int, id: Id, candidate: Candidate)

  function SuggestCategory(category: string): string {
    if category in {"MEAL", "TRANSPORT", "LODGING", "ENTERTAIN", "ETC"} then category else "ETC"
  }

  function Reasons(day: int, startDate: int, endDate: int, category: string): seq<Reason> {
    if day < startDate then (if category == "TRANSPORT" then [DayBeforeFare] else [DayBefore])
    else if day > endDate then (if category == "TRANSPORT" then [DayAfterFare] else [DayAfter])
    else if category == "LODGING" then [DuringTrip, DuringStay]
    else [DuringTrip]
  }

  function DayOf(v: View, zone: Zone): int
    requires v.approvedAt.Aware?
  {
    DayIn(zone, v.approvedAt.instant)
  }

  predicate Considered(v: View, excluded: set<Id>) {
    !v.isCancelled && v.id !in excluded
  }

  predicate InWindow(day: int, startDate: int, endDate: int) {
    startDate - 1 <= day <= endDate + 1
  }

  function PickOf(v: View, startDate: int, endDate: int, zone: Zone): Pick
    requires v.approvedAt.Aware?
  {
    Pick(v.approvedAt.instant, v.id,
         Candidate(v.id, Reasons(DayOf(v, zone), startDate, endDate, v.category), SuggestCategory(v.category)))
  }

  // ---------------------------------------------------------------------------
  // Order

  predicate Before(x: Pick, y: Pick) {
    x.at < y.at || (x.at == y.at && x.id < y.id)
  }

  predicate SortedPicks(s: seq<Pick>) {
    forall i, j | 0 <= i < j < |s| :: !Before(s[j], s[i])
  }

  predicate StrictlySorted(s: seq<Pick>) {
    forall i, j | 0 <= i < j < |s| :: Before(s[i], s[j])
  }

  /** Stable insertion: a new element goes in front of those with an equal key. */
  function Insert(x: Pick, s: seq<Pick>): (r: seq<Pick>)
    ensures multiset(r) == multiset(s) + multiset{x}
  {
    if s == [] || !Before(s[0], x) then
      assert multiset([x] + s) == multiset{x} + multiset(s);
      [x] + s
    else
      assert s == [s[0]] + s[1..];
      [s[0]] + Insert(x, s[1..])
  }

  /** `picked.sort(key=(approved_at, id))` */
  function Sorted(s: seq<Pick>): (r: seq<Pick>)
    ensures multiset(r) == multiset(s)
  {
    if s == [] then []
    else
      assert s == [s[0]] + s[1..];
      Insert(s[0], Sorted(s[1..]))
  }

  lemma {:induction false} InsertKeepsSorted(x: Pick, s: seq<Pick>)
    requires SortedPicks(s)
    ensures SortedPicks(Insert(x, s))
  {
    if s != [] && Before(s[0], x) {
      InsertKeepsSorted(x, s[1..]);
      var rest := Insert(x, s[1..]);
      forall y | y in rest ensures !Before(y, s[0]) {
        assert y in multiset(rest);
        if y != x {
          assert y in s[1..];
        }
      }
    }
  }

  lemma {:induction false} SortedIsSorted(s: seq<Pick>)
    ensures SortedPicks(Sorted(s))
  {
    if s != [] {
      SortedIsSorted(s[1..]);
      InsertKeepsSorted(s[0], Sorted(s[1..]));
    }
  }

  lemma MultisetOfTail(s: seq<Pick>)
    requires s != []
    ensures multiset(s[1..]) == multiset(s) - multiset{s[0]}
  {
    assert s == [s[0]] + s[1..];
  }

  lemma SameHead(a: seq<Pick>, b: seq<Pick>)
    requires StrictlySorted(a) && StrictlySorted(b)
    requires multiset(a) == multiset(b) && a != []
    ensures b != [] && a[0] == b[0]
  {
    assert a[0] in multiset(b) && |multiset(a)| == |multiset(b)| && b[0] in multiset(a);
    var i :| 0 <= i < |b| && b[i] == a[0];
    var j :| 0 <= j < |a| && a[j] == b[0];
  }

  /** A strictly sorted sequence is determined by its elements. */
  lemma {:induction false} StrictOrderIsUnique(a: seq<Pick>, b: seq<Pick>)
    requires StrictlySorted(a) && StrictlySorted(b)
    requires multiset(a) == multiset(b)
    ensures a == b
  {
    if a == [] {
      assert |multiset(b)| == 0;
    } else {
      SameHead(a, b);
      MultisetOfTail(a);
      MultisetOfTail(b);
      StrictOrderIsUnique(a[1..], b[1..]);
      assert a == [a[0]] + a[1..] && b == [b[0]] + b[1..];
    }
  }

  // ---------------------------------------------------------------------------
  // The specification: filter, then sort

  /** The picks in input order, or an error at the first considered transaction without a time zone. */
  function Filtered(ts: seq<View>, startDate: int, endDate: int, excluded: set<Id>, zone: Zone): Result<seq<Pick>> {
    if ts == [] then Ok([])
    else
      var n, v := |ts| - 1, ts[|ts| - 1];
      var rest :- Filtered(ts[..n], startDate, endDate, excluded, zone);
      if !Considered(v, excluded) then Ok(rest)
      else
        var day :- LocalDate(v.approvedAt, zone);
        Ok(if InWindow(day, startDate, endDate) then rest + [PickOf(v, startDate, endDate, zone)] else rest)
  }

  function Picks(ts: seq<View>, startDate: int, endDate: int, excluded: set<Id>, zone: Zone): Result<seq<Pick>> {
    var picked :- Filtered(ts, startDate, endDate, excluded, zone);
    Ok(Sorted(picked))
  }

  function Candidates(picks: seq<Pick>): (r: seq<Candidate>)
    ensures |r| == |picks| && forall i | 0 <= i < |r| :: r[i] == picks[i].candidate
  {
    if picks == [] then [] else [picks[0].candidate] + Candidates(picks[1..])
  }

  /** The loop as written. */
  method FindCandidates(startDate: int, endDate: int, transactions: seq<View>, excluded: set<Id>, zone: Zone)
    returns (r: Result<seq<Candidate>>)
    ensures match Picks(transactions, startDate, endDate, excluded, zone)
      case Ok(picks) => r == Ok(Candidates(picks))
      case Err(e) => r == Err(e)
  {
    var windowStart, windowEnd := startDate - 1, endDate + 1;
    var picked: seq<Pick> := [];
    for i := 0 to |transactions|
      invariant Filtered(transactions[..i], startDate, endDate, excluded, zone) == Ok(picked)
    {
      var t := transactions[i];
      assert transactions[..i + 1][..i] == transactions[..i];
      if t.isCancelled || t.id in excluded {
        continue;
      }
      var day := LocalDate(t.approvedAt, zone);
      if day.Err? {
        FilteredFailsEarly(transactions, i + 1, startDate, endDate, excluded, zone);
        return Err(day.error);
      }
      if day.value < windowStart || day.value > windowEnd {
        continue;
      }
      picked := picked + [PickOf(t, startDate, endDate, zone)];
    }
    assert transactions[..|transactions|] == transactions;
    r := Ok(Candidates(Sorted(picked)));
  }

  lemma {:induction false} FilteredFailsEarly(
    ts: seq<View>, n: nat, startDate: int, endDate: int, excluded: set<Id>, zone: Zone)
    requires n <= |ts| && Filtered(ts[..n], startDate, endDate, excluded, zone).Err?
    ensures Filtered(ts, startDate, endDate, excluded, zone) == Filtered(ts[..n], startDate, endDate, excluded, zone)
    decreases |ts|
  {
    if n < |ts| {
      assert ts[..|ts| - 1][..n] == ts[..n];
      FilteredFailsEarly(ts[..|ts| - 1], n, startDate, endDate, excluded, zone);
    } else {
      assert ts[..n] == ts;
    }
  }

  // ---------------------------------------------------------------------------
  // What the candidates are

  predicate Chosen(v: View, startDate: int, endDate: int, excluded: set<Id>, zone: Zone) {
    Considered(v, excluded) && v.approvedAt.Aware? && InWindow(DayOf(v, zone), startDate, endDate)
  }

  ghost predicate DistinctIds(ts: seq<View>) {
    forall i, j | 0 <= i < j < |ts| :: ts[i].id != ts[j].id
  }

  ghost predicate PickedFrom(p: Pick, ts: seq<View>, startDate: int, endDate: int, excluded: set<Id>, zone: Zone) {
    exists v | v in ts :: Chosen(v, startDate, endDate, excluded, zone) && p == PickOf(v, startDate, endDate, zone)
  }

  ghost predicate DistinctPicks(ps: seq<Pick>) {
    forall i, j | 0 <= i < j < |ps| :: ps[i].id != ps[j].id
  }

  /** The picks are exactly those of the chosen transactions. */
  ghost predicate Exactly(
    ps: seq<Pick>, ts: seq<View>, startDate: int, endDate: int, excluded: set<Id>, zone: Zone)
  {
    && (forall p | p in ps :: PickedFrom(p, ts, startDate, endDate, excluded, zone))
    && (forall v | v in ts && Chosen(v, startDate, endDate, excluded, zone) ::
          PickOf(v, startDate, endDate, zone) in ps)
  }

  lemma ExactlyOneMore(
    ps: seq<Pick>, ts: seq<View>, v: View, startDate: int, endDate: int, excluded: set<Id>, zone: Zone)
    requires Exactly(ps, ts, startDate, endDate, excluded, zone)
    ensures Chosen(v, startDate, endDate, excluded, zone) ==>
      Exactly(ps + [PickOf(v, startDate, endDate, zone)], ts + [v], startDate, endDate, excluded, zone)
    ensures !Chosen(v, startDate, endDate, excluded, zone) ==>
      Exactly(ps, ts + [v], startDate, endDate, excluded, zone)
  {
    forall p | PickedFrom(p, ts, startDate, endDate, excluded, zone)
      ensures PickedFrom(p, ts + [v], startDate, endDate, excluded, zone)
    {
      var w :| w in ts && Chosen(w, startDate, endDate, excluded, zone) && p == PickOf(w, startDate, endDate, zone);
      assert w in ts + [v];
    }
    if Chosen(v, startDate, endDate, excluded, zone) {
      assert v in ts + [v];
      assert PickedFrom(PickOf(v, startDate, endDate, zone), ts + [v], startDate, endDate, excluded, zone);
    }
  }

  lemma DistinctOneMore(
    ps: seq<Pick>, ts: seq<View>, v: View, startDate: int, endDate: int, excluded: set<Id>, zone: Zone)
    requires Exactly(ps, ts, startDate, endDate, excluded, zone) && DistinctPicks(ps) && DistinctIds(ts + [v])
    requires v.approvedAt.Aware?
    ensures DistinctPicks(ps + [PickOf(v, startDate, endDate, zone)])
  {
    forall i | 0 <= i < |ps| ensures ps[i].id != v.id {
      assert PickedFrom(ps[i], ts, startDate, endDate, excluded, zone);
      var w :| w in ts && Chosen(w, startDate, endDate, excluded, zone) && ps[i] == PickOf(w, startDate, endDate, zone);
      var k :| 0 <= k < |ts| && ts[k] == w;
      assert (ts + [v])[k].id != (ts + [v])[|ts|].id;
    }
  }

  /** The filter keeps exactly the chosen transactions, each once. */
  lemma {:induction false} FilteredIsExact(ts: seq<View>, startDate: int, endDate: int, excluded: set<Id>, zone: Zone)
    requires Filtered(ts, startDate, endDate, excluded, zone).Ok?
    ensures var ps := Filtered(ts, startDate, endDate, excluded, zone).value;
      && Exactly(ps, ts, startDate, endDate, excluded, zone)
      && (DistinctIds(ts) ==> DistinctPicks(ps))
  {
    if ts != [] {
      var n, v := |ts| - 1, ts[|ts| - 1];
      assert ts == ts[..n] + [v];
      FilteredIsExact(ts[..n], startDate, endDate, excluded, zone);
      var ps := Filtered(ts[..n], startDate, endDate, excluded, zone).value;
      ExactlyOneMore(ps, ts[..n], v, startDate, endDate, excluded, zone);
      if Chosen(v, startDate, endDate, excluded, zone) && DistinctIds(ts) {
        DistinctOneMore(ps, ts[..n], v, startDate, endDate, excluded, zone);
      }
    }
  }

  /** The filter fails exactly on a considered transaction without a time zone. */
  lemma {:induction false} FilterFailsExactlyOnNaive(
    ts: seq<View>, startDate: int, endDate: int, excluded: set<Id>, zone: Zone)
    ensures Filtered(ts, startDate, endDate, excluded, zone).Err? <==>
      exists v | v in ts :: Considered(v, excluded) && v.approvedAt.Naive?
  {
    if ts != [] {
      var n, v := |ts| - 1, ts[|ts| - 1];
      assert ts == ts[..n] + [v];
      FilterFailsExactlyOnNaive(ts[..n], startDate, endDate, excluded, zone);
      if exists w | w in ts[..n] :: Considered(w, excluded) && w.approvedAt.Naive? {
        var w :| w in ts[..n] && Considered(w, excluded) && w.approvedAt.Naive?;
        assert w in ts;
      }
    }
  }

  /** The result lists exactly the transactions that are not cancelled, not excluded and in the window, in strictly
      increasing order of (approved_at, id). */
  lemma CandidatesAreExactlyTheWindow(ts: seq<View>, startDate: int, endDate: int, excluded: set<Id>, zone: Zone)
    requires DistinctIds(ts)
    ensures var r := Picks(ts, startDate, endDate, excluded, zone);
      && (r.Err? <==> exists v | v in ts :: Considered(v, excluded) && v.approvedAt.Naive?)
      && (r.Ok? ==> StrictlySorted(r.value) && Exactly(r.value, ts, startDate, endDate, excluded, zone))
  {
    FilterFailsExactlyOnNaive(ts, startDate, endDate, excluded, zone);
    var f := Filtered(ts, startDate, endDate, excluded, zone);
    if f.Ok? {
      FilteredIsExact(ts, startDate, endDate, excluded, zone);
      SortingDistinctIsStrict(f.value);
      SameMembers(f.value, Sorted(f.value));
    }
  }

  lemma SameMembers(s: seq<Pick>, t: seq<Pick>)
    requires multiset(s) == multiset(t)
    ensures forall p :: p in s <==> p in t
  {
    assert forall p :: p in s <==> p in multiset(s);
    assert forall p :: p in t <==> p in multiset(t);
  }

  lemma SortingDistinctIsStrict(s: seq<Pick>)
    requires DistinctPicks(s)
    ensures StrictlySorted(Sorted(s))
  {
    SortedIsSorted(s);
    DistinctIsKept(s, Sorted(s));
  }

  lemma {:induction false} IdsOnce(s: seq<Pick>, id: Id)
    requires DistinctPicks(s)
    ensures forall p, q | p in s && q in s && p.id == id && q.id == id :: p == q
    ensures forall p | p in s :: multiset(s)[p] == 1
  {
    if s != [] {
      IdsOnce(s[1..], id);
      assert s == [s[0]] + s[1..];
      assert s[0] !in s[1..];
    }
  }

  lemma OccursTwice(t: seq<Pick>, i: nat, j: nat)
    requires i < j < |t|
    ensures t[i] == t[j] ==> multiset(t)[t[i]] >= 2
  {
    assert t == t[..i] + [t[i]] + t[i + 1..j] + [t[j]] + t[j + 1..];
  }

  lemma DistinctIsKept(s: seq<Pick>, t: seq<Pick>)
    requires multiset(s) == multiset(t)
    requires DistinctPicks(s)
    ensures DistinctPicks(t)
  {
    forall i, j | 0 <= i < j < |t| ensures t[i].id != t[j].id {
      assert t[i] in multiset(s) && t[j] in multiset(s);
      OccursTwice(t, i, j);
      IdsOnce(s, t[i].id);
    }
  }

  /** The result does not depend on the order of the input. */
  lemma OrderOfInputDoesNotMatter(
    ts: seq<View>, ts': seq<View>, startDate: int, endDate: int, excluded: set<Id>, zone: Zone)
    requires DistinctIds(ts) && DistinctIds(ts') && (forall v :: v in ts <==> v in ts')
    ensures Picks(ts, startDate, endDate, excluded, zone).Ok? <==> Picks(ts', startDate, endDate, excluded, zone).Ok?
    ensures Picks(ts, startDate, endDate, excluded, zone).Ok? ==>
      Picks(ts, startDate, endDate, excluded, zone) == Picks(ts', startDate, endDate, excluded, zone)
  {
    CandidatesAreExactlyTheWindow(ts, startDate, endDate, excluded, zone);
    CandidatesAreExactlyTheWindow(ts', startDate, endDate, excluded, zone);
    if Picks(ts, startDate, endDate, excluded, zone).Ok? {
      var a := Picks(ts, startDate, endDate, excluded, zone).value;
      var b := Picks(ts', startDate, endDate, excluded, zone).value;
      ExactlyIsDetermined(a, ts, b, ts', startDate, endDate, excluded, zone);
      ExactlyIsDetermined(b, ts', a, ts, startDate, endDate, excluded, zone);
      StrictOrderIsDetermined(a, b);
    }
  }

  lemma ExactlyIsDetermined(a: seq<Pick>, ts: seq<View>, b: seq<Pick>, ts': seq<View>,
                            startDate: int, endDate: int, excluded: set<Id>, zone: Zone)
    requires Exactly(a, ts, startDate, endDate, excluded, zone)
    requires Exactly(b, ts', startDate, endDate, excluded, zone)
    requires forall v | v in ts :: v in ts'
    ensures forall p | p in a :: p in b
  {
    forall p | p in a ensures p in b {
      assert PickedFrom(p, ts, startDate, endDate, excluded, zone);
      var v :| v in ts && Chosen(v, startDate, endDate, excluded, zone) && p == PickOf(v, startDate, endDate, zone);
    }
  }

  lemma StrictOrderIsDetermined(a: seq<Pick>, b: seq<Pick>)
    requires StrictlySorted(a) && StrictlySorted(b) && (forall p :: p in a <==> p in b)
    ensures a == b
  {
    StrictOccursOnce(a);
    StrictOccursOnce(b);
    assert multiset(a) == multiset(b);
    StrictOrderIsUnique(a, b);
  }

  lemma {:induction false} StrictOccursOnce(s: seq<Pick>)
    requires StrictlySorted(s)
    ensures forall p :: multiset(s)[p] == if p in s then 1 else 0
  {
    if s != [] {
      StrictOccursOnce(s[1..]);
      assert s == [s[0]] + s[1..];
      assert s[0] !in s[1..];
    }
  }

  /** The reasons name the day: before the start, after the end, with the fare reasons exactly for transport, or within
      the trip, with the stay added exactly for lodging. */
  predicate ReasonsFit(reasons: seq<Reason>, day: int, startDate: int, endDate: int, category: string) {
    && (day < startDate ==> reasons == if category == "TRANSPORT" then [DayBeforeFare] else [DayBefore])
    && (startDate <= day && endDate < day ==>
          reasons == if category == "TRANSPORT" then [DayAfterFare] else [DayAfter])
    && (startDate <= day <= endDate ==>
          reasons == if category == "LODGING" then [DuringTrip, DuringStay] else [DuringTrip])
  }

  /** Among the chosen, each reason is given exactly on its day and for its kind of merchant. */
  lemma ReasonsNameTheDay(v: View, startDate: int, endDate: int, excluded: set<Id>, zone: Zone)
    requires Chosen(v, startDate, endDate, excluded, zone) && startDate <= endDate
    ensures var reasons, day := PickOf(v, startDate, endDate, zone).candidate.reasons, DayOf(v, zone);
      && ReasonsFit(reasons, day, startDate, endDate, v.category)
      && (DayBeforeFare in reasons <==> day == startDate - 1 && v.category == "TRANSPORT")
      && (DayBefore in reasons <==> day == startDate - 1 && v.category != "TRANSPORT")
      && (DayAfterFare in reasons <==> day == endDate + 1 && v.category == "TRANSPORT")
      && (DayAfter in reasons <==> day == endDate + 1 && v.category != "TRANSPORT")
      && (DuringTrip in reasons <==> startDate <= day <= endDate)
      && (DuringStay in reasons <==> startDate <= day <= endDate && v.category == "LODGING")
  {
  }

  /** The suggestion is the merchant's category if that is an expense category, and ETC in every other case. */
  lemma SuggestionIsACategory(category: string)
    ensures category in {"MEAL", "TRANSPORT", "LODGING", "ENTERTAIN", "ETC"} ==> SuggestCategory(category) == category
    ensures category !in {"MEAL", "TRANSPORT", "LODGING", "ENTERTAIN", "ETC"} ==> SuggestCategory(category) == "ETC"
  {
  }

  /** A Korean day begins at 15:00 UTC of the day before. */
  lemma KoreanDayBeginsAtFifteen(day: int, instant: int)
    ensures KoreanDay(instant) == day <==> (day - 1) * DAY + 54_000_000_000 <= instant < day * DAY + 54_000_000_000
    ensures DAY == 86_400_000_000
  {
    DayBounds(instant + 9 * HOUR);
  }

  // ---------------------------------------------------------------------------
  // The coarse window of the database query

  const MARGIN_DAYS := 2

  predicate Fetched(instant: int, startDate: int, endDate: int) {
    (startDate - MARGIN_DAYS) * DAY <= instant < (endDate + MARGIN_DAYS + 1) * DAY
  }

  function Prefilter(ts: seq<View>, startDate: int, endDate: int): seq<View>
    requires forall v | v in ts :: v.approvedAt.Aware?
  {
    if ts == [] then []
    else
      var n, v := |ts| - 1, ts[|ts| - 1];
      Prefilter(ts[..n], startDate, endDate)
      + if Fetched(v.approvedAt.instant, startDate, endDate) then [v] else []
  }

  /** Reading only two UTC days on either side of the trip loses no candidate, for every time zone whose offset never
      exceeds a day. */
  lemma PrefilterLosesNothing(ts: seq<View>, startDate: int, endDate: int, excluded: set<Id>, zone: Zone)
    requires forall v | v in ts :: v.approvedAt.Aware? && -DAY <= zone(v.approvedAt.instant) <= DAY
    ensures Picks(Prefilter(ts, startDate, endDate), startDate, endDate, excluded, zone)
         == Picks(ts, startDate, endDate, excluded, zone)
  {
    PrefilterKeepsTheFiltered(ts, startDate, endDate, excluded, zone);
  }

  lemma {:induction false} PrefilterKeepsTheFiltered(
    ts: seq<View>, startDate: int, endDate: int, excluded: set<Id>, zone: Zone)
    requires forall v | v in ts :: v.approvedAt.Aware? && -DAY <= zone(v.approvedAt.instant) <= DAY
    ensures Filtered(Prefilter(ts, startDate, endDate), startDate, endDate, excluded, zone)
         == Filtered(ts, startDate, endDate, excluded, zone)
  {
    if ts != [] {
      var n, v := |ts| - 1, ts[|ts| - 1];
      PrefilterKeepsTheFiltered(ts[..n], startDate, endDate, excluded, zone);
      PrefilterStep(ts[..n], v, Prefilter(ts[..n], startDate, endDate), startDate, endDate, excluded, zone);
      assert ts == ts[..n] + [v];
    }
  }

  lemma FilteredSnoc(ts: seq<View>, v: View, startDate: int, endDate: int, excluded: set<Id>, zone: Zone)
    requires v.approvedAt.Aware?
    ensures var before := Filtered(ts, startDate, endDate, excluded, zone);
      Filtered(ts + [v], startDate, endDate, excluded, zone) ==
        if before.Ok? && Chosen(v, startDate, endDate, excluded, zone)
        then Ok(before.value + [PickOf(v, startDate, endDate, zone)]) else before
  {
    assert (ts + [v])[..|ts|] == ts;
  }

  lemma PrefilterStep(
    ts: seq<View>, v: View, kept: seq<View>, startDate: int, endDate: int, excluded: set<Id>, zone: Zone)
    requires v.approvedAt.Aware? && -DAY <= zone(v.approvedAt.instant) <= DAY
    requires Filtered(kept, startDate, endDate, excluded, zone) == Filtered(ts, startDate, endDate, excluded, zone)
    ensures Filtered(kept + if Fetched(v.approvedAt.instant, startDate, endDate) then [v] else [],
                     startDate, endDate, excluded, zone)
         == Filtered(ts + [v], startDate, endDate, excluded, zone)
  {
    FilteredSnoc(ts, v, startDate, endDate, excluded, zone);
    if Fetched(v.approvedAt.instant, startDate, endDate) {
      FilteredSnoc(kept, v, startDate, endDate, excluded, zone);
    } else {
      UnfetchedIsNotChosen(v, startDate, endDate, excluded, zone);
      assert kept + [] == kept;
    }
  }

  lemma UnfetchedIsNotChosen(v: View, startDate: int, endDate: int, excluded: set<Id>, zone: Zone)
    requires v.approvedAt.Aware? && -DAY <= zone(v.approvedAt.instant) <= DAY
    requires !Fetched(v.approvedAt.instant, startDate, endDate)
    ensures !Chosen(v, startDate, endDate, excluded, zone)
  {
    if Chosen(v, startDate, endDate, excluded, zone) {
      MarginCoversTheWindow(v.approvedAt.instant, zone(v.approvedAt.instant), startDate, endDate);
    }
  }

  lemma DayBounds(x: int)
    ensures (x / DAY) * DAY <= x < (x / DAY + 1) * DAY
  {
  }

  lemma MarginCoversTheWindow(instant: int, offset: int, startDate: int, endDate: int)
    requires -DAY <= offset <= DAY && InWindow((instant + offset) / DAY, startDate, endDate)
    ensures Fetched(instant, startDate, endDate)
  {
    DayBounds(instant + offset);
  }

  /** The margin is exact: it is wide enough for a fixed offset exactly when the offset is at most 24 hours. */
  lemma TwoDayMarginIsExact(offset: int)
    ensures (forall instant, startDate, endDate ::
               InWindow((instant + offset) / DAY, startDate, endDate) ==> Fetched(instant, startDate, endDate))
            <==> -DAY <= offset <= DAY
  {
    if -DAY <= offset <= DAY {
      forall instant, startDate, endDate | InWindow((instant + offset) / DAY, startDate, endDate)
        ensures Fetched(instant, startDate, endDate)
      {
        MarginCoversTheWindow(instant, offset, startDate, endDate);
      }
    } else if offset > DAY {
      assert InWindow((-offset + offset) / DAY, 1, 1) && !Fetched(-offset, 1, 1);
    } else {
      var instant := DAY - 1 - offset;
      assert InWindow((instant + offset) / DAY, -1, -1) && !Fetched(instant, -1, -1);
    }
  }
}
