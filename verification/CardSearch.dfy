/** The card transaction search: conditions built up one by one, evaluated in SQL's three-valued logic, ordered newest
    first and cut into pages. */
module CardSearch {
  import opened Common
  import opened Tables
  import opened Matching
  import MatchCandidates

  // ---------------------------------------------------------------------------
  // SQL

  datatype Truth = True | False | Unknown {
    function Or(other: Truth): Truth {
      if True? || other.True? then True else if Unknown? || other.Unknown? then Unknown else False
    }

    function Not(): Truth {
      match this
      case True => False
      case False => True
      case Unknown => Unknown
    }
  }

  function Bool(b: bool): Truth {
    if b then True else False
  }

  /** Comparing with NULL is unknown. */
  function Equals(x: Id, y: Option<Id>): Truth {
    if y.None? then Unknown else Bool(x == y.value)
  }

  function In(x: Id, list: seq<Option<Id>>): Truth {
    if list == [] then False else Equals(x, list[0]).Or(In(x, list[1..]))
  }

  /** A single NULL in the list keeps `NOT IN` from ever being true. */
  lemma {:induction false} NotInIsTrueExactlyWithoutNulls(x: Id, list: seq<Option<Id>>)
    ensures In(x, list).Not() == True <==> None !in list && Some(x) !in list
    ensures In(x, list) == True <==> Some(x) in list
  {
    if list != [] {
      NotInIsTrueExactlyWithoutNulls(x, list[1..]);
      assert list == [list[0]] + list[1..];
    }
  }

  /** `LIKE`: `%` matches any run, `_` any character, and a backslash takes the next character literally. */
  predicate Like(pattern: string, s: string)
    decreases |pattern|, |s|
  {
    if pattern == "" then s == ""
    else if pattern[0] == '%' then Like(pattern[1..], s) || (s != "" && Like(pattern, s[1..]))
    else if pattern[0] == '\\' then
      s != "" && |pattern| > 1 && s[0] == pattern[1] && Like(pattern[2..], s[1..])
    else s != "" && (pattern[0] == '_' || s[0] == pattern[0]) && Like(pattern[1..], s[1..])
  }

  function Lowered(s: string, lower: char -> char): (r: string)
    ensures |r| == |s| && forall i | 0 <= i < |s| :: r[i] == lower(s[i])
  {
    if s == "" then "" else [lower(s[0])] + Lowered(s[1..], lower)
  }

  predicate NameMatches(name: string, q: string, lower: char -> char) {
    Like(Lowered("%" + q + "%", lower), Lowered(name, lower))
  }

  datatype Condition =
    | OnCards(cards: set<Id>)
    | NotCancelled
    | ApprovedFrom(instant: int)
    | ApprovedBefore(instant: int)
    | HasCategory(category: string)
    | NameLike(q: string)
    | NotInItems(held: seq<Option<Id>>)

  function Evaluate(c: Condition, id: Id, t: Transaction, lower: char -> char): Truth {
    match c
    case OnCards(cards) => Bool(t.card in cards)
    case NotCancelled => Bool(!t.isCancelled)
    case ApprovedFrom(instant) => Bool(t.approvedAt >= instant)
    case ApprovedBefore(instant) => Bool(t.approvedAt < instant)
    case HasCategory(category) => Bool(t.category == category)
    case NameLike(q) => Bool(NameMatches(t.merchant, q, lower))
    case NotInItems(held) => In(id, held).Not()
  }

  /** `WHERE` keeps a row only if every condition is true; unknown is not enough. */
  predicate Kept(conditions: seq<Condition>, id: Id, t: Transaction, lower: char -> char) {
    forall c | c in conditions :: Evaluate(c, id, t, lower) == True
  }

  // ---------------------------------------------------------------------------
  // The promise

  datatype Filters = Filters(
    card: Option<Id>, from: Option<int>, to: Option<int>, category: Option<string>, q: Option<string>,
    includeCancelled: bool, unsettled: bool, page: int, size: int)

  datatype Page = Page(items: seq<Id>, total: nat)

  predicate Wanted(db: DB, caller: Id, f: Filters, lower: char -> char, id: Id) {
    && MatchCandidates.OnCardOf(db, caller, id)
    && var t := db.transactions[id];
    && (f.card.Some? ==> t.card == f.card.value)
    && (f.includeCancelled || !t.isCancelled)
    && (f.from.Some? ==> f.from.value <= KoreanDay(t.approvedAt))
    && (f.to.Some? ==> KoreanDay(t.approvedAt) <= f.to.value)
    && (f.category.Some? && f.category.value != "" ==> t.category == f.category.value)
    && (f.q.Some? && f.q.value != "" ==> NameMatches(t.merchant, f.q.value, lower))
    && (f.unsettled ==> !MatchCandidates.Held(db.items, id))
  }

  predicate Newer(transactions: map<Id, Transaction>, x: Id, y: Id)
    requires x in transactions && y in transactions
  {
    var s, t := transactions[x].approvedAt, transactions[y].approvedAt;
    s > t || (s == t && x > y)
  }

  ghost predicate NewestFirst(rows: seq<Id>, transactions: map<Id, Transaction>) {
    && (forall i | 0 <= i < |rows| :: rows[i] in transactions)
    && (forall i, j | 0 <= i < j < |rows| ::
          var s, t := transactions[rows[i]].approvedAt, transactions[rows[j]].approvedAt;
          s > t || (s == t && rows[i] > rows[j]))
  }

  /** All wanted transactions, newest first. */
  ghost predicate IsResult(rows: seq<Id>, db: DB, caller: Id, f: Filters, lower: char -> char) {
    && NewestFirst(rows, db.transactions)
    && forall id :: id in rows <==> id in db.transactions && Wanted(db, caller, f, lower, id)
  }

  function Min(x: int, y: int): int {
    if x < y then x else y
  }

  function PageOf(rows: seq<Id>, page: int, size: int): Page
    requires (page - 1) * size >= 0 && size >= 0
  {
    var start := Min((page - 1) * size, |rows|);
    Page(rows[start..Min(start + size, |rows|)], |rows|)
  }

  // ---------------------------------------------------------------------------
  // The service

  function StartOf(day: int): int {
    day * DAY - 9 * HOUR
  }

  method ListCardTransactions(db: DB, caller: Id, f: Filters, lower: char -> char) returns (r: Result<Page>)
    ensures r.Err? <==>
      && (exists c | c in db.cards :: db.cards[c] == caller && (f.card.Some? ==> c == f.card.value))
      && ((f.page - 1) * f.size < 0 || f.size < 0)
    ensures r.Ok? && (f.page - 1) * f.size >= 0 && f.size >= 0 ==>
      exists rows :: IsResult(rows, db, caller, f, lower) && r.value == PageOf(rows, f.page, f.size)
  {
    var cardIds := set c | c in db.cards && db.cards[c] == caller;
    if f.card.Some? {
      cardIds := set c | c in cardIds && c == f.card.value;
    }
    assert forall c :: c in cardIds <==> c in db.cards && db.cards[c] == caller && (f.card.Some? ==> c == f.card.value);
    if cardIds == {} {
      if (f.page - 1) * f.size >= 0 && f.size >= 0 {
        assert IsResult([], db, caller, f, lower);
        assert PageOf([], f.page, f.size) == Page([], 0);
      }
      return Ok(Page([], 0));
    }
    var held := HeldTransactions(db.items);
    var conditions := BuildConditions(f, cardIds, held);
    var total := |set id | id in db.transactions && Kept(conditions, id, db.transactions[id], lower)|;
    var offset := (f.page - 1) * f.size;
    if offset < 0 || f.size < 0 {
      return Err(InternalError);
    }
    var rows := SelectOrdered(db.transactions, conditions, lower);
    ConditionsMeanWanted(db, caller, f, lower, cardIds, held, conditions, rows);
    CountIsLength(rows, db.transactions, conditions, lower);
    var start := Min(offset, |rows|);
    r := Ok(Page(rows[start..Min(start + f.size, |rows|)], total));
    assert r.value == PageOf(rows, f.page, f.size);
  }

  /** The transactions of the items, manual items left out. */
  method HeldTransactions(items: map<Id, Item>) returns (held: seq<Option<Id>>)
    ensures None !in held
    ensures forall t: Id :: Some(t) in held <==> MatchCandidates.Held(items, t)
  {
    held := [];
    var left := items.Keys;
    while left != {}
      invariant left <= items.Keys && None !in held
      invariant forall t: Id :: Some(t) in held <==>
        exists i | i in items :: i !in left && items[i].transaction == Some(t)
    {
      var i :| i in left;
      left := left - {i};
      if items[i].transaction.Some? {
        held := held + [items[i].transaction];
      }
    }
  }

  ghost predicate ConditionsFor(
    conditions: seq<Condition>, f: Filters, cardIds: set<Id>, held: seq<Option<Id>>)
  {
    forall c :: c in conditions <==>
      || c == OnCards(cardIds)
      || (!f.includeCancelled && c == NotCancelled)
      || (f.from.Some? && c == ApprovedFrom(StartOf(f.from.value)))
      || (f.to.Some? && c == ApprovedBefore(StartOf(f.to.value + 1)))
      || (f.category.Some? && f.category.value != "" && c == HasCategory(f.category.value))
      || (f.q.Some? && f.q.value != "" && c == NameLike(f.q.value))
      || (f.unsettled && c == NotInItems(held))
  }

  /** The truth of a text filter: an absent or an empty one filters nothing. */
  predicate Given(text: Option<string>) {
    text.Some? && text.value != ""
  }

  method BuildConditions(f: Filters, cardIds: set<Id>, held: seq<Option<Id>>) returns (conditions: seq<Condition>)
    ensures ConditionsFor(conditions, f, cardIds, held)
  {
    conditions := [OnCards(cardIds)];
    if !f.includeCancelled { conditions := conditions + [NotCancelled]; }
    if f.from.Some? { conditions := conditions + [ApprovedFrom(StartOf(f.from.value))]; }
    if f.to.Some? { conditions := conditions + [ApprovedBefore(StartOf(f.to.value + 1))]; }
    if Given(f.category) { conditions := conditions + [HasCategory(f.category.value)]; }
    if Given(f.q) { conditions := conditions + [NameLike(f.q.value)]; }
    if f.unsettled { conditions := conditions + [NotInItems(held)]; }
  }

  /** The query: the kept rows, newest first. */
  method SelectOrdered(transactions: map<Id, Transaction>, conditions: seq<Condition>, lower: char -> char)
    returns (rows: seq<Id>)
    ensures NewestFirst(rows, transactions)
    ensures forall id :: id in rows <==> id in transactions && Kept(conditions, id, transactions[id], lower)
  {
    rows := [];
    var left := transactions.Keys;
    while left != {}
      invariant left <= transactions.Keys && NewestFirst(rows, transactions)
      invariant forall id :: id in rows <==>
        id in transactions && id !in left && Kept(conditions, id, transactions[id], lower)
    {
      var id :| id in left;
      left := left - {id};
      if Kept(conditions, id, transactions[id], lower) {
        rows := InsertNewest(transactions, rows, id);
      }
    }
  }

  method InsertNewest(transactions: map<Id, Transaction>, rows: seq<Id>, id: Id) returns (r: seq<Id>)
    requires NewestFirst(rows, transactions) && id in transactions && id !in rows
    ensures NewestFirst(r, transactions)
    ensures forall x :: x in r <==> x in rows || x == id
  {
    var k := 0;
    while k < |rows| && Newer(transactions, rows[k], id)
      invariant 0 <= k <= |rows|
      invariant forall i | 0 <= i < k :: Newer(transactions, rows[i], id)
    {
      k := k + 1;
    }
    r := rows[..k] + [id] + rows[k..];
    assert rows == rows[..k] + rows[k..];
  }

  // ---------------------------------------------------------------------------
  // Why the conditions mean what is wanted

  lemma StartOfIsKoreanMidnight(instant: int, day: int)
    ensures instant >= StartOf(day) <==> KoreanDay(instant) >= day
    ensures instant < StartOf(day + 1) <==> KoreanDay(instant) <= day
  {
    DayBounds(instant + 9 * HOUR);
  }

  lemma KeptIsWanted(
    db: DB, caller: Id, f: Filters, lower: char -> char, cardIds: set<Id>, held: seq<Option<Id>>,
    conditions: seq<Condition>, id: Id)
    requires id in db.transactions
    requires forall c :: c in cardIds <==>
      c in db.cards && db.cards[c] == caller && (f.card.Some? ==> c == f.card.value)
    requires None !in held && (forall t: Id :: Some(t) in held <==> MatchCandidates.Held(db.items, t))
    requires ConditionsFor(conditions, f, cardIds, held)
    ensures Kept(conditions, id, db.transactions[id], lower) <==> Wanted(db, caller, f, lower, id)
  {
    var t := db.transactions[id];
    NotInIsTrueExactlyWithoutNulls(id, held);
    if f.from.Some? { StartOfIsKoreanMidnight(t.approvedAt, f.from.value); }
    if f.to.Some? { StartOfIsKoreanMidnight(t.approvedAt, f.to.value); }
    if Kept(conditions, id, t, lower) {
      assert Evaluate(OnCards(cardIds), id, t, lower) == True;
      assert !f.includeCancelled ==> Evaluate(NotCancelled, id, t, lower) == True;
      assert f.from.Some? ==> Evaluate(ApprovedFrom(StartOf(f.from.value)), id, t, lower) == True;
      assert f.to.Some? ==> Evaluate(ApprovedBefore(StartOf(f.to.value + 1)), id, t, lower) == True;
      assert f.category.Some? && f.category.value != "" ==>
        Evaluate(HasCategory(f.category.value), id, t, lower) == True;
      assert f.q.Some? && f.q.value != "" ==> Evaluate(NameLike(f.q.value), id, t, lower) == True;
      assert f.unsettled ==> Evaluate(NotInItems(held), id, t, lower) == True;
    }
  }

  lemma ConditionsMeanWanted(
    db: DB, caller: Id, f: Filters, lower: char -> char, cardIds: set<Id>, held: seq<Option<Id>>,
    conditions: seq<Condition>, rows: seq<Id>)
    requires NewestFirst(rows, db.transactions)
    requires forall id :: id in rows <==> id in db.transactions && Kept(conditions, id, db.transactions[id], lower)
    requires forall c :: c in cardIds <==>
      c in db.cards && db.cards[c] == caller && (f.card.Some? ==> c == f.card.value)
    requires None !in held && (forall t: Id :: Some(t) in held <==> MatchCandidates.Held(db.items, t))
    requires ConditionsFor(conditions, f, cardIds, held)
    ensures IsResult(rows, db, caller, f, lower)
  {
    forall id | id in db.transactions
      ensures Kept(conditions, id, db.transactions[id], lower) <==> Wanted(db, caller, f, lower, id)
    {
      KeptIsWanted(db, caller, f, lower, cardIds, held, conditions, id);
    }
  }

  /** Two queries, one answer: the count is the length of the list that is paged. */
  lemma CountIsLength(rows: seq<Id>, transactions: map<Id, Transaction>, conditions: seq<Condition>,
                      lower: char -> char)
    requires NewestFirst(rows, transactions)
    requires forall id :: id in rows <==> id in transactions && Kept(conditions, id, transactions[id], lower)
    ensures |set id | id in transactions && Kept(conditions, id, transactions[id], lower)| == |rows|
  {
    assert (set id | id in transactions && Kept(conditions, id, transactions[id], lower)) == Members(rows);
    OrderedMembers(rows, transactions);
  }

  function Members(rows: seq<Id>): set<Id> {
    set id | id in rows
  }

  lemma {:induction false} OrderedMembers(rows: seq<Id>, transactions: map<Id, Transaction>)
    requires NewestFirst(rows, transactions)
    ensures |Members(rows)| == |rows|
  {
    if rows != [] {
      OrderedMembers(rows[1..], transactions);
      assert Members(rows) == {rows[0]} + Members(rows[1..]);
      assert rows[0] !in rows[1..];
    }
  }

  /** The answer is determined: which rows, and in which order. */
  lemma ResultIsUnique(db: DB, caller: Id, f: Filters, lower: char -> char, a: seq<Id>, b: seq<Id>)
    requires IsResult(a, db, caller, f, lower) && IsResult(b, db, caller, f, lower)
    ensures a == b
  {
    OrderedIsDetermined(a, b, db.transactions);
  }

  lemma HeadIsMember(a: seq<Id>)
    ensures a == [] || a[0] in a
  {
  }

  lemma {:induction false} OrderedIsDetermined(a: seq<Id>, b: seq<Id>, transactions: map<Id, Transaction>)
    requires NewestFirst(a, transactions) && NewestFirst(b, transactions)
    requires forall id :: id in a <==> id in b
    ensures a == b
  {
    HeadIsMember(a);
    HeadIsMember(b);
    if a != [] {
      assert a[0] == b[0];
      forall id ensures id in a[1..] <==> id in b[1..] {
        TailMembers(a, transactions, id);
        TailMembers(b, transactions, id);
      }
      OrderedIsDetermined(a[1..], b[1..], transactions);
      assert a == [a[0]] + a[1..] && b == [b[0]] + b[1..];
    }
  }

  lemma TailMembers(a: seq<Id>, transactions: map<Id, Transaction>, id: Id)
    requires NewestFirst(a, transactions) && a != []
    ensures id in a[1..] <==> id in a && id != a[0]
  {
    assert a == [a[0]] + a[1..];
  }

  // ---------------------------------------------------------------------------
  // Paging

  function FirstPages(rows: seq<Id>, size: nat, n: nat): seq<Id> {
    if n == 0 then []
    else
      assert (n - 1) * size >= 0;
      FirstPages(rows, size, n - 1) + PageOf(rows, n, size).items
  }

  lemma {:induction false} FirstPagesArePrefix(rows: seq<Id>, size: nat, n: nat)
    ensures n * size >= 0
    ensures FirstPages(rows, size, n) == rows[..Min(n * size, |rows|)]
  {
    if n > 0 {
      FirstPagesArePrefix(rows, size, n - 1);
      assert n * size == (n - 1) * size + size;
    }
  }

  /** Reading page after page until the total is reached gives every wanted transaction once, newest first. */
  lemma PagesLeaveNoGapAndRepeatNothing(
    db: DB, caller: Id, f: Filters, lower: char -> char, rows: seq<Id>, size: nat, n: nat)
    requires IsResult(rows, db, caller, f, lower) && n * size >= |rows|
    ensures FirstPages(rows, size, n) == rows
    ensures forall id | id in db.transactions && Wanted(db, caller, f, lower, id) ::
      multiset(FirstPages(rows, size, n))[id] == 1
  {
    FirstPagesArePrefix(rows, size, n);
    OrderedOccurOnce(rows, db.transactions);
  }

  lemma {:induction false} OrderedOccurOnce(rows: seq<Id>, transactions: map<Id, Transaction>)
    requires NewestFirst(rows, transactions)
    ensures forall id | id in rows :: multiset(rows)[id] == 1
  {
    if rows != [] {
      OrderedOccurOnce(rows[1..], transactions);
      assert rows == [rows[0]] + rows[1..];
      assert rows[0] !in rows[1..];
    }
  }

  // ---------------------------------------------------------------------------
  // The NULL guard and the wildcard

  /** Without the guard, one manual item anywhere empties the "unsettled" search. */
  lemma OneManualItemWouldEmptyTheSearch(
    db: DB, unguarded: seq<Option<Id>>, conditions: seq<Condition>, lower: char -> char, id: Id)
    requires forall x :: x in unguarded <==> exists i | i in db.items :: db.items[i].transaction == x
    requires exists i | i in db.items :: db.items[i].transaction.None?
    requires NotInItems(unguarded) in conditions && id in db.transactions
    ensures !Kept(conditions, id, db.transactions[id], lower)
  {
    assert None in unguarded;
    NotInIsTrueExactlyWithoutNulls(id, unguarded);
    assert Evaluate(NotInItems(unguarded), id, db.transactions[id], lower) != True;
  }

  predicate Plain(q: string) {
    forall c | c in q :: c != '%' && c != '_' && c != '\\'
  }

  predicate Contains(s: string, q: string) {
    exists i | 0 <= i <= |s| :: q <= s[i..]
  }

  lemma PrefixHead(q: string, s: string)
    requires q != ""
    ensures q <= s <==> s != "" && s[0] == q[0] && q[1..] <= s[1..]
  {
    if s != "" && s[0] == q[0] && q[1..] <= s[1..] {
      assert q == [q[0]] + q[1..] && s == [s[0]] + s[1..];
    }
  }

  lemma {:induction false} PlainPrefix(q: string, rest: string, s: string)
    requires Plain(q)
    ensures Like(q + rest, s) <==> q <= s && Like(rest, s[|q|..])
  {
    if q == "" {
      assert q + rest == rest && s[0..] == s;
    } else {
      PrefixHead(q, s);
      assert q[0] in q && forall c | c in q[1..] :: c in q;
      assert (q + rest)[0] == q[0] && (q + rest)[1..] == q[1..] + rest;
      if s != "" && s[0] == q[0] {
        PlainPrefix(q[1..], rest, s[1..]);
        if q <= s { assert s[1..][|q[1..]|..] == s[|q|..]; }
      }
    }
  }

  lemma {:induction false} PercentMatchesAll(s: string)
    ensures Like("%", s)
  {
    if s == "" {
      assert Like("%"[1..], s);
    } else {
      PercentMatchesAll(s[1..]);
    }
  }

  lemma {:induction false} PlainTextIsContained(q: string, s: string)
    requires Plain(q)
    ensures Like("%" + q + "%", s) <==> Contains(s, q)
    decreases |s|
  {
    var p := "%" + q + "%";
    assert p[1..] == q + "%";
    PlainPrefix(q, "%", s);
    if q <= s { PercentMatchesAll(s[|q|..]); }
    assert s[0..] == s;
    if s != "" {
      PlainTextIsContained(q, s[1..]);
      ContainsTail(s, q);
    }
  }

  lemma ContainsTail(s: string, q: string)
    requires s != ""
    ensures Contains(s, q) <==> q <= s || Contains(s[1..], q)
  {
    assert s[0..] == s;
    if Contains(s, q) {
      var i :| 0 <= i <= |s| && q <= s[i..];
      if i > 0 { assert s[1..][i - 1..] == s[i..]; }
    }
    if Contains(s[1..], q) {
      var i :| 0 <= i <= |s[1..]| && q <= s[1..][i..];
      assert s[1..][i..] == s[i + 1..];
    }
  }

  /** A text without wildcards is found exactly where it occurs in the name, ignoring case. */
  lemma PlainTextIsSubstringSearch(name: string, q: string, lower: char -> char)
    requires Plain(Lowered(q, lower)) && lower('%') == '%'
    ensures NameMatches(name, q, lower) <==> Contains(Lowered(name, lower), Lowered(q, lower))
  {
    assert Lowered("%" + q + "%", lower) == "%" + Lowered(q, lower) + "%";
    PlainTextIsContained(Lowered(q, lower), Lowered(name, lower));
  }

  /** An empty text or category asks for the same as an absent one. */
  lemma EmptyTextIsAbsent(db: DB, caller: Id, f: Filters, lower: char -> char, rows: seq<Id>)
    ensures f.q == Some("") ==>
      (IsResult(rows, db, caller, f, lower) <==> IsResult(rows, db, caller, f.(q := None), lower))
    ensures f.category == Some("") ==>
      (IsResult(rows, db, caller, f, lower) <==> IsResult(rows, db, caller, f.(category := None), lower))
  {
    forall id
      ensures f.q == Some("") ==>
        (Wanted(db, caller, f, lower, id) <==> Wanted(db, caller, f.(q := None), lower, id))
      ensures f.category == Some("") ==>
        (Wanted(db, caller, f, lower, id) <==> Wanted(db, caller, f.(category := None), lower, id))
    {
    }
  }

  /** An underscore is a wildcard for one character, too: it finds every merchant with a name. */
  lemma UnderscoreFindsAnyName(name: string, lower: char -> char)
    requires lower('%') == '%' && lower('_') == '_'
    ensures NameMatches(name, "_", lower) <==> name != ""
  {
    assert Lowered("%" + "_" + "%", lower) == "%_%";
    UnderscoreNeedsOne(Lowered(name, lower));
  }

  lemma {:induction false} UnderscoreNeedsOne(s: string)
    ensures Like("%_%", s) <==> s != ""
  {
    assert "%_%"[1..] == "_%" && "_%"[1..] == "%";
    if s != "" {
      PercentMatchesAll(s[1..]);
      assert Like("_%", s);
    }
  }

  /** A backslash takes the next character literally: it turns the percent sign that follows the text into an ordinary
      one, and the search for a lone backslash finds the names that end in a percent sign. */
  lemma BackslashFindsFinalPercent(name: string, lower: char -> char)
    requires lower('%') == '%' && lower('\\') == '\\'
    ensures NameMatches(name, "\\", lower) <==> name != "" && lower(name[|name| - 1]) == '%'
  {
    assert Lowered("%" + "\\" + "%", lower) == "%\\%";
    EndsInPercent(Lowered(name, lower));
  }

  lemma {:induction false} EndsInPercent(s: string)
    ensures Like("%\\%", s) <==> s != "" && s[|s| - 1] == '%'
  {
    assert "%\\%"[1..] == "\\%" && "\\%"[2..] == "";
    if s != "" {
      EndsInPercent(s[1..]);
      assert Like("\\%", s) <==> s[0] == '%' && s[1..] == "";
    }
  }

  /** Wildcards in the text are not escaped: a search for a percent sign finds every merchant. */
  lemma PercentFindsEverything(name: string, lower: char -> char)
    requires lower('%') == '%'
    ensures NameMatches(name, "%", lower)
  {
    var s := Lowered(name, lower);
    assert Lowered("%" + "%" + "%", lower) == "%%%";
    PercentMatchesAll(s);
    assert "%%%"[1..] == "%%" && "%%"[1..] == "%";
    assert Like("%%", s);
  }
}
