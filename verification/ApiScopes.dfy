/** The scope table: which API key scope each endpoint needs, the guard that compares the table with the routes at
    start-up, the check on each request, and the catalog derived from the table. */
module ApiScopes {
  import opened Common

  datatype Scope = TripsRead | TripsWrite | ExpensesRead | ExpensesWrite | CardsRead | AdminScope

  /** The scopes in declaration order. */
  const ALL_SCOPES: seq<Scope> := [TripsRead, TripsWrite, ExpensesRead, ExpensesWrite, CardsRead, AdminScope]

  function ScopeText(s: Scope): string {
    match s
    case TripsRead => "trips:read"
    case TripsWrite => "trips:write"
    case ExpensesRead => "expenses:read"
    case ExpensesWrite => "expenses:write"
    case CardsRead => "cards:read"
    case AdminScope => "admin"
  }

  function ParseScope(t: string): (r: Option<Scope>)
    ensures r.Some? ==> ScopeText(r.value) == t
    ensures r.None? ==> forall s :: ScopeText(s) != t
  {
    if t == "trips:read" then Some(TripsRead)
    else if t == "trips:write" then Some(TripsWrite)
    else if t == "expenses:read" then Some(ExpensesRead)
    else if t == "expenses:write" then Some(ExpensesWrite)
    else if t == "cards:read" then Some(CardsRead)
    else if t == "admin" then Some(AdminScope)
    else None
  }

  lemma TextParses(s: Scope)
    ensures ParseScope(ScopeText(s)) == Some(s)
  {
  }

  /** The six scopes by their texts. */
  lemma ScopesByText(t: string)
    ensures ParseScope(t).Some? <==>
      t in {"trips:read", "trips:write", "expenses:read", "expenses:write", "cards:read", "admin"}
    ensures t == "trips:read" ==> ParseScope(t) == Some(TripsRead)
    ensures t == "trips:write" ==> ParseScope(t) == Some(TripsWrite)
    ensures t == "expenses:read" ==> ParseScope(t) == Some(ExpensesRead)
    ensures t == "expenses:write" ==> ParseScope(t) == Some(ExpensesWrite)
    ensures t == "cards:read" ==> ParseScope(t) == Some(CardsRead)
    ensures t == "admin" ==> ParseScope(t) == Some(AdminScope)
  {
  }

  lemma EveryScopeIsListed()
    ensures forall s: Scope :: s in ALL_SCOPES
    ensures forall i, j | 0 <= i < j < |ALL_SCOPES| :: ALL_SCOPES[i] != ALL_SCOPES[j]
  {
    forall s: Scope ensures s in ALL_SCOPES {
      match s
      case TripsRead => assert ALL_SCOPES[0] == s;
      case TripsWrite => assert ALL_SCOPES[1] == s;
      case ExpensesRead => assert ALL_SCOPES[2] == s;
      case ExpensesWrite => assert ALL_SCOPES[3] == s;
      case CardsRead => assert ALL_SCOPES[4] == s;
      case AdminScope => assert ALL_SCOPES[5] == s;
    }
  }

  // ---------------------------------------------------------------------------
  // Routes and their dependency trees

  type Call = nat

  datatype Dependant = Dependant(call: Option<Call>, dependencies: seq<Dependant>)

  datatype Route = Route(isApi: bool, methods: set<string>, path: string, root: Dependant)

  type Endpoint = (string, string)

  type Table = map<Endpoint, Option<Scope>>

  const UNCHECKED := {"HEAD", "OPTIONS"}

  /** The node at the end of a path of child positions. */
  function At(ds: seq<Dependant>, path: seq<nat>): Option<Dependant>
    decreases path
  {
    if path == [] || path[0] >= |ds| then None
    else if |path| == 1 then Some(ds[path[0]])
    else At(ds[path[0]].dependencies, path[1..])
  }

  /** A call is made somewhere below the root, at any depth; the root's own call does not count. */
  ghost predicate Below(ds: seq<Dependant>, c: Call) {
    exists path :: CalledAt(ds, path, c)
  }

  predicate CalledAt(ds: seq<Dependant>, path: seq<nat>, c: Call) {
    At(ds, path).Some? && At(ds, path).value.call == Some(c)
  }

  function Sizes(ds: seq<Dependant>): nat
    decreases ds
  {
    if ds == [] then 0 else 1 + Sizes(ds[0].dependencies) + Sizes(ds[1..])
  }

  function OwnCall(d: Dependant): set<Call> {
    if d.call.Some? then {d.call.value} else {}
  }

  function CallsIn(ds: seq<Dependant>): set<Call>
    decreases ds
  {
    if ds == [] then {} else OwnCall(ds[0]) + CallsIn(ds[0].dependencies) + CallsIn(ds[1..])
  }

  lemma {:induction false} Concat(a: seq<Dependant>, b: seq<Dependant>)
    ensures Sizes(a + b) == Sizes(a) + Sizes(b)
    ensures CallsIn(a + b) == CallsIn(a) + CallsIn(b)
  {
    if a == [] {
      assert a + b == b;
    } else {
      assert (a + b)[0] == a[0] && (a + b)[1..] == a[1..] + b;
      Concat(a[1..], b);
    }
  }

  /** The collected calls are exactly those on some path. */
  lemma {:induction false} CallsInAreBelow(ds: seq<Dependant>, c: Call)
    ensures c in CallsIn(ds) <==> Below(ds, c)
    decreases ds
  {
    if ds != [] {
      CallsInAreBelow(ds[0].dependencies, c);
      CallsInAreBelow(ds[1..], c);
      if Below(ds[0].dependencies, c) {
        var path :| CalledAt(ds[0].dependencies, path, c);
        assert ([0] + path)[1..] == path;
        assert CalledAt(ds, [0] + path, c);
      }
      if Below(ds[1..], c) {
        var path :| CalledAt(ds[1..], path, c);
        assert CalledAt(ds, [path[0] + 1] + path[1..], c) by {
          assert ([path[0] + 1] + path[1..])[1..] == path[1..];
        }
      }
      if c in OwnCall(ds[0]) {
        assert CalledAt(ds, [0], c);
      }
      if Below(ds, c) {
        var path :| CalledAt(ds, path, c);
        FirstStep(ds, path, c);
      }
    } else {
      assert forall path :: !CalledAt(ds, path, c);
    }
  }

  lemma FirstStep(ds: seq<Dependant>, path: seq<nat>, c: Call)
    requires ds != [] && CalledAt(ds, path, c)
    ensures c in OwnCall(ds[0]) || Below(ds[0].dependencies, c) || Below(ds[1..], c)
  {
    if path[0] > 0 {
      var rest := [path[0] - 1] + path[1..];
      assert rest[1..] == path[1..];
      assert CalledAt(ds[1..], rest, c);
    } else if |path| > 1 {
      assert CalledAt(ds[0].dependencies, path[1..], c);
    }
  }

  /** The walk with an explicit stack terminates and misses no node. */
  method CollectCalls(root: Dependant) returns (calls: set<Call>)
    ensures forall c :: c in calls <==> Below(root.dependencies, c)
  {
    var stack := root.dependencies;
    calls := {};
    while stack != []
      invariant calls + CallsIn(stack) == CallsIn(root.dependencies)
      decreases Sizes(stack)
    {
      var last := |stack| - 1;
      var dependency := stack[last];
      assert stack == stack[..last] + [dependency];
      Concat(stack[..last], [dependency]);
      Concat(stack[..last], dependency.dependencies);
      stack := stack[..last];
      if dependency.call.Some? {
        calls := calls + {dependency.call.value};
      }
      stack := stack + dependency.dependencies;
    }
    forall c ensures c in calls <==> Below(root.dependencies, c) {
      CallsInAreBelow(root.dependencies, c);
    }
  }

  // ---------------------------------------------------------------------------
  // The guard

  /** Some API route behind the authentication dependency serves the endpoint. */
  ghost predicate Authenticated(routes: seq<Route>, principal: Call, e: Endpoint) {
    exists r | r in routes :: r.isApi && Below(r.root.dependencies, principal) && e.0 in r.methods && e.1 == r.path
  }

  method AuthenticatedRoutes(routes: seq<Route>, principal: Call) returns (found: set<Endpoint>)
    ensures forall e :: e in found <==> Authenticated(routes, principal, e) && e.0 !in UNCHECKED
  {
    found := {};
    for i := 0 to |routes|
      invariant forall e :: e in found <==> Authenticated(routes[..i], principal, e) && e.0 !in UNCHECKED
    {
      var route := routes[i];
      assert forall r :: r in routes[..i + 1] <==> r in routes[..i] || r == route;
      if !route.isApi {
        continue;
      }
      var calls := CollectCalls(route.root);
      if principal !in calls {
        continue;
      }
      found := found + set m | m in route.methods - UNCHECKED :: (m, route.path);
    }
    assert routes[..|routes|] == routes;
  }

  /** The table and the routes agree in both directions. */
  ghost predicate Complete(routes: seq<Route>, principal: Call, table: Table) {
    forall e :: e in table <==> Authenticated(routes, principal, e) && e.0 !in UNCHECKED
  }

  method AssertScopeTableComplete(routes: seq<Route>, principal: Call, table: Table) returns (r: Result<()>)
    ensures r.Ok? <==> Complete(routes, principal, table)
  {
    var found := AuthenticatedRoutes(routes, principal);
    var missing := found - table.Keys;
    var extra := table.Keys - found;
    if missing != {} || extra != {} {
      assert missing + extra != {};
      ghost var e :| e in missing + extra;
      assert !(e in table <==> Authenticated(routes, principal, e) && e.0 !in UNCHECKED);
      return Err(InternalError);
    }
    assert forall e :: e in found <==> e in table.Keys by {
      assert forall e :: e in found && e !in table.Keys ==> e in missing;
      assert forall e :: e !in found && e in table.Keys ==> e in extra;
    }
    r := Ok(());
  }

  // ---------------------------------------------------------------------------
  // The check on each request

  function UpperChar(c: char): char {
    if 'a' <= c <= 'z' then c - 'a' + 'A' else c
  }

  function Upper(s: string): (r: string)
    ensures |r| == |s| && forall i | 0 <= i < |s| :: r[i] == UpperChar(s[i])
  {
    if s == "" then "" else [UpperChar(s[0])] + Upper(s[1..])
  }

  function RequiredScopeFor(table: Table, method_: string, path: string): Result<Option<Scope>> {
    var key := (Upper(method_), path);
    var _ :- Check(key in table, ScopeUndeclared);
    Ok(table[key])
  }

  /** Methods are compared in upper case. */
  lemma UpperOfLetters(s: string)
    ensures |Upper(s)| == |s|
    ensures forall i | 0 <= i < |s| ::
      ('a' <= s[i] <= 'z' ==> Upper(s)[i] as int == s[i] as int - 32) && (!('a' <= s[i] <= 'z') ==> Upper(s)[i] == s[i])
  {
  }

  datatype Credential = Session | ApiKey(scopes: seq<Scope>)

  function EnforceScope(table: Table, method_: string, path: string, credential: Credential): Result<()> {
    var required :- RequiredScopeFor(table, method_, path);
    if credential.Session? || required.None? then Ok(())
    else Check(required.value in credential.scopes, ScopeRequired)
  }

  /** Once the guard has passed, an endpoint is declared exactly if an authenticated route serves it by a method other
      than HEAD and OPTIONS; everything else is refused, even to a login session. */
  lemma DeclaredExactlyIfAuthenticated(
    routes: seq<Route>, principal: Call, table: Table, method_: string, path: string, credential: Credential)
    requires Complete(routes, principal, table)
    ensures var e := (Upper(method_), path);
      && (RequiredScopeFor(table, method_, path).Ok? <==>
            Authenticated(routes, principal, e) && e.0 != "HEAD" && e.0 != "OPTIONS")
      && (EnforceScope(table, method_, path, credential).Ok? <==>
            && Authenticated(routes, principal, e) && e.0 != "HEAD" && e.0 != "OPTIONS"
            && (credential.Session? || table[e].None? || table[e].value in credential.scopes))
  {
    var e := (Upper(method_), path);
    assert e in table <==> Authenticated(routes, principal, e) && e.0 !in UNCHECKED;
  }

  /** The table cannot cover a HEAD endpoint: the guard only passes without it, and then the request is refused. */
  lemma HeadIsRefused(principal: Call, path: string, credential: Credential)
    ensures var routes := [Route(true, {"HEAD"}, path, Dependant(None, [Dependant(Some(principal), [])]))];
      && Authenticated(routes, principal, ("HEAD", path)) && Complete(routes, principal, map[])
      && EnforceScope(map[], "HEAD", path, credential) == Err(ScopeUndeclared)
  {
    var route := Route(true, {"HEAD"}, path, Dependant(None, [Dependant(Some(principal), [])]));
    assert CalledAt(route.root.dependencies, [0], principal);
    assert route in [route];
  }

  // ---------------------------------------------------------------------------
  // The catalog

  datatype CatalogEntry = CatalogEntry(scope: Scope, endpoints: seq<string>)

  function Text(e: Endpoint): string {
    e.0 + " " + e.1
  }

  function Texts(es: seq<Endpoint>): (r: seq<string>)
    ensures |r| == |es| && forall i | 0 <= i < |es| :: r[i] == Text(es[i])
  {
    if es == [] then [] else [Text(es[0])] + Texts(es[1..])
  }

  predicate SortedTexts(ts: seq<string>) {
    forall i, j | 0 <= i < j < |ts| :: LexLe(ts[i], ts[j])
  }

  function InsertText(t: string, ts: seq<string>): (r: seq<string>)
    ensures multiset(r) == multiset(ts) + multiset{t}
  {
    if ts == [] || LexLe(t, ts[0]) then
      assert multiset([t] + ts) == multiset{t} + multiset(ts);
      [t] + ts
    else
      assert ts == [ts[0]] + ts[1..];
      [ts[0]] + InsertText(t, ts[1..])
  }

  function SortTexts(ts: seq<string>): (r: seq<string>)
    ensures multiset(r) == multiset(ts)
  {
    if ts == [] then []
    else
      assert ts == [ts[0]] + ts[1..];
      InsertText(ts[0], SortTexts(ts[1..]))
  }

  lemma {:induction false} InsertTextKeepsSorted(t: string, ts: seq<string>)
    requires SortedTexts(ts)
    ensures SortedTexts(InsertText(t, ts))
  {
    if ts != [] {
      LexTotal(t, ts[0]);
      if LexLe(t, ts[0]) {
        forall j | 0 <= j < |ts| ensures LexLe(t, ts[j]) {
          if j > 0 { LexTransitive(t, ts[0], ts[j]); }
        }
      } else {
        InsertTextKeepsSorted(t, ts[1..]);
        var rest := InsertText(t, ts[1..]);
        forall y | y in rest ensures LexLe(ts[0], y) {
          assert y in multiset(rest);
          if y != t { assert y in ts[1..]; }
        }
      }
    }
  }

  lemma {:induction false} SortTextsIsSorted(ts: seq<string>)
    ensures SortedTexts(SortTexts(ts))
  {
    if ts != [] {
      SortTextsIsSorted(ts[1..]);
      InsertTextKeepsSorted(ts[0], SortTexts(ts[1..]));
    }
  }

  /** Each endpoint of the table that needs the scope, once. */
  ghost predicate Lists(es: seq<Endpoint>, table: Table, scope: Scope) {
    && (forall e :: e in es <==> e in table && table[e] == Some(scope))
    && (forall i, j | 0 <= i < j < |es| :: es[i] != es[j])
  }

  ghost predicate EntryOk(entry: CatalogEntry, table: Table) {
    && SortedTexts(entry.endpoints)
    && exists es :: Lists(es, table, entry.scope) && multiset(entry.endpoints) == multiset(Texts(es))
  }

  ghost predicate Grouped(grouped: map<Scope, seq<string>>, listed: map<Scope, seq<Endpoint>>, table: Table) {
    forall s: Scope :: s in grouped && s in listed && grouped[s] == Texts(listed[s]) && Lists(listed[s], table, s)
  }

  method GroupByScope(table: Table) returns (grouped: map<Scope, seq<string>>, ghost listed: map<Scope, seq<Endpoint>>)
    ensures Grouped(grouped, listed, table)
  {
    grouped := map s: Scope | s in ALL_SCOPES :: [];
    listed := map s: Scope | s in ALL_SCOPES :: [];
    EveryScopeIsListed();
    var left := table.Keys;
    while left != {}
      invariant left <= table.Keys && Grouped(grouped, listed, table - left)
    {
      var e :| e in left;
      ghost var done, more := table - left, table - (left - {e});
      left := left - {e};
      if table[e].Some? {
        var s := table[e].value;
        grouped := grouped[s := grouped[s] + [Text(e)]];
        assert more == done[e := Some(s)];
        ListsOneMore(listed[s], done, more, s, e);
        listed := listed[s := listed[s] + [e]];
      } else {
        assert more == done[e := None];
      }
    }
    assert table - left == table;
  }

  /** One entry per scope in declaration order; its endpoints are those of the table, sorted. */
  method ScopeCatalog(table: Table) returns (catalog: seq<CatalogEntry>)
    ensures |catalog| == |ALL_SCOPES|
    ensures forall i | 0 <= i < |catalog| :: catalog[i].scope == ALL_SCOPES[i] && EntryOk(catalog[i], table)
  {
    var grouped, listed := GroupByScope(table);
    catalog := [];
    for i := 0 to |ALL_SCOPES|
      invariant |catalog| == i
      invariant forall k | 0 <= k < i :: catalog[k].scope == ALL_SCOPES[k] && EntryOk(catalog[k], table)
    {
      var scope := ALL_SCOPES[i];
      SortTextsIsSorted(grouped[scope]);
      assert Lists(listed[scope], table, scope);
      catalog := catalog + [CatalogEntry(scope, SortTexts(grouped[scope]))];
    }
  }

  lemma ListsOneMore(es: seq<Endpoint>, done: Table, table: Table, scope: Scope, e: Endpoint)
    requires Lists(es, done, scope) && e !in done
    requires table == done[e := Some(scope)]
    ensures Lists(es + [e], table, scope) && Texts(es + [e]) == Texts(es) + [Text(e)]
  {
    assert e !in es;
  }

  lemma TextHead(e: Endpoint)
    requires ' ' !in e.0
    ensures Text(e)[0] == ' ' <==> e.0 == ""
    ensures e.0 != "" ==> Text(e)[0] == e.0[0]
  {
    if e.0 != "" {
      assert e.0[0] in e.0;
    }
  }

  /** The text of an endpoint names it, as long as methods contain no blank. */
  lemma {:induction false} TextIsInjective(a: Endpoint, b: Endpoint)
    requires ' ' !in a.0 && ' ' !in b.0 && Text(a) == Text(b)
    ensures a == b
    decreases |a.0|
  {
    TextHead(a);
    TextHead(b);
    if a.0 == "" {
      assert Text(a)[1..] == a.1 && Text(b)[1..] == b.1;
    } else {
      assert Text(a)[1..] == Text((a.0[1..], a.1)) && Text(b)[1..] == Text((b.0[1..], b.1));
      TextIsInjective((a.0[1..], a.1), (b.0[1..], b.1));
      assert a.0 == [a.0[0]] + a.0[1..] && b.0 == [b.0[0]] + b.0[1..];
    }
  }

  /** Every scoped endpoint appears exactly once in the catalog, under its own scope; an endpoint that needs no scope
      does not appear. */
  lemma CatalogListsEachEndpointOnce(table: Table, entry: CatalogEntry, e: Endpoint)
    requires EntryOk(entry, table) && e in table
    requires forall x | x in table :: ' ' !in x.0
    ensures multiset(entry.endpoints)[Text(e)] == if table[e] == Some(entry.scope) then 1 else 0
  {
    var es :| Lists(es, table, entry.scope) && multiset(entry.endpoints) == multiset(Texts(es));
    OccursOnce(es, e);
  }

  lemma {:induction false} OccursOnce(es: seq<Endpoint>, e: Endpoint)
    requires forall i, j | 0 <= i < j < |es| :: es[i] != es[j]
    requires ' ' !in e.0 && forall x | x in es :: ' ' !in x.0
    ensures multiset(Texts(es))[Text(e)] == if e in es then 1 else 0
  {
    if es != [] {
      OccursOnce(es[1..], e);
      assert Texts(es) == [Text(es[0])] + Texts(es[1..]);
      assert es[0] !in es[1..];
      if Text(es[0]) == Text(e) { TextIsInjective(es[0], e); }
    }
  }
}
