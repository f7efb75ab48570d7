/** API keys: issued to a user with some scopes and an optional lifetime, revoked by their owner, and checked on every
    request. Only the hash of a key is stored; the hash function is a parameter. */
module ApiKeys {
  import opened Common
  import opened Tables
  import opened ApiScopes

  const MAX_ACTIVE_KEYS := 10
  const KEY_PREFIX := "sk_live_"

  datatype Key = Key(
    user: Id, name: string, hash: string, scopes: seq<Scope>, expiresAt: Option<int>, revokedAt: Option<int>,
    lastUsedAt: Option<int>)

  datatype KeyState = Active | Revoked | Expired

  datatype Keys = Keys(rows: map<Id, Key>, next: Id)

  const NO_KEYS := Keys(map[], 0)

  function StateOf(key: Key, now: int): KeyState {
    if key.revokedAt.Some? then Revoked
    else if key.expiresAt.Some? && key.expiresAt.value <= now then Expired
    else KeyState.Active
  }

  /** The condition of the counting query. */
  predicate Counted(key: Key, user: Id, now: int) {
    key.user == user && key.revokedAt.None? && (key.expiresAt.None? || key.expiresAt.value > now)
  }

  /** The query and the state rule agree. */
  lemma CountedIsActive(key: Key, user: Id, now: int)
    ensures Counted(key, user, now) <==> key.user == user && StateOf(key, now) == KeyState.Active
  {
  }

  function ActiveKeys(rows: map<Id, Key>, user: Id, now: int): set<Id> {
    set id | id in rows && Counted(rows[id], user, now)
  }

  // ---------------------------------------------------------------------------
  // The requested scopes

  /** The requested scopes in declaration order. */
  function InOrder(declared: seq<Scope>, requested: seq<string>): (r: seq<Scope>)
    ensures forall s :: s in r <==> s in declared && exists t | t in requested :: ParseScope(t) == Some(s)
  {
    if declared == [] then []
    else
      var rest := InOrder(declared[1..], requested);
      assert forall s :: s in declared <==> s == declared[0] || s in declared[1..];
      if exists t | t in requested :: ParseScope(t) == Some(declared[0]) then [declared[0]] + rest else rest
  }

  function ValidateScopes(requested: seq<string>): Result<seq<Scope>> {
    var _ :- Check(requested != [], ScopesRequired);
    var _ :- Check(forall t | t in requested :: ParseScope(t).Some?, InvalidScope);
    Ok(InOrder(ALL_SCOPES, requested))
  }

  lemma {:induction false} InOrderIsCanonical(declared: seq<Scope>, a: seq<string>, b: seq<string>)
    requires forall s ::
      (exists t | t in a :: ParseScope(t) == Some(s)) <==> (exists t | t in b :: ParseScope(t) == Some(s))
    ensures InOrder(declared, a) == InOrder(declared, b)
  {
    if declared != [] {
      InOrderIsCanonical(declared[1..], a, b);
    }
  }

  predicate Distinct(scopes: seq<Scope>) {
    forall i, j | 0 <= i < j < |scopes| :: scopes[i] != scopes[j]
  }

  lemma {:induction false} InOrderOnce(declared: seq<Scope>, requested: seq<string>)
    requires Distinct(declared)
    ensures Distinct(InOrder(declared, requested))
  {
    if declared != [] {
      InOrderOnce(declared[1..], requested);
      var rest := InOrder(declared[1..], requested);
      assert declared[0] !in declared[1..];
      assert declared[0] !in rest;
      assert InOrder(declared, requested) == rest || InOrder(declared, requested) == [declared[0]] + rest;
    }
  }

  /** The stored scopes depend only on which scopes were asked for, not on order or repetition; each is stored once, and
      nothing that was not asked for. */
  lemma ScopesAreCanonical(a: seq<string>, b: seq<string>)
    requires ValidateScopes(a).Ok? && ValidateScopes(b).Ok?
    ensures (forall t :: t in a <==> t in b) ==> ValidateScopes(a) == ValidateScopes(b)
    ensures forall s :: s in ValidateScopes(a).value <==> exists t | t in a :: ParseScope(t) == Some(s)
    ensures ValidateScopes(a).value != [] && Distinct(ValidateScopes(a).value)
  {
    assert a[0] in a;
    if forall t :: t in a <==> t in b {
      forall s
        ensures (exists t | t in a :: ParseScope(t) == Some(s)) <==> (exists t | t in b :: ParseScope(t) == Some(s))
      {
      }
      InOrderIsCanonical(ALL_SCOPES, a, b);
    }
    EveryScopeIsListed();
    InOrderOnce(ALL_SCOPES, a);
    assert ParseScope(a[0]).value in ValidateScopes(a).value;
  }

  // ---------------------------------------------------------------------------
  // The services

  datatype Issue = Issue(keys: Keys, raw: string)

  datatype Login = Login(keys: Keys, user: Id, scopes: seq<Scope>)

  /** `timedelta(days=...)` when a number other than zero is given. */
  function ExpiryFrom(now: int, days: Option<int>): Option<int> {
    if days.Some? && days.value != 0 then Some(now + days.value * DAY) else None
  }

  predicate HashTaken(rows: map<Id, Key>, hash: string) {
    exists id | id in rows :: rows[id].hash == hash
  }

  function CreateKey(k: Keys, user: Id, name: string, scopes: seq<string>, days: Option<int>, token: string, now: int,
                     hash: string -> string): Result<Issue>
  {
    var stored :- ValidateScopes(scopes);
    var _ :- Check(|ActiveKeys(k.rows, user, now)| < MAX_ACTIVE_KEYS, TooManyKeys);
    var raw := KEY_PREFIX + token;
    var _ :- Check(!HashTaken(k.rows, hash(raw)), InternalError);
    var key := Key(user, name, hash(raw), stored, ExpiryFrom(now, days), None, None);
    Ok(Issue(Keys(k.rows[k.next := key], k.next + 1), raw))
  }

  function RevokeKey(k: Keys, user: Id, id: Id, now: int): Result<Keys> {
    var _ :- Check(id in k.rows && k.rows[id].user == user, ApiKeyNotFound);
    var _ :- Check(k.rows[id].revokedAt.None?, ApiKeyAlreadyRevoked);
    Ok(k.(rows := k.rows[id := k.rows[id].(revokedAt := Some(now))]))
  }

  function Lookup(rows: map<Id, Key>, hash: string, n: nat): (r: Option<Id>)
    ensures r.Some? ==> r.value < n && r.value in rows && rows[r.value].hash == hash
    ensures r.None? ==> forall id | id in rows && id < n :: rows[id].hash != hash
  {
    if n == 0 then None
    else if n - 1 in rows && rows[n - 1].hash == hash then Some(n - 1)
    else Lookup(rows, hash, n - 1)
  }

  function Authenticate(k: Keys, users: map<Id, User>, raw: string, now: int, hash: string -> string): Result<Login> {
    var _ :- Check(KEY_PREFIX <= raw, InvalidApiKey);
    var found := Lookup(k.rows, hash(raw), k.next);
    if found.None? then Err(InvalidApiKey)
    else
      var key := k.rows[found.value];
      match StateOf(key, now)
      case Revoked => Err(ApiKeyRevoked)
      case Expired => Err(ApiKeyExpired)
      case Active =>
        if key.user !in users || !users[key.user].isActive then Err(InvalidApiKey)
        else Ok(Login(k.(rows := k.rows[found.value := key.(lastUsedAt := Some(now))]), key.user, key.scopes))
  }

  /** A key is issued exactly if at least one scope is asked for and all are known, the user has fewer than ten active
      keys, and the hash is new; the new row is the user's, active from now for the days asked for or for good, and no
      other row changes. */
  lemma IssuingSucceedsExactlyWhen(
    k: Keys, user: Id, name: string, scopes: seq<string>, days: Option<int>, token: string, now: int,
    hash: string -> string)
    ensures var r := CreateKey(k, user, name, scopes, days, token, now, hash);
      && (r.Ok? <==>
            && scopes != [] && (forall t | t in scopes :: exists s :: ScopeText(s) == t)
            && |set id | id in k.rows && k.rows[id].user == user && StateOf(k.rows[id], now) == KeyState.Active| < 10
            && forall id | id in k.rows :: k.rows[id].hash != hash("sk_live_" + token))
      && (r.Ok? ==>
            && r.value.raw == "sk_live_" + token && k.next in r.value.keys.rows
            && var key := r.value.keys.rows[k.next];
            && r.value.keys == Keys(k.rows[k.next := key], k.next + 1)
            && key.user == user && key.name == name && key.hash == hash(r.value.raw) && key.revokedAt.None?
            && key.lastUsedAt.None? && (forall s :: s in key.scopes <==> ScopeText(s) in scopes)
            && key.expiresAt ==
                 if days.Some? && days.value != 0 then Some(now + days.value * 86_400_000_000) else None)
  {
    assert ActiveKeys(k.rows, user, now)
        == set id | id in k.rows && k.rows[id].user == user && StateOf(k.rows[id], now) == KeyState.Active;
    KnownTexts(scopes);
    StoredScopes(scopes);
  }

  lemma KnownTexts(scopes: seq<string>)
    ensures (forall t | t in scopes :: ParseScope(t).Some?) <==> forall t | t in scopes :: exists s :: ScopeText(s) == t
  {
    forall t | t in scopes ensures ParseScope(t).Some? <==> exists s :: ScopeText(s) == t {
      if ParseScope(t).Some? {
        assert ScopeText(ParseScope(t).value) == t;
      }
    }
  }

  lemma StoredScopes(scopes: seq<string>)
    ensures forall s :: s in InOrder(ALL_SCOPES, scopes) <==> ScopeText(s) in scopes
  {
    EveryScopeIsListed();
    forall s ensures s in InOrder(ALL_SCOPES, scopes) <==> ScopeText(s) in scopes {
      TextParses(s);
      if s in InOrder(ALL_SCOPES, scopes) {
        var t :| t in scopes && ParseScope(t) == Some(s);
      }
    }
  }

  /** Revoking succeeds exactly once, for the owner; it only sets the time. A login is refused for the first reason that
      applies: an unknown key, a revoked one, an expired one, a closed account. */
  lemma RevokingAndRefusing(
    k: Keys, user: Id, id: Id, now: int, users: map<Id, User>, raw: string, hash: string -> string)
    requires forall i, j | i in k.rows && j in k.rows && k.rows[i].hash == k.rows[j].hash :: i == j
    requires forall i | i in k.rows :: i < k.next
    ensures var r := RevokeKey(k, user, id, now);
      && (r.Ok? <==> id in k.rows && k.rows[id].user == user && k.rows[id].revokedAt.None?)
      && (r.Ok? ==> r.value == Keys(k.rows[id := k.rows[id].(revokedAt := Some(now))], k.next))
      && (r.Err? ==>
            r.error == if id in k.rows && k.rows[id].user == user then ApiKeyAlreadyRevoked else ApiKeyNotFound)
    ensures var r := Authenticate(k, users, raw, now, hash);
      && (!("sk_live_" <= raw) || (forall i | i in k.rows :: k.rows[i].hash != hash(raw)) ==> r == Err(InvalidApiKey))
      && (forall i | "sk_live_" <= raw && i in k.rows && k.rows[i].hash == hash(raw) ::
            var key := k.rows[i];
            && (key.revokedAt.Some? ==> r == Err(ApiKeyRevoked))
            && (key.revokedAt.None? && key.expiresAt.Some? && key.expiresAt.value <= now ==> r == Err(ApiKeyExpired))
            && (StateOf(key, now) == KeyState.Active && !(key.user in users && users[key.user].isActive) ==>
                  r == Err(InvalidApiKey))
            && (StateOf(key, now) == KeyState.Active && key.user in users && users[key.user].isActive ==>
                  r == Ok(Login(Keys(k.rows[i := key.(lastUsedAt := Some(now))], k.next), key.user, key.scopes))))
  {
  }

  // ---------------------------------------------------------------------------
  // As the services run

  class KeyStore {
    var rows: map<Id, Key>
    var next: Id

    function Snapshot(): Keys
      reads this
    {
      Keys(rows, next)
    }

    constructor ()
      ensures Snapshot() == NO_KEYS
    {
      rows, next := map[], 0;
    }

    method CountActive(user: Id, now: int) returns (n: nat)
      ensures n == |ActiveKeys(rows, user, now)|
    {
      n := 0;
      var left := rows.Keys;
      ghost var done: set<Id> := {};
      while left != {}
        invariant left <= rows.Keys && n == |done|
        invariant done == set id | id in rows && id !in left && Counted(rows[id], user, now)
        decreases |left|
      {
        var id :| id in left;
        left := left - {id};
        if Counted(rows[id], user, now) {
          n := n + 1;
          done := done + {id};
        }
      }
      assert done == ActiveKeys(rows, user, now);
    }

    method FindByHash(hash: string) returns (r: Option<Id>)
      ensures r == Lookup(rows, hash, next)
    {
      var i := next;
      while i > 0
        invariant 0 <= i <= next && Lookup(rows, hash, next) == Lookup(rows, hash, i)
      {
        if i - 1 in rows && rows[i - 1].hash == hash {
          return Some(i - 1);
        }
        i := i - 1;
      }
      r := None;
    }

    /** The plain key is returned once and never stored. */
    method Create(user: Id, name: string, scopes: seq<string>, days: Option<int>, token: string, now: int,
                  hash: string -> string) returns (r: Result<string>)
      modifies this
      ensures match CreateKey(old(Snapshot()), user, name, scopes, days, token, now, hash)
        case Ok(issue) => r == Ok(issue.raw) && Snapshot() == issue.keys
        case Err(e) => r == Err(e) && Snapshot() == old(Snapshot())
    {
      var stored :- ValidateScopes(scopes);
      var active := CountActive(user, now);
      if active >= MAX_ACTIVE_KEYS {
        return Err(TooManyKeys);
      }
      var raw := KEY_PREFIX + token;
      var digest := hash(raw);
      if HashTaken(rows, digest) {
        return Err(InternalError);
      }
      var expires: Option<int> := None;
      if days.Some? && days.value != 0 {
        expires := Some(now + days.value * DAY);
      }
      rows := rows[next := Key(user, name, digest, stored, expires, None, None)];
      next := next + 1;
      r := Ok(raw);
    }

    method Revoke(user: Id, id: Id, now: int) returns (r: Result<()>)
      modifies this
      ensures match RevokeKey(old(Snapshot()), user, id, now)
        case Ok(k) => r.Ok? && Snapshot() == k
        case Err(e) => r == Err(e) && Snapshot() == old(Snapshot())
    {
      if id !in rows || rows[id].user != user {
        return Err(ApiKeyNotFound);
      }
      if rows[id].revokedAt.Some? {
        return Err(ApiKeyAlreadyRevoked);
      }
      rows := rows[id := rows[id].(revokedAt := Some(now))];
      r := Ok(());
    }

    method Use(users: map<Id, User>, raw: string, now: int, hash: string -> string)
      returns (r: Result<(Id, seq<Scope>)>)
      modifies this
      ensures match Authenticate(old(Snapshot()), users, raw, now, hash)
        case Ok(login) => r == Ok((login.user, login.scopes)) && Snapshot() == login.keys
        case Err(e) => r == Err(e) && Snapshot() == old(Snapshot())
    {
      if !(KEY_PREFIX <= raw) {
        return Err(InvalidApiKey);
      }
      var found := FindByHash(hash(raw));
      if found.None? {
        return Err(InvalidApiKey);
      }
      var key := rows[found.value];
      var state := StateOf(key, now);
      if state == Revoked {
        return Err(ApiKeyRevoked);
      }
      if state == Expired {
        return Err(ApiKeyExpired);
      }
      if key.user !in users || !users[key.user].isActive {
        return Err(InvalidApiKey);
      }
      key := key.(lastUsedAt := Some(now));
      rows := rows[found.value := key];
      r := Ok((key.user, key.scopes));
    }
  }

  // ---------------------------------------------------------------------------
  // Runs

  datatype KeyCall =
    | Issuing(user: Id, name: string, scopes: seq<string>, days: Option<int>, token: string)
    | Revoking(user: Id, id: Id)
    | Using(users: map<Id, User>, raw: string)

  datatype KeyRequest = KeyRequest(now: int, call: KeyCall)

  function StepKeys(k: Keys, q: KeyRequest, hash: string -> string): Keys {
    match q.call
    case Issuing(user, name, scopes, days, token) =>
      var r := CreateKey(k, user, name, scopes, days, token, q.now, hash);
      if r.Ok? then r.value.keys else k
    case Revoking(user, id) =>
      var r := RevokeKey(k, user, id, q.now);
      if r.Ok? then r.value else k
    case Using(users, raw) =>
      var r := Authenticate(k, users, raw, q.now, hash);
      if r.Ok? then r.value.keys else k
  }

  function RunKeys(k: Keys, qs: seq<KeyRequest>, hash: string -> string): Keys
    decreases |qs|
  {
    if qs == [] then k else RunKeys(StepKeys(k, qs[0], hash), qs[1..], hash)
  }

  /** The clock never goes back. */
  predicate Ticks(qs: seq<KeyRequest>, now: int) {
    qs != [] ==> now <= qs[0].now && Ticks(qs[1..], qs[0].now)
  }

  function LastTick(qs: seq<KeyRequest>, now: int): int {
    if qs == [] then now else LastTick(qs[1..], qs[0].now)
  }

  /** What holds along every run. */
  ghost predicate KeysOk(k: Keys, now: int) {
    && (forall id | id in k.rows :: id < k.next)
    && (forall i, j | i in k.rows && j in k.rows && k.rows[i].hash == k.rows[j].hash :: i == j)
    && (forall user, later | now <= later :: |ActiveKeys(k.rows, user, later)| <= MAX_ACTIVE_KEYS)
  }

  lemma SubsetIsSmaller(a: set<Id>, b: set<Id>)
    requires a <= b
    ensures |a| <= |b|
  {
    assert b == a + (b - a);
  }

  /** Time alone only takes keys away. */
  lemma ActiveShrinks(rows: map<Id, Key>, user: Id, now: int, later: int)
    requires now <= later
    ensures ActiveKeys(rows, user, later) <= ActiveKeys(rows, user, now)
    ensures |ActiveKeys(rows, user, later)| <= |ActiveKeys(rows, user, now)|
  {
    SubsetIsSmaller(ActiveKeys(rows, user, later), ActiveKeys(rows, user, now));
  }

  lemma CreateKeepsQuota(rows: map<Id, Key>, id: Id, key: Key, user: Id, now: int, later: int)
    requires now <= later && id !in rows
    requires |ActiveKeys(rows, key.user, now)| < MAX_ACTIVE_KEYS
    requires |ActiveKeys(rows, user, later)| <= MAX_ACTIVE_KEYS
    ensures |ActiveKeys(rows[id := key], user, later)| <= MAX_ACTIVE_KEYS
  {
    var before, after := ActiveKeys(rows, user, later), ActiveKeys(rows[id := key], user, later);
    if key.user == user {
      ActiveShrinks(rows, user, now, later);
      SubsetIsSmaller(after, before + {id});
    } else {
      assert after == before;
    }
  }

  /** A row may only be revoked or marked as used. */
  predicate Ages(before: Key, after: Key) {
    && after == before.(revokedAt := after.revokedAt, lastUsedAt := after.lastUsedAt)
    && (before.revokedAt.Some? ==> after.revokedAt == before.revokedAt)
  }

  lemma AgingKeepsKeysOk(k: Keys, id: Id, key: Key, now: int)
    requires KeysOk(k, now) && id in k.rows && Ages(k.rows[id], key)
    ensures KeysOk(k.(rows := k.rows[id := key]), now)
  {
    var rows := k.rows[id := key];
    forall user, later | now <= later ensures |ActiveKeys(rows, user, later)| <= MAX_ACTIVE_KEYS {
      SubsetIsSmaller(ActiveKeys(rows, user, later), ActiveKeys(k.rows, user, later));
    }
  }

  lemma StepKeepsKeysOk(k: Keys, q: KeyRequest, hash: string -> string, now: int)
    requires KeysOk(k, now) && now <= q.now
    ensures KeysOk(StepKeys(k, q, hash), q.now)
  {
    assert KeysOk(k, q.now);
    match q.call
    case Issuing(user, name, scopes, days, token) =>
      var r := CreateKey(k, user, name, scopes, days, token, q.now, hash);
      if r.Ok? {
        var key := r.value.keys.rows[k.next];
        forall u, later | q.now <= later
          ensures |ActiveKeys(r.value.keys.rows, u, later)| <= MAX_ACTIVE_KEYS
        {
          CreateKeepsQuota(k.rows, k.next, key, u, q.now, later);
        }
      }
    case Revoking(user, id) =>
      if RevokeKey(k, user, id, q.now).Ok? {
        AgingKeepsKeysOk(k, id, k.rows[id].(revokedAt := Some(q.now)), q.now);
      }
    case Using(users, raw) =>
      if Authenticate(k, users, raw, q.now, hash).Ok? {
        var id := Lookup(k.rows, hash(raw), k.next).value;
        AgingKeepsKeysOk(k, id, k.rows[id].(lastUsedAt := Some(q.now)), q.now);
      }
  }

  lemma {:induction false} RunKeepsKeysOk(k: Keys, qs: seq<KeyRequest>, hash: string -> string, now: int)
    requires KeysOk(k, now) && Ticks(qs, now)
    ensures KeysOk(RunKeys(k, qs, hash), LastTick(qs, now)) && now <= LastTick(qs, now)
    decreases |qs|
  {
    if qs != [] {
      StepKeepsKeysOk(k, qs[0], hash, now);
      RunKeepsKeysOk(StepKeys(k, qs[0], hash), qs[1..], hash, qs[0].now);
    }
  }

  /** However keys are issued, revoked and used, no user has more than ten active keys, at the end or any time later. */
  lemma NeverMoreThanTenActive(qs: seq<KeyRequest>, hash: string -> string, start: int, user: Id, later: int)
    requires Ticks(qs, start) && LastTick(qs, start) <= later
    ensures |ActiveKeys(RunKeys(NO_KEYS, qs, hash).rows, user, later)| <= 10
  {
    RunKeepsKeysOk(NO_KEYS, qs, hash, start);
  }

  lemma StepAges(k: Keys, q: KeyRequest, hash: string -> string, id: Id)
    requires KeysOk(k, q.now) && id in k.rows
    ensures var next := StepKeys(k, q, hash); id in next.rows && Ages(k.rows[id], next.rows[id])
    ensures StepKeys(k, q, hash).rows[id].revokedAt != k.rows[id].revokedAt ==>
      q.call == Revoking(k.rows[id].user, id) && StepKeys(k, q, hash).rows[id].revokedAt == Some(q.now)
  {
  }

  predicate RevokedIn(qs: seq<KeyRequest>, user: Id, id: Id) {
    exists q | q in qs :: q.call == Revoking(user, id)
  }

  /** A row never disappears; it is revoked exactly by its owner's call. */
  lemma {:induction false} RunAges(k: Keys, qs: seq<KeyRequest>, hash: string -> string, now: int, id: Id)
    requires KeysOk(k, now) && Ticks(qs, now) && id in k.rows
    ensures var next := RunKeys(k, qs, hash);
      && id in next.rows && Ages(k.rows[id], next.rows[id])
      && (next.rows[id].revokedAt.Some? <==> k.rows[id].revokedAt.Some? || RevokedIn(qs, k.rows[id].user, id))
    decreases |qs|
  {
    if qs != [] {
      var next := StepKeys(k, qs[0], hash);
      StepKeepsKeysOk(k, qs[0], hash, now);
      StepAges(k, qs[0], hash, id);
      RunAges(next, qs[1..], hash, qs[0].now, id);
      assert forall q :: q in qs <==> q == qs[0] || q in qs[1..];
      assert qs[0].call == Revoking(k.rows[id].user, id) ==> next.rows[id].revokedAt.Some?;
    }
  }

  /** The hash leads to the row it belongs to. */
  lemma LookupFinds(k: Keys, now: int, id: Id)
    requires KeysOk(k, now) && id in k.rows
    ensures Lookup(k.rows, k.rows[id].hash, k.next) == Some(id)
  {
  }

  /** A key that was revoked or had expired is refused ever after, to whoever presents it. */
  lemma DeadKeysStayDead(
    k: Keys, now: int, id: Id, qs: seq<KeyRequest>, hash: string -> string, users: map<Id, User>, raw: string,
    later: int)
    requires KeysOk(k, now) && id in k.rows && StateOf(k.rows[id], now) != KeyState.Active
    requires Ticks(qs, now) && LastTick(qs, now) <= later
    requires hash(raw) == k.rows[id].hash
    ensures Authenticate(RunKeys(k, qs, hash), users, raw, later, hash).Err?
    ensures StateOf(k.rows[id], now).Revoked? && KEY_PREFIX <= raw ==>
      Authenticate(RunKeys(k, qs, hash), users, raw, later, hash) == Err(ApiKeyRevoked)
  {
    RunKeepsKeysOk(k, qs, hash, now);
    RunAges(k, qs, hash, now, id);
    LookupFinds(RunKeys(k, qs, hash), LastTick(qs, now), id);
  }

  /** An issued key logs its owner in, with exactly the scopes asked for, until it expires, until the owner revokes it,
      or while the owner's account is switched off: and in no other case is it refused. */
  lemma IssuedKeyWorksExactlyUntil(
    k: Keys, now: int, user: Id, name: string, scopes: seq<string>, days: Option<int>, token: string,
    hash: string -> string, qs: seq<KeyRequest>, users: map<Id, User>, later: int)
    requires KeysOk(k, now) && CreateKey(k, user, name, scopes, days, token, now, hash).Ok?
    requires Ticks(qs, now) && LastTick(qs, now) <= later
    ensures var issue := CreateKey(k, user, name, scopes, days, token, now, hash).value;
      var r := Authenticate(RunKeys(issue.keys, qs, hash), users, issue.raw, later, hash);
      && (r.Ok? <==>
            && !RevokedIn(qs, user, k.next)
            && (days.Some? && days.value != 0 ==> later < now + days.value * DAY)
            && user in users && users[user].isActive)
      && (r.Ok? ==> r.value.user == user && Ok(r.value.scopes) == ValidateScopes(scopes))
  {
    var issue := CreateKey(k, user, name, scopes, days, token, now, hash).value;
    var q := KeyRequest(now, Issuing(user, name, scopes, days, token));
    StepKeepsKeysOk(k, q, hash, now);
    assert StepKeys(k, q, hash) == issue.keys;
    RunKeepsKeysOk(issue.keys, qs, hash, now);
    RunAges(issue.keys, qs, hash, now, k.next);
    LookupFinds(RunKeys(issue.keys, qs, hash), LastTick(qs, now), k.next);
  }
}
