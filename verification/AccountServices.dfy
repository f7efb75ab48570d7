/** What each account service does, in terms of the request alone. */
module AccountServices {
  import opened Common
  import opened Codes
  import opened Tables
  import opened TripServices
  import Accounts

  /** A password is long enough by characters and short enough by bytes. */
  lemma PasswordsPassExactly(password: string)
    ensures Accounts.AssertPasswordLength(password).Ok? <==>
      |password| >= 8 && Accounts.Utf8Length(password) <= 72
    ensures |password| < 8 ==> Accounts.AssertPasswordLength(password) == Err(PasswordTooShort)
  {
  }

  /** Bytes add up, one to four for each character. */
  lemma {:induction false} Utf8LengthAdds(s: string, t: string)
    ensures Accounts.Utf8Length(s + t) == Accounts.Utf8Length(s) + Accounts.Utf8Length(t)
    ensures forall c: char ::
      var code := c as int;
      Accounts.Utf8Length([c]) == if code < 0x80 then 1 else if code < 0x800 then 2 else if code < 0x10000 then 3 else 4
  {
    if s == "" {
      assert s + t == t;
    } else {
      assert (s + t)[1..] == s[1..] + t;
      Utf8LengthAdds(s[1..], t);
    }
  }

  predicate SoundManager(users: map<Id, User>, manager: Option<Id>, id: Id) {
    manager.Some? ==> manager.value in users && manager.value != id
  }

  function PositionProblem(codes: CodeTable): Error {
    if GroupActive(codes, Position) then InvalidCode(PositionCode) else UnknownCodeGroup(PositionCode)
  }

  lemma PositionIsChecked(codes: CodeTable, position: string)
    ensures Verdict(codes, Accounts.PositionSpec(position)) ==
      if CodeActive(codes, Position, Some(position)) then Ok(()) else Err(PositionProblem(codes))
  {
    var spec := CodeSpec(Position, PositionCode, Some(position));
    assert Accounts.PositionSpec(position) == [spec] + [];
    CheckedFirst(codes, spec, []);
    if CodeActive(codes, Position, Some(position)) {
      ActiveCodeHasGroup(codes, Position, Some(position));
    }
  }

  function PasswordProblem(password: string): Error {
    if |password| < 8 then PasswordTooShort else PasswordTooLong
  }

  /** The first thing wrong with a user form. */
  function UserProblem(db: DB, env: Env, form: Accounts.UserForm): Error {
    if |form.password| < 8 || Accounts.Utf8Length(form.password) > 72 then PasswordProblem(form.password)
    else if exists u | u in db.users :: db.users[u].email == form.email then DuplicateEmail
    else if exists u | u in db.users :: db.users[u].employeeNo == Some(form.employeeNo) then DuplicateEmployeeNo
    else if form.department !in env.departments then InvalidDepartment
    else if form.manager.Some? && form.manager.value !in db.users then InvalidManager
    else PositionProblem(env.codes)
  }

  lemma CreatingUserDoes(db: DB, env: Env, form: Accounts.UserForm)
    ensures var r := Accounts.CreateUser(db, env, form);
      && (r.Ok? <==>
            && |form.password| >= 8 && Accounts.Utf8Length(form.password) <= 72
            && (forall u | u in db.users ::
                  db.users[u].email != form.email && db.users[u].employeeNo != Some(form.employeeNo))
            && form.department in env.departments
            && (form.manager.Some? ==> form.manager.value in db.users)
            && CodeActive(env.codes, Position, Some(form.position)))
      && (r.Ok? ==> r.value == db.(
            nextUser := db.nextUser + 1,
            users := db.users[db.nextUser :=
              User(form.email, form.digest, form.name, Some(form.employeeNo), form.department, Some(form.position),
                   form.manager, form.role, UserStatus.Active, form.isActive)]))
      && (r.Err? ==> r.error == UserProblem(db, env, form))
  {
    PositionIsChecked(env.codes, form.position);
  }

  /** The account after an edit: each field sent with a value has that value; position and manager may be cleared. */
  function Edited(user: User, patch: Accounts.UserPatch): User {
    user.(name := if patch.name.Set? then patch.name.value else user.name,
          department := if patch.department.Set? then patch.department.value else user.department,
          position := if patch.position.Set? then Some(patch.position.value)
                      else if patch.position.Null? then None else user.position,
          manager := if patch.manager.Set? then Some(patch.manager.value)
                     else if patch.manager.Null? then None else user.manager,
          role := if patch.role.Set? then patch.role.value else user.role,
          isActive := if patch.isActive.Set? then patch.isActive.value else user.isActive)
  }

  lemma UpdatingUserDoes(db: DB, env: Env, actor: Id, id: Id, patch: Accounts.UserPatch)
    ensures var r := Accounts.UpdateUser(db, env, actor, id, patch);
      && (r.Ok? <==>
            && id in db.users
            && (id == actor ==> patch.role != Set(Role.Employee) && patch.role != Set(Role.Manager)
                                && patch.isActive != Set(false))
            && (patch.department.Set? ==> patch.department.value in env.departments)
            && (patch.manager.Set? ==> patch.manager.value in db.users && patch.manager.value != id)
            && (patch.position.Set? ==> CodeActive(env.codes, Position, Some(patch.position.value)))
            && !patch.name.Null? && !patch.department.Null? && !patch.role.Null? && !patch.isActive.Null?)
      && (r.Ok? ==> r.value == db.(users := db.users[id := Edited(db.users[id], patch)]))
      && (id in db.users && id == actor && (patch.role == Set(Role.Employee) || patch.role == Set(Role.Manager)) ==>
            r == Err(CannotDemoteSelf))
  {
    assert patch.role.Set? ==> patch.role.value.Employee? || patch.role.value.Manager? || patch.role.value.Admin?;
    if patch.position.Set? {
      PositionIsChecked(env.codes, patch.position.value);
    }
  }

  /** An approval fills in what the administrator sent, opens the login and changes nothing else. */
  lemma ApprovingUserDoes(db: DB, env: Env, id: Id, form: Accounts.ApproveForm)
    ensures var r := Accounts.ApproveUser(db, env, id, form);
      && (r.Ok? <==>
            && id in db.users && db.users[id].status == UserStatus.Pending
            && (forall u | u in db.users :: db.users[u].employeeNo != Some(form.employeeNo))
            && SoundManager(db.users, form.manager, id) && CodeActive(env.codes, Position, Some(form.position)))
      && (r.Ok? ==>
            var u := db.users[id];
            r.value == db.(users := db.users[id :=
              User(u.email, u.passwordHash, u.name, Some(form.employeeNo), u.department, Some(form.position),
                   form.manager, form.role, UserStatus.Active, true)]))
      && (r.Err? ==>
            r.error ==
            if id !in db.users then UserNotFound
            else if db.users[id].status != UserStatus.Pending then UserInvalidTransition
            else if exists u | u in db.users :: db.users[u].employeeNo == Some(form.employeeNo) then DuplicateEmployeeNo
            else if !SoundManager(db.users, form.manager, id) then InvalidManager
            else PositionProblem(env.codes))
  {
    PositionIsChecked(env.codes, form.position);
  }

  /** A rejection changes status and login only. */
  lemma RejectingUserDoes(db: DB, id: Id)
    ensures var r := Accounts.RejectUser(db, id);
      && (r.Ok? <==> id in db.users && db.users[id].status == UserStatus.Pending)
      && (r.Ok? ==> r.value == db.(users := db.users[id :=
            db.users[id].(status := UserStatus.Rejected, isActive := false)]))
      && (r.Err? ==> r.error == if id in db.users then UserInvalidTransition else UserNotFound)
  {
  }

  /** A sign-up inserts a pending account, or overwrites the rejected application of the same e-mail. */
  lemma SigningUpDoes(db: DB, env: Env, form: Accounts.SignupForm)
    requires forall u | u in db.users :: u < db.nextUser
    requires forall u, v | u in db.users && v in db.users && db.users[u].email == db.users[v].email :: u == v
    ensures var r := Accounts.Signup(db, env, form);
      && (|form.password| < 8 || Accounts.Utf8Length(form.password) > 72 ==> r == Err(PasswordProblem(form.password)))
      && (|form.password| >= 8 && Accounts.Utf8Length(form.password) <= 72 && form.department !in env.departments ==>
            r == Err(InvalidDepartment))
      && (|form.password| >= 8 && Accounts.Utf8Length(form.password) <= 72 && form.department in env.departments ==>
            && ((forall u | u in db.users :: db.users[u].email != form.email) ==>
                  r == Ok(db.(
                    nextUser := db.nextUser + 1,
                    users := db.users[db.nextUser :=
                      User(form.email, form.digest, form.name, None, form.department, None, None, Role.Employee,
                           UserStatus.Pending, false)])))
            && (forall u | u in db.users && db.users[u].email == form.email ::
                  && (db.users[u].status == UserStatus.Pending ==> r == Err(AlreadyPending))
                  && (db.users[u].status == UserStatus.Active ==> r == Err(DuplicateEmail))
                  && (db.users[u].status == UserStatus.Rejected ==>
                        r == Ok(db.(users := db.users[u := db.users[u].(
                               name := form.name, department := form.department, passwordHash := form.digest,
                               status := UserStatus.Pending, isActive := false)])))))
  {
    var found := Accounts.UserWithEmail(db.users, form.email, db.nextUser);
    if found.Some? {
      assert forall u | u in db.users && db.users[u].email == form.email :: u == found.value;
    }
  }
}
