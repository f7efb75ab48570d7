/** Vocabulary shared by every module: optional values, call outcomes and the error codes of the services. */
module Common {
  type Id = nat

  /** Instants are microseconds since the epoch; a day has so many. */
  const DAY := 86_400_000_000

  datatype Option<+T> = None | Some(value: T)

  /** The request fields a code error can point to. */
  datatype FieldName =
    | PurposeCode | DestinationTypeCode | CountryCode | ExpenseCategoryCode | PositionCode | OtherField(name: string)

  /** The error codes the services raise. `InternalError` stands for every unhandled exception
      (a NOT NULL or UNIQUE violation, a TypeError): the request fails and nothing is committed. */
  datatype Error =
    | TripNotFound | NotTripOwner | NotTripApprover | TripNotEditable | TripNotDeletable
    | TripNotEnded | TripInvalidTransition | InvalidDateRange | RejectReasonRequired | NoApprover
    | SystemTransitionOnly | UserTransitionOnly
    | ExpenseNotFound | ExpenseItemNotFound | NotExpenseOwner | NotExpenseApprover
    | ExpenseNotEditable | ExpenseInvalidTransition | ExpenseAlreadyExists | ExpenseItemDuplicate
    | ExpenseNoItems | TripNotReportable | TripNotCompleted | InvalidAmount | AmountRequired
    | TotalAmountExceeded | CenterRequired | InvalidTransaction
    | InvalidFundCenter | InvalidCostCenter | CenterNotFound | DuplicateCenterCode | HasDependents
    | UnknownCodeGroup(field: FieldName) | InvalidCode(field: FieldName)
    | UserNotFound | DuplicateEmail | DuplicateEmployeeNo | AlreadyPending | InvalidManager
    | InvalidDepartment | InvalidUser | CannotDemoteSelf | PasswordTooShort | PasswordTooLong
    | UserInvalidTransition | WrongTransitionActor | CardNotFound
    | ScopesRequired | InvalidScope | TooManyKeys | ApiKeyNotFound | ApiKeyAlreadyRevoked
    | InvalidApiKey | ApiKeyRevoked | ApiKeyExpired | ScopeUndeclared | ScopeRequired
    | InvalidToken | InternalError

  datatype Result<+T> = Ok(value: T) | Err(error: Error) {
    predicate IsFailure() {
      Err?
    }

    function PropagateFailure<U>(): Result<U>
      requires Err?
    {
      Err(error)
    }

    function Extract(): T
      requires Ok?
    {
      value
    }
  }

  /** A check of the services: either it passes or it raises the given error. */
  function Check(condition: bool, error: Error): Result<()> {
    if condition then Ok(()) else Err(error)
  }

  /** The characters `str.strip` removes. */
  predicate IsSpace(c: char) {
    || '\U{9}' <= c <= '\U{d}' || '\U{1c}' <= c <= ' ' || c == '\U{85}' || c == '\U{a0}'
    || c == '\U{1680}' || '\U{2000}' <= c <= '\U{200a}' || c == '\U{2028}' || c == '\U{2029}'
    || c == '\U{202f}' || c == '\U{205f}' || c == '\U{3000}'
  }

  function Strip(s: string): (r: string)
    ensures r == "" <==> forall i | 0 <= i < |s| :: IsSpace(s[i])
    ensures r != "" ==> !IsSpace(r[0]) && !IsSpace(r[|r| - 1])
  {
    if s == "" then ""
    else if IsSpace(s[0]) then Strip(s[1..])
    else if IsSpace(s[|s| - 1]) then Strip(s[..|s| - 1])
    else s
  }

  predicate AllBlank(s: string) {
    forall i | 0 <= i < |s| :: IsSpace(s[i])
  }

  /** The text without the blanks at both ends. */
  ghost predicate Trims(s: string, t: string) {
    && (t == "" || (!IsSpace(t[0]) && !IsSpace(t[|t| - 1])))
    && exists before, after :: AllBlank(before) && AllBlank(after) && s == before + t + after
  }

  lemma TrimsAround(s: string, t: string, before: string, after: string)
    requires AllBlank(before) && AllBlank(after) && s == before + t + after
    requires t == "" || (!IsSpace(t[0]) && !IsSpace(t[|t| - 1]))
    ensures Trims(s, t)
  {
  }

  lemma TrimsAfterBlank(c: char, s: string, t: string)
    requires Trims(s, t) && IsSpace(c)
    ensures Trims([c] + s, t)
  {
    var before, after :| AllBlank(before) && AllBlank(after) && s == before + t + after;
    assert [c] + s == ([c] + before) + t + after;
    TrimsAround([c] + s, t, [c] + before, after);
  }

  lemma TrimsBeforeBlank(c: char, s: string, t: string)
    requires Trims(s, t) && IsSpace(c)
    ensures Trims(s + [c], t)
  {
    var before, after :| AllBlank(before) && AllBlank(after) && s == before + t + after;
    assert s + [c] == before + t + (after + [c]);
    TrimsAround(s + [c], t, before, after + [c]);
  }

  lemma {:induction false} StripTrims(s: string)
    ensures Trims(s, Strip(s))
  {
    if s != "" && IsSpace(s[0]) {
      StripTrims(s[1..]);
      assert s == [s[0]] + s[1..];
      TrimsAfterBlank(s[0], s[1..], Strip(s));
    } else if s != "" && IsSpace(s[|s| - 1]) {
      StripTrims(s[..|s| - 1]);
      assert s == s[..|s| - 1] + [s[|s| - 1]];
      TrimsBeforeBlank(s[|s| - 1], s[..|s| - 1], Strip(s));
    } else {
      assert s == "" + s + "";
      TrimsAround(s, s, "", "");
    }
  }

  /** Code point order on strings, as `max` and `sorted` use it. */
  predicate LexLess(a: string, b: string) {
    b != "" && (a == "" || a[0] < b[0] || (a[0] == b[0] && LexLess(a[1..], b[1..])))
  }

  predicate LexLe(a: string, b: string) {
    a == b || LexLess(a, b)
  }

  lemma {:induction false} LexTotal(a: string, b: string)
    ensures LexLe(a, b) || LexLess(b, a)
    ensures !(LexLess(a, b) && LexLess(b, a))
    ensures LexLess(a, b) ==> a != b
  {
    if a != "" && b != "" {
      LexTotal(a[1..], b[1..]);
      assert a == [a[0]] + a[1..] && b == [b[0]] + b[1..];
    }
  }

  lemma {:induction false} LexTransitive(a: string, b: string, c: string)
    requires LexLe(a, b) && LexLe(b, c)
    ensures LexLe(a, c)
  {
    if a != "" && b != "" && c != "" && a != b && b != c {
      if a[0] == b[0] && b[0] == c[0] {
        LexTransitive(a[1..], b[1..], c[1..]);
        assert a == [a[0]] + a[1..] && c == [c[0]] + c[1..];
      }
    }
  }

  lemma {:induction false} LexSharedPrefix(p: string, a: string, b: string)
    ensures LexLess(p + a, p + b) <==> LexLess(a, b)
  {
    if p == "" {
      assert p + a == a && p + b == b;
    } else {
      assert (p + a)[1..] == p[1..] + a && (p + b)[1..] == p[1..] + b;
      LexSharedPrefix(p[1..], a, b);
    }
  }
}
