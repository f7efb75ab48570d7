/** Document numbers `TAG-YYYY-NNNN`: the next serial is read off the string maximum of the live numbers. */
module Numbering {
  import opened Common

  function DigitChar(d: nat): char
    requires d < 10
  {
    '0' + d as char
  }

  predicate IsDigit(c: char) {
    '0' <= c <= '9'
  }

  predicate AllDigits(s: string) {
    forall i | 0 <= i < |s| :: IsDigit(s[i])
  }

  function Digits(n: nat): (s: string)
    ensures s != "" && AllDigits(s)
  {
    if n < 10 then [DigitChar(n)] else Digits(n / 10) + [DigitChar(n % 10)]
  }

  function Zeros(n: nat): (s: string)
    ensures |s| == n && forall i | 0 <= i < n :: s[i] == '0'
  {
    if n == 0 then "" else "0" + Zeros(n - 1)
  }

  /** Zero-padding to four digits; longer numbers keep their own width. */
  function Pad4(n: nat): (s: string)
    ensures |s| >= 4 && AllDigits(s)
  {
    var d := Digits(n);
    if |d| < 4 then Zeros(4 - |d|) + d else d
  }

  function Value(s: string): nat
    requires AllDigits(s)
  {
    if s == "" then 0 else 10 * Value(s[..|s| - 1]) + (s[|s| - 1] - '0') as nat
  }

  function ParseNat(s: string): Option<nat> {
    if s != "" && AllDigits(s) then Some(Value(s)) else None
  }

  function Prefix(tag: string, year: nat): string {
    tag + "-" + Digits(year) + "-"
  }

  function DocNo(tag: string, year: nat, serial: nat): string {
    Prefix(tag, year) + Pad4(serial)
  }

  /** `max(no) where no like prefix%` over the rows with an id below `bound`. */
  function LastNo(nos: map<Id, string>, prefix: string, bound: nat): Option<string> {
    if bound == 0 then None
    else
      var id, rest := bound - 1, LastNo(nos, prefix, bound - 1);
      if id in nos && prefix <= nos[id] && (rest.None? || LexLess(rest.value, nos[id])) then Some(nos[id]) else rest
  }

  function NextNo(nos: map<Id, string>, bound: nat, tag: string, year: nat): Result<string> {
    var prefix := Prefix(tag, year);
    match LastNo(nos, prefix, bound)
    case None => Ok(DocNo(tag, year, 1))
    case Some(last) =>
      if |last| < |prefix| then Err(InternalError)
      else match ParseNat(last[|prefix|..])
        case None => Err(InternalError)
        case Some(serial) => Ok(DocNo(tag, year, serial + 1))
  }

  predicate Taken(nos: map<Id, string>, no: string) {
    exists id | id in nos :: nos[id] == no
  }

  ghost predicate WellNumbered(tag: string, no: string) {
    exists year: nat, serial: nat :: no == DocNo(tag, year, serial)
  }

  /** Every live number was produced by `DocNo`, and every id is below the id counter. */
  ghost predicate NumbersOk(tag: string, nos: map<Id, string>, bound: nat) {
    && (forall id | id in nos :: id < bound && WellNumbered(tag, nos[id]))
    && (forall i, j | i in nos && j in nos && i != j :: nos[i] != nos[j])
  }

  // ---------------------------------------------------------------------------
  // Formatting and parsing

  lemma {:induction false} ValueOfDigits(n: nat)
    ensures Value(Digits(n)) == n
  {
    if n < 10 {
      assert Digits(n)[..0] == "";
    } else {
      ValueOfDigits(n / 10);
      assert Digits(n)[..|Digits(n)| - 1] == Digits(n / 10);
    }
  }

  lemma {:induction false} ValueSkipsZeros(k: nat, s: string)
    requires AllDigits(s)
    ensures Value(Zeros(k) + s) == Value(s)
    decreases |s|, k
  {
    var t := Zeros(k) + s;
    if s != "" {
      assert t[..|t| - 1] == Zeros(k) + s[..|s| - 1];
      ValueSkipsZeros(k, s[..|s| - 1]);
    } else if k > 0 {
      assert t[..|t| - 1] == Zeros(k - 1) + s;
      ValueSkipsZeros(k - 1, s);
    }
  }

  lemma ParseUndoesPad4(n: nat)
    ensures ParseNat(Pad4(n)) == Some(n)
  {
    ValueOfDigits(n);
    var d := Digits(n);
    if |d| < 4 {
      ValueSkipsZeros(4 - |d|, d);
    }
  }

  lemma {:induction false} DigitsEndAtTheDash(d: string, d': string, tail: string)
    requires AllDigits(d) && AllDigits(d') && d + "-" <= d' + "-" + tail
    ensures d == d'
  {
    var rest := d' + "-" + tail;
    assert rest[..|d|] == d && rest[..|d'|] == d';
    assert forall i | 0 <= i < |d| :: IsDigit(rest[i]);
    assert forall i | 0 <= i < |d'| :: IsDigit(rest[i]);
    assert (d + "-")[|d|] == '-' && rest[|d|] == '-' && rest[|d'|] == '-';
    assert !IsDigit('-');
  }

  lemma PrefixNamesItsYear(tag: string, y: nat, y': nat, s': nat)
    requires Prefix(tag, y) <= DocNo(tag, y', s')
    ensures y == y'
  {
    var p, no := tag + "-", DocNo(tag, y', s');
    assert Prefix(tag, y)[|p|..] == Digits(y) + "-";
    assert no[|p|..] == Digits(y') + "-" + Pad4(s');
    DigitsEndAtTheDash(Digits(y), Digits(y'), Pad4(s'));
    ValueOfDigits(y);
    ValueOfDigits(y');
  }

  /** A number names exactly one year and one serial, and carries exactly its own year's prefix. */
  lemma DocNoIsInjective(tag: string, y: nat, s: nat, y': nat, s': nat)
    ensures Prefix(tag, y) <= DocNo(tag, y', s') ==> y == y'
    ensures DocNo(tag, y, s) == DocNo(tag, y', s') ==> y == y' && s == s'
  {
    if Prefix(tag, y) <= DocNo(tag, y', s') {
      PrefixNamesItsYear(tag, y, y', s');
    }
    if DocNo(tag, y, s) == DocNo(tag, y', s') {
      assert Prefix(tag, y) <= DocNo(tag, y, s);
      PrefixNamesItsYear(tag, y, y', s');
      assert Pad4(s) == DocNo(tag, y, s)[|Prefix(tag, y)|..] == Pad4(s');
      ParseUndoesPad4(s);
      ParseUndoesPad4(s');
    }
  }

  /** The written form: tag, year and serial joined by dashes, the serial in at least four digits. */
  lemma NumbersAreWritten()
    ensures DocNo("BT", 2024, 7) == "BT-2024-0007"
  {
    YearIsWritten();
    SerialIsWritten();
  }

  lemma YearIsWritten()
    ensures Digits(2024) == "2024"
  {
    assert Digits(20) == "20";
    assert Digits(202) == Digits(20) + "2";
  }

  lemma SerialIsWritten()
    ensures Pad4(7) == "0007"
  {
    assert Digits(7) == "7";
    assert Zeros(3) == "000";
  }

  // ---------------------------------------------------------------------------
  // String order against numeric order

  lemma {:induction false} LexSnoc(a: string, x: char, b: string, y: char)
    requires |a| == |b|
    ensures LexLess(a + [x], b + [y]) <==> LexLess(a, b) || (a == b && x < y)
  {
    if a != "" {
      assert (a + [x])[1..] == a[1..] + [x] && (b + [y])[1..] == b[1..] + [y];
      LexSnoc(a[1..], x, b[1..], y);
      assert a == [a[0]] + a[1..] && b == [b[0]] + b[1..];
      LexTotal(a, b);
    }
  }

  lemma {:induction false} LexIsNumericAtEqualWidth(a: string, b: string)
    requires |a| == |b| && AllDigits(a) && AllDigits(b)
    ensures LexLess(a, b) <==> Value(a) < Value(b)
    ensures a == b <==> Value(a) == Value(b)
  {
    if a != "" {
      var n := |a| - 1;
      LexIsNumericAtEqualWidth(a[..n], b[..n]);
      LexSnoc(a[..n], a[n], b[..n], b[n]);
      assert a == a[..n] + [a[n]] && b == b[..n] + [b[n]];
    }
  }

  function PowerOfTen(k: nat): nat {
    if k == 0 then 1 else 10 * PowerOfTen(k - 1)
  }

  lemma {:induction false} DigitsFit(n: nat, k: nat)
    requires k >= 1
    ensures n < PowerOfTen(k) <==> |Digits(n)| <= k
  {
    if n >= 10 && k > 1 {
      DigitsFit(n / 10, k - 1);
    } else if k > 1 {
      DigitsFit(n, k - 1);
    }
  }

  lemma DigitsWidth(n: nat)
    ensures n < 10000 <==> |Digits(n)| <= 4
  {
    DigitsFit(n, 4);
    assert PowerOfTen(2) == 100 && PowerOfTen(4) == 100 * PowerOfTen(2);
  }

  predicate AllNines(s: string) {
    forall i | 0 <= i < |s| :: s[i] == '9'
  }

  lemma {:induction false} WidthGrowsOnlyPastNines(n: nat)
    ensures |Digits(n + 1)| == |Digits(n)| || (|Digits(n + 1)| == |Digits(n)| + 1 && AllNines(Digits(n)))
  {
    if n >= 10 {
      WidthGrowsOnlyPastNines(n / 10);
      if n % 10 == 9 {
        assert (n + 1) / 10 == n / 10 + 1;
      } else {
        assert (n + 1) / 10 == n / 10;
      }
    } else if n < 9 {
      assert n + 1 < 10;
    }
  }

  lemma Pad4IsMonotone(m: nat, n: nat)
    requires |Pad4(m)| == |Pad4(n)|
    ensures LexLess(Pad4(m), Pad4(n)) <==> m < n
  {
    ParseUndoesPad4(m);
    ParseUndoesPad4(n);
    LexIsNumericAtEqualWidth(Pad4(m), Pad4(n));
  }

  lemma Pad4Width(n: nat)
    ensures n < 10000 ==> |Pad4(n)| == 4
    ensures n >= 9999 ==> Pad4(n) == Digits(n)
  {
    DigitsWidth(n);
    if n == 9999 {
      assert Digits(999) == "999" && Digits(9999) == "9999";
    }
  }

  lemma SuccessorIsLarger(n: nat)
    ensures LexLess(Pad4(n), Pad4(n + 1)) || (n >= 9999 && AllNines(Pad4(n)))
  {
    Pad4Width(n);
    Pad4Width(n + 1);
    if |Pad4(n)| == |Pad4(n + 1)| {
      Pad4IsMonotone(n, n + 1);
    } else {
      WidthGrowsOnlyPastNines(n);
    }
  }

  /** `LastNo` is the string maximum of the numbers that carry the prefix. */
  lemma {:induction false} LastNoIsTheMaximum(nos: map<Id, string>, prefix: string, bound: nat)
    ensures var last := LastNo(nos, prefix, bound);
      && (last.Some? ==> exists id :: id in nos && id < bound && nos[id] == last.value && prefix <= nos[id])
      && (forall id | id in nos && id < bound && prefix <= nos[id] :: last.Some? && LexLe(nos[id], last.value))
  {
    if bound > 0 {
      LastNoIsTheMaximum(nos, prefix, bound - 1);
      var id, rest := bound - 1, LastNo(nos, prefix, bound - 1);
      if id in nos && prefix <= nos[id] && rest.Some? {
        LexTotal(rest.value, nos[id]);
        forall i | i in nos && i < bound - 1 && prefix <= nos[i] && LexLess(rest.value, nos[id])
          ensures LexLe(nos[i], nos[id])
        {
          LexTransitive(nos[i], rest.value, nos[id]);
        }
      }
    }
  }

  lemma SerialReadsBack(tag: string, year: nat, no: string) returns (s: nat)
    requires WellNumbered(tag, no) && Prefix(tag, year) <= no
    ensures no == DocNo(tag, year, s) && ParseNat(no[|Prefix(tag, year)|..]) == Some(s)
  {
    var y: nat, serial: nat :| no == DocNo(tag, y, serial);
    s := serial;
    DocNoIsInjective(tag, year, s, y, s);
    assert no[|Prefix(tag, year)|..] == Pad4(s);
    ParseUndoesPad4(s);
  }

  /** With well-formed numbers the next number is always computed: it belongs to the right year, and its serial
      follows the serial of the string maximum. */
  lemma NextNoFollowsTheMaximum(tag: string, nos: map<Id, string>, bound: nat, year: nat) returns (last: nat)
    requires NumbersOk(tag, nos, bound)
    ensures NextNo(nos, bound, tag, year) == Ok(DocNo(tag, year, last + 1))
    ensures match LastNo(nos, Prefix(tag, year), bound)
      case None => last == 0
      case Some(no) => no == DocNo(tag, year, last) && no in nos.Values
  {
    var prefix := Prefix(tag, year);
    LastNoIsTheMaximum(nos, prefix, bound);
    match LastNo(nos, prefix, bound)
    case None => last := 0;
    case Some(no) =>
      last := SerialReadsBack(tag, year, no);
  }

  /** The year's numbering has rolled over at `n`: both `n`, all nines, and its successor are live, and no live serial
      sorts after `n`. */
  ghost predicate RollsOverAt(tag: string, nos: map<Id, string>, year: nat, n: nat) {
    && AllNines(Pad4(n)) && DocNo(tag, year, n) in nos.Values && DocNo(tag, year, n + 1) in nos.Values
    && forall m: nat | DocNo(tag, year, m) in nos.Values :: !LexLess(Pad4(n), Pad4(m))
  }

  ghost predicate RollsOver(tag: string, nos: map<Id, string>, year: nat) {
    exists n: nat :: RollsOverAt(tag, nos, year, n)
  }

  /** The serial that sorts last is the one the next number follows. */
  lemma LastSerialIsTheMaximum(tag: string, nos: map<Id, string>, bound: nat, year: nat, n: nat)
    requires NumbersOk(tag, nos, bound) && DocNo(tag, year, n) in nos.Values
    requires forall m: nat | DocNo(tag, year, m) in nos.Values :: !LexLess(Pad4(n), Pad4(m))
    ensures NextNo(nos, bound, tag, year) == Ok(DocNo(tag, year, n + 1))
  {
    var prefix := Prefix(tag, year);
    LastNoIsTheMaximum(nos, prefix, bound);
    var last := NextNoFollowsTheMaximum(tag, nos, bound, year);
    var id :| id in nos && nos[id] == DocNo(tag, year, n);
    assert prefix <= nos[id];
    assert DocNo(tag, year, last) in nos.Values && LexLe(prefix + Pad4(n), prefix + Pad4(last));
    LexSharedPrefix(prefix, Pad4(n), Pad4(last));
    DocNoIsInjective(tag, year, n, year, last);
  }

  lemma RollOverIsTaken(tag: string, nos: map<Id, string>, bound: nat, year: nat)
    requires NumbersOk(tag, nos, bound) && RollsOver(tag, nos, year)
    ensures NextNo(nos, bound, tag, year).Ok? && Taken(nos, NextNo(nos, bound, tag, year).value)
  {
    var n: nat :| RollsOverAt(tag, nos, year, n);
    LastSerialIsTheMaximum(tag, nos, bound, year, n);
  }

  lemma TakenIsRollOver(tag: string, nos: map<Id, string>, bound: nat, year: nat)
    requires NumbersOk(tag, nos, bound)
    requires NextNo(nos, bound, tag, year).Ok? && Taken(nos, NextNo(nos, bound, tag, year).value)
    ensures RollsOver(tag, nos, year)
  {
    var prefix := Prefix(tag, year);
    var s := NextNoFollowsTheMaximum(tag, nos, bound, year);
    var next := DocNo(tag, year, s + 1);
    LastNoIsTheMaximum(nos, prefix, bound);
    var id :| id in nos && nos[id] == next;
    assert prefix <= next;
    forall m: nat | DocNo(tag, year, m) in nos.Values ensures !LexLess(Pad4(s), Pad4(m)) {
      var i :| i in nos && nos[i] == DocNo(tag, year, m);
      assert prefix <= nos[i];
      LexSharedPrefix(prefix, Pad4(s), Pad4(m));
      LexTotal(DocNo(tag, year, m), DocNo(tag, year, s));
    }
    SuccessorIsLarger(s);
    assert DocNo(tag, year, s + 1) in nos.Values;
    assert RollsOverAt(tag, nos, year, s);
  }

  /** The next number is in use exactly when the year has rolled over past four digits or more. */
  lemma NextNoIsTakenExactlyAtRollOver(tag: string, nos: map<Id, string>, bound: nat, year: nat)
    requires NumbersOk(tag, nos, bound)
    ensures var next := NextNo(nos, bound, tag, year);
      next.Ok? && WellNumbered(tag, next.value) && (Taken(nos, next.value) <==> RollsOver(tag, nos, year))
  {
    var s := NextNoFollowsTheMaximum(tag, nos, bound, year);
    if RollsOver(tag, nos, year) {
      RollOverIsTaken(tag, nos, bound, year);
    }
    if Taken(nos, NextNo(nos, bound, tag, year).value) {
      TakenIsRollOver(tag, nos, bound, year);
    }
  }

  ghost predicate SerialsFitFourDigits(tag: string, nos: map<Id, string>) {
    forall id, year: nat, serial: nat | id in nos && nos[id] == DocNo(tag, year, serial) :: serial <= 9999
  }

  /** While every live serial has at most four digits, the string maximum is the numeric maximum of the year and
      the next number is unused. */
  lemma FourDigitSerialsNeverCollide(tag: string, nos: map<Id, string>, bound: nat, year: nat) returns (s: nat)
    requires NumbersOk(tag, nos, bound) && SerialsFitFourDigits(tag, nos)
    ensures NextNo(nos, bound, tag, year) == Ok(DocNo(tag, year, s + 1))
    ensures forall id, serial: nat | id in nos && nos[id] == DocNo(tag, year, serial) :: serial <= s
    ensures s == 0 || DocNo(tag, year, s) in nos.Values
    ensures !Taken(nos, DocNo(tag, year, s + 1))
  {
    var prefix := Prefix(tag, year);
    s := NextNoFollowsTheMaximum(tag, nos, bound, year);
    LastNoIsTheMaximum(nos, prefix, bound);
    forall id, serial: nat | id in nos && nos[id] == DocNo(tag, year, serial)
      ensures serial <= s
    {
      assert prefix <= nos[id];
      assert LexLe(prefix + Pad4(serial), prefix + Pad4(s));
      assert DocNo(tag, year, s) in nos.Values;
      LexSharedPrefix(prefix, Pad4(serial), Pad4(s));
      Pad4Width(serial);
      Pad4Width(s);
      Pad4IsMonotone(serial, s);
      DocNoIsInjective(tag, year, serial, year, s);
    }
    forall id | id in nos
      ensures nos[id] != DocNo(tag, year, s + 1)
    {
      assert nos[id] == DocNo(tag, year, s + 1) ==> s + 1 <= s;
    }
  }

  /** Serials of at most four digits have not rolled over. */
  lemma FourDigitsHaveNotRolledOver(tag: string, nos: map<Id, string>, bound: nat, year: nat)
    requires NumbersOk(tag, nos, bound) && SerialsFitFourDigits(tag, nos)
    ensures !RollsOver(tag, nos, year)
  {
    var s := FourDigitSerialsNeverCollide(tag, nos, bound, year);
    NextNoIsTakenExactlyAtRollOver(tag, nos, bound, year);
  }

  lemma FourNines() returns (n: nat)
    ensures n == 9999 && AllNines(Pad4(n)) && LexLess(Pad4(n + 1), Pad4(n))
  {
    n := 9999;
    assert Digits(999) == "999" && Digits(1000) == "1000";
    assert Pad4(9999) == "9999" && Pad4(10000) == "10000";
  }

  /** The input on which the scheme breaks: once a year's serials are exactly 1 to 10000, it proposes 10000 again. */
  lemma TenThousandRollsOver(tag: string, nos: map<Id, string>, year: nat)
    requires forall m: nat :: DocNo(tag, year, m) in nos.Values <==> 1 <= m <= 10000
    ensures RollsOver(tag, nos, year)
  {
    var n := FourNines();
    forall m: nat | DocNo(tag, year, m) in nos.Values ensures !LexLess(Pad4(n), Pad4(m)) {
      if m < 10000 {
        Pad4Width(m);
        Pad4Width(n);
        Pad4IsMonotone(n, m);
      } else {
        LexTotal(Pad4(n), Pad4(m));
      }
    }
    assert RollsOverAt(tag, nos, year, n);
  }
}
