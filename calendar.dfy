/**
 * The calendar arithmetic the report endpoints of backend.py rely on: the
 * Gregorian month lengths of `calendar.monthrange`, decimal formatting with
 * zero padding (`f"{n:02d}"`, `f"{n:04d}"`), and `datetime.date.isoformat`.
 */
module Calendar {

  /** `calendar.isleap`; Dafny's `%` agrees with Python's for a positive divisor. */
  predicate IsLeap(y: int) {
    y % 4 == 0 && (y % 100 != 0 || y % 400 == 0)
  }

  predicate ValidMonth(m: int) {
    1 <= m <= 12
  }

  /** `calendar.monthrange(y, m)[1]`. */
  function DaysInMonth(y: int, m: int): (n: int)
    requires ValidMonth(m)
    ensures 28 <= n <= 31
  {
    if m == 2 then (if IsLeap(y) then 29 else 28)
    else if m == 4 || m == 6 || m == 9 || m == 11 then 30
    else 31
  }

  /** The days of months `1..m`. */
  function DaysBefore(y: int, m: nat): int
    requires m <= 12
  {
    if m == 0 then 0 else DaysBefore(y, m - 1) + DaysInMonth(y, m)
  }

  /** The twelve month lengths add up to the length of the year. */
  lemma YearLength(y: int)
    ensures DaysBefore(y, 12) == if IsLeap(y) then 366 else 365
  {
    var feb := DaysInMonth(y, 2);
    assert DaysBefore(y, 1) == 31;
    assert DaysBefore(y, 2) == 31 + feb;
    assert DaysBefore(y, 3) == 62 + feb;
    assert DaysBefore(y, 4) == 92 + feb;
    assert DaysBefore(y, 5) == 123 + feb;
    assert DaysBefore(y, 6) == 153 + feb;
    assert DaysBefore(y, 7) == 184 + feb;
    assert DaysBefore(y, 8) == 215 + feb;
    assert DaysBefore(y, 9) == 245 + feb;
    assert DaysBefore(y, 10) == 276 + feb;
    assert DaysBefore(y, 11) == 306 + feb;
  }

  /** `datetime.date(y, m, d)` accepts its arguments. */
  predicate ValidDate(y: int, m: int, d: int) {
    1 <= y <= 9999 && ValidMonth(m) && 1 <= d <= DaysInMonth(y, m)
  }

  function Pow10(k: nat): (p: nat)
    ensures p >= 1
  {
    if k == 0 then 1 else 10 * Pow10(k - 1)
  }

  function DigitChar(d: nat): (c: char)
    requires d < 10
    ensures '0' <= c <= '9'
  {
    (d + '0' as int) as char
  }

  function DigitValue(c: char): (d: nat)
    requires '0' <= c <= '9'
    ensures d < 10
  {
    c as int - '0' as int
  }

  predicate AllDigits(s: string) {
    forall i :: 0 <= i < |s| ==> '0' <= s[i] <= '9'
  }

  /** `str(n)` for a natural number. */
  function Digits(n: nat): (s: string)
    ensures 1 <= |s| && AllDigits(s)
    ensures |s| > 1 ==> s[0] != '0'
    decreases n
  {
    if n < 10 then [DigitChar(n)] else Digits(n / 10) + [DigitChar(n % 10)]
  }

  /** The number a string of decimal digits denotes; `int(s)`. */
  function Value(s: string): nat
    requires AllDigits(s)
  {
    if s == [] then 0 else Value(s[..|s| - 1]) * 10 + DigitValue(s[|s| - 1])
  }

  /** `f"{n:0{w}d}"` for a natural number: at least `w` characters, zeros in front. */
  function ZeroPad(n: nat, w: nat): (s: string)
    ensures AllDigits(s)
    ensures |s| == if |Digits(n)| < w then w else |Digits(n)|
  {
    Zeros(w - |Digits(n)|) + Digits(n)
  }

  function Zeros(k: int): (s: string)
    ensures |s| == if k < 0 then 0 else k
    ensures forall i :: 0 <= i < |s| ==> s[i] == '0'
    decreases k
  {
    if k <= 0 then [] else ['0'] + Zeros(k - 1)
  }

  lemma DigitRoundTrip(d: nat)
    requires d < 10
    ensures DigitValue(DigitChar(d)) == d
  {
  }

  /** Reading back what `Digits` writes gives the number again. */
  lemma {:induction false} ValueOfDigits(n: nat)
    ensures Value(Digits(n)) == n
    decreases n
  {
    var s := Digits(n);
    if n >= 10 {
      ValueOfDigits(n / 10);
      assert s[..|s| - 1] == Digits(n / 10);
    }
  }

  /** Leading zeros do not change the value. */
  lemma {:induction false} ValueIgnoresZeros(z: string, s: string)
    requires forall i :: 0 <= i < |z| ==> z[i] == '0'
    requires AllDigits(s)
    ensures AllDigits(z + s) && Value(z + s) == Value(s)
    decreases |s|
  {
    if s == [] {
      assert z + s == z;
      AllZerosValue(z);
    } else {
      var t := s[..|s| - 1];
      assert (z + s)[..|z + s| - 1] == z + t;
      ValueIgnoresZeros(z, t);
    }
  }

  lemma {:induction false} AllZerosValue(z: string)
    requires forall i :: 0 <= i < |z| ==> z[i] == '0'
    ensures AllDigits(z) && Value(z) == 0
    decreases |z|
  {
    if z != [] {
      AllZerosValue(z[..|z| - 1]);
    }
  }

  /** Zero padding keeps the value. */
  lemma ValueOfZeroPad(n: nat, w: nat)
    ensures Value(ZeroPad(n, w)) == n
  {
    ValueIgnoresZeros(Zeros(w - |Digits(n)|), Digits(n));
    ValueOfDigits(n);
  }

  /** A number below `10^w` takes at most `w` digits. */
  lemma {:induction false} DigitsLength(n: nat, w: nat)
    requires n < Pow10(w)
    ensures |Digits(n)| <= if w == 0 then 1 else w
    decreases n
  {
    if n >= 10 {
      assert Pow10(0) == 1 && Pow10(1) == 10;
      assert w >= 2;
      assert n / 10 < Pow10(w - 1);
      DigitsLength(n / 10, w - 1);
    }
  }

  /** `datetime.date(y, m, d).isoformat()`: "YYYY-MM-DD". */
  function IsoDate(y: nat, m: nat, d: nat): string {
    ZeroPad(y, 4) + ['-'] + ZeroPad(m, 2) + ['-'] + ZeroPad(d, 2)
  }

  /** The year, month and day fields of an ISO date string. */
  function ParseIsoDate(s: string): (nat, nat, nat)
    requires |s| == 10 && AllDigits(s[..4]) && AllDigits(s[5..7]) && AllDigits(s[8..])
  {
    (Value(s[..4]), Value(s[5..7]), Value(s[8..]))
  }

  lemma FixedWidth(n: nat, w: nat)
    requires 1 <= w && n < Pow10(w)
    ensures |ZeroPad(n, w)| == w
  {
    DigitsLength(n, w);
  }

  /** An ISO date string of a valid date reads back as that date. */
  lemma IsoDateRoundTrip(y: nat, m: nat, d: nat)
    requires 1 <= y <= 9999 && 1 <= m <= 12 && 1 <= d <= 31
    ensures var s := IsoDate(y, m, d);
            && |s| == 10 && s[4] == '-' && s[7] == '-'
            && AllDigits(s[..4]) && AllDigits(s[5..7]) && AllDigits(s[8..])
            && ParseIsoDate(s) == (y, m, d)
  {
    assert Pow10(4) == 10000 && Pow10(2) == 100;
    FixedWidth(y, 4);
    FixedWidth(m, 2);
    FixedWidth(d, 2);
    var s := IsoDate(y, m, d);
    assert s[..4] == ZeroPad(y, 4);
    assert s[5..7] == ZeroPad(m, 2);
    assert s[8..] == ZeroPad(d, 2);
    ValueOfZeroPad(y, 4);
    ValueOfZeroPad(m, 2);
    ValueOfZeroPad(d, 2);
  }

  /** Different dates have different ISO strings. */
  lemma IsoDateInjective(y1: nat, m1: nat, d1: nat, y2: nat, m2: nat, d2: nat)
    requires 1 <= y1 <= 9999 && 1 <= m1 <= 12 && 1 <= d1 <= 31
    requires 1 <= y2 <= 9999 && 1 <= m2 <= 12 && 1 <= d2 <= 31
    ensures IsoDate(y1, m1, d1) == IsoDate(y2, m2, d2) <==> (y1, m1, d1) == (y2, m2, d2)
  {
    IsoDateRoundTrip(y1, m1, d1);
    IsoDateRoundTrip(y2, m2, d2);
  }

  /** `f"{y:04d}"` for any year: a minus sign counts towards the width. */
  function YearText(y: int): string {
    if y < 0 then ['-'] + ZeroPad(-y, 3) else ZeroPad(y, 4)
  }
}
