/**
 * The name of a recording session's SQLite file: the wall-clock time at which the session
 * starts, formatted `%Y%m%d-%H-%M-%S`, followed by `-picycle.sqlite`.
 *
 * `%Y` is written as the C library on the device writes it: the year in decimal without
 * padding. For the years 1000..9999 the name therefore has a fixed width of 32 characters.
 */
module StoreNames {
  import opened Wrappers

  /** The fields of a `datetime` that the name is made of. */
  datatype DateTime = DateTime(year: int, month: int, day: int, hour: int, minute: int, second: int)

  predicate IsLeapYear(y: int) {
    y % 4 == 0 && (y % 100 != 0 || y % 400 == 0)
  }

  function DaysInMonth(y: int, m: int): int
    requires 1 <= m <= 12
  {
    if m == 2 then (if IsLeapYear(y) then 29 else 28)
    else if m == 4 || m == 6 || m == 9 || m == 11 then 30
    else 31
  }

  /** A value `datetime.now()` can return: years 1 to 9999, real calendar days, no leap second. */
  predicate ValidTime(t: DateTime) {
    && 1 <= t.year <= 9999
    && 1 <= t.month <= 12
    && 1 <= t.day <= DaysInMonth(t.year, t.month)
    && 0 <= t.hour < 24
    && 0 <= t.minute < 60
    && 0 <= t.second < 60
  }

  /** `t1` is strictly earlier than `t2`: field by field, most significant first. */
  predicate Before(t1: DateTime, t2: DateTime) {
    t1.year < t2.year || (t1.year == t2.year &&
    (t1.month < t2.month || (t1.month == t2.month &&
    (t1.day < t2.day || (t1.day == t2.day &&
    (t1.hour < t2.hour || (t1.hour == t2.hour &&
    (t1.minute < t2.minute || (t1.minute == t2.minute &&
    t1.second < t2.second)))))))))
  }

  predicate IsDigit(ch: char) {
    '0' <= ch <= '9'
  }

  predicate AllDigits(s: string) {
    forall i :: 0 <= i < |s| ==> IsDigit(s[i])
  }

  function Digit(d: nat): (ch: char)
    requires d < 10
    ensures IsDigit(ch)
  {
    ('0' as int + d) as char
  }

  function DigitValue(ch: char): int {
    ch as int - '0' as int
  }

  /** A natural number in decimal, without leading zeros. */
  function Decimal(n: nat): (s: string)
    ensures 1 <= |s| && AllDigits(s)
    ensures n < 10 <==> |s| == 1
    ensures s[0] != '0' || n == 0
    decreases n
  {
    if n < 10 then [Digit(n)] else Decimal(n / 10) + [Digit(n % 10)]
  }

  /** A number below 100 as exactly two digits, zero-padded. */
  function Pad2(n: nat): (s: string)
    requires n < 100
  {
    [Digit(n / 10), Digit(n % 10)]
  }

  /** The value of a string of decimal digits. */
  function ParseDecimal(s: string): nat
    requires AllDigits(s)
    decreases |s|
  {
    if s == [] then 0 else ParseDecimal(s[..|s| - 1]) * 10 + DigitValue(s[|s| - 1])
  }

  /** The value of two decimal digits. */
  function Two(a: char, b: char): int {
    DigitValue(a) * 10 + DigitValue(b)
  }

  const Suffix := "-picycle.sqlite"

  /** The part of the stamp after the year: `%m%d-%H-%M-%S`. */
  function Tail(t: DateTime): string
    requires ValidTime(t)
  {
    Pad2(t.month) + Pad2(t.day) + "-" + Pad2(t.hour) + "-" + Pad2(t.minute) + "-" + Pad2(t.second)
  }

  /**
   * `strftime('%Y%m%d-%H-%M-%S')` of `t`: the year's digits, without a leading zero, then
   * `MMDD-HH-MM-SS`.
   */
  function Stamp(t: DateTime): (s: string)
    requires ValidTime(t)
    ensures |s| == |Decimal(t.year)| + 13 && s[0] != '0'
    ensures AllDigits(s[..|Decimal(t.year)|]) && TailShape(s[|Decimal(t.year)|..])
  {
    var year := Decimal(t.year);
    var s := year + Tail(t);
    assert s[..|year|] == year;
    assert s[|year|..] == Tail(t);
    s
  }

  /** The 13 characters after the year in a stamp: `MMDD-HH-MM-SS`. */
  predicate TailShape(s: string) {
    |s| == 13 && forall i :: 0 <= i < 13 ==> if i == 4 || i == 7 || i == 10 then s[i] == '-' else IsDigit(s[i])
  }

  /** The store name of a session started at `t`. */
  function StoreName(t: DateTime): (name: string)
    requires ValidTime(t)
    ensures |name| == |Decimal(t.year)| + 28
    ensures name[|name| - |Suffix|..] == Suffix
    ensures AllDigits(name[..|Decimal(t.year)|]) && TailShape(name[|Decimal(t.year)|..|name| - |Suffix|])
    ensures 1000 <= t.year ==> |name| == 32 && AllDigits(name[..4])
  {
    var stamp := Stamp(t);
    var name := stamp + Suffix;
    var k := |Decimal(t.year)|;
    assert name[..k] == stamp[..k];
    assert name[k..|name| - |Suffix|] == stamp[k..];
    if 1000 <= t.year then FourDigitYear(t.year); name else name
  }

  /** Reads the session time back out of a store name; `None` if it is not one. */
  function ParseStoreName(name: string): (r: Option<DateTime>)
    ensures r.Some? ==> ValidTime(r.value)
  {
    if |name| < 29 || name[|name| - |Suffix|..] != Suffix then None
    else
      var k := |name| - 28;
      if !AllDigits(name[..k]) || name[0] == '0' || !TailShape(name[k..k + 13]) then None
      else
        var t := DateTime(ParseDecimal(name[..k]),
          Two(name[k], name[k + 1]), Two(name[k + 2], name[k + 3]),
          Two(name[k + 5], name[k + 6]), Two(name[k + 8], name[k + 9]), Two(name[k + 11], name[k + 12]));
        if ValidTime(t) then Some(t) else None
  }

  lemma {:induction false} DecimalRoundTrip(n: nat)
    ensures ParseDecimal(Decimal(n)) == n
    decreases n
  {
    if n >= 10 {
      DecimalRoundTrip(n / 10);
      var s := Decimal(n);
      assert s[..|s| - 1] == Decimal(n / 10);
    }
  }

  lemma {:induction false} ParseDecimalAtLeastOne(s: string)
    requires AllDigits(s) && |s| >= 1 && s[0] != '0'
    ensures ParseDecimal(s) >= 1
    decreases |s|
  {
    if |s| > 1 {
      ParseDecimalAtLeastOne(s[..|s| - 1]);
    }
  }

  lemma {:induction false} ParseDecimalRoundTrip(s: string)
    requires AllDigits(s) && |s| >= 1 && s[0] != '0'
    ensures Decimal(ParseDecimal(s)) == s
    decreases |s|
  {
    var front := s[..|s| - 1];
    if |s| > 1 {
      ParseDecimalRoundTrip(front);
      ParseDecimalAtLeastOne(front);
      var n := ParseDecimal(s);
      assert n / 10 == ParseDecimal(front);
      assert n % 10 == DigitValue(s[|s| - 1]);
      assert s == front + [s[|s| - 1]];
    }
  }

  /** Reading a store name back gives the time it was made from. */
  lemma {:induction false} StoreNameRoundTrip(t: DateTime)
    requires ValidTime(t)
    ensures ParseStoreName(StoreName(t)) == Some(t)
  {
    var name := StoreName(t);
    var year, tail := Decimal(t.year), Tail(t);
    var k := |year|;
    StoreNameIs(t);
    assert name[..k] == year && name[k..k + 13] == tail;
    DecimalRoundTrip(t.year);
    TailFields(t);
    assert forall i :: 0 <= i < 13 ==> name[k + i] == tail[i];
    ParseAccepts(name, t, k);
  }

  /** A name of the right shape whose fields read back as `t` parses to `t`. */
  lemma {:induction false} ParseAccepts(name: string, t: DateTime, k: int)
    requires ValidTime(t) && 1 <= k && |name| == k + 28 && name[k + 13..] == Suffix
    requires AllDigits(name[..k]) && name[0] != '0' && TailShape(name[k..k + 13])
    requires ParseDecimal(name[..k]) == t.year
    requires t.month == Two(name[k], name[k + 1]) && t.day == Two(name[k + 2], name[k + 3])
    requires t.hour == Two(name[k + 5], name[k + 6]) && t.minute == Two(name[k + 8], name[k + 9])
    requires t.second == Two(name[k + 11], name[k + 12])
    ensures ParseStoreName(name) == Some(t)
  {
  }

  /** The store name is the year, the rest of the stamp and the suffix, in that order. */
  lemma {:induction false} StoreNameIs(t: DateTime)
    requires ValidTime(t)
    ensures StoreName(t) == Stamp(t) + Suffix && Stamp(t) == Decimal(t.year) + Tail(t)
    ensures |Tail(t)| == 13
  {
  }

  /** Each two-digit field of the stamp reads back as its value. */
  lemma {:induction false} TailFields(t: DateTime)
    requires ValidTime(t)
    ensures var s := Tail(t);
      && |s| == 13
      && Two(s[0], s[1]) == t.month && Two(s[2], s[3]) == t.day
      && Two(s[5], s[6]) == t.hour && Two(s[8], s[9]) == t.minute && Two(s[11], s[12]) == t.second
  {
  }

  /** Four-digit years print as two zero-padded halves. */
  lemma {:induction false} FourDigitYear(y: int)
    requires 1000 <= y <= 9999
    ensures Decimal(y) == Pad2(y / 100) + Pad2(y % 100)
  {
    var a, b, c, d := y / 1000, y / 100 % 10, y / 10 % 10, y % 10;
    assert y / 10 / 10 == y / 100 && y / 100 / 10 == a;
    assert y % 100 / 10 == c && y % 100 % 10 == d;
    assert Decimal(y / 1000) == [Digit(a)];
    assert Decimal(y / 100) == [Digit(a)] + [Digit(b)];
    assert Decimal(y / 10) == [Digit(a), Digit(b)] + [Digit(c)];
    assert Decimal(y) == [Digit(a), Digit(b), Digit(c)] + [Digit(d)];
  }

  lemma {:induction false} TwoRoundTrip(a: char, b: char)
    requires IsDigit(a) && IsDigit(b)
    ensures 0 <= Two(a, b) < 100 && Pad2(Two(a, b)) == [a, b]
  {
  }

  lemma {:induction false} TailRoundTrip(s: string, t: DateTime)
    requires TailShape(s) && ValidTime(t)
    requires t.month == Two(s[0], s[1]) && t.day == Two(s[2], s[3])
    requires t.hour == Two(s[5], s[6]) && t.minute == Two(s[8], s[9]) && t.second == Two(s[11], s[12])
    ensures Tail(t) == s
  {
    TwoRoundTrip(s[0], s[1]);
    TwoRoundTrip(s[2], s[3]);
    TwoRoundTrip(s[5], s[6]);
    TwoRoundTrip(s[8], s[9]);
    TwoRoundTrip(s[11], s[12]);
    assert forall i :: 0 <= i < 13 ==> Tail(t)[i] == s[i];
  }

  /** Every name the parser accepts is exactly the store name of the time it returns. */
  lemma {:induction false} ParsedNameIsStoreName(name: string)
    requires ParseStoreName(name).Some?
    ensures StoreName(ParseStoreName(name).value) == name
  {
    var t := ParseStoreName(name).value;
    var k := |name| - 28;
    var year, tail := name[..k], name[k..k + 13];
    ParsedFields(name);
    ParseDecimalRoundTrip(year);
    TailRoundTrip(tail, t);
    Reassemble(name, t, k);
  }

  lemma {:induction false} Reassemble(name: string, t: DateTime, k: int)
    requires ValidTime(t) && 1 <= k && |name| == k + 28
    requires Decimal(t.year) == name[..k] && Tail(t) == name[k..k + 13] && name[k + 13..] == Suffix
    ensures StoreName(t) == name
  {
    StoreNameIs(t);
    assert name[..k + 13] == name[..k] + name[k..k + 13] == Stamp(t);
    assert name == name[..k + 13] + name[k + 13..];
  }

  /** What the parser checked and read, field by field, when it accepts a name. */
  lemma {:induction false} ParsedFields(name: string)
    requires ParseStoreName(name).Some?
    ensures var t, k := ParseStoreName(name).value, |name| - 28;
      && k >= 1 && name[k + 13..] == Suffix
      && AllDigits(name[..k]) && name[..k][0] != '0' && t.year == ParseDecimal(name[..k])
      && var s := name[k..k + 13];
      && TailShape(s)
      && t.month == Two(s[0], s[1]) && t.day == Two(s[2], s[3])
      && t.hour == Two(s[5], s[6]) && t.minute == Two(s[8], s[9]) && t.second == Two(s[11], s[12])
  {
    var k := |name| - 28;
    assert name[..k][0] == name[0];
  }

  /** Sessions started in distinct seconds get distinct store names. */
  lemma {:induction false} StoreNameInjective(t1: DateTime, t2: DateTime)
    requires ValidTime(t1) && ValidTime(t2) && t1 != t2
    ensures StoreName(t1) != StoreName(t2)
  {
    StoreNameRoundTrip(t1);
    StoreNameRoundTrip(t2);
  }

  /** Python's `<` on strings: lexicographic by code point, a proper prefix first. */
  predicate LexLess(a: string, b: string)
    decreases |a|
  {
    if |a| == 0 then |b| > 0
    else |b| > 0 && (a[0] < b[0] || (a[0] == b[0] && LexLess(a[1..], b[1..])))
  }

  /** Comparing two strings that start with equal-length parts: the first parts decide unless equal. */
  lemma {:induction false} LexLessAppend(a1: string, b1: string, a2: string, b2: string)
    requires |a1| == |a2|
    ensures LexLess(a1 + b1, a2 + b2) <==> LexLess(a1, a2) || (a1 == a2 && LexLess(b1, b2))
    ensures a1 + b1 == a2 + b2 <==> a1 == a2 && b1 == b2
    decreases |a1|
  {
    if |a1| > 0 {
      LexLessAppend(a1[1..], b1, a2[1..], b2);
      assert (a1 + b1)[1..] == a1[1..] + b1;
      assert (a2 + b2)[1..] == a2[1..] + b2;
      if a1 + b1 == a2 + b2 {
        assert a1 == (a1 + b1)[..|a1|] == (a2 + b2)[..|a2|] == a2;
      }
      if a1[0] == a2[0] && a1[1..] == a2[1..] {
        assert a1 == [a1[0]] + a1[1..];
        assert a2 == [a2[0]] + a2[1..];
      }
    } else {
      assert a1 + b1 == b1 && a2 + b2 == b2;
    }
  }

  lemma {:induction false} LexLessIrreflexive(a: string)
    ensures !LexLess(a, a)
    decreases |a|
  {
    if |a| > 0 {
      LexLessIrreflexive(a[1..]);
    }
  }

  lemma {:induction false} Pad2Order(x: nat, y: nat)
    requires x < 100 && y < 100
    ensures LexLess(Pad2(x), Pad2(y)) <==> x < y
    ensures Pad2(x) == Pad2(y) <==> x == y
  {
    var a, b := Digit(x % 10), Digit(y % 10);
    assert Pad2(x)[1..] == [a] && Pad2(y)[1..] == [b];
    assert [a][1..] == [] && [b][1..] == [];
    assert LexLess([a], [b]) <==> a < b;
    assert LexLess(Pad2(x), Pad2(y)) <==> Digit(x / 10) < Digit(y / 10) || (Digit(x / 10) == Digit(y / 10) && a < b);
    assert Pad2(x) == Pad2(y) ==> Pad2(x)[0] == Pad2(y)[0] && Pad2(x)[1] == Pad2(y)[1];
  }

  lemma {:induction false} YearOrder(y1: int, y2: int)
    requires 1000 <= y1 <= 9999 && 1000 <= y2 <= 9999
    ensures |Decimal(y1)| == |Decimal(y2)| == 4
    ensures LexLess(Decimal(y1), Decimal(y2)) <==> y1 < y2
    ensures Decimal(y1) == Decimal(y2) <==> y1 == y2
  {
    FourDigitYear(y1);
    FourDigitYear(y2);
    LexLessAppend(Pad2(y1 / 100), Pad2(y1 % 100), Pad2(y2 / 100), Pad2(y2 % 100));
    Pad2Order(y1 / 100, y2 / 100);
    Pad2Order(y1 % 100, y2 % 100);
  }

  lemma {:induction false} TailOrder(t1: DateTime, t2: DateTime)
    requires ValidTime(t1) && ValidTime(t2)
    ensures |Tail(t1)| == |Tail(t2)| == 13
    ensures LexLess(Tail(t1), Tail(t2)) <==> Before(t1.(year := 0), t2.(year := 0))
  {
    var mo1, mo2 := Pad2(t1.month), Pad2(t2.month);
    var d1, d2 := mo1 + Pad2(t1.day), mo2 + Pad2(t2.day);
    var e1, e2 := d1 + "-", d2 + "-";
    var h1, h2 := e1 + Pad2(t1.hour), e2 + Pad2(t2.hour);
    var f1, f2 := h1 + "-", h2 + "-";
    var m1, m2 := f1 + Pad2(t1.minute), f2 + Pad2(t2.minute);
    var g1, g2 := m1 + "-", m2 + "-";
    assert Tail(t1) == g1 + Pad2(t1.second) && Tail(t2) == g2 + Pad2(t2.second);
    LexLessIrreflexive("-");
    Pad2Order(t1.month, t2.month);
    Pad2Order(t1.day, t2.day);
    Pad2Order(t1.hour, t2.hour);
    Pad2Order(t1.minute, t2.minute);
    Pad2Order(t1.second, t2.second);
    LexLessAppend(mo1, Pad2(t1.day), mo2, Pad2(t2.day));
    LexLessAppend(d1, "-", d2, "-");
    LexLessAppend(e1, Pad2(t1.hour), e2, Pad2(t2.hour));
    LexLessAppend(h1, "-", h2, "-");
    LexLessAppend(f1, Pad2(t1.minute), f2, Pad2(t2.minute));
    LexLessAppend(m1, "-", m2, "-");
    LexLessAppend(g1, Pad2(t1.second), g2, Pad2(t2.second));
  }

  /**
   * For four-digit years, sorting store names as strings sorts the sessions by start time:
   * one name is below another exactly when its session started earlier.
   */
  lemma {:induction false} StoreNameOrder(t1: DateTime, t2: DateTime)
    requires ValidTime(t1) && ValidTime(t2) && 1000 <= t1.year && 1000 <= t2.year
    ensures LexLess(StoreName(t1), StoreName(t2)) <==> Before(t1, t2)
  {
    StoreNameIs(t1);
    StoreNameIs(t2);
    YearOrder(t1.year, t2.year);
    TailOrder(t1, t2);
    LexLessIrreflexive(Suffix);
    LexLessAppend(Decimal(t1.year), Tail(t1), Decimal(t2.year), Tail(t2));
    LexLessAppend(Stamp(t1), Suffix, Stamp(t2), Suffix);
  }
}
