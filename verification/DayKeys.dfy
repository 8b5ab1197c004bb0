/** The days of daily rows: dates written as text, which is what rows are ordered by. */
module DayKeys {

  /** A date as the scanners write it: year, month, day. */
  datatype Date = Date(year: int, month: int, day: int) {
    predicate Valid() {
      1 <= month <= 12 && 1 <= day <= 31
    }
  }

  // ----- the order of texts -----

  /** The order of byte strings, which for days is the order of their characters. */
  predicate Before(a: string, b: string) {
    b != [] && (a == [] || a[0] < b[0] || (a[0] == b[0] && Before(a[1..], b[1..])))
  }

  lemma {:induction false} BeforeIsTotal(a: string, b: string)
    ensures (Before(a, b) || Before(b, a)) <==> a != b
    ensures !(Before(a, b) && Before(b, a))
  {
    if a != [] && b != [] && a[0] == b[0] {
      BeforeIsTotal(a[1..], b[1..]);
      assert a == [a[0]] + a[1..] && b == [b[0]] + b[1..];
    }
  }

  lemma {:induction false} BeforeIsTransitive(a: string, b: string, c: string)
    requires Before(a, b) && Before(b, c)
    ensures Before(a, c)
  {
    if a != [] && a[0] == b[0] == c[0] {
      BeforeIsTransitive(a[1..], b[1..], c[1..]);
    }
  }

  lemma {:induction false} BeforeAfterPrefix(p: string, a: string, b: string)
    ensures Before(p + a, p + b) <==> Before(a, b)
  {
    if p == [] {
      assert p + a == a && p + b == b;
    } else {
      assert (p + a)[1..] == p[1..] + a && (p + b)[1..] == p[1..] + b;
      BeforeAfterPrefix(p[1..], a, b);
    }
  }

  /** Texts of one length are ordered by their first part, then by the rest. */
  lemma {:induction false} BeforeByParts(a: string, b: string, c: string, d: string)
    requires |a| == |b|
    ensures Before(a + c, b + d) <==> Before(a, b) || (a == b && Before(c, d))
  {
    if a == [] {
      assert a + c == c && b + d == d;
    } else {
      assert (a + c)[1..] == a[1..] + c && (b + d)[1..] == b[1..] + d;
      assert a == [a[0]] + a[1..] && b == [b[0]] + b[1..];
      BeforeByParts(a[1..], b[1..], c, d);
    }
  }

  // ----- dates as text -----

  function DigitChar(n: nat): (c: char)
    requires n < 10
    ensures '0' <= c <= '9'
  {
    "0123456789"[n]
  }

  lemma DigitsInOrder(m: nat, n: nat)
    requires m < 10 && n < 10
    ensures DigitChar(m) < DigitChar(n) <==> m < n
    ensures DigitChar(m) == DigitChar(n) <==> m == n
  {
  }

  /** The last `width` decimal digits of n, zeros included. */
  function Padded(n: nat, width: nat): (s: string)
    ensures |s| == width && forall i :: 0 <= i < |s| ==> '0' <= s[i] <= '9'
  {
    if width == 0 then "" else Padded(n / 10, width - 1) + [DigitChar(n % 10)]
  }

  function Power10(width: nat): nat {
    if width == 0 then 1 else 10 * Power10(width - 1)
  }

  /** Numbers written with the same width are ordered as numbers. */
  lemma {:induction false} PaddedInOrder(m: nat, n: nat, width: nat)
    requires m < Power10(width) && n < Power10(width)
    ensures Before(Padded(m, width), Padded(n, width)) <==> m < n
    ensures Padded(m, width) == Padded(n, width) <==> m == n
  {
    if width > 0 {
      PaddedInOrder(m / 10, n / 10, width - 1);
      DigitsInOrder(m % 10, n % 10);
      var a, b := Padded(m / 10, width - 1), Padded(n / 10, width - 1);
      var c, d := [DigitChar(m % 10)], [DigitChar(n % 10)];
      BeforeByParts(a, b, c, d);
      assert (a + c)[..width - 1] == a && (b + d)[..width - 1] == b;
      assert (a + c)[width - 1] == c[0] && (b + d)[width - 1] == d[0];
      assert m == 10 * (m / 10) + m % 10 && n == 10 * (n / 10) + n % 10;
    }
  }

  /** The number of decimal digits. */
  function Width(n: nat): nat {
    if n < 10 then 1 else 1 + Width(n / 10)
  }

  /** A year has at least four digits, and a sign outside 0 to 9999. */
  function YearText(year: int): string {
    var n := if year < 0 then -year else year;
    var digits := Padded(n, if n < 10000 then 4 else Width(n));
    if year < 0 then "-" + digits else if year > 9999 then "+" + digits else digits
  }

  function KeyOf(date: Date): string
    requires date.Valid()
  {
    YearText(date.year) + "-" + Padded(date.month, 2) + "-" + Padded(date.day, 2)
  }

  predicate Earlier(a: Date, b: Date) {
    || a.year < b.year
    || (a.year == b.year && (a.month < b.month || (a.month == b.month && a.day < b.day)))
  }

  /** For the years from 0 to 9999 the order of the keys is that of the dates. */
  lemma KeysAreChronological(a: Date, b: Date)
    requires a.Valid() && b.Valid() && 0 <= a.year <= 9999 && 0 <= b.year <= 9999
    ensures Before(KeyOf(a), KeyOf(b)) <==> Earlier(a, b)
  {
    hide Before, Padded;
    assert Power10(2) == 100 && Power10(4) == 10000;
    PaddedInOrder(a.year, b.year, 4);
    PaddedInOrder(a.month, b.month, 2);
    PaddedInOrder(a.day, b.day, 2);
    var y, m, d := Padded(a.year, 4), Padded(a.month, 2), Padded(a.day, 2);
    var y', m', d' := Padded(b.year, 4), Padded(b.month, 2), Padded(b.day, 2);
    BeforeByParts(m, m', "-" + d, "-" + d');
    BeforeAfterPrefix("-", d, d');
    BeforeByParts(y, y', "-" + (m + ("-" + d)), "-" + (m' + ("-" + d')));
    BeforeAfterPrefix("-", m + ("-" + d), m' + ("-" + d'));
    assert KeyOf(a) == y + ("-" + (m + ("-" + d)));
    assert KeyOf(b) == y' + ("-" + (m' + ("-" + d')));
  }

  /** Not so beyond: every date after the year 9999 comes before all of those. */
  lemma LateYearsComeFirst(late: Date, date: Date)
    requires late.Valid() && date.Valid() && late.year > 9999 && 0 <= date.year <= 9999
    ensures Earlier(date, late) && Before(KeyOf(late), KeyOf(date))
  {
    assert KeyOf(late)[0] == '+';
    assert KeyOf(date)[0] == Padded(date.year, 4)[0];
  }

  // ----- what the texts say -----

  /** The number that decimal digits stand for. */
  function Reading(digits: string): int {
    if digits == "" then 0 else 10 * Reading(digits[..|digits| - 1]) + (digits[|digits| - 1] as int - '0' as int)
  }

  lemma {:induction false} PaddedReads(n: nat, width: nat)
    requires n < Power10(width)
    ensures Reading(Padded(n, width)) == n
  {
    if width > 0 {
      PaddedReads(n / 10, width - 1);
      assert Padded(n, width)[..width - 1] == Padded(n / 10, width - 1);
    }
  }

  lemma {:induction false} WidthIsLeast(n: nat)
    ensures Width(n) > 0 && n < Power10(Width(n)) && (n > 0 ==> Power10(Width(n) - 1) <= n)
  {
    if n >= 10 {
      WidthIsLeast(n / 10);
    }
  }

  lemma {:induction false} LeadingDigit(n: nat, width: nat)
    requires width > 0 && Power10(width - 1) <= n < Power10(width)
    ensures Padded(n, width)[0] != '0'
  {
    if width > 1 {
      LeadingDigit(n / 10, width - 1);
    } else {
      assert Padded(n, width) == [DigitChar(n)];
      DigitsInOrder(0, n);
    }
  }

  /** The text of a year: its sign unless the year is 0 to 9999, and its decimal digits, at least four of them and no
      more than needed. */
  lemma YearIsWritten(year: int)
    ensures var text := YearText(year);
            var signed := text[0] == '-' || text[0] == '+';
            var digits := if signed then text[1..] else text;
            && (text[0] == '-' <==> year < 0) && (text[0] == '+' <==> year > 9999)
            && |digits| >= 4 && (|digits| > 4 ==> digits[0] != '0')
            && (forall i :: 0 <= i < |digits| ==> '0' <= digits[i] <= '9')
            && Reading(digits) == if year < 0 then -year else year
  {
    var n := if year < 0 then -year else year;
    assert Power10(4) == 10000;
    WidthIsLeast(n);
    var width := if n < 10000 then 4 else Width(n);
    PaddedReads(n, width);
    if n >= 10000 {
      if Width(n) < 4 {
        PowersGrow(Width(n), 4);
      }
      LeadingDigit(n, width);
    }
    var digits := Padded(n, width);
    assert ("-" + digits)[1..] == digits && ("+" + digits)[1..] == digits;
  }

  lemma {:induction false} PowersGrow(m: nat, n: nat)
    requires m <= n
    ensures Power10(m) <= Power10(n)
  {
    if m < n {
      PowersGrow(m, n - 1);
    }
  }

  lemma KeyParts(y: string, m: string, d: string)
    requires |m| == 2
    ensures var key := y + "-" + m + "-" + d;
            |key| == |y| + 4 + |d| && key[..|y|] == y && key[|y| + 1..|y| + 3] == m && key[|y| + 4..] == d
  {
  }

  /** No two days have the same key, so no rows are merged. */
  lemma KeysAreDistinct(a: Date, b: Date)
    requires a.Valid() && b.Valid()
    ensures KeyOf(a) == KeyOf(b) <==> a == b
  {
    hide YearText, Padded, Reading;
    assert Power10(2) == 100;
    if KeyOf(a) == KeyOf(b) {
      KeyParts(YearText(a.year), Padded(a.month, 2), Padded(a.day, 2));
      KeyParts(YearText(b.year), Padded(b.month, 2), Padded(b.day, 2));
      assert YearText(a.year) == YearText(b.year);
      YearIsWritten(a.year);
      YearIsWritten(b.year);
      PaddedInOrder(a.month, b.month, 2);
      PaddedInOrder(a.day, b.day, 2);
    }
  }
}
