/**
 * Calendar dates and the fixed-width `datetime.strptime` formats the crawler and
 * the analyzer accept: four year digits, two month digits and two day digits,
 * with literal text between and after them.
 */
module Dates {
  import opened Wrappers
  import opened Text

  datatype Date = Date(year: int, month: int, day: int)

  predicate IsLeapYear(y: int) { y % 4 == 0 && (y % 100 != 0 || y % 400 == 0) }

  function DaysInMonth(y: int, m: int): int
    requires 1 <= m <= 12
  {
    if m == 2 then (if IsLeapYear(y) then 29 else 28)
    else if m == 4 || m == 6 || m == 9 || m == 11 then 30
    else 31
  }

  /** A date `datetime.date` can represent. */
  predicate ValidDate(d: Date) {
    1 <= d.year <= 9999 && 1 <= d.month <= 12 && 1 <= d.day <= DaysInMonth(d.year, d.month)
  }

  /** `a <= b` on dates. */
  predicate OnOrBefore(a: Date, b: Date) {
    a.year < b.year || (a.year == b.year && (a.month < b.month || (a.month == b.month && a.day <= b.day)))
  }

  /**
   * A strptime format `%Y<afterYear>%m<afterMonth>%d<afterDay>`: `"%Y-%m-%d"` is
   * `Layout("-", "-", "")`, `"%Y년 %m월 %d일"` is `Layout("년 ", "월 ", "일")`.
   */
  datatype Layout = Layout(afterYear: string, afterMonth: string, afterDay: string)

  function Digits2(n: nat): (r: string)
    requires n < 100
    ensures |r| == 2 && AllAsciiDigits(r)
  {
    [DigitChar(n / 10), DigitChar(n % 10)]
  }

  function Digits4(n: nat): (r: string)
    requires n < 10000
    ensures |r| == 4 && AllAsciiDigits(r)
  {
    Digits2(n / 100) + Digits2(n % 100)
  }

  /** How a valid date is written in a layout, zero-padded. */
  function Format(d: Date, l: Layout): string
    requires ValidDate(d)
  {
    Digits4(d.year) + l.afterYear + Digits2(d.month) + l.afterMonth + Digits2(d.day) + l.afterDay
  }

  function LayoutLength(l: Layout): nat {
    8 + |l.afterYear| + |l.afterMonth| + |l.afterDay|
  }

  /** `datetime.strptime(s, layout).date()`, fixed-width fields; `None` where strptime raises `ValueError`. */
  function Parse(s: string, l: Layout): Option<Date>
  {
    if |s| != LayoutLength(l) then None
    else
      var m0 := 4 + |l.afterYear|;
      var d0 := m0 + 2 + |l.afterMonth|;
      var y, m, d := s[..4], s[m0..m0 + 2], s[d0..d0 + 2];
      if s[4..m0] == l.afterYear && s[m0 + 2..d0] == l.afterMonth && s[d0 + 2..] == l.afterDay
         && AllAsciiDigits(y) && AllAsciiDigits(m) && AllAsciiDigits(d)
      then
        var date := Date(Value4(y), Value2(m), Value2(d));
        if ValidDate(date) then Some(date) else None
      else None
  }

  function DigitValue(c: char): nat
    requires IsAsciiDigit(c)
  {
    c as int - '0' as int
  }

  /** The number two ASCII digits spell. */
  function Value2(s: string): nat
    requires |s| == 2 && AllAsciiDigits(s)
  {
    10 * DigitValue(s[0]) + DigitValue(s[1])
  }

  /** The number four ASCII digits spell. */
  function Value4(s: string): nat
    requires |s| == 4 && AllAsciiDigits(s)
  {
    100 * Value2(s[..2]) + Value2(s[2..])
  }

  lemma Digits2Value(n: nat)
    requires n < 100
    ensures Value2(Digits2(n)) == n
  {
  }

  lemma Digits2Inverse(s: string)
    requires |s| == 2 && AllAsciiDigits(s)
    ensures Value2(s) < 100 && Digits2(Value2(s)) == s
  {
    var a, b := DigitValue(s[0]), DigitValue(s[1]);
    assert (10 * a + b) / 10 == a && (10 * a + b) % 10 == b;
  }

  lemma Digits4Value(n: nat)
    requires n < 10000
    ensures Value4(Digits4(n)) == n
  {
    var s := Digits4(n);
    assert s[..2] == Digits2(n / 100) && s[2..] == Digits2(n % 100);
    Digits2Value(n / 100);
    Digits2Value(n % 100);
  }

  lemma Digits4Inverse(s: string)
    requires |s| == 4 && AllAsciiDigits(s)
    ensures Value4(s) < 10000 && Digits4(Value4(s)) == s
  {
    var hi, lo := s[..2], s[2..];
    Digits2Inverse(hi);
    Digits2Inverse(lo);
    var a, b := Value2(hi), Value2(lo);
    assert (100 * a + b) / 100 == a && (100 * a + b) % 100 == b;
    assert s == hi + lo;
  }

  /** strptime accepts every zero-padded rendering of a valid date, and reads back that date. */
  lemma {:induction false} ParseFormat(d: Date, l: Layout)
    requires ValidDate(d)
    ensures Parse(Format(d, l), l) == Some(d)
  {
    SlicesOfSix(Digits4(d.year), l.afterYear, Digits2(d.month), l.afterMonth, Digits2(d.day), l.afterDay);
    Digits4Value(d.year);
    Digits2Value(d.month);
    Digits2Value(d.day);
  }

  /** Whatever strptime accepts is a valid date in its zero-padded rendering. */
  lemma {:induction false} ParseOnlyFormat(s: string, l: Layout)
    requires Parse(s, l).Some?
    ensures ValidDate(Parse(s, l).value) && s == Format(Parse(s, l).value, l)
  {
    var m0 := 4 + |l.afterYear|;
    var d0 := m0 + 2 + |l.afterMonth|;
    var y, m, d := s[..4], s[m0..m0 + 2], s[d0..d0 + 2];
    Digits4Inverse(y);
    Digits2Inverse(m);
    Digits2Inverse(d);
    SixPieces(s, 4, m0, m0 + 2, d0, d0 + 2);
  }

  /** The first of `layouts` that parses `s`. */
  function FirstParse(s: string, layouts: seq<Layout>): (r: Option<Date>)
    ensures r.Some? ==> exists k :: 0 <= k < |layouts| && Parse(s, layouts[k]) == r
    ensures r.None? ==> forall k :: 0 <= k < |layouts| ==> Parse(s, layouts[k]).None?
  {
    if layouts == [] then None
    else
      var p := Parse(s, layouts[0]);
      assert forall k :: 1 <= k < |layouts| ==> layouts[k] == layouts[1..][k - 1];
      if p.Some? then p else FirstParse(s, layouts[1..])
  }

  lemma FirstParseFormat(s: string, layouts: seq<Layout>)
    ensures FirstParse(s, layouts).Some? ==>
      ValidDate(FirstParse(s, layouts).value) && exists k :: 0 <= k < |layouts| && s == Format(FirstParse(s, layouts).value, layouts[k])
  {
    var r := FirstParse(s, layouts);
    if r.Some? {
      var k :| 0 <= k < |layouts| && Parse(s, layouts[k]) == r;
      ParseOnlyFormat(s, layouts[k]);
    }
  }

  /** Layouts whose one-character year separators differ never both accept the same text. */
  lemma SeparatorMismatch(d: Date, l: Layout, other: Layout)
    requires ValidDate(d) && |l.afterYear| == 1 && |other.afterYear| == 1 && l.afterYear != other.afterYear
    ensures Parse(Format(d, l), other).None?
  {
    var s := Format(d, l);
    assert s[4..5] == l.afterYear;
  }

  lemma FirstParseSkips(s: string, layouts: seq<Layout>, k: nat)
    requires k < |layouts|
    requires forall j :: 0 <= j < k ==> Parse(s, layouts[j]).None?
    ensures FirstParse(s, layouts) == Parse(s, layouts[k]) || Parse(s, layouts[k]).None?
    ensures Parse(s, layouts[k]).Some? ==> FirstParse(s, layouts) == Parse(s, layouts[k])
  {
    if k > 0 {
      FirstParseSkips(s, layouts[1..], k - 1);
    }
  }
}
