/** The text form in which every table stores an instant, and the order SQLite
    gives to that text.

    An instant is the number of nanoseconds since 0000-01-01T00:00:00Z in the
    proleptic Gregorian calendar.  The stored text is Go's RFC3339Nano layout in
    UTC, which drops the trailing zeros of the fraction; SQLite compares it byte
    by byte. */
module TimeText {
  import opened Prelude

  const DAY: int := 86_400

  /******* Lexicographic order of byte strings *******/

  predicate LexLess(x: string, y: string) {
    if y == "" then false
    else if x == "" then true
    else x[0] < y[0] || (x[0] == y[0] && LexLess(x[1..], y[1..]))
  }

  predicate LexLeq(x: string, y: string) {
    x == y || LexLess(x, y)
  }

  predicate AgreeBelow(x: string, y: string, k: nat) {
    k <= |x| && k <= |y| && forall i :: 0 <= i < k ==> x[i] == y[i]
  }

  predicate ProperPrefix(x: string, y: string) {
    |x| < |y| && AgreeBelow(x, y, |x|)
  }

  /** The first position where two strings differ decides their order. */
  lemma {:induction false} FirstDifferenceDecides(x: string, y: string, k: nat)
    requires k < |x| && k < |y| && AgreeBelow(x, y, k) && x[k] < y[k]
    ensures LexLess(x, y) && !LexLess(y, x)
  {
    if k > 0 {
      FirstDifferenceDecides(x[1..], y[1..], k - 1);
    }
  }

  lemma {:induction false} LexIrreflexive(x: string)
    ensures !LexLess(x, x)
  {
    if x != "" {
      LexIrreflexive(x[1..]);
    }
  }

  lemma {:induction false} LexTransitive(x: string, y: string, z: string)
    requires LexLess(x, y) && LexLess(y, z)
    ensures LexLess(x, z)
  {
    if x != "" && x[0] == y[0] == z[0] {
      LexTransitive(x[1..], y[1..], z[1..]);
    }
  }

  lemma {:induction false} LexTotal(x: string, y: string)
    ensures LexLess(x, y) || x == y || LexLess(y, x)
  {
    if x != "" && y != "" && x[0] == y[0] {
      LexTotal(x[1..], y[1..]);
      assert x == [x[0]] + x[1..] && y == [y[0]] + y[1..];
    }
  }

  /** A common prefix does not change the order. */
  lemma {:induction false} LexCommonPrefix(p: string, x: string, y: string)
    ensures LexLess(p + x, p + y) <==> LexLess(x, y)
  {
    if p == "" {
      assert p + x == x && p + y == y;
    } else {
      assert (p + x)[1..] == p[1..] + x && (p + y)[1..] == p[1..] + y;
      LexCommonPrefix(p[1..], x, y);
    }
  }

  /******* Fixed-width decimal fields *******/

  function Digit(n: nat): (c: char)
    requires n < 10
    ensures '0' <= c <= '9'
  {
    '0' + n as char
  }

  function Pow10(w: nat): (p: nat)
    ensures p >= 1
  {
    if w == 0 then 1 else 10 * Pow10(w - 1)
  }

  /** `n` in exactly `w` decimal digits, keeping the low digits. */
  function Dec(n: nat, w: nat): (s: string)
    ensures |s| == w
    ensures forall i :: 0 <= i < w ==> '0' <= s[i] <= '9'
  {
    if w == 0 then "" else Dec(n / 10, w - 1) + [Digit(n % 10)]
  }

  /** Numeric order is decided at the first differing digit. */
  lemma {:induction false} DecFirstDifference(m: nat, n: nat, w: nat) returns (k: nat)
    requires m < n < Pow10(w)
    ensures k < w && AgreeBelow(Dec(m, w), Dec(n, w), k) && Dec(m, w)[k] < Dec(n, w)[k]
  {
    if m / 10 < n / 10 {
      k := DecFirstDifference(m / 10, n / 10, w - 1);
    } else {
      k := w - 1;
      assert m / 10 == n / 10;
    }
  }

  lemma FieldDecides(m: nat, n: nat, w: nat, x: string, y: string)
    requires m < n < Pow10(w)
    ensures LexLess(Dec(m, w) + x, Dec(n, w) + y)
  {
    var k := DecFirstDifference(m, n, w);
    FirstDifferenceDecides(Dec(m, w) + x, Dec(n, w) + y, k);
  }

  /******* The calendar *******/

  function DaysBeforeYear(y: nat): nat {
    365 * y + (y + 3) / 4 - (y + 99) / 100 + (y + 399) / 400
  }

  predicate Leap(y: nat) {
    y % 4 == 0 && (y % 100 != 0 || y % 400 == 0)
  }

  lemma YearLength(y: nat)
    ensures DaysBeforeYear(y + 1) - DaysBeforeYear(y) == if Leap(y) then 366 else 365
  {
    var a, b, c := (y + 4) / 4 - (y + 3) / 4, (y + 100) / 100 - (y + 99) / 100, (y + 400) / 400 - (y + 399) / 400;
    assert a == (if y % 4 == 0 then 1 else 0) by { YearQuotients(y, 4); }
    assert b == (if y % 100 == 0 then 1 else 0) by { YearQuotients(y, 100); }
    assert c == (if y % 400 == 0 then 1 else 0) by { YearQuotients(y, 400); }
    assert DaysBeforeYear(y + 1) - DaysBeforeYear(y) == 365 + a - b + c;
    Multiples(y);
  }

  lemma Multiples(y: nat)
    ensures y % 400 == 0 ==> y % 100 == 0
    ensures y % 100 == 0 ==> y % 4 == 0
  {
    assert y % 400 == 0 ==> y == 100 * (4 * (y / 400));
    assert y % 100 == 0 ==> y == 4 * (25 * (y / 100));
  }

  lemma YearQuotients(y: nat, d: nat)
    requires d == 4 || d == 100 || d == 400
    ensures (y + d) / d - (y + d - 1) / d == if y % d == 0 then 1 else 0
  {
  }

  function YearFrom(day: nat, y: nat): (r: nat)
    requires DaysBeforeYear(y) <= day
    ensures y <= r && DaysBeforeYear(r) <= day < DaysBeforeYear(r + 1)
    decreases day - DaysBeforeYear(y)
  {
    YearLength(y);
    if day < DaysBeforeYear(y + 1) then y else YearFrom(day, y + 1)
  }

  function DaysBeforeMonth(leap: bool, m: nat): nat
    requires 1 <= m <= 13
  {
    (match m
     case 1 => 0 case 2 => 31 case 3 => 59 case 4 => 90 case 5 => 120 case 6 => 151 case 7 => 181
     case 8 => 212 case 9 => 243 case 10 => 273 case 11 => 304 case 12 => 334 case _ => 365)
    + if leap && m > 2 then 1 else 0
  }

  function MonthFrom(leap: bool, yearDay: nat, m: nat): (r: nat)
    requires 1 <= m <= 12 && DaysBeforeMonth(leap, m) <= yearDay < DaysBeforeMonth(leap, 13)
    ensures m <= r <= 12 && DaysBeforeMonth(leap, r) <= yearDay < DaysBeforeMonth(leap, r + 1)
    decreases 13 - m
  {
    if yearDay < DaysBeforeMonth(leap, m + 1) then m else MonthFrom(leap, yearDay, m + 1)
  }

  /******* Formatting *******/

  function Second(t: nat): nat { t / SECOND }
  function Nano(t: nat): nat { t % SECOND }

  function MonthOf(leap: bool, yearDay: nat): (m: nat)
    requires yearDay < DaysBeforeMonth(leap, 13)
    ensures 1 <= m <= 12
  {
    MonthFrom(leap, yearDay, 1)
  }

  function DayOf(leap: bool, yearDay: nat): (d: nat)
    requires yearDay < DaysBeforeMonth(leap, 13)
    ensures 1 <= d <= 31
  {
    yearDay - DaysBeforeMonth(leap, MonthOf(leap, yearDay)) + 1
  }

  function MonthDayText(leap: bool, yearDay: nat): string
    requires yearDay < DaysBeforeMonth(leap, 13)
  {
    "-" + (Dec(MonthOf(leap, yearDay), 2) + ("-" + Dec(DayOf(leap, yearDay), 2)))
  }

  function YearOf(day: nat): (y: nat)
    ensures DaysBeforeYear(y) <= day < DaysBeforeYear(y + 1)
  {
    YearFrom(day, 0)
  }

  function YearDay(day: nat): (d: nat)
    ensures d < DaysBeforeMonth(Leap(YearOf(day)), 13)
  {
    YearLength(YearOf(day));
    day - DaysBeforeYear(YearOf(day))
  }

  function DateText(day: nat): string {
    Dec(YearOf(day), 4) + MonthDayText(Leap(YearOf(day)), YearDay(day))
  }

  function ClockText(s: nat): string {
    Dec(s / 3600, 2) + (":" + (Dec(s / 60 % 60, 2) + (":" + Dec(s % 60, 2))))
  }

  function SecondText(second: nat): string {
    DateText(second / DAY) + ("T" + ClockText(second % DAY))
  }

  /** The digits of a fraction without its trailing zeros. */
  function Trimmed(f: nat, w: nat): (s: string)
    requires 0 < f < Pow10(w)
    ensures 0 < |s| <= w && s <= Dec(f, w)
    ensures forall i :: |s| <= i < w ==> Dec(f, w)[i] == '0'
    ensures forall i :: 0 <= i < |s| ==> '0' <= s[i] <= '9'
  {
    if f % 10 == 0 then Trimmed(f / 10, w - 1) else Dec(f, w)
  }

  function FractionText(f: nat): string
    requires f < SECOND
  {
    assert Pow10(9) == SECOND by { PowNine(); }
    if f == 0 then "" else "." + Trimmed(f, 9)
  }

  lemma PowNine()
    ensures Pow10(9) == SECOND && Pow10(4) == 10_000 && Pow10(2) == 100
  {
    assert Pow10(4) == 10_000;
    assert Pow10(8) == 100_000_000;
  }

  function FormatTime(t: nat): string {
    SecondText(Second(t)) + (FractionText(Nano(t)) + "Z")
  }

  /** Instants of the years 0000 to 9999, the ones RFC 3339 can write. */
  predicate InRange(t: int) {
    0 <= t < DaysBeforeYear(10_000) * DAY * SECOND
  }

  /******* Text order of whole seconds *******/

  lemma {:induction false} DaysBeforeYearMonotone(a: nat, b: nat)
    requires a <= b
    ensures DaysBeforeYear(a) <= DaysBeforeYear(b)
  {
    if a < b {
      DaysBeforeYearMonotone(a, b - 1);
      YearLength(b - 1);
    }
  }

  lemma FieldOrder(m: nat, n: nat, w: nat, x: string, y: string)
    requires m < n < Pow10(w) || (m == n && LexLess(x, y))
    ensures LexLess(Dec(m, w) + x, Dec(n, w) + y)
  {
    if m < n {
      FieldDecides(m, n, w, x, y);
    } else {
      LexCommonPrefix(Dec(m, w), x, y);
    }
  }

  lemma SeparatorOrder(separator: string, x: string, y: string)
    requires LexLess(x, y)
    ensures LexLess(separator + x, separator + y)
  {
    LexCommonPrefix(separator, x, y);
  }

  lemma YearOrder(a: nat, b: nat)
    requires a < b < DaysBeforeYear(10_000)
    ensures YearOf(a) < YearOf(b) < 10_000 || (YearOf(a) == YearOf(b) < 10_000 && YearDay(a) < YearDay(b))
  {
    if YearOf(b) < YearOf(a) {
      DaysBeforeYearMonotone(YearOf(b) + 1, YearOf(a));
    }
    if 10_000 <= YearOf(b) {
      DaysBeforeYearMonotone(10_000, YearOf(b));
    }
  }

  lemma YearFieldOrder(m: nat, n: nat, s: string, t: string, x: string, y: string)
    requires m < n < 10_000 || (m == n && LexLess(s + x, t + y))
    ensures LexLess(Dec(m, 4) + s + x, Dec(n, 4) + t + y)
  {
    PowNine();
    assert Dec(m, 4) + s + x == Dec(m, 4) + (s + x);
    assert Dec(n, 4) + t + y == Dec(n, 4) + (t + y);
    FieldOrder(m, n, 4, s + x, t + y);
  }

  lemma DateOrder(a: nat, b: nat, x: string, y: string)
    requires a < b < DaysBeforeYear(10_000)
    ensures LexLess(DateText(a) + x, DateText(b) + y)
  {
    YearOrder(a, b);
    if YearOf(a) == YearOf(b) {
      MonthDayOrder(Leap(YearOf(a)), YearDay(a), YearDay(b), x, y);
    }
    YearFieldOrder(YearOf(a), YearOf(b), MonthDayText(Leap(YearOf(a)), YearDay(a)),
                   MonthDayText(Leap(YearOf(b)), YearDay(b)), x, y);
  }

  lemma {:induction false} MonthOrder(leap: bool, a: nat, b: nat, m: nat)
    requires 1 <= m <= 12 && DaysBeforeMonth(leap, m) <= a < b < DaysBeforeMonth(leap, 13)
    ensures MonthFrom(leap, a, m) <= MonthFrom(leap, b, m)
    decreases 13 - m
  {
    if a >= DaysBeforeMonth(leap, m + 1) {
      MonthOrder(leap, a, b, m + 1);
    }
  }

  lemma MonthAndDay(leap: bool, a: nat, b: nat)
    requires a < b < DaysBeforeMonth(leap, 13)
    ensures MonthOf(leap, a) < MonthOf(leap, b) || (MonthOf(leap, a) == MonthOf(leap, b) && DayOf(leap, a) < DayOf(leap, b))
  {
    MonthOrder(leap, a, b, 1);
  }

  lemma MonthDayOrder(leap: bool, a: nat, b: nat, x: string, y: string)
    requires a < b < DaysBeforeMonth(leap, 13)
    ensures LexLess(MonthDayText(leap, a) + x, MonthDayText(leap, b) + y)
  {
    MonthAndDay(leap, a, b);
    DatePartsOrder(MonthOf(leap, a), MonthOf(leap, b), DayOf(leap, a), DayOf(leap, b), x, y);
  }

  lemma DatePartsOrder(ma: nat, mb: nat, ra: nat, rb: nat, x: string, y: string)
    requires ma < mb < 100 || (ma == mb && ra < rb < 100)
    ensures LexLess("-" + (Dec(ma, 2) + ("-" + Dec(ra, 2))) + x, "-" + (Dec(mb, 2) + ("-" + Dec(rb, 2))) + y)
  {
    PowNine();
    var ua, ub := "-" + (Dec(ra, 2) + x), "-" + (Dec(rb, 2) + y);
    assert "-" + (Dec(ma, 2) + ("-" + Dec(ra, 2))) + x == "-" + (Dec(ma, 2) + ua);
    assert "-" + (Dec(mb, 2) + ("-" + Dec(rb, 2))) + y == "-" + (Dec(mb, 2) + ub);
    if ma == mb {
      FieldOrder(ra, rb, 2, x, y);
      SeparatorOrder("-", Dec(ra, 2) + x, Dec(rb, 2) + y);
    }
    FieldOrder(ma, mb, 2, ua, ub);
    SeparatorOrder("-", Dec(ma, 2) + ua, Dec(mb, 2) + ub);
  }

  lemma ClockOrder(a: nat, b: nat, x: string, y: string)
    requires a < b < DAY
    ensures LexLess(ClockText(a) + x, ClockText(b) + y)
  {
    PowNine();
    var sa, sb := ":" + (Dec(a % 60, 2) + x), ":" + (Dec(b % 60, 2) + y);
    var ma, mb := ":" + (Dec(a / 60 % 60, 2) + sa), ":" + (Dec(b / 60 % 60, 2) + sb);
    assert ClockText(a) + x == Dec(a / 3600, 2) + ma;
    assert ClockText(b) + y == Dec(b / 3600, 2) + mb;
    assert a / 3600 == a / 60 / 60 && b / 3600 == b / 60 / 60;
    if a / 3600 == b / 3600 {
      if a / 60 % 60 == b / 60 % 60 {
        FieldOrder(a % 60, b % 60, 2, x, y);
        SeparatorOrder(":", Dec(a % 60, 2) + x, Dec(b % 60, 2) + y);
      }
      FieldOrder(a / 60 % 60, b / 60 % 60, 2, sa, sb);
      SeparatorOrder(":", Dec(a / 60 % 60, 2) + sa, Dec(b / 60 % 60, 2) + sb);
    }
    FieldOrder(a / 3600, b / 3600, 2, ma, mb);
  }

  lemma SecondSplit(a: nat, x: string)
    ensures SecondText(a) + x == DateText(a / DAY) + ("T" + (ClockText(a % DAY) + x))
  {
    var d, c := DateText(a / DAY), ClockText(a % DAY);
    assert d + ("T" + c) + x == d + ("T" + (c + x));
  }

  lemma SameDayOrder(d: nat, a: nat, b: nat, x: string, y: string)
    requires a < b < DAY
    ensures LexLess(DateText(d) + ("T" + (ClockText(a) + x)), DateText(d) + ("T" + (ClockText(b) + y)))
  {
    ClockOrder(a, b, x, y);
    SeparatorOrder("T", ClockText(a) + x, ClockText(b) + y);
    SeparatorOrder(DateText(d), "T" + (ClockText(a) + x), "T" + (ClockText(b) + y));
  }

  lemma DayAndRest(a: nat, b: nat)
    requires a < b
    ensures a / DAY < b / DAY || (a / DAY == b / DAY && a % DAY < b % DAY)
  {
  }

  /** The text of an earlier second sorts first, whatever follows it. */
  lemma SecondOrder(a: nat, b: nat, x: string, y: string)
    requires a < b < DaysBeforeYear(10_000) * DAY
    ensures LexLess(SecondText(a) + x, SecondText(b) + y)
  {
    SecondSplit(a, x);
    SecondSplit(b, y);
    DayAndRest(a, b);
    if a / DAY == b / DAY {
      SameDayOrder(a / DAY, a % DAY, b % DAY, x, y);
    } else {
      DateOrder(a / DAY, b / DAY, "T" + (ClockText(a % DAY) + x), "T" + (ClockText(b % DAY) + y));
    }
  }

  /******* Text order of fractions, and the main theorem *******/

  /** The pairs the text sorts the wrong way round: one whole second, and the
      trimmed fraction of one a proper prefix of the trimmed fraction of the other. */
  predicate Inverted(a: nat, b: nat) {
    && Second(a) == Second(b)
    && (ProperPrefix(FractionText(Nano(a)), FractionText(Nano(b)))
        || ProperPrefix(FractionText(Nano(b)), FractionText(Nano(a))))
  }

  lemma TrimmedOrder(f: nat, g: nat, w: nat)
    requires 0 < f < g < Pow10(w)
    ensures !ProperPrefix(Trimmed(g, w), Trimmed(f, w))
    ensures
      if ProperPrefix(Trimmed(f, w), Trimmed(g, w))
      then LexLess(Trimmed(g, w) + "Z", Trimmed(f, w) + "Z")
      else LexLess(Trimmed(f, w) + "Z", Trimmed(g, w) + "Z")
  {
    var k := DecFirstDifference(f, g, w);
    var p, q := Trimmed(f, w), Trimmed(g, w);
    assert k < |q|;
    if k < |p| {
      FirstDifferenceDecides(p + "Z", q + "Z", k);
    } else {
      FirstDifferenceDecides(q + "Z", p + "Z", |p|);
    }
  }

  lemma PointPrefix(p: string, q: string)
    ensures ProperPrefix("." + p, "." + q) <==> ProperPrefix(p, q)
    ensures LexLess("." + p + "Z", "." + q + "Z") <==> LexLess(p + "Z", q + "Z")
  {
    var x, y := "." + p, "." + q;
    assert forall i :: 0 <= i < |p| ==> x[i + 1] == p[i];
    assert forall i :: 0 <= i < |q| ==> y[i + 1] == q[i];
    if ProperPrefix(x, y) {
      assert forall i :: 0 <= i < |p| ==> p[i] == x[i + 1] == y[i + 1] == q[i];
    }
    assert x + "Z" == "." + (p + "Z") && y + "Z" == "." + (q + "Z");
    LexCommonPrefix(".", p + "Z", q + "Z");
  }

  lemma FractionOrder(f: nat, g: nat)
    requires f < g < SECOND
    ensures !ProperPrefix(FractionText(g), FractionText(f))
    ensures
      if ProperPrefix(FractionText(f), FractionText(g))
      then LexLess(FractionText(g) + "Z", FractionText(f) + "Z")
      else LexLess(FractionText(f) + "Z", FractionText(g) + "Z")
  {
    PowNine();
    if f == 0 {
      FirstDifferenceDecides(FractionText(g) + "Z", "Z", 0);
    } else {
      TrimmedOrder(f, g, 9);
      PointPrefix(Trimmed(f, 9), Trimmed(g, 9));
      PointPrefix(Trimmed(g, 9), Trimmed(f, 9));
    }
  }

  predicate TextLess(a: nat, b: nat) { LexLess(FormatTime(a), FormatTime(b)) }

  /** Stored text sorts like the instants, except that exactly the inverted pairs
      sort the other way round. */
  lemma TextOrder(a: nat, b: nat)
    requires InRange(a) && InRange(b) && a != b
    ensures TextLess(a, b) <==> if Inverted(a, b) then b < a else a < b
    ensures FormatTime(a) != FormatTime(b)
  {
    if a < b {
      TextOrderAscending(a, b);
    } else {
      TextOrderAscending(b, a);
    }
  }

  lemma TextOrderAscending(a: nat, b: nat)
    requires InRange(a) && InRange(b) && a < b
    ensures if Inverted(a, b) then TextLess(b, a) && !TextLess(a, b) else TextLess(a, b) && !TextLess(b, a)
    ensures FormatTime(a) != FormatTime(b)
  {
    var x, y := FractionText(Nano(a)) + "Z", FractionText(Nano(b)) + "Z";
    if Second(a) < Second(b) {
      SecondOrder(Second(a), Second(b), x, y);
      LexAsymmetric(FormatTime(a), FormatTime(b));
    } else {
      FractionOrder(Nano(a), Nano(b));
      var p := SecondText(Second(a));
      LexCommonPrefix(p, x, y);
      LexCommonPrefix(p, y, x);
      if Inverted(a, b) {
        LexAsymmetric(FormatTime(b), FormatTime(a));
      } else {
        LexAsymmetric(FormatTime(a), FormatTime(b));
      }
    }
  }

  lemma LexAsymmetric(x: string, y: string)
    requires LexLess(x, y)
    ensures !LexLess(y, x) && x != y
  {
    LexIrreflexive(x);
    if LexLess(y, x) {
      LexTransitive(x, y, x);
    }
  }

  /******* Reading stored text back *******/

  function Value(s: string): int {
    if s == "" then 0 else 10 * Value(s[..|s| - 1]) + (s[|s| - 1] as int - '0' as int)
  }

  /** The length of a month, as a calendar has it. */
  function MonthLength(leap: bool, m: nat): nat
    requires 1 <= m <= 12
  {
    if m == 2 then (if leap then 29 else 28) else if m == 4 || m == 6 || m == 9 || m == 11 then 30 else 31
  }

  lemma MonthTable(leap: bool, m: nat)
    requires 1 <= m <= 12
    ensures DaysBeforeMonth(leap, 1) == 0
    ensures DaysBeforeMonth(leap, m + 1) == DaysBeforeMonth(leap, m) + MonthLength(leap, m)
  {
  }

  /** "2006-01-02" as a day. */
  function ParseDate(s: string): Option<int> {
    if |s| != 10 || s[4] != '-' || s[7] != '-' then None
    else
      var y, m, d := Value(s[..4]), Value(s[5..7]), Value(s[8..]);
      if y < 0 || m < 1 || m > 12 || d < 1 || d > MonthLength(Leap(y), m) then None
      else Some(DaysBeforeYear(y) + DaysBeforeMonth(Leap(y), m) + d - 1)
  }

  /** "15:04:05" as a second of the day. */
  function ParseClock(s: string): Option<int> {
    if |s| != 8 || s[2] != ':' || s[5] != ':' then None
    else Some(3600 * Value(s[..2]) + 60 * Value(s[3..5]) + Value(s[6..]))
  }

  /** "Z", or a point, up to nine digits and "Z", as nanoseconds. */
  function ParseFraction(s: string): Option<int> {
    if s == "Z" then Some(0)
    else if |s| < 3 || |s| > 11 || s[0] != '.' || s[|s| - 1] != 'Z' then None
    else Some(Value(s[1..|s| - 1]) * Pow10(11 - |s|))
  }

  function ParseTime(s: string): Option<int> {
    if |s| < 20 || s[10] != 'T' then None
    else
      var date, clock, fraction := ParseDate(s[..10]), ParseClock(s[11..19]), ParseFraction(s[19..]);
      if date.None? || clock.None? || fraction.None? then None
      else Some((date.value * DAY + clock.value) * SECOND + fraction.value)
  }

  lemma {:induction false} ValueOfDec(n: nat, w: nat)
    requires n < Pow10(w)
    ensures Value(Dec(n, w)) == n
  {
    if w > 0 {
      ValueOfDec(n / 10, w - 1);
      assert Dec(n, w)[..w - 1] == Dec(n / 10, w - 1);
    }
  }

  lemma TimesTen(v: int, p: int)
    ensures v * (10 * p) == 10 * (v * p)
  {
  }

  lemma {:induction false} ValueOfTrimmed(f: nat, w: nat)
    requires 0 < f < Pow10(w)
    ensures Value(Trimmed(f, w)) * Pow10(w - |Trimmed(f, w)|) == f
  {
    var s := Trimmed(f, w);
    if f % 10 == 0 {
      ValueOfTrimmed(f / 10, w - 1);
      assert Pow10(w - |s|) == 10 * Pow10(w - 1 - |s|);
      TimesTen(Value(s), Pow10(w - 1 - |s|));
    } else {
      ValueOfDec(f, w);
      assert s == Dec(f, w) && Pow10(w - |s|) == 1;
    }
  }

  lemma YearBound(day: nat)
    requires day < DaysBeforeYear(10_000)
    ensures YearOf(day) < 10_000
  {
    if 10_000 <= YearOf(day) {
      DaysBeforeYearMonotone(10_000, YearOf(day));
    }
  }

  lemma DateLayout(y: nat, m: nat, d: nat)
    ensures
      var s := Dec(y, 4) + ("-" + (Dec(m, 2) + ("-" + Dec(d, 2))));
      && |s| == 10 && s[..4] == Dec(y, 4) && s[4] == '-' && s[5..7] == Dec(m, 2) && s[7] == '-' && s[8..] == Dec(d, 2)
  {
  }

  lemma MonthEnds(leap: bool, yearDay: nat)
    requires yearDay < DaysBeforeMonth(leap, 13)
    ensures DayOf(leap, yearDay) <= MonthLength(leap, MonthOf(leap, yearDay))
    ensures DaysBeforeMonth(leap, MonthOf(leap, yearDay)) + DayOf(leap, yearDay) - 1 == yearDay
  {
    MonthTable(leap, MonthOf(leap, yearDay));
  }

  lemma DateFromFields(s: string, y: nat, m: nat, d: nat)
    requires |s| == 10 && s[4] == '-' && s[7] == '-'
    requires Value(s[..4]) == y && Value(s[5..7]) == m && Value(s[8..]) == d
    requires 1 <= m <= 12 && 1 <= d <= MonthLength(Leap(y), m)
    ensures ParseDate(s) == Some(DaysBeforeYear(y) + DaysBeforeMonth(Leap(y), m) + d - 1)
  {
  }

  lemma DateFields(day: nat) returns (y: nat, m: nat, d: nat)
    requires day < DaysBeforeYear(10_000)
    ensures y < 10_000 && 1 <= m <= 12 && 1 <= d <= MonthLength(Leap(y), m)
    ensures DaysBeforeYear(y) + DaysBeforeMonth(Leap(y), m) + d - 1 == day
    ensures DateText(day) == Dec(y, 4) + ("-" + (Dec(m, 2) + ("-" + Dec(d, 2))))
  {
    YearBound(day);
    MonthEnds(Leap(YearOf(day)), YearDay(day));
    y := YearOf(day);
    m, d := MonthOf(Leap(y), YearDay(day)), DayOf(Leap(y), YearDay(day));
  }

  lemma DateFieldsReadBack(s: string, y: nat, m: nat, d: nat)
    requires y < 10_000 && 1 <= m <= 12 && 1 <= d <= MonthLength(Leap(y), m)
    requires s == Dec(y, 4) + ("-" + (Dec(m, 2) + ("-" + Dec(d, 2))))
    ensures |s| == 10 && ParseDate(s) == Some(DaysBeforeYear(y) + DaysBeforeMonth(Leap(y), m) + d - 1)
  {
    PowNine();
    DateLayout(y, m, d);
    ValueOfDec(y, 4);
    ValueOfDec(m, 2);
    ValueOfDec(d, 2);
    DateFromFields(s, y, m, d);
  }

  lemma DateReadsBack(day: nat)
    requires day < DaysBeforeYear(10_000)
    ensures |DateText(day)| == 10 && ParseDate(DateText(day)) == Some(day)
  {
    var date := DateText(day);
    var y, m, d := DateFields(day);
    DateFieldsReadBack(date, y, m, d);
  }

  lemma ClockLayout(h: nat, m: nat, sec: nat)
    ensures
      var s := Dec(h, 2) + (":" + (Dec(m, 2) + (":" + Dec(sec, 2))));
      && |s| == 8 && s[..2] == Dec(h, 2) && s[2] == ':' && s[3..5] == Dec(m, 2) && s[5] == ':' && s[6..] == Dec(sec, 2)
  {
  }

  lemma ClockParts(n: nat)
    requires n < DAY
    ensures n / 3600 < 24 && n / 60 % 60 < 60 && n % 60 < 60
    ensures 3600 * (n / 3600) + 60 * (n / 60 % 60) + n % 60 == n
  {
    assert n / 3600 == n / 60 / 60;
  }

  lemma ClockReadsBack(n: nat)
    requires n < DAY
    ensures |ClockText(n)| == 8 && ParseClock(ClockText(n)) == Some(n)
  {
    PowNine();
    ClockParts(n);
    ClockLayout(n / 3600, n / 60 % 60, n % 60);
    ValueOfDec(n / 3600, 2);
    ValueOfDec(n / 60 % 60, 2);
    ValueOfDec(n % 60, 2);
  }

  lemma FractionReadsBack(f: nat)
    requires f < SECOND
    ensures ParseFraction(FractionText(f) + "Z") == Some(f)
  {
    PowNine();
    if f == 0 {
      assert "" + "Z" == "Z";
    } else {
      var digits := Trimmed(f, 9);
      var s := "." + digits + "Z";
      assert s[1..|s| - 1] == digits && s != "Z";
      ValueOfTrimmed(f, 9);
    }
  }

  lemma TimeLayout(date: string, clock: string, fraction: string)
    requires |date| == 10 && |clock| == 8 && fraction != ""
    ensures
      var s := date + ("T" + clock) + fraction;
      |s| >= 20 && s[..10] == date && s[10] == 'T' && s[11..19] == clock && s[19..] == fraction
  {
  }

  lemma JoinReadsBack(s: string, date: string, clock: string, fraction: string, day: int, n: int, f: int)
    requires |date| == 10 && |clock| == 8 && fraction != "" && s == date + ("T" + clock) + fraction
    requires ParseDate(date) == Some(day) && ParseClock(clock) == Some(n) && ParseFraction(fraction) == Some(f)
    ensures ParseTime(s) == Some((day * DAY + n) * SECOND + f)
  {
    TimeLayout(date, clock, fraction);
  }

  lemma PiecesReadBack(s: string, day: nat, n: nat, f: nat)
    requires day < DaysBeforeYear(10_000) && n < DAY && f < SECOND
    requires s == DateText(day) + ("T" + ClockText(n)) + (FractionText(f) + "Z")
    ensures ParseTime(s) == Some((day * DAY + n) * SECOND + f)
  {
    var date, clock, fraction := DateText(day), ClockText(n), FractionText(f) + "Z";
    assert |date| == 10 && ParseDate(date) == Some(day) by { DateReadsBack(day); }
    assert |clock| == 8 && ParseClock(clock) == Some(n) by { ClockReadsBack(n); }
    assert ParseFraction(fraction) == Some(f) by { FractionReadsBack(f); }
    JoinReadsBack(s, date, clock, fraction, day, n, f);
  }

  lemma SplitTime(t: nat)
    requires InRange(t)
    ensures Second(t) / DAY < DaysBeforeYear(10_000)
    ensures (Second(t) / DAY * DAY + Second(t) % DAY) * SECOND + Nano(t) == t
  {
    assert Second(t) < DaysBeforeYear(10_000) * DAY;
  }

  /** Round trip: reading stored text back gives the instant that was stored. */
  lemma ReadsBack(t: nat)
    requires InRange(t)
    ensures ParseTime(FormatTime(t)) == Some(t)
  {
    SplitTime(t);
    PiecesReadBack(FormatTime(t), Second(t) / DAY, Second(t) % DAY, Nano(t));
  }

  /** A proper prefix sorts first. */
  lemma {:induction false} PrefixSortsFirst(x: string, y: string)
    requires |x| < |y| && x == y[..|x|]
    ensures LexLess(x, y) && !LexLess(y, x)
  {
    if x != "" {
      PrefixSortsFirst(x[1..], y[1..]);
    }
  }

  /******* The SQL test on stored times *******/

  /** `a <= b` as SQLite evaluates it on stored text.  Years before 0000 are not
      modelled; they are placed first. */
  predicate TextLeq(a: int, b: int) {
    if a >= 0 && b >= 0 then LexLeq(FormatTime(a), FormatTime(b)) else a <= b
  }

  /** The test agrees with the instants except on inverted pairs. */
  lemma TextLeqExact(a: nat, b: nat)
    requires InRange(a) && InRange(b)
    ensures TextLeq(a, b) <==> if Inverted(a, b) then b <= a else a <= b
  {
    if a != b {
      TextOrder(a, b);
    }
  }

  /** It is never wrong by a whole second: the later second never sorts first. */
  lemma TextLeqWithinSecond(a: nat, b: nat)
    requires InRange(a) && InRange(b) && TextLeq(a, b)
    ensures Second(a) <= Second(b) && a < b + SECOND
  {
    TextLeqExact(a, b);
  }

  /** Whole seconds are always compared correctly. */
  lemma WholeSecondsCompare(a: nat, b: nat)
    requires InRange(a) && InRange(b) && Nano(a) == 0 && Nano(b) == 0
    ensures TextLeq(a, b) <==> a <= b
  {
    TextLeqExact(a, b);
  }

  lemma PrefixSortsLate(a: nat, b: nat, x: string, y: string)
    requires InRange(a) && InRange(b) && Second(a) == Second(b)
    requires x == FractionText(Nano(a)) && y == FractionText(Nano(b)) && ProperPrefix(x, y)
    ensures TextLeq(b, a) && !TextLeq(a, b)
  {
    if b <= a {
      FractionOrder(Nano(b), Nano(a));
    }
    TextLeqExact(a, b);
    TextLeqExact(b, a);
  }

  lemma LastDigitDropped(f: nat, d: nat, w: nat)
    requires w > 0 && f % 10 == 0 && f / 10 % 10 != 0 && 1 <= d <= 9 && f + d < Pow10(w)
    ensures ProperPrefix(Trimmed(f, w), Trimmed(f + d, w))
  {
    assert (f + d) / 10 == f / 10 && (f + d) % 10 == d;
    assert Trimmed(f + d, w) == Dec(f / 10, w - 1) + [Digit(d)];
    assert Trimmed(f, w) == Dec(f / 10, w - 1);
  }

  lemma SameSecond(a: nat, d: nat)
    requires Nano(a) % 10 == 0 && d <= 9
    ensures Second(a + d) == Second(a) && Nano(a + d) == Nano(a) + d
  {
    assert SECOND == 10 * 100_000_000;
  }

  /** An instant written with exactly eight fractional digits sorts after each of the
      nine nanoseconds that follow it. */
  lemma EightDigitsSortLate(a: nat, d: nat)
    requires Nano(a) % 10 == 0 && Nano(a) / 10 % 10 != 0 && 1 <= d <= 9
    requires InRange(a) && InRange(a + d)
    ensures Inverted(a, a + d) && TextLeq(a + d, a) && !TextLeq(a, a + d)
  {
    var f := Nano(a);
    SameSecond(a, d);
    PowNine();
    LastDigitDropped(f, d, 9);
    PointPrefix(Trimmed(f, 9), Trimmed(f + d, 9));
    PrefixSortsLate(a, a + d, FractionText(f), FractionText(f + d));
  }

  lemma TextLeqTotal(a: int, b: int, c: int)
    ensures TextLeq(a, b) || TextLeq(b, a)
    ensures TextLeq(a, b) && TextLeq(b, c) ==> TextLeq(a, c)
  {
    if a >= 0 && b >= 0 {
      LexTotal(FormatTime(a), FormatTime(b));
      if c >= 0 && TextLess(a, b) && TextLess(b, c) {
        LexTransitive(FormatTime(a), FormatTime(b), FormatTime(c));
      }
    }
  }
}
