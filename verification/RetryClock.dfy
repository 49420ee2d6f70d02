/** The bridge keeps its clock values as ISO-8601 text and lets SQLite compare
    the text; retry times come from a capped exponential back-off. An instant
    is a count of microseconds since 0001-01-01T00:00:00 UTC. */
module RetryClock {
  import opened Text

  const US_PER_SECOND: nat := 1_000_000

  // -------------------------------------------------------------------
  // Comparing text

  /** SQLite's BINARY collation: `a < b`. */
  predicate Less(a: string, b: string) {
    b != [] && (a == [] || a[0] < b[0] || (a[0] == b[0] && Less(a[1..], b[1..])))
  }

  lemma {:induction false} LessIsAsymmetric(a: string, b: string)
    ensures !(Less(a, b) && Less(b, a)) && !Less(a, a)
  {
    if a != [] {
      LessIsAsymmetric(a[1..], if b == [] then [] else b[1..]);
    }
  }

  lemma {:induction false} LessByTail(p: string, a: string, b: string)
    ensures Less(p + a, p + b) == Less(a, b)
  {
    if p == [] {
      assert p + a == a && p + b == b;
    } else {
      assert (p + a)[1..] == p[1..] + a && (p + b)[1..] == p[1..] + b;
      LessByTail(p[1..], a, b);
    }
  }

  lemma {:induction false} LessByHead(a: string, b: string, x: string, y: string)
    requires |a| == |b| && Less(a, b)
    ensures Less(a + x, b + y)
  {
    assert (a + x)[1..] == a[1..] + x && (b + y)[1..] == b[1..] + y;
    if a[0] == b[0] {
      LessByHead(a[1..], b[1..], x, y);
    }
  }

  function Pow10(w: nat): (p: nat)
    ensures p >= 1
  {
    if w == 0 then 1 else 10 * Pow10(w - 1)
  }

  /** `n` in exactly `w` digits. */
  function Pad(n: nat, w: nat): (s: string)
    requires n < Pow10(w)
    ensures |s| == w
  {
    if w == 0 then "" else Pad(n / 10, w - 1) + [Digit(n % 10)]
  }

  lemma {:induction false} PadMonotone(a: nat, b: nat, w: nat)
    requires a < b < Pow10(w)
    ensures Less(Pad(a, w), Pad(b, w))
  {
    if a / 10 < b / 10 {
      PadMonotone(a / 10, b / 10, w - 1);
      LessByHead(Pad(a / 10, w - 1), Pad(b / 10, w - 1), [Digit(a % 10)], [Digit(b % 10)]);
    } else {
      assert a / 10 == b / 10 && a % 10 < b % 10;
      LessByTail(Pad(a / 10, w - 1), [Digit(a % 10)], [Digit(b % 10)]);
    }
  }

  // -------------------------------------------------------------------
  // The calendar

  predicate Leap(y: nat) { y % 4 == 0 && (y % 100 != 0 || y % 400 == 0) }

  /** The lengths of the months, at the months' numbers. */
  type Months = months: seq<nat> | |months| == 13 witness seq(13, _ => 0)

  function MonthsIf(leap: bool): Months {
    [0, 31, if leap then 29 else 28, 31, 30, 31, 30, 31, 31, 30, 31, 30, 31]
  }

  /** Days from the first of month `m` to the end of the year. */
  function DaysFrom(months: Months, m: nat): nat
    requires 1 <= m <= 13
    decreases 13 - m
  {
    if m == 13 then 0 else months[m] + DaysFrom(months, m + 1)
  }

  datatype Date = Date(year: nat, month: nat, day: nat)

  /** The month and day of the `d`-th day counted from the first of month `m`. */
  function InYear(d: nat, y: nat, months: Months, m: nat): (r: Date)
    requires 1 <= m <= 12 && d < DaysFrom(months, m)
    ensures r.year == y && m <= r.month <= 12 && 1 <= r.day <= months[r.month]
    decreases 12 - m
  {
    if d < months[m] then Date(y, m, d + 1) else InYear(d - months[m], y, months, m + 1)
  }

  function LengthIf(leap: bool): nat { if leap then 366 else 365 }

  function YearLength(y: nat): nat { LengthIf(Leap(y)) }

  function DaysBefore(months: Months, m: nat): nat
    requires 1 <= m <= 12
  {
    if m == 1 then 0 else months[m - 1] + DaysBefore(months, m - 1)
  }

  lemma DaysInYear(leap: bool)
    ensures DaysFrom(MonthsIf(leap), 1) == LengthIf(leap)
  {
    var months := MonthsIf(leap);
    assert DaysFrom(months, 11) == 30 + 31;
    assert DaysFrom(months, 9) == 30 + 31 + DaysFrom(months, 11);
    assert DaysFrom(months, 7) == 31 + 31 + DaysFrom(months, 9);
    assert DaysFrom(months, 5) == 31 + 30 + DaysFrom(months, 7);
    assert DaysFrom(months, 3) == 31 + 30 + DaysFrom(months, 5);
  }

  /** The day of the year on which a month starts, in closed form. */
  lemma {:induction false} MonthStarts(leap: bool, m: nat)
    requires 1 <= m <= 12
    ensures DaysBefore(MonthsIf(leap), m) == (367 * m - 362) / 12 - if m <= 2 then 0 else if leap then 1 else 2
  {
    if m > 1 {
      MonthStarts(leap, m - 1);
    }
  }

  /** The date of the `d`-th day counted from the first of January of year `y`. */
  function FromDay(d: nat, y: nat): (r: Date)
    ensures r.year >= y && 1 <= r.month <= 12 && 1 <= r.day <= 31
    decreases d
  {
    if d < YearLength(y) then
      DaysInYear(Leap(y));
      InYear(d, y, MonthsIf(Leap(y)), 1)
    else FromDay(d - YearLength(y), y + 1)
  }

  predicate Before(a: Date, b: Date) {
    || a.year < b.year
    || (a.year == b.year && (a.month < b.month || (a.month == b.month && a.day < b.day)))
  }

  lemma {:induction false} InYearMonotone(a: nat, b: nat, y: nat, months: Months, m: nat)
    requires 1 <= m <= 12 && a < b < DaysFrom(months, m)
    ensures Before(InYear(a, y, months, m), InYear(b, y, months, m))
    decreases 12 - m
  {
    if a >= months[m] {
      InYearMonotone(a - months[m], b - months[m], y, months, m + 1);
    }
  }

  lemma {:induction false} FromDayMonotone(a: nat, b: nat, y: nat)
    requires a < b
    ensures Before(FromDay(a, y), FromDay(b, y))
    decreases a
  {
    var n := YearLength(y);
    DaysInYear(Leap(y));
    if b < n {
      InYearMonotone(a, b, y, MonthsIf(Leap(y)), 1);
    } else if a < n {
      assert FromDay(a, y).year == y && FromDay(b, y).year >= y + 1;
    } else {
      FromDayMonotone(a - n, b - n, y + 1);
    }
  }

  /** Leap years from year 1 to year `y`. */
  function Leaps(y: nat): nat {
    if y == 0 then 0 else Leaps(y - 1) + if Leap(y) then 1 else 0
  }

  lemma Quotient4(y: nat)
    requires y > 0
    ensures y / 4 - (y - 1) / 4 == if y % 4 == 0 then 1 else 0
  {}

  lemma Quotient100(y: nat)
    requires y > 0
    ensures y / 100 - (y - 1) / 100 == if y % 100 == 0 then 1 else 0
  {}

  lemma Quotient400(y: nat)
    requires y > 0
    ensures y / 400 - (y - 1) / 400 == if y % 400 == 0 then 1 else 0
  {}

  lemma TimesFour(k: nat)
    ensures 4 * k % 4 == 0
  {}

  lemma TimesHundred(k: nat)
    ensures 100 * k % 100 == 0
  {}

  lemma HundredsAreFours(y: nat)
    ensures y % 100 == 0 ==> y % 4 == 0
  {
    if y % 100 == 0 {
      TimesFour(25 * (y / 100));
    }
  }

  lemma FourHundredsAreHundreds(y: nat)
    ensures y % 400 == 0 ==> y % 100 == 0
  {
    if y % 400 == 0 {
      TimesHundred(4 * (y / 400));
    }
  }

  lemma {:induction false} LeapsInClosedForm(y: nat)
    ensures Leaps(y) == y / 4 - y / 100 + y / 400
  {
    if y > 0 {
      LeapsInClosedForm(y - 1);
      Quotient4(y);
      Quotient100(y);
      Quotient400(y);
      HundredsAreFours(y);
      FourHundredsAreHundreds(y);
    }
  }

  /** Days before the first of January of year `y`. */
  function DaysBeforeYear(y: nat): nat
    requires y >= 1
  {
    (y - 1) * 365 + Leaps(y - 1)
  }

  /** `date.toordinal()`, counted from zero. */
  function DayNumber(d: Date): int
    requires d.year >= 1 && 1 <= d.month <= 12
  {
    DaysBeforeYear(d.year) + DaysBefore(MonthsIf(Leap(d.year)), d.month) + d.day - 1
  }

  lemma {:induction false} InYearNumber(d: nat, y: nat, months: Months, m: nat)
    requires 1 <= m <= 12 && d < DaysFrom(months, m)
    ensures var r := InYear(d, y, months, m); DaysBefore(months, r.month) + r.day - 1 == DaysBefore(months, m) + d
    decreases 12 - m
  {
    if d >= months[m] {
      InYearNumber(d - months[m], y, months, m + 1);
    }
  }

  lemma NextYear(y: nat)
    requires y >= 1
    ensures DaysBeforeYear(y + 1) == DaysBeforeYear(y) + YearLength(y)
  {
    assert Leaps(y) == Leaps(y - 1) + if Leap(y) then 1 else 0;
  }

  lemma SameYearNumber(d: nat, y: nat)
    requires y >= 1 && d < YearLength(y)
    ensures DayNumber(FromDay(d, y)) == DaysBeforeYear(y) + d
  {
    DaysInYear(Leap(y));
    InYearNumber(d, y, MonthsIf(Leap(y)), 1);
  }

  /** The date shown for a day is the date with that day number. */
  lemma {:induction false} FromDayNumber(d: nat, y: nat)
    requires y >= 1
    ensures DayNumber(FromDay(d, y)) == DaysBeforeYear(y) + d
    decreases d
  {
    if d < YearLength(y) {
      SameYearNumber(d, y);
    } else {
      FromDayNumber(d - YearLength(y), y + 1);
      NextYear(y);
    }
  }

  // -------------------------------------------------------------------
  // isoformat()

  function DateOf(t: nat): Date { FromDay(t / US_PER_SECOND / 86_400, 1) }

  /** The instants a `datetime` can hold. */
  predicate InRange(t: int) { t >= 0 && DateOf(t).year <= 9999 }

  lemma PowersOfTen()
    ensures Pow10(2) == 100 && Pow10(4) == 10_000 && Pow10(6) == 1_000_000
  {
    assert Pow10(1) == 10;
    assert Pow10(3) == 1000;
    assert Pow10(5) == 100_000;
  }

  function DateText(d: Date): string
    requires d.year <= 9999 && d.month <= 12 && d.day <= 31
  {
    PowersOfTen();
    Pad(d.year, 4) + "-" + Pad(d.month, 2) + "-" + Pad(d.day, 2)
  }

  function TimeText(h: nat, m: nat, s: nat): string
    requires h < 24 && m < 60 && s < 60
  {
    PowersOfTen();
    Pad(h, 2) + ":" + Pad(m, 2) + ":" + Pad(s, 2)
  }

  /** An instant in the fields a `datetime` shows. */
  datatype Stamp = Stamp(date: Date, h: nat, m: nat, s: nat, us: nat) {
    predicate Ok() {
      && date.year <= 9999 && 1 <= date.month <= 12 && 1 <= date.day <= 31
      && h < 24 && m < 60 && s < 60 && us < US_PER_SECOND
    }
  }

  function StampOf(t: nat): (r: Stamp)
    ensures DateOf(t).year <= 9999 ==> r.Ok()
  {
    var s := t / US_PER_SECOND % 86_400;
    Stamp(DateOf(t), s / 3600, s % 3600 / 60, s % 60, t % US_PER_SECOND)
  }

  /** The fields shown for an instant make up the instant. */
  lemma StampIsInstant(t: nat)
    ensures var r := StampOf(t);
            && t == (((DayNumber(r.date) * 24 + r.h) * 60 + r.m) * 60 + r.s) * 1_000_000 + r.us
            && r.h < 24 && r.m < 60 && r.s < 60 && r.us < 1_000_000
  {
    var secs := t / US_PER_SECOND;
    var d := secs / 86_400;
    FromDayNumber(d, 1);
    assert DaysBeforeYear(1) == 0;
    SecondsOfDay(secs % 86_400);
  }

  lemma SecondsOfDay(s: nat)
    requires s < 86_400
    ensures s == (s / 3600 * 60 + s % 3600 / 60) * 60 + s % 60
    ensures s / 3600 < 24 && s % 3600 / 60 < 60
  {
    SecondsOfHour(s);
    assert s == 3600 * (s / 3600) + s % 3600;
    assert s % 3600 == 60 * (s % 3600 / 60) + s % 3600 % 60;
  }

  predicate StampBefore(a: Stamp, b: Stamp) {
    || Before(a.date, b.date)
    || (a.date == b.date &&
        (a.h < b.h || (a.h == b.h &&
                       (a.m < b.m || (a.m == b.m &&
                                      (a.s < b.s || (a.s == b.s && a.us < b.us)))))))
  }

  /** A zero fraction is dropped altogether. */
  function FractionText(us: nat): string
    requires us < US_PER_SECOND
  {
    PowersOfTen();
    (if us == 0 then "" else "." + Pad(us, 6)) + "+00:00"
  }

  function StampText(p: Stamp): string
    requires p.Ok()
  {
    DateText(p.date) + "T" + TimeText(p.h, p.m, p.s) + FractionText(p.us)
  }

  function IsoText(t: int): string
    requires InRange(t)
  {
    StampText(StampOf(t))
  }

  lemma {:induction false} PadValue(n: nat, w: nat)
    requires n < Pow10(w)
    ensures AllDigits(Pad(n, w)) && NatValue(Pad(n, w)) == n
  {
    if w > 0 {
      PadValue(n / 10, w - 1);
      assert Pad(n, w)[..w - 1] == Pad(n / 10, w - 1);
    }
  }

  predicate Reads(s: string, n: nat) { AllDigits(s) && NatValue(s) == n }

  lemma DateTextReads(d: Date)
    requires d.year <= 9999 && d.month <= 12 && d.day <= 31
    ensures var s := DateText(d);
            && |s| == 10 && s[4] == s[7] == '-'
            && Reads(s[..4], d.year) && Reads(s[5..7], d.month) && Reads(s[8..10], d.day)
  {
    PowersOfTen();
    PadValue(d.year, 4);
    PadValue(d.month, 2);
    PadValue(d.day, 2);
    var s := DateText(d);
    assert s[..4] == Pad(d.year, 4) && s[5..7] == Pad(d.month, 2) && s[8..10] == Pad(d.day, 2);
  }

  lemma TimeTextReads(h: nat, m: nat, sec: nat)
    requires h < 24 && m < 60 && sec < 60
    ensures var s := TimeText(h, m, sec);
            && |s| == 8 && s[2] == s[5] == ':'
            && Reads(s[..2], h) && Reads(s[3..5], m) && Reads(s[6..8], sec)
  {
    PowersOfTen();
    PadValue(h, 2);
    PadValue(m, 2);
    PadValue(sec, 2);
    var s := TimeText(h, m, sec);
    assert s[..2] == Pad(h, 2) && s[3..5] == Pad(m, 2) && s[6..8] == Pad(sec, 2);
  }

  /** The text shows the fields at fixed places, with the fraction only if it is not zero. */
  lemma IsoTextReads(t: int)
    requires InRange(t)
    ensures var s, p := IsoText(t), StampOf(t);
            && |s| >= 19 && s[4] == s[7] == '-' && s[10] == 'T' && s[13] == s[16] == ':'
            && Reads(s[..4], p.date.year) && Reads(s[5..7], p.date.month) && Reads(s[8..10], p.date.day)
            && Reads(s[11..13], p.h) && Reads(s[14..16], p.m) && Reads(s[17..19], p.s)
            && (p.us == 0 ==> s[19..] == "+00:00")
            && (p.us != 0 ==> |s| == 32 && s[19] == '.' && Reads(s[20..26], p.us) && s[26..] == "+00:00")
  {
    var s, p := IsoText(t), StampOf(t);
    var date, time, rest := DateText(p.date), TimeText(p.h, p.m, p.s), FractionText(p.us);
    DateTextReads(p.date);
    TimeTextReads(p.h, p.m, p.s);
    assert s[..10] == date && s[11..19] == time && s[19..] == rest;
    assert s[..4] == date[..4] && s[5..7] == date[5..7] && s[8..10] == date[8..10];
    assert s[11..13] == time[..2] && s[14..16] == time[3..5] && s[17..19] == time[6..8];
    if p.us != 0 {
      PowersOfTen();
      PadValue(p.us, 6);
      assert s[20..26] == Pad(p.us, 6) && s[26..] == "+00:00";
    }
  }

  lemma DateTextMonotone(a: Date, b: Date)
    requires a.year <= 9999 && a.month <= 12 && a.day <= 31
    requires b.year <= 9999 && b.month <= 12 && b.day <= 31
    requires Before(a, b)
    ensures Less(DateText(a), DateText(b))
  {
    PowersOfTen();
    var ya, yb := Pad(a.year, 4), Pad(b.year, 4);
    var ra, rb := "-" + Pad(a.month, 2) + "-" + Pad(a.day, 2), "-" + Pad(b.month, 2) + "-" + Pad(b.day, 2);
    assert DateText(a) == ya + ra && DateText(b) == yb + rb;
    if a.year < b.year {
      PadMonotone(a.year, b.year, 4);
      LessByHead(ya, yb, ra, rb);
    } else {
      var ma, mb := "-" + Pad(a.month, 2), "-" + Pad(b.month, 2);
      var da, db := "-" + Pad(a.day, 2), "-" + Pad(b.day, 2);
      assert ra == ma + da && rb == mb + db;
      if a.month < b.month {
        PadMonotone(a.month, b.month, 2);
        LessByTail("-", Pad(a.month, 2), Pad(b.month, 2));
        LessByHead(ma, mb, da, db);
      } else {
        PadMonotone(a.day, b.day, 2);
        LessByTail("-", Pad(a.day, 2), Pad(b.day, 2));
        LessByTail(ma, da, db);
      }
      LessByTail(ya, ra, rb);
    }
  }

  lemma TimeTextMonotone(a: Stamp, b: Stamp)
    requires a.Ok() && b.Ok()
    requires a.h < b.h || (a.h == b.h && (a.m < b.m || (a.m == b.m && a.s < b.s)))
    ensures Less(TimeText(a.h, a.m, a.s), TimeText(b.h, b.m, b.s))
  {
    PowersOfTen();
    var ha, hb := Pad(a.h, 2), Pad(b.h, 2);
    var ma, mb := ":" + Pad(a.m, 2), ":" + Pad(b.m, 2);
    var sa, sb := ":" + Pad(a.s, 2), ":" + Pad(b.s, 2);
    assert TimeText(a.h, a.m, a.s) == ha + (ma + sa) && TimeText(b.h, b.m, b.s) == hb + (mb + sb);
    if a.h < b.h {
      PadMonotone(a.h, b.h, 2);
      LessByHead(ha, hb, ma + sa, mb + sb);
    } else {
      if a.m < b.m {
        PadMonotone(a.m, b.m, 2);
        LessByTail(":", Pad(a.m, 2), Pad(b.m, 2));
        LessByHead(ma, mb, sa, sb);
      } else {
        PadMonotone(a.s, b.s, 2);
        LessByTail(":", Pad(a.s, 2), Pad(b.s, 2));
        LessByTail(ma, sa, sb);
      }
      LessByTail(ha, ma + sa, mb + sb);
    }
  }

  lemma FractionTextMonotone(a: nat, b: nat)
    requires a < b < US_PER_SECOND
    ensures Less(FractionText(a), FractionText(b))
  {
    PowersOfTen();
    if a == 0 {
      assert FractionText(a)[0] == '+' && FractionText(b)[0] == '.';
    } else {
      PadMonotone(a, b, 6);
      LessByTail(".", Pad(a, 6), Pad(b, 6));
      LessByHead("." + Pad(a, 6), "." + Pad(b, 6), "+00:00", "+00:00");
    }
  }

  lemma StampTextMonotone(a: Stamp, b: Stamp)
    requires a.Ok() && b.Ok() && StampBefore(a, b)
    ensures Less(StampText(a), StampText(b))
  {
    var da, db := DateText(a.date), DateText(b.date);
    var ca, cb := ClockText(a), ClockText(b);
    StampTextGrouped(a);
    StampTextGrouped(b);
    if Before(a.date, b.date) {
      DateTextMonotone(a.date, b.date);
      LessByHead(da, db, "T" + ca, "T" + cb);
    } else {
      ClockTextMonotone(a, b);
      LessByTail("T", ca, cb);
      LessByTail(da, "T" + ca, "T" + cb);
    }
  }

  function ClockText(p: Stamp): string
    requires p.Ok()
  {
    TimeText(p.h, p.m, p.s) + FractionText(p.us)
  }

  lemma StampTextGrouped(p: Stamp)
    requires p.Ok()
    ensures StampText(p) == DateText(p.date) + ("T" + ClockText(p))
  {}

  lemma ClockTextMonotone(a: Stamp, b: Stamp)
    requires a.Ok() && b.Ok() && StampBefore(a, b) && !Before(a.date, b.date)
    ensures Less(ClockText(a), ClockText(b))
  {
    if a.h == b.h && a.m == b.m && a.s == b.s {
      FractionTextMonotone(a.us, b.us);
      LessByTail(TimeText(a.h, a.m, a.s), FractionText(a.us), FractionText(b.us));
    } else {
      TimeTextMonotone(a, b);
      LessByHead(TimeText(a.h, a.m, a.s), TimeText(b.h, b.m, b.s), FractionText(a.us), FractionText(b.us));
    }
  }

  lemma HoursSplit(a: nat, b: nat)
    requires a < b
    ensures a / 3600 < b / 3600 || (a / 3600 == b / 3600 && a % 3600 < b % 3600)
  {}

  lemma MinutesSplit(a: nat, b: nat)
    requires a < b
    ensures a / 60 < b / 60 || (a / 60 == b / 60 && a % 60 < b % 60)
  {}

  lemma SecondsOfHour(a: nat)
    ensures a % 3600 % 60 == a % 60
  {
    assert a == 60 * (60 * (a / 3600) + a % 3600 / 60) + a % 3600 % 60;
  }

  lemma SecondsSplit(a: nat, b: nat)
    requires a < b < 86_400
    ensures || a / 3600 < b / 3600
            || (a / 3600 == b / 3600 && (|| a % 3600 / 60 < b % 3600 / 60
                                         || (a % 3600 / 60 == b % 3600 / 60 && a % 60 < b % 60)))
  {
    HoursSplit(a, b);
    if a / 3600 == b / 3600 {
      MinutesSplit(a % 3600, b % 3600);
      SecondsOfHour(a);
      SecondsOfHour(b);
    }
  }

  lemma DayMonotone(a: nat, b: nat)
    requires a < b
    ensures a / 86_400 < b / 86_400 || (a / 86_400 == b / 86_400 && a % 86_400 < b % 86_400)
  {}

  /** The fields come in the order of the instants. */
  lemma StampMonotone(a: nat, b: nat)
    requires a < b
    ensures StampBefore(StampOf(a), StampOf(b))
  {
    var sa, sb := a / US_PER_SECOND, b / US_PER_SECOND;
    if sa < sb {
      DayMonotone(sa, sb);
      if sa / 86_400 < sb / 86_400 {
        FromDayMonotone(sa / 86_400, sb / 86_400, 1);
      } else {
        SecondsSplit(sa % 86_400, sb % 86_400);
      }
    }
  }

  /** Comparing the text is comparing the instants. */
  lemma IsoTextOrder(a: int, b: int)
    requires InRange(a) && InRange(b)
    ensures Less(IsoText(a), IsoText(b)) <==> a < b
  {
    LessIsAsymmetric(IsoText(a), IsoText(b));
    if a < b {
      StampMonotone(a, b);
      StampTextMonotone(StampOf(a), StampOf(b));
    } else if b < a {
      StampMonotone(b, a);
      StampTextMonotone(StampOf(b), StampOf(a));
    }
  }

  // -------------------------------------------------------------------
  // Back-off

  datatype BackoffPolicy = BackoffPolicy(initial: real, multiplier: real, cap: real)

  function Power(base: real, exponent: nat): real {
    if exponent == 0 then 1.0 else base * Power(base, exponent - 1)
  }

  /** `timedelta(seconds=x)` in microseconds: the nearest one, ties to even. */
  function ToMicros(seconds: real): (r: int)
    ensures -0.5 <= r as real - seconds * 1000000.0 <= 0.5
  {
    var us := seconds * 1000000.0;
    var rest := us - us.Floor as real;
    if rest < 0.5 || (rest == 0.5 && us.Floor % 2 == 0) then us.Floor else us.Floor + 1
  }

  function RawDelay(attempt: nat, policy: BackoffPolicy): real
    requires attempt >= 1
  {
    policy.initial * Power(policy.multiplier, attempt - 1)
  }

  function Delay(attempt: nat, policy: BackoffPolicy): int
    requires attempt >= 1
  {
    ToMicros(Capped(RawDelay(attempt, policy), policy.cap))
  }

  /** `None` is the `ValueError` for an attempt below 1. */
  function NextRetryAt(now: int, attempt: int, policy: BackoffPolicy): Option<int> {
    if attempt < 1 then None else Some(now + Delay(attempt, policy))
  }

  lemma {:induction false} PowersAre(base: real, first: real, raw: seq<real>, n: nat)
    requires n < |raw| && raw[0] == first && forall i | 0 <= i < |raw| - 1 :: raw[i + 1] == raw[i] * base
    ensures raw[n] == first * Power(base, n)
  {
    if n > 0 {
      PowersAre(base, first, raw, n - 1);
      assert raw[n] == raw[n - 1] * base;
      ScaleAssociates(first, Power(base, n - 1), base);
    }
  }

  lemma ScaleAssociates(a: real, b: real, c: real)
    ensures a * b * c == a * (c * b)
  {}

  /** Whatever list of delays starts with the initial one and multiplies by the
      multiplier: attempt `n` is retried after the `n`-th, or after the cap if that is
      less, to the nearest microsecond and in a tie to the even one. There is no attempt
      below 1. */
  lemma {:induction false} NextRetryIs(now: int, n: int, policy: BackoffPolicy, raw: seq<real>)
    requires raw != [] && raw[0] == policy.initial && n <= |raw|
    requires forall i | 0 <= i < |raw| - 1 :: raw[i + 1] == raw[i] * policy.multiplier
    ensures NextRetryAt(now, n, policy).None? <==> n < 1
    ensures n >= 1 ==>
              var micros := 1000000.0 * if raw[n - 1] <= policy.cap then raw[n - 1] else policy.cap;
              var waited := NextRetryAt(now, n, policy).value - now;
              && micros - 0.5 <= waited as real <= micros + 0.5
              && (waited as real - micros == 0.5 || micros - waited as real == 0.5 ==> waited % 2 == 0)
  {
    if n >= 1 {
      PowersAre(policy.multiplier, policy.initial, raw, n - 1);
      TiesToEven(Capped(RawDelay(n, policy), policy.cap));
    }
  }

  lemma TiesToEven(seconds: real)
    ensures var r, us := ToMicros(seconds), seconds * 1000000.0;
            r as real - us == 0.5 || us - r as real == 0.5 ==> r % 2 == 0
  {}

  lemma ToMicrosMonotone(a: real, b: real)
    requires a <= b
    ensures ToMicros(a) <= ToMicros(b)
  {
    var x, y := a * 1000000.0, b * 1000000.0;
    assert x <= y;
    assert x.Floor as real <= x < x.Floor as real + 1.0;
    assert y.Floor as real <= y < y.Floor as real + 1.0;
    assert x.Floor <= y.Floor;
  }

  lemma {:induction false} PowerGrows(base: real, i: nat, j: nat)
    requires base >= 1.0 && i <= j
    ensures 1.0 <= Power(base, i) <= Power(base, j)
    decreases j
  {
    if j > 0 {
      if i < j {
        PowerGrows(base, i, j - 1);
      } else {
        PowerGrows(base, i - 1, j - 1);
      }
      var p := Power(base, j - 1);
      assert base * p >= p by {
        assert (base - 1.0) * p >= 0.0;
      }
    }
  }

  lemma ScaleMonotone(k: real, x: real, y: real)
    requires k >= 0.0 && x <= y
    ensures k * x <= k * y
  {
    assert k * (y - x) >= 0.0;
  }

  function Capped(raw: real, cap: real): real { if raw < cap then raw else cap }

  lemma RawDelayGrows(policy: BackoffPolicy, i: nat, j: nat)
    requires policy.multiplier >= 1.0 && policy.initial >= 0.0
    requires 1 <= i <= j
    ensures RawDelay(i, policy) <= RawDelay(j, policy)
  {
    PowerGrows(policy.multiplier, i - 1, j - 1);
    ScaleMonotone(policy.initial, Power(policy.multiplier, i - 1), Power(policy.multiplier, j - 1));
  }

  /** Later attempts never wait less, and no attempt waits longer than the cap. */
  lemma DelaysGrowToCap(policy: BackoffPolicy, i: nat, j: nat)
    requires policy.multiplier >= 1.0 && policy.initial >= 0.0
    requires 1 <= i <= j
    ensures Delay(i, policy) <= Delay(j, policy) <= ToMicros(policy.cap)
  {
    RawDelayGrows(policy, i, j);
    var ci, cj := Capped(RawDelay(i, policy), policy.cap), Capped(RawDelay(j, policy), policy.cap);
    assert ci <= cj <= policy.cap;
    ToMicrosMonotone(ci, cj);
    ToMicrosMonotone(cj, policy.cap);
  }

  /** The scan's WHERE clause on one row, on the stored text. */
  predicate DueText(next: Option<string>, now: string) {
    next.None? || !Less(now, next.value)
  }

  /** On the text the clause says what it says on the instants. */
  lemma DueTextMeans(next: int, now: int)
    requires InRange(next) && InRange(now)
    ensures DueText(Some(IsoText(next)), IsoText(now)) <==> next <= now
  {
    IsoTextOrder(now, next);
  }

  /** A row that failed at `failedAt` on its `attempt`-th try is passed over by
      every scan before its retry time and selected by every scan from then on. */
  lemma RetryTimeSplitsScans(failedAt: int, attempt: nat, policy: BackoffPolicy, now: int, next: int)
    requires attempt >= 1 && NextRetryAt(failedAt, attempt, policy) == Some(next)
    requires InRange(now) && InRange(next)
    ensures DueText(Some(IsoText(next)), IsoText(now)) <==> now - failedAt >= Delay(attempt, policy)
  {
    DueTextMeans(next, now);
  }
}
