/** The six integers the reader reports for a point in time, the range System.DateTime's
    constructor accepts, and the chronological order LINQ's OrderBy uses on DateTime. */
module Calendar {
  import opened Text

  /** year/month/day/hour/minute/second exactly as the SDK hands them over. */
  datatype RawTime = RawTime(year: int, month: int, day: int, hour: int, minute: int, second: int)

  predicate IsLeapYear(y: int) {
    (y % 4 == 0 && y % 100 != 0) || y % 400 == 0
  }

  function DaysInMonth(y: int, m: int): (d: int)
    requires 1 <= m <= 12
    ensures 28 <= d <= 31
    ensures m == 2 ==> (d == 29 <==> IsLeapYear(y))
  {
    if m == 2 then (if IsLeapYear(y) then 29 else 28)
    else if m == 4 || m == 6 || m == 9 || m == 11 then 30
    else 31
  }

  /** new DateTime(year, month, day, hour, minute, second) succeeds exactly for these values;
      for every other combination it throws ArgumentOutOfRangeException. */
  predicate IsRepresentable(t: RawTime) {
    DateIsValid(t) && TimeIsValid(t)
  }

  predicate DateIsValid(t: RawTime) {
    1 <= t.year <= 9999 && 1 <= t.month <= 12 && 1 <= t.day <= DaysInMonth(t.year, t.month)
  }

  predicate TimeIsValid(t: RawTime) {
    0 <= t.hour < 24 && 0 <= t.minute < 60 && 0 <= t.second < 60
  }

  type DateTime = t: RawTime | IsRepresentable(t) witness RawTime(1, 1, 1, 0, 0, 0)

  /** The messages of the ArgumentOutOfRangeException the DateTime constructor throws: the
      date fields are checked first, then the time fields. */
  const UnrepresentableMessage: string := "Year, Month, and Day parameters describe an un-representable DateTime."
  const BadTimeMessage: string := "Hour, Minute, and Second parameters describe an un-representable DateTime."

  function ConstructorMessage(t: RawTime): (m: string)
    requires !IsRepresentable(t)
    ensures m == UnrepresentableMessage <==> !DateIsValid(t)
  {
    if !DateIsValid(t) then UnrepresentableMessage else BadTimeMessage
  }

  /** DateTime's own chronological order, field by field. */
  predicate Before(a: RawTime, b: RawTime) {
    a.year < b.year
    || (a.year == b.year && (a.month < b.month
    || (a.month == b.month && (a.day < b.day
    || (a.day == b.day && (a.hour < b.hour
    || (a.hour == b.hour && (a.minute < b.minute
    || (a.minute == b.minute && a.second < b.second)))))))))
  }

  /** A single integer ordered like the time, standing in for DateTime.Ticks. */
  function Ticks(t: DateTime): int {
    ((((t.year * 13 + t.month) * 32 + t.day) * 24 + t.hour) * 60 + t.minute) * 60 + t.second
  }

  lemma Digit(a: int, c1: int, b: int, c2: int, base: int)
    requires base > 0 && 0 <= c1 < base && 0 <= c2 < base
    ensures a * base + c1 < b * base + c2 <==> a < b || (a == b && c1 < c2)
    ensures a * base + c1 == b * base + c2 <==> a == b && c1 == c2
  {
    if a < b {
      assert (a + 1) * base <= b * base;
    } else if b < a {
      assert (b + 1) * base <= a * base;
    }
  }

  /** Comparing ticks is comparing the times: the order the sorts in the controllers use. */
  lemma TicksOrder(a: DateTime, b: DateTime)
    ensures Ticks(a) < Ticks(b) <==> Before(a, b)
    ensures Ticks(a) == Ticks(b) <==> a == b
  {
    TicksLess(a, b);
    TicksSame(a, b);
  }

  lemma TicksLess(a: DateTime, b: DateTime)
    ensures Ticks(a) < Ticks(b) <==> Before(a, b)
  {
    var ya := a.year * 13 + a.month;
    var yb := b.year * 13 + b.month;
    Digit(a.year, a.month, b.year, b.month, 13);
    var da := ya * 32 + a.day;
    var db := yb * 32 + b.day;
    Digit(ya, a.day, yb, b.day, 32);
    var ha := da * 24 + a.hour;
    var hb := db * 24 + b.hour;
    Digit(da, a.hour, db, b.hour, 24);
    var ma := ha * 60 + a.minute;
    var mb := hb * 60 + b.minute;
    Digit(ha, a.minute, hb, b.minute, 60);
    Digit(ma, a.second, mb, b.second, 60);
    assert Ticks(a) == ma * 60 + a.second && Ticks(b) == mb * 60 + b.second;
  }

  lemma TicksSame(a: DateTime, b: DateTime)
    ensures Ticks(a) == Ticks(b) <==> a == b
  {
    var ya := a.year * 13 + a.month;
    var yb := b.year * 13 + b.month;
    Digit(a.year, a.month, b.year, b.month, 13);
    var da := ya * 32 + a.day;
    var db := yb * 32 + b.day;
    Digit(ya, a.day, yb, b.day, 32);
    var ha := da * 24 + a.hour;
    var hb := db * 24 + b.hour;
    Digit(da, a.hour, db, b.hour, 24);
    var ma := ha * 60 + a.minute;
    var mb := hb * 60 + b.minute;
    Digit(ha, a.minute, hb, b.minute, 60);
    Digit(ma, a.second, mb, b.second, 60);
    assert Ticks(a) == ma * 60 + a.second && Ticks(b) == mb * 60 + b.second;
  }

  /** $"{year}-{month}-{day} {hour}:{minute}:{second}", the text the controllers show for a time. */
  function Format(t: RawTime): (s: string)
    ensures |s| >= 11
  {
    IntToString(t.year) + "-" + IntToString(t.month) + "-" + IntToString(t.day) + " "
    + IntToString(t.hour) + ":" + IntToString(t.minute) + ":" + IntToString(t.second)
  }
}
