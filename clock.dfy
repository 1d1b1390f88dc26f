/** Naive Python `datetime` values as calendar fields: the `now` the engine
    reads, `now.replace(...)`, `+ timedelta(days=1)`, the comparison `<=`
    and the `strftime('%Y%m%d_%H%M%S')` stamp used in artifact names. */
module Clock {
  import opened Text

  datatype DateTime = DateTime(year: int, month: int, day: int,
                               hour: int, minute: int, second: int, micro: int)

  /** `datetime.MAXYEAR`; going past the last day of this year raises `OverflowError`. */
  const MaxYear := 9999

  predicate IsLeapYear(y: int) {
    y % 4 == 0 && (y % 100 != 0 || y % 400 == 0)
  }

  function DaysInMonth(y: int, m: int): (n: int)
    ensures 28 <= n <= 31
  {
    if m == 2 then (if IsLeapYear(y) then 29 else 28)
    else if m == 4 || m == 6 || m == 9 || m == 11 then 30
    else 31
  }

  predicate ValidTime(t: DateTime) {
    && 0 <= t.hour < 24 && 0 <= t.minute < 60
    && 0 <= t.second < 60 && 0 <= t.micro < 1000000
  }

  /** Every value a Python `datetime` can hold. */
  predicate Valid(t: DateTime) {
    && 1 <= t.year <= MaxYear && 1 <= t.month <= 12
    && 1 <= t.day <= DaysInMonth(t.year, t.month)
    && ValidTime(t)
  }

  predicate SameDate(a: DateTime, b: DateTime) {
    a.year == b.year && a.month == b.month && a.day == b.day
  }

  predicate DateBefore(a: DateTime, b: DateTime) {
    || a.year < b.year
    || (a.year == b.year && (a.month < b.month || (a.month == b.month && a.day < b.day)))
  }

  predicate TimeBefore(a: DateTime, b: DateTime) {
    || a.hour < b.hour
    || (a.hour == b.hour && (a.minute < b.minute
    || (a.minute == b.minute && (a.second < b.second
    || (a.second == b.second && a.micro < b.micro)))))
  }

  /** `a < b` on datetimes. */
  predicate Before(a: DateTime, b: DateTime) {
    DateBefore(a, b) || (SameDate(a, b) && TimeBefore(a, b))
  }

  /** The calendar day after `t`'s, or `None` past the last representable day. */
  function NextDate(y: int, m: int, d: int): Option<(int, int, int)>
    requires 1 <= m <= 12
  {
    if d < DaysInMonth(y, m) then Some((y, m, d + 1))
    else if m < 12 then Some((y, m + 1, 1))
    else if y < MaxYear then Some((y + 1, 1, 1))
    else None
  }

  /** `t + timedelta(days=1)`: `None` where Python raises `OverflowError`. */
  function AddOneDay(t: DateTime): (r: Option<DateTime>)
    requires Valid(t)
    ensures r.None? <==> (t.year == MaxYear && t.month == 12 && t.day == 31)
    ensures r.Some? ==> Valid(r.value) && Before(t, r.value) && !SameDate(t, r.value)
    ensures r.Some? ==> r.value.hour == t.hour && r.value.minute == t.minute
                        && r.value.second == t.second && r.value.micro == t.micro
  {
    match NextDate(t.year, t.month, t.day)
    case None => None
    case Some((y, m, d)) => Some(t.(year := y, month := m, day := d))
  }

  /** Two datetimes on the same day are one day apart after both are moved on a day. */
  lemma {:induction false} AddOneDayKeepsOrder(a: DateTime, b: DateTime)
    requires Valid(a) && Valid(b) && SameDate(a, b)
    requires AddOneDay(a).Some?
    ensures AddOneDay(b).Some? && SameDate(AddOneDay(a).value, AddOneDay(b).value)
    ensures TimeBefore(a, b) <==> Before(AddOneDay(a).value, AddOneDay(b).value)
  {
  }

  /** `%02d` */
  function Pad2(n: int): (r: string)
    requires 0 <= n < 100
    ensures |r| == 2 && IsDigit(r[0]) && IsDigit(r[1])
  {
    [DigitChar(n / 10), DigitChar(n % 10)]
  }

  /** `t.strftime('%Y%m%d_%H%M%S')`; `%Y` is the unpadded year, as the C
      library prints it, so years from 1000 on take four digits. */
  function Stamp(t: DateTime): string
    requires Valid(t)
  {
    NatToString(t.year) + Pad2(t.month) + Pad2(t.day) + "_"
      + Pad2(t.hour) + Pad2(t.minute) + Pad2(t.second)
  }

  lemma {:induction false} FourDigitYear(y: nat)
    requires 1000 <= y <= 9999
    ensures |NatToString(y)| == 4
  {
    assert NatToString(y) == NatToString(y / 10) + [DigitChar(y % 10)];
    assert NatToString(y / 10) == NatToString(y / 100) + [DigitChar(y / 10 % 10)];
    assert NatToString(y / 100) == NatToString(y / 1000) + [DigitChar(y / 100 % 10)];
  }

  /** Two numbers below 100 with the same `%02d` text are equal. */
  lemma {:induction false} Pad2Injective(m: int, n: int)
    requires 0 <= m < 100 && 0 <= n < 100
    requires Pad2(m) == Pad2(n)
    ensures m == n
  {
    assert DigitValue(Pad2(m)[0]) == m / 10 && DigitValue(Pad2(n)[0]) == n / 10;
    assert DigitValue(Pad2(m)[1]) == m % 10 && DigitValue(Pad2(n)[1]) == n % 10;
  }

  /** Where each field sits in a stamp with a four-digit year. */
  lemma {:induction false} StampParts(y: string, mo: string, d: string, h: string, mi: string, se: string)
    requires |y| == 4 && |mo| == 2 && |d| == 2 && |h| == 2 && |mi| == 2 && |se| == 2
    ensures var s := y + mo + d + "_" + h + mi + se;
      && s[..4] == y && s[4..6] == mo && s[6..8] == d
      && s[9..11] == h && s[11..13] == mi && s[13..15] == se
  {
    var s := y + mo + d + "_" + h + mi + se;
    assert s[..4] == y;
    assert s[4..6] == mo;
    assert s[6..8] == d;
    assert s[9..11] == h;
    assert s[11..13] == mi;
    assert s[13..15] == se;
  }

  /** The stamp has the layout `YYYYMMDD_HHMMSS` from year 1000 on. */
  lemma {:induction false} StampLayout(t: DateTime)
    requires Valid(t) && t.year >= 1000
    ensures |Stamp(t)| == 15 && Stamp(t)[8] == '_'
    ensures forall i :: 0 <= i < 15 && i != 8 ==> IsDigit(Stamp(t)[i])
  {
    FourDigitYear(t.year);
  }

  /** From year 1000 on, the stamp determines the datetime up to the second,
      so two artifacts stamped in different seconds never share a name. */
  lemma {:induction false} StampInjective(a: DateTime, b: DateTime)
    requires Valid(a) && Valid(b) && a.year >= 1000 && b.year >= 1000
    requires Stamp(a) == Stamp(b)
    ensures SameDate(a, b) && a.hour == b.hour && a.minute == b.minute && a.second == b.second
  {
    FourDigitYear(a.year);
    FourDigitYear(b.year);
    StampParts(NatToString(a.year), Pad2(a.month), Pad2(a.day), Pad2(a.hour), Pad2(a.minute), Pad2(a.second));
    StampParts(NatToString(b.year), Pad2(b.month), Pad2(b.day), Pad2(b.hour), Pad2(b.minute), Pad2(b.second));
    NatToStringValue(a.year);
    NatToStringValue(b.year);
    Pad2Injective(a.month, b.month);
    Pad2Injective(a.day, b.day);
    Pad2Injective(a.hour, b.hour);
    Pad2Injective(a.minute, b.minute);
    Pad2Injective(a.second, b.second);
  }
}
