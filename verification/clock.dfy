/** The clock readings the common tools use: a local date and time as
    `datetime.now()` returns it, and its `%Y%m%d_%H%M%S` rendering. */
module Clock {
  import opened Wrappers
  import opened Text

  /** A `datetime` value. */
  datatype DateTime = DateTime(
    year: int, month: int, day: int, hour: int, minute: int, second: int, microsecond: int)

  /** The ranges `datetime` guarantees for its fields. */
  predicate ValidDateTime(t: DateTime) {
    && 1 <= t.year <= 9999 && 1 <= t.month <= 12 && 1 <= t.day <= 31
    && 0 <= t.hour <= 23 && 0 <= t.minute <= 59 && 0 <= t.second <= 59
    && 0 <= t.microsecond <= 999999
  }

  /** `%Y` as the C library renders it: the year in decimal, four digits
      from year 1000 on. */
  function Year(y: int): (s: string)
    requires 1 <= y <= 9999
    ensures 1000 <= y ==> |s| == 4
  {
    if y >= 1000 then Pad2(y / 100) + Pad2(y % 100)
    else Decimal(y)
  }

  /** `strftime('%Y%m%d_%H%M%S')`. */
  function Stamp(t: DateTime): (s: string)
    requires ValidDateTime(t)
    ensures 1000 <= t.year ==> |s| == 15 && s[8] == '_'
  {
    Year(t.year) + Pad2(t.month) + Pad2(t.day) + "_" + Pad2(t.hour) + Pad2(t.minute) + Pad2(t.second)
  }

  /** Read back a two-digit field. */
  function ReadPad2(s: string): Option<int>
    requires |s| == 2
  {
    match (DigitValue(s[0]), DigitValue(s[1]))
    case (Some(a), Some(b)) => Some(10 * a + b)
    case _ => None
  }

  /** Read back a four-digit year. */
  function ReadYear(s: string): Option<int>
    requires |s| == 4
  {
    match (ReadPad2(s[..2]), ReadPad2(s[2..]))
    case (Some(a), Some(b)) => Some(100 * a + b)
    case _ => None
  }

  /** The fields of a 15-character stamp, down to the second. */
  datatype Fields = Fields(year: int, month: int, day: int, hour: int, minute: int, second: int)

  /** Parse `YYYYmmdd_HHMMSS`. */
  function ParseStamp(s: string): Option<Fields> {
    if |s| != 15 || s[8] != '_' then None
    else match (ReadYear(s[..4]), ReadPad2(s[4..6]), ReadPad2(s[6..8]),
                ReadPad2(s[9..11]), ReadPad2(s[11..13]), ReadPad2(s[13..15]))
    case (Some(y), Some(mo), Some(d), Some(h), Some(mi), Some(se)) => Some(Fields(y, mo, d, h, mi, se))
    case _ => None
  }

  /** A two-digit field reads back as its value. */
  lemma Pad2RoundTrip(n: int)
    requires 0 <= n <= 99
    ensures ReadPad2(Pad2(n)) == Some(n)
  {
  }

  /** A four-digit year reads back as its value. */
  lemma YearRoundTrip(y: int)
    requires 1000 <= y <= 9999
    ensures ReadYear(Year(y)) == Some(y)
  {
    var s := Year(y);
    assert s[..2] == Pad2(y / 100) && s[2..] == Pad2(y % 100);
    Pad2RoundTrip(y / 100);
    Pad2RoundTrip(y % 100);
  }

  /** The stamp of a time from year 1000 on gives back every field down to
      the second; microseconds are not part of it. */
  lemma StampRoundTrip(t: DateTime)
    requires ValidDateTime(t) && 1000 <= t.year
    ensures ParseStamp(Stamp(t)) == Some(Fields(t.year, t.month, t.day, t.hour, t.minute, t.second))
  {
    var s := Stamp(t);
    assert s[..4] == Year(t.year);
    assert s[4..6] == Pad2(t.month);
    assert s[6..8] == Pad2(t.day);
    assert s[9..11] == Pad2(t.hour);
    assert s[11..13] == Pad2(t.minute);
    assert s[13..15] == Pad2(t.second);
    YearRoundTrip(t.year);
    Pad2RoundTrip(t.month);
    Pad2RoundTrip(t.day);
    Pad2RoundTrip(t.hour);
    Pad2RoundTrip(t.minute);
    Pad2RoundTrip(t.second);
  }

  /** Two readings within the same second render the same stamp. */
  lemma SameSecondSameStamp(a: DateTime, b: DateTime)
    requires ValidDateTime(a) && ValidDateTime(b)
    requires a.(microsecond := 0) == b.(microsecond := 0)
    ensures Stamp(a) == Stamp(b)
  {
  }

  /** Different seconds from year 1000 on render different stamps. */
  lemma StampInjective(a: DateTime, b: DateTime)
    requires ValidDateTime(a) && ValidDateTime(b) && 1000 <= a.year && 1000 <= b.year
    requires Stamp(a) == Stamp(b)
    ensures a.(microsecond := 0) == b.(microsecond := 0)
  {
    StampRoundTrip(a);
    StampRoundTrip(b);
  }
}
