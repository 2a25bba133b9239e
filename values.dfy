/**
 * Calendar dates (Python's `datetime.date`) and the dynamically typed values
 * that flow through the field dictionaries, JSON bodies and nested structures
 * of the system.
 */
module Dates {
  import opened Common

  datatype Date = Date(year: int, month: int, day: int)

  predicate IsLeap(y: int) { y % 4 == 0 && (y % 100 != 0 || y % 400 == 0) }

  function DaysInMonth(y: int, m: int): int
    requires 1 <= m <= 12
  {
    if m == 2 then (if IsLeap(y) then 29 else 28)
    else if m == 4 || m == 6 || m == 9 || m == 11 then 30
    else 31
  }

  /** The dates `datetime.date` can represent (years 1..9999). */
  predicate ValidDate(d: Date)
  {
    1 <= d.year <= 9999 && 1 <= d.month <= 12 && 1 <= d.day <= DaysInMonth(d.year, d.month)
  }

  /** A `datetime.date`: always a valid date. */
  type CalendarDate = d: Date | ValidDate(d) witness Date(1, 1, 1)

  function DaysBeforeMonth(y: int, m: int): int
    requires 1 <= m <= 12
    decreases m
  {
    if m == 1 then 0 else DaysBeforeMonth(y, m - 1) + DaysInMonth(y, m - 1)
  }

  /** `date.toordinal()`: day 1 is 0001-01-01. */
  function Ordinal(d: Date): int
    requires ValidDate(d)
  {
    var y := d.year - 1;
    y * 365 + y / 4 - y / 100 + y / 400 + DaysBeforeMonth(d.year, d.month) + d.day
  }

  /** `(a - b).days` for two dates. */
  function DaysBetween(a: Date, b: Date): int
    requires ValidDate(a) && ValidDate(b)
  {
    Ordinal(a) - Ordinal(b)
  }

  /** The day after d, `d + timedelta(days=1)`, for every date but the last. */
  function NextDay(d: Date): (e: Date)
    requires ValidDate(d) && d != Date(9999, 12, 31)
    ensures ValidDate(e)
  {
    if d.day < DaysInMonth(d.year, d.month) then Date(d.year, d.month, d.day + 1)
    else if d.month < 12 then Date(d.year, d.month + 1, 1)
    else Date(d.year + 1, 1, 1)
  }

  lemma DaysBeforeDecember(y: int)
    ensures DaysBeforeMonth(y, 12) + 31 == if IsLeap(y) then 366 else 365
  {
  }

  /** The leap-year counts of `toordinal` step up exactly at the multiples
      of 4, 100 and 400. */
  lemma LeapCountSteps(y: int)
    ensures y / 4 - (y - 1) / 4 == if y % 4 == 0 then 1 else 0
    ensures y / 100 - (y - 1) / 100 == if y % 100 == 0 then 1 else 0
    ensures y / 400 - (y - 1) / 400 == if y % 400 == 0 then 1 else 0
  {
  }

  lemma OrdinalNextYear(y: int)
    requires 1 <= y < 9999
    ensures Ordinal(Date(y + 1, 1, 1)) == Ordinal(Date(y, 12, 31)) + 1
  {
    DaysBeforeDecember(y);
    LeapCountSteps(y);
  }

  lemma OrdinalNextMonth(y: int, m: int)
    requires 1 <= y <= 9999 && 1 <= m < 12
    ensures Ordinal(Date(y, m + 1, 1)) == Ordinal(Date(y, m, DaysInMonth(y, m))) + 1
  {
    assert DaysBeforeMonth(y, m + 1) == DaysBeforeMonth(y, m) + DaysInMonth(y, m);
  }

  lemma OrdinalAfterMonthEnd(d: Date)
    requires ValidDate(d) && d.day == DaysInMonth(d.year, d.month) && d.month < 12
    ensures Ordinal(NextDay(d)) == Ordinal(d) + 1
  {
    var y, m := d.year, d.month;
    assert NextDay(d) == Date(y, m + 1, 1) && d == Date(y, m, DaysInMonth(y, m));
    OrdinalNextMonth(y, m);
  }

  lemma OrdinalAfterYearEnd(d: Date)
    requires ValidDate(d) && d.day == DaysInMonth(d.year, d.month) && d.month == 12 && d.year < 9999
    ensures Ordinal(NextDay(d)) == Ordinal(d) + 1
  {
    assert NextDay(d) == Date(d.year + 1, 1, 1);
    OrdinalNextYear(d.year);
  }

  /** Each day's ordinal is one more than the day before's. */
  lemma OrdinalNextDay(d: Date)
    requires ValidDate(d) && d != Date(9999, 12, 31)
    ensures Ordinal(NextDay(d)) == Ordinal(d) + 1
  {
    if d.day == DaysInMonth(d.year, d.month) {
      if d.month < 12 {
        OrdinalAfterMonthEnd(d);
      } else {
        OrdinalAfterYearEnd(d);
      }
    } else {
      assert NextDay(d) == Date(d.year, d.month, d.day + 1);
    }
  }

  /** 0001-01-01 is day 1. */
  lemma OrdinalEpoch()
    ensures Ordinal(Date(1, 1, 1)) == 1
  {
  }

  /** `(a - b).days` counts calendar days: the next day is one ahead, and
      the difference is antisymmetric and adds up along a chain of dates. */
  lemma DaysBetweenCalendar(a: Date, b: Date, c: Date)
    requires ValidDate(a) && ValidDate(b) && ValidDate(c) && b != Date(9999, 12, 31)
    ensures DaysBetween(NextDay(b), b) == 1 && DaysBetween(b, NextDay(b)) == -1
    ensures DaysBetween(a, a) == 0 && DaysBetween(a, b) == -DaysBetween(b, a)
    ensures DaysBetween(a, b) + DaysBetween(b, c) == DaysBetween(a, c)
  {
    OrdinalNextDay(b);
  }

  function Pad2(n: nat): (s: string)
    requires n < 100
    ensures |s| == 2 && AllDigits(s)
  {
    [DigitChar(n / 10), DigitChar(n % 10)]
  }

  function Pad4(n: nat): (s: string)
    requires n < 10000
    ensures |s| == 4 && AllDigits(s)
  {
    Pad2(n / 100) + Pad2(n % 100)
  }

  /** `date.isoformat()`: YYYY-MM-DD, zero padded. */
  function IsoFormat(d: Date): (s: string)
    requires ValidDate(d)
    ensures |s| == 10 && s[4] == '-' && s[7] == '-'
    ensures AllDigits(s[..4]) && AllDigits(s[5..7]) && AllDigits(s[8..])
  {
    Pad4(d.year) + "-" + Pad2(d.month) + "-" + Pad2(d.day)
  }
}

module Values {
  import opened Common
  import opened Dates

  /**
   * A Python value as the core sees it: JSON values plus the Python-only
   * shapes the redaction walker distinguishes (tuples, sets, dates, and
   * model objects exposing `.dict()`). `Other` is any remaining object
   * (a float, bytes, ...), passed through untouched; it carries its truth value.
   */
  datatype Value =
    | Null
    | Bool(b: bool)
    | Int(i: int)
    | Str(s: string)
    | DateVal(date: CalendarDate)
    | List(items: seq<Value>)
    | Tuple(items: seq<Value>)
    | SetOf(elems: set<Value>)
    | Dict(entries: map<string, Value>)
    | Record(fields: map<string, Value>)
    | Other(truthy: bool)

  /** Python's `bool(v)`. */
  predicate Truthy(v: Value)
  {
    match v
    case Null => false
    case Bool(b) => b
    case Int(i) => i != 0
    case Str(s) => s != []
    case DateVal(_) => true
    case List(items) => items != []
    case Tuple(items) => items != []
    case SetOf(elems) => elems != {}
    case Dict(entries) => entries != map[]
    case Record(_) => true
    case Other(t) => t
  }

  /** `d.get(k)`: None when the key is missing. */
  function Get(m: map<string, Value>, k: string): Value
  {
    if k in m then m[k] else Null
  }

  /** `d.get(k, default)`. */
  function GetOr(m: map<string, Value>, k: string, default: Value): Value
  {
    if k in m then m[k] else default
  }

  /** `str(i)` for an integer. */
  function IntToString(i: int): (s: string)
    ensures i < 0 <==> s != [] && s[0] == '-'
  {
    if i < 0 then "-" + NatToString(0 - i) else NatToString(i)
  }

  /** `str(v)`: a string is itself; None, booleans and integers print as
      Python prints them; any other value prints as `show` says (its repr). */
  function PyStr(v: Value, show: Value -> string): string
  {
    match v
    case Str(s) => s
    case Null => "None"
    case Bool(b) => if b then "True" else "False"
    case Int(i) => IntToString(i)
    case _ => show(v)
  }
}
