/**
 * `parse_date` of app/extractors/rule.py: the stripped value is tried with
 * `datetime.strptime` against "%Y-%m-%d", "%Y/%m/%d", "%Y.%m.%d" and
 * "%Y%m%d", in that order. `strptime` is modelled as CPython's `_strptime`
 * does it: each directive becomes a regular expression (`%Y` four digits,
 * `%m` the alternatives `1[0-2]|0[1-9]|[1-9]`, `%d` the alternatives
 * `3[01]|[12]\d|0[1-9]|[1-9]| [1-9]`), the format is matched at the start by
 * backtracking through those alternatives in order, text left over after the
 * match is an error ("unconverted data remains"), and so is a day that the
 * month does not have or year 0.
 */
module DateParsing {
  import opened Common
  import opened Dates

  /** A format "%Y<sep>%m<sep>%d"; no separator for "%Y%m%d". */
  datatype DateFormat = DateFormat(sep: Option<char>)

  /** The formats `parse_date` tries, in order. */
  const Formats: seq<DateFormat> := [DateFormat(Some('-')), DateFormat(Some('/')), DateFormat(Some('.')), DateFormat(None)]

  /** One alternative of a directive's expression that matched: the number
      it denotes and the position just after it. */
  datatype Alt = Alt(value: int, end: nat)

  /** The alternatives of `%m` that match at p, in the order the expression
      tries them. */
  function MonthAlts(s: string, p: nat): (alts: seq<Alt>)
    ensures forall k :: 0 <= k < |alts| ==> p < alts[k].end <= |s| && 1 <= alts[k].value <= 12
  {
    (if p + 2 <= |s| && s[p] == '1' && '0' <= s[p + 1] <= '2' then [Alt(10 + DigitValue(s[p + 1]), p + 2)] else [])
    + (if p + 2 <= |s| && s[p] == '0' && '1' <= s[p + 1] <= '9' then [Alt(DigitValue(s[p + 1]), p + 2)] else [])
    + (if p < |s| && '1' <= s[p] <= '9' then [Alt(DigitValue(s[p]), p + 1)] else [])
  }

  /** The alternatives of `%d` that match at q, in the order the expression
      tries them (the last one reads a blank and one digit). */
  function DayAlts(s: string, q: nat): (alts: seq<Alt>)
    ensures forall k :: 0 <= k < |alts| ==> q < alts[k].end <= |s| && 1 <= alts[k].value <= 31
  {
    (if q + 2 <= |s| && s[q] == '3' && '0' <= s[q + 1] <= '1' then [Alt(30 + DigitValue(s[q + 1]), q + 2)] else [])
    + (if q + 2 <= |s| && '1' <= s[q] <= '2' && IsDigit(s[q + 1]) then [Alt(10 * DigitValue(s[q]) + DigitValue(s[q + 1]), q + 2)] else [])
    + (if q + 2 <= |s| && s[q] == '0' && '1' <= s[q + 1] <= '9' then [Alt(DigitValue(s[q + 1]), q + 2)] else [])
    + (if q < |s| && '1' <= s[q] <= '9' then [Alt(DigitValue(s[q]), q + 1)] else [])
    + (if q + 2 <= |s| && s[q] == ' ' && '1' <= s[q + 1] <= '9' then [Alt(DigitValue(s[q + 1]), q + 2)] else [])
  }

  /** The literal separator of the format at q, if any: where matching goes
      on, or None when the text does not have it there. */
  function AfterSep(s: string, sep: Option<char>, q: nat): (r: Option<nat>)
    ensures sep.None? ==> r == Some(q)
    ensures sep.Some? ==> (r.Some? <==> q < |s| && s[q] == sep.value)
    ensures r.Some? ==> r.value <= |s| || sep.None?
  {
    match sep
    case None => Some(q)
    case Some(c) => if q < |s| && s[q] == c then Some(q + 1) else None
  }

  /** The day `%d` reads once the month alternative m has matched: the first
      day alternative after the separator. Nothing follows `%d` in any of the
      formats, so the first alternative that matches is the one taken. */
  function DayAfter(s: string, sep: Option<char>, m: Alt): (r: Option<Alt>)
    ensures r.Some? ==> AfterSep(s, sep, m.end).Some?
    ensures r.Some? ==> DayAlts(s, AfterSep(s, sep, m.end).value) != []
                        && r.value == DayAlts(s, AfterSep(s, sep, m.end).value)[0]
    ensures r.None? ==> AfterSep(s, sep, m.end).None? || DayAlts(s, AfterSep(s, sep, m.end).value) == []
  {
    match AfterSep(s, sep, m.end)
    case None => None
    case Some(q) => var d := DayAlts(s, q); if d == [] then None else Some(d[0])
  }

  /** Backtracking over the month alternatives from the k-th on: the first
      one after which a day matches. */
  function FirstMonth(s: string, sep: Option<char>, months: seq<Alt>, k: nat): (r: Option<nat>)
    requires k <= |months|
    decreases |months| - k
    ensures r.Some? ==> k <= r.value < |months| && DayAfter(s, sep, months[r.value]).Some?
    ensures r.Some? ==> forall j :: k <= j < r.value ==> DayAfter(s, sep, months[j]).None?
    ensures r.None? ==> forall j :: k <= j < |months| ==> DayAfter(s, sep, months[j]).None?
  {
    if k == |months| then None
    else if DayAfter(s, sep, months[k]).Some? then Some(k)
    else FirstMonth(s, sep, months, k + 1)
  }

  /** `datetime.strptime(s, fmt).date()`, None where it raises ValueError. */
  function Strptime(s: string, fmt: DateFormat): (r: Option<Date>)
    ensures r.Some? ==> ValidDate(r.value)
    ensures r.Some? ==> |s| >= 4 && AllDigits(s[..4]) && r.value.year == NatOf(s[..4])
    ensures r.Some? && fmt.sep.Some? ==> |s| > 4 && s[4] == fmt.sep.value
  {
    if |s| < 4 || !AllDigits(s[..4]) then None
    else
      match AfterSep(s, fmt.sep, 4)
      case None => None
      case Some(p) =>
        var months := MonthAlts(s, p);
        match FirstMonth(s, fmt.sep, months, 0)
        case None => None
        case Some(k) =>
          var d := DayAfter(s, fmt.sep, months[k]).value;
          var date := Date(NatOf(s[..4]), months[k].value, d.value);
          if d.end == |s| && ValidDate(date) then Some(date) else None
  }

  /** The formats from the i-th on: the first that parses v. */
  function ParseFrom(v: string, i: nat): (r: Option<Date>)
    requires i <= |Formats|
    decreases |Formats| - i
    ensures r.Some? ==> ValidDate(r.value)
    ensures r.None? <==> forall k :: i <= k < |Formats| ==> Strptime(v, Formats[k]).None?
    ensures i < |Formats| && Strptime(v, Formats[i]).Some? ==> r == Strptime(v, Formats[i])
  {
    if i == |Formats| then None
    else if Strptime(v, Formats[i]).Some? then Strptime(v, Formats[i])
    else ParseFrom(v, i + 1)
  }

  /** `parse_date`: a valid date, or None exactly when no format parses the
      stripped value. */
  function ParsedDate(value: string): (r: Option<Date>)
    ensures r.Some? ==> ValidDate(r.value)
    ensures r.None? <==> forall k :: 0 <= k < |Formats| ==> Strptime(Strip(value), Formats[k]).None?
  {
    ParseFrom(Strip(value), 0)
  }

  /** `parse_date`, trying the formats in a loop and returning the first
      success. */
  method ParseDate(value: string) returns (r: Option<Date>)
    ensures r == ParsedDate(value)
  {
    var v := Strip(value);
    var i := 0;
    while i < |Formats|
      invariant 0 <= i <= |Formats|
      invariant ParseFrom(v, i) == ParsedDate(value)
    {
      var parsed := Strptime(v, Formats[i]);
      if parsed.Some? {
        return parsed;
      }
      i := i + 1;
    }
    return None;
  }

  // ------------------------------------------------------ round trips

  /** A date written zero padded in one of the formats. */
  function Formatted(d: Date, sep: Option<char>): (s: string)
    requires ValidDate(d)
    ensures |s| == if sep.Some? then 10 else 8
  {
    var t := if sep.Some? then [sep.value] else [];
    Pad4(d.year) + t + Pad2(d.month) + t + Pad2(d.day)
  }

  lemma IsoIsFormatted(d: Date)
    requires ValidDate(d)
    ensures IsoFormat(d) == Formatted(d, Some('-'))
  {
  }

  lemma Pad4Value(y: nat)
    requires y < 10000
    ensures NatOf(Pad4(y)) == y
  {
    var s := Pad4(y);
    var h, l := y / 100, y % 100;
    assert DigitValue(s[0]) == h / 10 && DigitValue(s[1]) == h % 10;
    assert DigitValue(s[2]) == l / 10 && DigitValue(s[3]) == l % 10;
    assert s[..1][..0] == [] && s[..2][..1] == s[..1] && s[..3][..2] == s[..2] && s[..4] == s;
    assert NatOf(s[..1]) == h / 10;
    assert NatOf(s[..2]) == h;
    assert NatOf(s[..3]) == 10 * h + l / 10;
  }

  /** A zero-padded month is read by its two-digit alternative. */
  lemma MonthOfPad2(s: string, p: nat, m: int)
    requires 1 <= m <= 12 && p + 2 <= |s| && s[p..p + 2] == Pad2(m)
    ensures MonthAlts(s, p) != [] && MonthAlts(s, p)[0] == Alt(m, p + 2)
  {
    assert s[p] == Pad2(m)[0] && s[p + 1] == Pad2(m)[1];
  }

  /** A zero-padded day is read by its two-digit alternative. */
  lemma DayOfPad2(s: string, q: nat, d: int)
    requires 1 <= d <= 31 && q + 2 <= |s| && s[q..q + 2] == Pad2(d)
    ensures DayAlts(s, q) != [] && DayAlts(s, q)[0] == Alt(d, q + 2)
  {
    assert s[q] == Pad2(d)[0] && s[q + 1] == Pad2(d)[1];
  }

  /** The format whose separator the text has is the one that reads it. */
  lemma StrptimeFormatted(d: Date, sep: Option<char>)
    requires ValidDate(d)
    ensures Strptime(Formatted(d, sep), DateFormat(sep)) == Some(d)
  {
    var s := Formatted(d, sep);
    var w := if sep.Some? then 1 else 0;
    assert s[..4] == Pad4(d.year);
    Pad4Value(d.year);
    assert AfterSep(s, sep, 4) == Some(4 + w);
    assert s[4 + w..6 + w] == Pad2(d.month);
    MonthOfPad2(s, 4 + w, d.month);
    var months := MonthAlts(s, 4 + w);
    assert AfterSep(s, sep, 6 + w) == Some(6 + 2 * w);
    assert s[6 + 2 * w..8 + 2 * w] == Pad2(d.day);
    DayOfPad2(s, 6 + 2 * w, d.day);
    assert DayAfter(s, sep, months[0]) == Some(Alt(d.day, 8 + 2 * w));
    assert FirstMonth(s, sep, months, 0) == Some(0);
  }

  /** A format with another separator (or none) fails on the fifth character. */
  lemma StrptimeOtherSep(d: Date, sep: Option<char>, other: char)
    requires ValidDate(d) && sep != Some(other) && !IsDigit(other)
    ensures Strptime(Formatted(d, sep), DateFormat(Some(other))).None?
  {
    var s := Formatted(d, sep);
    if sep.None? {
      assert s[4] == Pad2(d.month)[0];
    }
  }

  /** A formatted date has no white space to strip. */
  lemma StripFormatted(d: Date, sep: Option<char>)
    requires ValidDate(d)
    ensures Strip(Formatted(d, sep)) == Formatted(d, sep)
  {
    var s := Formatted(d, sep);
    assert IsDigit(s[0]) && IsDigit(s[|s| - 1]);
    assert StripStart(s) == s;
    assert StripEnd(s) == s;
  }

  /** Formats that fail are passed over. */
  lemma {:induction false} ParseFromSkip(v: string, i: nat, j: nat)
    requires i <= j <= |Formats|
    requires forall k :: i <= k < j ==> Strptime(v, Formats[k]).None?
    ensures ParseFrom(v, i) == ParseFrom(v, j)
    decreases j - i
  {
    if i < j {
      ParseFromSkip(v, i + 1, j);
    }
  }

  lemma EarlierFormatsFail(d: Date, k: nat)
    requires ValidDate(d) && k < |Formats|
    ensures forall j :: 0 <= j < k ==> Strptime(Formatted(d, Formats[k].sep), Formats[j]).None?
  {
    forall j | 0 <= j < k
      ensures Strptime(Formatted(d, Formats[k].sep), Formats[j]).None?
    {
      StrptimeOtherSep(d, Formats[k].sep, Formats[j].sep.value);
    }
  }

  /** `parse_date` reads back every date written in any of its formats; in
      particular `parse_date(d.isoformat()) == d`. */
  lemma ParsedDateRoundTrip(d: Date, k: nat)
    requires ValidDate(d) && k < |Formats|
    ensures ParsedDate(Formatted(d, Formats[k].sep)) == Some(d)
  {
    var sep := Formats[k].sep;
    var s := Formatted(d, sep);
    StripFormatted(d, sep);
    StrptimeFormatted(d, sep);
    EarlierFormatsFail(d, k);
    ParseFromSkip(s, 0, k);
  }

  lemma IsoRoundTrip(d: Date)
    requires ValidDate(d)
    ensures ParsedDate(IsoFormat(d)) == Some(d)
  {
    ParsedDateRoundTrip(d, 0);
  }
}
