/**
 * `parse_amount` and `extract_fields_with_rules` of app/extractors/rule.py:
 * labelled lines for the store and the title, then regular-expression
 * searches over the whole text for the purchase date, the amount, the order
 * id, the A/S phone number and the refund and warranty dates, and finally the
 * first line as the title of last resort.
 *
 * Each expression is a matcher that, given a start position, says whether it
 * matches there and where its capture group lies; `re.search` is the first
 * start position at which the matcher succeeds.
 */
module RuleExtractor {
  import opened Common
  import opened Dates
  import opened Values
  import opened DateParsing

  // ---------------------------------------------------------- parse_amount

  /** `parse_amount`: the integer the digits of value spell, None when it
      has none. */
  function ParseAmount(value: string): (r: Option<nat>)
  {
    var cleaned := DigitsOf(value);
    if cleaned == [] then None else Some(NatOf(cleaned))
  }

  /** None exactly when the value holds no digit. */
  lemma ParseAmountNone(value: string)
    ensures ParseAmount(value).None? <==> NoDigits(value)
  {
    if DigitsOf(value) == [] {
      NoDigitsOf(value);
    } else if NoDigits(value) {
      NoDigitsNone(value);
    }
  }

  /** `parse_amount(str(n)) == n`. */
  lemma ParseAmountRoundTrip(n: nat)
    ensures ParseAmount(NatToString(n)) == Some(n)
  {
    AllDigitsOf(NatToString(n));
    NatOfNatToString(n);
  }

  /** Anything but digits is ignored: thousands separators, the currency
      word, blanks. */
  lemma ParseAmountIgnoresNonDigits(a: string, sep: string, b: string)
    requires NoDigits(sep)
    ensures ParseAmount(a + sep + b) == ParseAmount(a + b)
  {
    DigitsOfAppend(a + sep, b);
    DigitsOfAppend(a, sep);
    DigitsOfAppend(a, b);
    NoDigitsNone(sep);
    assert DigitsOf(a) + DigitsOf(sep) == DigitsOf(a);
  }

  // ----------------------------------------------------- character classes

  predicate IsDateSep(c: char) { c == '.' || c == '/' || c == '-' }

  /** `[0-9,]` */
  predicate IsAmountChar(c: char) { IsDigit(c) || c == ',' }

  /** `[A-Za-z0-9-]` */
  predicate IsOrderChar(c: char) { IsAsciiLetter(c) || IsDigit(c) || c == '-' }

  /** `[0-9./-]` */
  predicate IsDateChar(c: char) { IsDigit(c) || IsDateSep(c) }

  /** `[:\s]` (only the ASCII colon) */
  predicate IsColonOrSpace(c: char) { c == ':' || IsSpace(c) }

  /** `[:：]`, the separators `re.split` cuts a labelled line at. */
  predicate IsColon(c: char) { c == ':' || c == '：' }

  /** The end of the longest run from i of characters in the class. */
  function RunEnd(s: string, i: nat, inClass: char -> bool): (e: nat)
    requires i <= |s|
    decreases |s| - i
    ensures i <= e <= |s|
    ensures forall k :: i <= k < e ==> inClass(s[k])
    ensures e == |s| || !inClass(s[e])
  {
    if i < |s| && inClass(s[i]) then RunEnd(s, i + 1, inClass) else i
  }

  lemma {:induction false} RunEndAt(s: string, i: nat, e: nat, inClass: char -> bool)
    requires i <= e <= |s|
    requires forall k :: i <= k < e ==> inClass(s[k])
    requires e == |s| || !inClass(s[e])
    ensures RunEnd(s, i, inClass) == e
    decreases e - i
  {
    if i < e {
      RunEndAt(s, i + 1, e, inClass);
    }
  }

  predicate DigitsAt(s: string, i: nat, n: nat)
  {
    i + n <= |s| && AllDigits(s[i..i + n])
  }

  // ------------------------------------------------------------- searching

  /** Where a capture group lies. */
  datatype Span = Span(start: nat, end: nat)

  /** A matcher: the capture group when the expression matches at a position. */
  type Matcher = (string, nat) -> Option<Span>

  /** `re.search`: the first start position from i at which the matcher
      succeeds. */
  function SearchFrom(s: string, at: Matcher, i: nat): (r: Option<nat>)
    requires i <= |s|
    decreases |s| - i
    ensures r.Some? ==> i <= r.value <= |s| && at(s, r.value).Some?
    ensures r.Some? ==> forall k :: i <= k < r.value ==> at(s, k).None?
    ensures r.None? ==> forall k :: i <= k <= |s| ==> at(s, k).None?
  {
    if at(s, i).Some? then Some(i) else if i == |s| then None else SearchFrom(s, at, i + 1)
  }

  lemma {:induction false} SearchFinds(s: string, at: Matcher, i: nat, p: nat)
    requires i <= p <= |s| && at(s, p).Some?
    requires forall k :: i <= k < p ==> at(s, k).None?
    ensures SearchFrom(s, at, i) == Some(p)
    decreases p - i
  {
    if i < p {
      SearchFinds(s, at, i + 1, p);
    }
  }

  /** `(\d{4}[./-]\d{2}[./-]\d{2}|\d{8})`: the ten-character form first. */
  function DateGroupAt(s: string, i: nat): (r: Option<Span>)
    ensures r.Some? ==> r.value.start == i && i < r.value.end <= |s|
    ensures r.Some? ==> IsDigit(s[i])
  {
    if i + 10 <= |s| && AllDigits(s[i..i + 4]) && IsDateSep(s[i + 4]) && AllDigits(s[i + 5..i + 7])
       && IsDateSep(s[i + 7]) && AllDigits(s[i + 8..i + 10])
    then
      assert s[i..i + 4][0] == s[i];
      Some(Span(i, i + 10))
    else if i + 8 <= |s| && AllDigits(s[i..i + 8]) then
      assert s[i..i + 8][0] == s[i];
      Some(Span(i, i + 8))
    else None
  }

  /** `([0-9,]+)\s*원`. Retrying a shorter run or fewer blanks cannot
      succeed, since the character after either is not '원'. */
  function AmountGroupAt(s: string, i: nat): (r: Option<Span>)
    ensures r.Some? ==> r.value.start == i < r.value.end <= |s|
    ensures r.Some? ==> forall k :: r.value.start <= k < r.value.end ==> IsAmountChar(s[k])
  {
    if i > |s| then None
    else
      var e := RunEnd(s, i, IsAmountChar);
      var q := RunEnd(s, e, IsSpace);
      if e > i && q < |s| && s[q] == '원' then Some(Span(i, e)) else None
  }

  /** `(주문번호|Order ID)[:\s]*([A-Za-z0-9-]+)` with `re.IGNORECASE`. */
  function OrderGroupAt(s: string, i: nat): (r: Option<Span>)
    ensures r.Some? ==> i < r.value.start < r.value.end <= |s|
    ensures r.Some? ==> forall k :: r.value.start <= k < r.value.end ==> IsOrderChar(s[k])
  {
    var j :=
      if OccursAt(s, "주문번호", i) then Some(i + 4)
      else if i + 8 <= |s| && Lower(s[i..i + 8]) == "order id" then Some(i + 8)
      else None;
    match j
    case None => None
    case Some(j) =>
      var q := RunEnd(s, j, IsColonOrSpace);
      var e := RunEnd(s, q, IsOrderChar);
      if e > q then Some(Span(q, e)) else None
  }

  /** A phone number with a first block of a digits and a middle block of b. */
  predicate PhoneShapedAs(t: string, a: nat, b: nat)
  {
    && |t| == a + b + 6
    && AllDigits(t[..a]) && t[a] == '-'
    && AllDigits(t[a + 1..a + 1 + b]) && t[a + 1 + b] == '-'
    && AllDigits(t[a + 2 + b..])
  }

  /** What `\d{2,3}-\d{3,4}-\d{4}` matches. */
  predicate PhoneShaped(t: string)
  {
    PhoneShapedAs(t, 3, 4) || PhoneShapedAs(t, 3, 3) || PhoneShapedAs(t, 2, 4) || PhoneShapedAs(t, 2, 3)
  }

  /** `\d{3,4}-\d{4}` from p, the longer middle block first. */
  function PhoneTailAt(s: string, p: nat): (r: Option<nat>)
    ensures r.Some? ==> r.value == p + 9 || r.value == p + 8
    ensures r.Some? ==> r.value <= |s|
    ensures r == Some(p + 9) ==> DigitsAt(s, p, 4) && s[p + 4] == '-' && DigitsAt(s, p + 5, 4)
    ensures r == Some(p + 8) ==> DigitsAt(s, p, 3) && s[p + 3] == '-' && DigitsAt(s, p + 4, 4)
  {
    if DigitsAt(s, p, 4) && p + 4 < |s| && s[p + 4] == '-' && DigitsAt(s, p + 5, 4) then Some(p + 9)
    else if DigitsAt(s, p, 3) && p + 3 < |s| && s[p + 3] == '-' && DigitsAt(s, p + 4, 4) then Some(p + 8)
    else None
  }

  /** `(\d{2,3}-\d{3,4}-\d{4})`, the longer first block first. */
  function PhoneGroupAt(s: string, i: nat): (r: Option<Span>)
    ensures r.Some? ==> r.value.start == i < r.value.end <= |s|
  {
    if DigitsAt(s, i, 3) && i + 3 < |s| && s[i + 3] == '-' && PhoneTailAt(s, i + 4).Some? then
      Some(Span(i, PhoneTailAt(s, i + 4).value))
    else if DigitsAt(s, i, 2) && i + 2 < |s| && s[i + 2] == '-' && PhoneTailAt(s, i + 3).Some? then
      Some(Span(i, PhoneTailAt(s, i + 3).value))
    else None
  }

  /** Every phone match has one of the four shapes. */
  lemma PhoneGroupShaped(s: string, i: nat)
    requires PhoneGroupAt(s, i).Some?
    ensures PhoneShaped(s[PhoneGroupAt(s, i).value.start..PhoneGroupAt(s, i).value.end])
  {
    var g := PhoneGroupAt(s, i).value;
    var t := s[g.start..g.end];
    var a := if DigitsAt(s, i, 3) && i + 3 < |s| && s[i + 3] == '-' && PhoneTailAt(s, i + 4).Some? then 3 else 2;
    var p := i + a + 1;
    var b := if PhoneTailAt(s, p) == Some(p + 9) then 4 else 3;
    assert g.start == i && g.end == p + b + 5;
    SliceOfSlice(s, i, g.end, 0, a);
    SliceOfSlice(s, i, g.end, a + 1, a + 1 + b);
    SliceOfSlice(s, i, g.end, a + 2 + b, a + b + 6);
    assert t[a + 2 + b..] == t[a + 2 + b..a + b + 6];
    assert PhoneShapedAs(t, a, b);
  }

  /** `<keyword>[\s:]*([0-9./-]{8,10})`: the group is the run's first ten
      characters at most. */
  function KeywordDateAt(s: string, i: nat, keyword: string): (r: Option<Span>)
    ensures r.Some? ==> i <= r.value.start && r.value.start + 8 <= r.value.end <= r.value.start + 10
    ensures r.Some? ==> r.value.end <= |s|
    ensures r.Some? ==> forall k :: r.value.start <= k < r.value.end ==> IsDateChar(s[k])
  {
    if !OccursAt(s, keyword, i) then None
    else
      var q := RunEnd(s, i + |keyword|, IsColonOrSpace);
      var e := RunEnd(s, q, IsDateChar);
      if e - q < 8 then None else Some(Span(q, if e - q > 10 then q + 10 else e))
  }

  // --------------------------------------------------------- the fields

  /** The first date-looking group, parsed; None when there is none or it
      does not parse. */
  function PurchaseDate(raw: string): (r: Option<Date>)
    ensures r.Some? ==> ValidDate(r.value)
  {
    match SearchFrom(raw, DateGroupAt, 0)
    case None => None
    case Some(k) =>
      var g := DateGroupAt(raw, k).value;
      ParsedDate(raw[g.start..g.end])
  }

  /** The first amount followed by '원', parsed. */
  function Amount(raw: string): Option<nat>
  {
    match SearchFrom(raw, AmountGroupAt, 0)
    case None => None
    case Some(k) =>
      var g := AmountGroupAt(raw, k).value;
      ParseAmount(raw[g.start..g.end])
  }

  /** The second group of the first order-id match. */
  function OrderId(raw: string): (r: Option<string>)
    ensures r.Some? ==> r.value != [] && forall k :: 0 <= k < |r.value| ==> IsOrderChar(r.value[k])
  {
    match SearchFrom(raw, OrderGroupAt, 0)
    case None => None
    case Some(k) =>
      var g := OrderGroupAt(raw, k).value;
      assert forall j :: 0 <= j < g.end - g.start ==> raw[g.start..g.end][j] == raw[g.start + j];
      Some(raw[g.start..g.end])
  }

  /** The first phone number. */
  function Phone(raw: string): (r: Option<string>)
    ensures r.Some? ==> PhoneShaped(r.value)
  {
    match SearchFrom(raw, PhoneGroupAt, 0)
    case None => None
    case Some(k) =>
      var g := PhoneGroupAt(raw, k).value;
      PhoneGroupShaped(raw, k);
      Some(raw[g.start..g.end])
  }

  /** The date after the first occurrence of the keyword that is followed
      by eight to ten date characters, parsed. */
  function KeywordDate(raw: string, keyword: string): (r: Option<Date>)
    ensures r.Some? ==> ValidDate(r.value)
  {
    match SearchFrom(raw, (s: string, i: nat) => KeywordDateAt(s, i, keyword), 0)
    case None => None
    case Some(k) =>
      var g := KeywordDateAt(raw, k, keyword).value;
      ParsedDate(raw[g.start..g.end])
  }

  // --------------------------------------------------------- the lines

  /** `[line.strip() for line in lines if line.strip()]` */
  function NonBlank(lines: seq<string>): (r: seq<string>)
    ensures forall k :: 0 <= k < |r| ==> r[k] != []
  {
    if lines == [] then []
    else
      var t := Strip(lines[0]);
      var rest := NonBlank(lines[1..]);
      if t == [] then rest
      else
        assert forall k :: 0 < k < |rest| + 1 ==> ([t] + rest)[k] == rest[k - 1];
        [t] + rest
  }

  /** No line is kept exactly when every line is blank. */
  lemma {:induction false} NonBlankEmpty(lines: seq<string>)
    ensures NonBlank(lines) == [] <==> forall j :: 0 <= j < |lines| ==> Strip(lines[j]) == []
  {
    if lines != [] {
      NonBlankEmpty(lines[1..]);
      assert forall j :: 1 <= j < |lines| ==> lines[1..][j - 1] == lines[j];
    }
  }

  const StoreWords: seq<string> := ["상호", "매장", "판매처"]

  const TitleWords: seq<string> := ["상품명", "제품명", "품목"]

  predicate MentionsAny(line: string, words: seq<string>)
  {
    exists k :: 0 <= k < |words| && Contains(line, words[k])
  }

  /** The first `[:：]` at or after i. */
  function ColonFrom(s: string, i: nat): (r: Option<nat>)
    decreases |s| - i
    ensures r.Some? ==> i <= r.value < |s| && IsColon(s[r.value])
    ensures r.Some? ==> forall k :: i <= k < r.value ==> !IsColon(s[k])
    ensures r.None? ==> forall k :: i <= k < |s| ==> !IsColon(s[k])
  {
    if i >= |s| then None else if IsColon(s[i]) then Some(i) else ColonFrom(s, i + 1)
  }

  /** A line the label loop stops at: it mentions a label word and
      `re.split(r"[:：]", line, maxsplit=1)` gives two parts. */
  predicate Labelled(line: string, words: seq<string>)
  {
    MentionsAny(line, words) && ColonFrom(line, 0).Some?
  }

  /** `parts[1].strip()`: the text after the first separator, stripped. */
  function AfterColon(line: string): string
    requires ColonFrom(line, 0).Some?
  {
    Strip(line[ColonFrom(line, 0).value + 1..])
  }

  /** The first labelled line from i. */
  function LabelIndex(lines: seq<string>, words: seq<string>, i: nat): (r: Option<nat>)
    requires i <= |lines|
    decreases |lines| - i
    ensures r.Some? ==> i <= r.value < |lines| && Labelled(lines[r.value], words)
    ensures r.Some? ==> forall j :: i <= j < r.value ==> !Labelled(lines[j], words)
    ensures r.None? ==> forall j :: i <= j < |lines| ==> !Labelled(lines[j], words)
  {
    if i == |lines| then None
    else if Labelled(lines[i], words) then Some(i)
    else LabelIndex(lines, words, i + 1)
  }

  /** The value of the first labelled line. */
  function LabelValue(lines: seq<string>, words: seq<string>): Option<string>
  {
    match LabelIndex(lines, words, 0)
    case None => None
    case Some(k) => Some(AfterColon(lines[k]))
  }

  /** `lines[0][:255]` */
  function Take(s: string, n: nat): (r: string)
    ensures |r| <= n && |r| <= |s| && r == s[..|r|]
    ensures |s| <= n ==> r == s
  {
    if |s| <= n then s else s[..n]
  }

  /** The keys `extract_fields_with_rules` may set. */
  const FieldKeys: set<string> :=
    {"store", "title", "purchase_date", "amount", "order_id", "as_contact", "refund_deadline", "warranty_end_date"}

  function PutStr(f: map<string, Value>, key: string, v: Option<string>): map<string, Value>
  {
    if v.Some? then f[key := Str(v.value)] else f
  }

  function PutDate(f: map<string, Value>, key: string, v: Option<Date>): map<string, Value>
    requires v.Some? ==> ValidDate(v.value)
  {
    if v.Some? then f[key := DateVal(v.value)] else f
  }

  /** What the six searches over the whole text found. */
  datatype Found = Found(
    purchase: Option<Date>, amount: Option<nat>, order: Option<string>,
    phone: Option<string>, refund: Option<Date>, warranty: Option<Date>)

  /** The types the values found have: valid dates, a phone number of one
      of the four shapes, a non-empty order id. */
  predicate FoundTyped(found: Found)
  {
    && (found.purchase.Some? ==> ValidDate(found.purchase.value))
    && (found.refund.Some? ==> ValidDate(found.refund.value))
    && (found.warranty.Some? ==> ValidDate(found.warranty.value))
    && (found.phone.Some? ==> PhoneShaped(found.phone.value))
    && (found.order.Some? ==> found.order.value != [])
  }

  /** The searches, refund before warranty. */
  function SearchAll(raw: string): (found: Found)
    ensures FoundTyped(found)
  {
    Found(PurchaseDate(raw), Amount(raw), OrderId(raw), Phone(raw), KeywordDate(raw, "환불"), KeywordDate(raw, "보증"))
  }

  /** The fields the searches add to f, each only when it found something. */
  function AddFound(f: map<string, Value>, found: Found): map<string, Value>
    requires FoundTyped(found)
  {
    var f2 := PutDate(f, "purchase_date", found.purchase);
    var f3 := if found.amount.Some? then f2["amount" := Int(found.amount.value)] else f2;
    var f4 := PutStr(f3, "order_id", found.order);
    var f5 := PutStr(f4, "as_contact", found.phone);
    var f6 := PutDate(f5, "refund_deadline", found.refund);
    PutDate(f6, "warranty_end_date", found.warranty)
  }

  /** The first line is the title when no labelled line gave one. */
  function WithTitleFallback(f: map<string, Value>, lines: seq<string>): map<string, Value>
  {
    if "title" !in f && lines != [] then f["title" := Str(Take(lines[0], 255))] else f
  }

  /** The fields, from the two label values, the lines and the searches. */
  function RuleFieldsFrom(store: Option<string>, title: Option<string>, lines: seq<string>, found: Found): map<string, Value>
    requires FoundTyped(found)
  {
    WithTitleFallback(AddFound(PutStr(PutStr(map[], "store", store), "title", title), found), lines)
  }

  /** `extract_fields_with_rules`. */
  function RuleFields(raw: string): map<string, Value>
  {
    var lines := NonBlank(SplitLines(raw));
    RuleFieldsFrom(LabelValue(lines, StoreWords), LabelValue(lines, TitleWords), lines, SearchAll(raw))
  }

  // ---------------------------------------------------- the imperative code

  /** One label loop: the first line that mentions a word and splits in two
      gives the value; the loop then breaks. */
  method FindLabelled(lines: seq<string>, words: seq<string>) returns (value: Option<string>)
    ensures value == LabelValue(lines, words)
  {
    value := None;
    var i := 0;
    while i < |lines|
      invariant 0 <= i <= |lines|
      invariant LabelIndex(lines, words, 0) == LabelIndex(lines, words, i)
    {
      var line := lines[i];
      if MentionsAny(line, words) {
        var colon := ColonFrom(line, 0);
        if colon.Some? {
          value := Some(Strip(line[colon.value + 1..]));
          return;
        }
      }
      i := i + 1;
    }
  }

  /** `if value: fields[key] = value` for a text value. */
  method SetText(f: map<string, Value>, key: string, v: Option<string>) returns (fields: map<string, Value>)
    ensures fields == PutStr(f, key, v)
  {
    fields := f;
    if v.Some? {
      fields := fields[key := Str(v.value)];
    }
  }

  /** `if parsed: fields[key] = parsed` for a date. */
  method SetDate(f: map<string, Value>, key: string, v: Option<Date>) returns (fields: map<string, Value>)
    requires v.Some? ==> ValidDate(v.value)
    ensures fields == PutDate(f, key, v)
  {
    fields := f;
    if v.Some? {
      fields := fields[key := DateVal(v.value)];
    }
  }

  /** The searches of `extract_fields_with_rules`, in order. */
  method AddSearchedFields(raw: string, f: map<string, Value>) returns (fields: map<string, Value>)
    ensures fields == AddFound(f, SearchAll(raw))
  {
    var purchase := PurchaseDate(raw);
    fields := SetDate(f, "purchase_date", purchase);
    var amount := Amount(raw);
    if amount.Some? {
      fields := fields["amount" := Int(amount.value)];
    }
    var order := OrderId(raw);
    fields := SetText(fields, "order_id", order);
    var phone := Phone(raw);
    fields := SetText(fields, "as_contact", phone);
    var refund := KeywordDate(raw, "환불");
    fields := SetDate(fields, "refund_deadline", refund);
    var warranty := KeywordDate(raw, "보증");
    fields := SetDate(fields, "warranty_end_date", warranty);
  }

  /** The first line, cut to 255 characters, when no title was found. */
  method AddTitleFallback(f: map<string, Value>, lines: seq<string>) returns (fields: map<string, Value>)
    ensures fields == WithTitleFallback(f, lines)
  {
    fields := f;
    if "title" !in fields && lines != [] {
      fields := fields["title" := Str(Take(lines[0], 255))];
    }
  }

  /** `extract_fields_with_rules`, step by step. */
  method ExtractFieldsWithRules(raw: string) returns (fields: map<string, Value>)
    ensures fields == RuleFields(raw)
  {
    var lines := NonBlank(SplitLines(raw));
    var store := FindLabelled(lines, StoreWords);
    var title := FindLabelled(lines, TitleWords);
    fields := SetText(map[], "store", store);
    fields := SetText(fields, "title", title);
    fields := AddSearchedFields(raw, fields);
    fields := AddTitleFallback(fields, lines);
  }

  // ------------------------------------------------------------ properties

  /** Only the eight documented keys are ever set. */
  lemma RuleFieldsFromKeys(store: Option<string>, title: Option<string>, lines: seq<string>, found: Found)
    requires FoundTyped(found)
    ensures RuleFieldsFrom(store, title, lines, found).Keys <= FieldKeys
  {
  }

  /** The store is the labelled value, when there is one. */
  lemma RuleFieldsFromStore(store: Option<string>, title: Option<string>, lines: seq<string>, found: Found)
    requires FoundTyped(found)
    ensures var f := RuleFieldsFrom(store, title, lines, found);
            ("store" in f <==> store.Some?) && (store.Some? ==> f["store"] == Str(store.value))
  {
  }

  /** The title is the labelled value, or else the first line cut to 255
      characters; there is none only when there are no lines. */
  lemma RuleFieldsFromTitle(store: Option<string>, title: Option<string>, lines: seq<string>, found: Found)
    requires FoundTyped(found)
    ensures var f := RuleFieldsFrom(store, title, lines, found);
            && ("title" in f <==> title.Some? || lines != [])
            && (title.Some? ==> f["title"] == Str(title.value))
            && (title.None? && lines != [] ==> f["title"] == Str(Take(lines[0], 255)) && |Take(lines[0], 255)| <= 255)
  {
  }

  /** The title of last resort touches no other key. */
  lemma FallbackKeeps(f: map<string, Value>, lines: seq<string>, key: string)
    requires key != "title"
    ensures (key in WithTitleFallback(f, lines)) == (key in f)
    ensures key in f ==> WithTitleFallback(f, lines)[key] == f[key]
  {
  }

  /** Each date field is set exactly when its search found a date, to that
      date. */
  lemma RuleFieldsFromDates(store: Option<string>, title: Option<string>, lines: seq<string>, found: Found)
    requires FoundTyped(found)
    ensures var f := RuleFieldsFrom(store, title, lines, found);
            && ("purchase_date" in f <==> found.purchase.Some?)
            && (found.purchase.Some? ==> f["purchase_date"] == DateVal(found.purchase.value))
            && ("refund_deadline" in f <==> found.refund.Some?)
            && (found.refund.Some? ==> f["refund_deadline"] == DateVal(found.refund.value))
            && ("warranty_end_date" in f <==> found.warranty.Some?)
            && (found.warranty.Some? ==> f["warranty_end_date"] == DateVal(found.warranty.value))
  {
    var g := AddFound(PutStr(PutStr(map[], "store", store), "title", title), found);
    FallbackKeeps(g, lines, "purchase_date");
    FallbackKeeps(g, lines, "refund_deadline");
    FallbackKeeps(g, lines, "warranty_end_date");
  }

  /** The amount, the order id and the phone number are set exactly when
      their searches found them, to what they found. */
  lemma RuleFieldsFromOthers(store: Option<string>, title: Option<string>, lines: seq<string>, found: Found)
    requires FoundTyped(found)
    ensures var f := RuleFieldsFrom(store, title, lines, found);
            && ("amount" in f <==> found.amount.Some?)
            && (found.amount.Some? ==> f["amount"] == Int(found.amount.value))
            && ("order_id" in f <==> found.order.Some?)
            && (found.order.Some? ==> f["order_id"] == Str(found.order.value))
            && ("as_contact" in f <==> found.phone.Some?)
            && (found.phone.Some? ==> f["as_contact"] == Str(found.phone.value))
  {
    var g := AddFound(PutStr(PutStr(map[], "store", store), "title", title), found);
    FallbackKeeps(g, lines, "amount");
    FallbackKeeps(g, lines, "order_id");
    FallbackKeeps(g, lines, "as_contact");
  }

  lemma RuleFieldsKeys(raw: string)
    ensures RuleFields(raw).Keys <= FieldKeys
  {
    var lines := NonBlank(SplitLines(raw));
    RuleFieldsFromKeys(LabelValue(lines, StoreWords), LabelValue(lines, TitleWords), lines, SearchAll(raw));
  }

  /** A title is set exactly when the text has a non-blank line: the value
      of the first labelled title line, or else the first non-blank line cut
      to 255 characters. */
  lemma RuleFieldsTitle(raw: string)
    ensures var lines := NonBlank(SplitLines(raw));
            && ("title" in RuleFields(raw) <==> exists j :: 0 <= j < |SplitLines(raw)| && Strip(SplitLines(raw)[j]) != [])
            && (LabelValue(lines, TitleWords).Some? ==>
                  "title" in RuleFields(raw) && RuleFields(raw)["title"] == Str(LabelValue(lines, TitleWords).value))
            && (LabelValue(lines, TitleWords).None? && lines != [] ==>
                  "title" in RuleFields(raw) && RuleFields(raw)["title"] == Str(Take(lines[0], 255)))
  {
    var lines := NonBlank(SplitLines(raw));
    HasNonBlankLine(raw);
    var title := LabelValue(lines, TitleWords);
    RuleFieldsFromTitle(LabelValue(lines, StoreWords), title, lines, SearchAll(raw));
  }

  lemma HasNonBlankLine(raw: string)
    ensures NonBlank(SplitLines(raw)) != [] <==> exists j :: 0 <= j < |SplitLines(raw)| && Strip(SplitLines(raw)[j]) != []
  {
    NonBlankEmpty(SplitLines(raw));
  }

  /** A store is set exactly when some non-blank line is labelled with a
      store word and has a separator; its value is the text after the first
      separator of the first such line. */
  lemma RuleFieldsStore(raw: string)
    ensures var lines := NonBlank(SplitLines(raw));
            && ("store" in RuleFields(raw) <==> exists k :: 0 <= k < |lines| && Labelled(lines[k], StoreWords))
            && ("store" in RuleFields(raw) ==>
                  LabelIndex(lines, StoreWords, 0).Some? &&
                  RuleFields(raw)["store"] == Str(AfterColon(lines[LabelIndex(lines, StoreWords, 0).value])))
  {
    var lines := NonBlank(SplitLines(raw));
    RuleFieldsFromStore(LabelValue(lines, StoreWords), LabelValue(lines, TitleWords), lines, SearchAll(raw));
  }

  /** Every value has the type the source gives it: dates are valid dates,
      the amount a non-negative integer, the phone number one of its four
      shapes and the order id non-empty. */
  lemma RuleFieldsTyped(raw: string)
    ensures var f := RuleFields(raw);
            && ("purchase_date" in f ==> f["purchase_date"].DateVal? && ValidDate(f["purchase_date"].date))
            && ("refund_deadline" in f ==> f["refund_deadline"].DateVal? && ValidDate(f["refund_deadline"].date))
            && ("warranty_end_date" in f ==> f["warranty_end_date"].DateVal? && ValidDate(f["warranty_end_date"].date))
            && ("amount" in f ==> f["amount"].Int? && f["amount"].i >= 0)
            && ("as_contact" in f ==> f["as_contact"].Str? && PhoneShaped(f["as_contact"].s))
            && ("order_id" in f ==> f["order_id"].Str? && f["order_id"].s != [])
  {
    var lines := NonBlank(SplitLines(raw));
    RuleFieldsFromDates(LabelValue(lines, StoreWords), LabelValue(lines, TitleWords), lines, SearchAll(raw));
    RuleFieldsFromOthers(LabelValue(lines, StoreWords), LabelValue(lines, TitleWords), lines, SearchAll(raw));
  }

  /** An ISO date with no digit before it is the purchase date. */
  lemma PurchaseDateFound(pre: string, d: Date, post: string)
    requires NoDigits(pre) && ValidDate(d)
    ensures PurchaseDate(pre + IsoFormat(d) + post) == Some(d)
  {
    var iso := IsoFormat(d);
    var s := pre + iso + post;
    var p := |pre|;
    forall k | 0 <= k < p
      ensures DateGroupAt(s, k).None?
    {
      assert s[k] == pre[k];
    }
    assert s[p..p + 10] == iso;
    assert s[p..p + 4] == iso[..4] && s[p + 5..p + 7] == iso[5..7] && s[p + 8..p + 10] == iso[8..];
    assert s[p + 4] == iso[4] && s[p + 7] == iso[7];
    assert DateGroupAt(s, p) == Some(Span(p, p + 10));
    SearchFinds(s, DateGroupAt, 0, p);
    IsoRoundTrip(d);
  }

  lemma AmountNothingBefore(pre: string, rest: string)
    requires forall k :: 0 <= k < |pre| ==> !IsAmountChar(pre[k])
    ensures forall k :: 0 <= k < |pre| ==> AmountGroupAt(pre + rest, k).None?
  {
    var s := pre + rest;
    forall k | 0 <= k < |pre|
      ensures AmountGroupAt(s, k).None?
    {
      assert s[k] == pre[k];
    }
  }

  lemma AmountGroupAtStart(pre: string, n: nat, post: string)
    ensures var s, t := pre + NatToString(n) + "원" + post, NatToString(n);
            AmountGroupAt(s, |pre|) == Some(Span(|pre|, |pre| + |t|))
  {
    var t := NatToString(n);
    var s := pre + t + "원" + post;
    var p, e := |pre|, |pre| + |t|;
    assert s[e] == '원';
    assert forall k :: p <= k < e ==> s[k] == t[k - p];
    RunEndAt(s, p, e, IsAmountChar);
    assert RunEnd(s, e, IsSpace) == e;
  }

  /** The first amount group of such a text is the number. */
  lemma AmountGroupAtNumber(pre: string, n: nat, post: string)
    requires forall k :: 0 <= k < |pre| ==> !IsAmountChar(pre[k])
    ensures var s, t := pre + NatToString(n) + "원" + post, NatToString(n);
            && SearchFrom(s, AmountGroupAt, 0) == Some(|pre|)
            && AmountGroupAt(s, |pre|) == Some(Span(|pre|, |pre| + |t|))
            && s[|pre|..|pre| + |t|] == t
  {
    var t := NatToString(n);
    var s := pre + t + "원" + post;
    assert s == pre + (t + "원" + post);
    AmountNothingBefore(pre, t + "원" + post);
    AmountGroupAtStart(pre, n, post);
    SearchFinds(s, AmountGroupAt, 0, |pre|);
    assert s[|pre|..|pre| + |t|] == t;
  }

  /** A number written before '원', with no digit or comma before it, is the
      amount. */
  lemma AmountFound(pre: string, n: nat, post: string)
    requires forall k :: 0 <= k < |pre| ==> !IsAmountChar(pre[k])
    ensures Amount(pre + NatToString(n) + "원" + post) == Some(n)
  {
    var t := NatToString(n);
    var s := pre + t + "원" + post;
    var p, e := |pre|, |pre| + |t|;
    AmountGroupAtNumber(pre, n, post);
    AmountOfGroup(s, p, e, n);
  }

  lemma AmountOfGroup(s: string, p: nat, e: nat, n: nat)
    requires p <= e <= |s| && SearchFrom(s, AmountGroupAt, 0) == Some(p)
    requires AmountGroupAt(s, p) == Some(Span(p, e)) && s[p..e] == NatToString(n)
    ensures Amount(s) == Some(n)
  {
    ParseAmountRoundTrip(n);
  }

  /** The purchase date of a text whose first digits begin an ISO date is
      that date. */
  lemma RuleFieldsPurchaseDate(pre: string, d: Date, post: string)
    requires NoDigits(pre) && ValidDate(d)
    ensures var f := RuleFields(pre + IsoFormat(d) + post);
            "purchase_date" in f && f["purchase_date"] == DateVal(d)
  {
    var raw := pre + IsoFormat(d) + post;
    var lines := NonBlank(SplitLines(raw));
    PurchaseDateFound(pre, d, post);
    RuleFieldsFromDates(LabelValue(lines, StoreWords), LabelValue(lines, TitleWords), lines, SearchAll(raw));
  }
}
