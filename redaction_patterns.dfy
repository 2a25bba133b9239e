/**
 * The regular expressions of the redaction engine (app/core/redaction.py,
 * lines 35-59), each written out as a matcher that follows Python's
 * backtracking order, and `re.sub` as a left-to-right scan over the string:
 * at each position the pattern is tried; on a match the replacement is
 * emitted and the scan resumes at the end of the match, otherwise the
 * character is copied.
 */
module RedactionPatterns {
  import opened Common
  import opened RedactionMasks

  /** The eight substitutions `redact_text` performs. `CardCandidate` is the
      loose card pattern with the Luhn-gated replacement of the strict mode. */
  datatype Rule =
    | ApprovalNumber
    | AccountNumber
    | CardLoose
    | CardGrouped
    | CardCandidate
    | Email
    | Phone
    | Rrn

  /** A match [start, end) with two inner cut points: the end of the first
      group and the start of the last group. */
  datatype Match = Match(start: nat, cut1: nat, cut2: nat, end: nat)

  predicate Within(m: Match, s: string, i: nat)
  {
    m.start == i && i <= m.cut1 <= m.cut2 <= m.end <= |s| && i < m.end
  }

  // -------------------------------------------------------- character runs

  datatype CharClass = Space | NumberChar | EmailLocal | EmailDomain | Letter

  predicate InClass(c: char, cls: CharClass)
  {
    match cls
    case Space => IsSpace(c)
    case NumberChar => IsDigit(c) || c == '*' || c == '-' || c == ' '
    case EmailLocal => IsAsciiLetter(c) || IsDigit(c) || c == '.' || c == '_' || c == '%' || c == '+' || c == '-'
    case EmailDomain => IsAsciiLetter(c) || IsDigit(c) || c == '.' || c == '-'
    case Letter => IsAsciiLetter(c)
  }

  /** End of the longest run of `cls` characters starting at i. */
  function RunEnd(s: string, i: nat, cls: CharClass): (e: nat)
    requires i <= |s|
    decreases |s| - i
    ensures i <= e <= |s|
    ensures forall k :: i <= k < e ==> InClass(s[k], cls)
    ensures e < |s| ==> !InClass(s[e], cls)
  {
    if i < |s| && InClass(s[i], cls) then RunEnd(s, i + 1, cls) else i
  }

  predicate DigitsAt(s: string, p: nat, n: nat)
  {
    p + n <= |s| && forall k :: p <= k < p + n ==> IsDigit(s[k])
  }

  predicate IsColon(c: char) { c == ':' || c == '\U{FF1A}' }

  // ------------------------------------------- keyword ... number patterns

  const ApprovalKeywords: seq<string> :=
    ["승인번호", "원거래번호", "거래번호", "가맹점번호", "가맹번호", "단말기ID", "단말기", "TID", "MID"]

  const AccountKeywords: seq<string> := ["계좌번호", "계좌", "ACCOUNT"]

  /** The keyword occurs at i, ignoring ASCII case (`re.IGNORECASE`). */
  predicate OccursAtIgnoreCase(s: string, kw: string, i: nat)
  {
    i + |kw| <= |s| && Lower(s[i..i + |kw|]) == Lower(kw)
  }

  /** `[0-9*\- ]{min,}` at p: the longest run, if long enough. */
  function NumberAt(s: string, p: nat, min: nat): (r: Option<nat>)
    requires p <= |s|
    ensures r.Some? ==> r.value == RunEnd(s, p, NumberChar) && r.value - p >= min
  {
    var e := RunEnd(s, p, NumberChar);
    if e - p >= min then Some(e) else None
  }

  /** The second `\s*` tried with n, n-1, ..., 0 characters from q, then the
      number; gives the start and end of the number. */
  function TrySecondSpaces(s: string, q: nat, n: nat, min: nat): (r: Option<(nat, nat)>)
    requires q + n <= |s|
    decreases n
    ensures r.Some? ==> q <= r.value.0 <= q + n && r.value.1 == RunEnd(s, r.value.0, NumberChar)
                        && r.value.1 - r.value.0 >= min
  {
    match NumberAt(s, q + n, min)
    case Some(e) => Some((q + n, e))
    case None => if n == 0 then None else TrySecondSpaces(s, q, n - 1, min)
  }

  /** `[:：]?` at q (taken first when present), then the second `\s*`. */
  function TryColon(s: string, q: nat, min: nat): (r: Option<(nat, nat)>)
    requires q <= |s|
    ensures r.Some? ==> q <= r.value.0 <= r.value.1 <= |s| && r.value.1 - r.value.0 >= min
  {
    var without := TrySecondSpaces(s, q, RunEnd(s, q, Space) - q, min);
    if q < |s| && IsColon(s[q]) then
      match TrySecondSpaces(s, q + 1, RunEnd(s, q + 1, Space) - (q + 1), min)
      case Some(r) => Some(r)
      case None => without
    else without
  }

  /** The first `\s*` tried with n, n-1, ..., 0 characters after the keyword. */
  function TryFirstSpaces(s: string, j: nat, n: nat, min: nat): (r: Option<(nat, nat)>)
    requires j + n <= |s|
    decreases n
    ensures r.Some? ==> j <= r.value.0 <= r.value.1 <= |s| && r.value.1 - r.value.0 >= min
  {
    match TryColon(s, j + n, min)
    case Some(r) => Some(r)
    case None => if n == 0 then None else TryFirstSpaces(s, j, n - 1, min)
  }

  /** `(\s*[:：]?\s*)([0-9*\- ]{min,})` after a keyword ending at j. */
  function KeywordTail(s: string, j: nat, min: nat): (r: Option<(nat, nat)>)
    requires j <= |s|
    ensures r.Some? ==> j <= r.value.0 <= r.value.1 <= |s| && r.value.1 - r.value.0 >= min
  {
    TryFirstSpaces(s, j, RunEnd(s, j, Space) - j, min)
  }

  /** The alternation of keywords[k..] at i, each followed by the tail. */
  function KeywordMatch(s: string, i: nat, keywords: seq<string>, k: nat, min: nat): (r: Option<Match>)
    requires i <= |s|
    decreases |keywords| - k
    ensures r.Some? ==> Within(r.value, s, i) && r.value.end - r.value.cut2 >= min
  {
    if k >= |keywords| then None
    else if OccursAtIgnoreCase(s, keywords[k], i) then
      var j := i + |keywords[k]|;
      match KeywordTail(s, j, min)
      case Some(t) =>
        if t.1 > i then Some(Match(i, j, t.0, t.1)) else KeywordMatch(s, i, keywords, k + 1, min)
      case None => KeywordMatch(s, i, keywords, k + 1, min)
    else KeywordMatch(s, i, keywords, k + 1, min)
  }

  // ---------------------------------------------------------------- cards

  /** The next digit of a `(?:\d[ -]?)` chain after the digit at p. */
  function NextChainDigit(s: string, p: nat): (r: Option<nat>)
    requires p < |s|
    ensures r.Some? ==> p < r.value <= p + 2 && r.value < |s| && IsDigit(s[r.value])
  {
    if p + 1 < |s| && IsDigit(s[p + 1]) then Some(p + 1)
    else if p + 2 < |s| && (s[p + 1] == ' ' || s[p + 1] == '-') && IsDigit(s[p + 2]) then Some(p + 2)
    else None
  }

  /** `(?:\d[ -]?){11,18}\d\b` from the k-th digit of the chain, at p: the
      greedy repetition prefers the longest chain whose last digit (number 11
      to 18, counted from 0) is followed by a word boundary. */
  function LooseFrom(s: string, p: nat, k: nat): (r: Option<nat>)
    requires p < |s| && IsDigit(s[p])
    decreases |s| - p
    ensures r.Some? ==> p < r.value <= |s|
  {
    var here := if 11 <= k && IsBoundary(s, p + 1) then Some(p + 1) else None;
    if k < 18 then
      match NextChainDigit(s, p)
      case Some(q) =>
        (match LooseFrom(s, q, k + 1)
         case Some(e) => Some(e)
         case None => here)
      case None => here
    else here
  }

  predicate IsCardSeparator(c: char) { c == ' ' || c == '-' }

  /** `\d{4}[ -]\d{4}[ -]\d{4}[ -]\d{4}`, as a whole string. */
  predicate GroupedShape(g: string)
  {
    && |g| == 19
    && AllDigits(g[..4]) && IsCardSeparator(g[4])
    && AllDigits(g[5..9]) && IsCardSeparator(g[9])
    && AllDigits(g[10..14]) && IsCardSeparator(g[14])
    && AllDigits(g[15..])
  }

  // ---------------------------------------------------------------- phone

  predicate IsPhoneSeparator(c: char) { c == '-' || c == ' ' || c == '.' }

  /** `[- .]?` at p, taken when present. */
  function OptPhoneSeparator(s: string, p: nat): (q: nat)
    requires p <= |s|
    ensures p <= q <= p + 1 && q <= |s|
  {
    if p < |s| && IsPhoneSeparator(s[p]) then p + 1 else p
  }

  /** `[- .]?\d{4}\b` after the middle digits. */
  function PhoneLast(s: string, q: nat): (r: Option<nat>)
    requires q <= |s|
    ensures r.Some? ==> q < r.value <= |s|
  {
    var p := OptPhoneSeparator(s, q);
    if DigitsAt(s, p, 4) && IsBoundary(s, p + 4) then Some(p + 4) else None
  }

  /** `[- .]?\d{3,4}[- .]?\d{4}\b` after the prefix: four middle digits first,
      then three. */
  function PhoneTail(s: string, p: nat): (r: Option<nat>)
    requires p <= |s|
    ensures r.Some? ==> p < r.value <= |s|
  {
    var m := OptPhoneSeparator(s, p);
    var four := if DigitsAt(s, m, 4) then PhoneLast(s, m + 4) else None;
    if four.Some? then four
    else if DigitsAt(s, m, 3) then PhoneLast(s, m + 3)
    else None
  }

  /** `\b(01[016789]|0\d{1,2})` at i followed by the tail. The first
      alternative matches a subset of the texts of `0\d\d`, with the same
      length, so trying a three-character prefix and then the two-character
      one is the same search. */
  function PhoneMatch(s: string, i: nat): (r: Option<nat>)
    requires i <= |s|
    ensures r.Some? ==> i < r.value <= |s|
  {
    if i < |s| && s[i] == '0' && IsBoundary(s, i) then
      var three := if DigitsAt(s, i + 1, 2) then PhoneTail(s, i + 3) else None;
      if three.Some? then three
      else if DigitsAt(s, i + 1, 1) then PhoneTail(s, i + 2)
      else None
    else None
  }

  // ---------------------------------------------------------------- email

  /** `\.[A-Za-z]{2,}\b` with the dot at q, q-1, ..., lo: the greedy
      `[A-Za-z0-9.-]+` before it gives way one character at a time. */
  function DomainFrom(s: string, lo: nat, q: nat): (r: Option<nat>)
    requires 1 <= lo && q < |s|
    decreases q
    ensures r.Some? ==> lo < r.value <= |s|
  {
    if q < lo then None
    else
      var e := RunEnd(s, q + 1, Letter);
      if s[q] == '.' && e - (q + 1) >= 2 && IsBoundary(s, e) then Some(e)
      else if q == lo then None
      else DomainFrom(s, lo, q - 1)
  }

  /** `\b([A-Za-z0-9._%+-]{1,64})@([A-Za-z0-9.-]+\.[A-Za-z]{2,})\b` at i. */
  function EmailMatch(s: string, i: nat): (r: Option<Match>)
    requires i <= |s|
    ensures r.Some? ==> Within(r.value, s, i) && r.value.cut2 == r.value.cut1 + 1
                        && s[r.value.cut1] == '@'
  {
    var a := RunEnd(s, i, EmailLocal);
    if IsBoundary(s, i) && 1 <= a - i <= 64 && a < |s| && s[a] == '@' then
      var b := RunEnd(s, a + 1, EmailDomain);
      if b >= 1 && b - 1 >= a + 2 then
        match DomainFrom(s, a + 2, b - 1)
        case Some(e) => Some(Match(i, a, a + 1, e))
        case None => None
      else None
    else None
  }

  // ------------------------------------------------------------------ RRN

  /** `\b(\d{6})-?(\d{7})\b` at i. */
  function RrnMatch(s: string, i: nat): (r: Option<Match>)
    requires i <= |s|
    ensures r.Some? ==> Within(r.value, s, i) && r.value.cut1 == i + 6 && DigitsAt(s, i, 6)
  {
    if IsBoundary(s, i) && DigitsAt(s, i, 6) then
      var h := if i + 6 < |s| && s[i + 6] == '-' then i + 7 else i + 6;
      if DigitsAt(s, h, 7) && IsBoundary(s, h + 7) then Some(Match(i, i + 6, h, h + 7)) else None
    else None
  }

  // ------------------------------------------------- matching and re.sub

  /** The rule's compiled pattern: the match starting at i, if any. */
  function Pattern(rule: Rule): (string, nat) -> Option<Match>
  {
    match rule
    case ApprovalNumber => (s: string, i: nat) => if i <= |s| then KeywordMatch(s, i, ApprovalKeywords, 0, 4) else None
    case AccountNumber => (s: string, i: nat) => if i <= |s| then KeywordMatch(s, i, AccountKeywords, 0, 6) else None
    case CardLoose => (s: string, i: nat) => if i <= |s| then LooseMatch(s, i) else None
    case CardCandidate => (s: string, i: nat) => if i <= |s| then LooseMatch(s, i) else None
    case CardGrouped => (s: string, i: nat) =>
      if i + 19 <= |s| && IsBoundary(s, i) && GroupedShape(s[i..i + 19]) && IsBoundary(s, i + 19)
      then Some(Match(i, i, i, i + 19)) else None
    case Email => (s: string, i: nat) => if i <= |s| then EmailMatch(s, i) else None
    case Phone => (s: string, i: nat) =>
      if i <= |s| && PhoneMatch(s, i).Some? then Some(Match(i, i, i, PhoneMatch(s, i).value)) else None
    case Rrn => (s: string, i: nat) => if i <= |s| then RrnMatch(s, i) else None
  }

  /** The match of the rule's pattern that starts at i, if any. */
  function MatchAt(rule: Rule, s: string, i: nat): (r: Option<Match>)
    requires i <= |s|
    ensures r.Some? ==> Within(r.value, s, i)
  {
    Pattern(rule)(s, i)
  }

  function LooseMatch(s: string, i: nat): (r: Option<Match>)
    requires i <= |s|
    ensures r.Some? ==> Within(r.value, s, i)
  {
    if i < |s| && IsDigit(s[i]) && IsBoundary(s, i) then
      match LooseFrom(s, i, 0)
      case Some(e) => Some(Match(i, i, i, e))
      case None => None
    else None
  }

  /** Whether a loose card candidate is masked in strict mode: it holds no
      '*', has 13 to 19 digits and its digits pass the Luhn check. */
  predicate CandidateMasked(raw: string)
  {
    var digits := DigitsOf(raw);
    '*' !in raw && 13 <= |digits| <= 19 && LuhnValid(digits)
  }

  /** The rule's callback (the `_mask_*` functions): the text a match is
      replaced with. */
  function Callback(rule: Rule): (string, Match) -> string
  {
    match rule
    case ApprovalNumber => (s: string, m: Match) =>
      if m.start <= m.cut1 <= m.cut2 <= m.end <= |s|
      then MaskKeywordNumber(s[m.start..m.cut1], s[m.cut1..m.cut2], s[m.cut2..m.end]) else []
    case AccountNumber => (s: string, m: Match) =>
      if m.start <= m.cut1 <= m.cut2 <= m.end <= |s|
      then MaskKeywordNumber(s[m.start..m.cut1], s[m.cut1..m.cut2], s[m.cut2..m.end]) else []
    case CardLoose => (s: string, m: Match) =>
      if m.start <= m.end <= |s| then KeptLast(s[m.start..m.end], 4) else []
    case CardGrouped => (s: string, m: Match) =>
      if m.start <= m.end <= |s| then KeptLast(s[m.start..m.end], 4) else []
    case CardCandidate => (s: string, m: Match) =>
      if m.start <= m.end <= |s|
      then (if CandidateMasked(s[m.start..m.end]) then KeptLast(s[m.start..m.end], 4) else s[m.start..m.end])
      else []
    case Email => (s: string, m: Match) =>
      if m.start <= m.cut1 <= m.cut2 <= m.end <= |s| then MaskEmail(s[m.start..m.cut1], s[m.cut2..m.end]) else []
    case Phone => (s: string, m: Match) =>
      if m.start <= m.end <= |s| then KeptLast(s[m.start..m.end], 4) else []
    case Rrn => (s: string, m: Match) => if m.start <= m.cut1 <= |s| then MaskRrn(s[m.start..m.cut1]) else []
  }

  /** The text a match is replaced with. */
  function Replacement(rule: Rule, s: string, m: Match): string
    requires m.start <= m.cut1 <= m.cut2 <= m.end <= |s|
  {
    Callback(rule)(s, m)
  }

  /** A match together with the text that replaces it. */
  datatype Hit = Hit(m: Match, text: string)

  function HitAt(rule: Rule, s: string, i: nat): (r: Option<Hit>)
    requires i <= |s|
    ensures r.Some? ==> Within(r.value.m, s, i)
  {
    match MatchAt(rule, s, i)
    case Some(m) => Some(Hit(m, Replacement(rule, s, m)))
    case None => None
  }

  predicate ValidTable(s: string, t: seq<Option<Hit>>)
  {
    |t| == |s| && forall i :: 0 <= i < |s| && t[i].Some? ==> Within(t[i].value.m, s, i)
  }

  /** The hit of the rule at every position of s. */
  function HitTable(rule: Rule, s: string): (t: seq<Option<Hit>>)
    ensures |t| == |s|
  {
    seq(|s|, i requires 0 <= i < |s| => HitAt(rule, s, i))
  }

  /** An entry of the table is the rule's match at that position. */
  lemma HitTableAt(rule: Rule, s: string, k: nat)
    requires k < |s|
    ensures HitTable(rule, s)[k] == HitAt(rule, s, k)
    ensures HitTable(rule, s)[k].None? <==> MatchAt(rule, s, k).None?
    ensures HitTable(rule, s)[k].Some? ==> HitTable(rule, s)[k].value.m == MatchAt(rule, s, k).value
  {
    assert HitTable(rule, s)[k] == HitAt(rule, s, k);
  }

  lemma HitTableValid(rule: Rule, s: string)
    ensures ValidTable(s, HitTable(rule, s))
  {
    var t := HitTable(rule, s);
    forall i | 0 <= i < |s| && t[i].Some? ensures Within(t[i].value.m, s, i) {
      HitTableAt(rule, s, i);
    }
  }

  /** The scan of `re.sub` from position i over a table of hits. Every entry
      of a HitTable ends past its position; any other entry is read as no
      match, which keeps the scan total without asking for a valid table. */
  function Scan(s: string, t: seq<Option<Hit>>, i: nat): string
    requires |t| == |s| && i <= |s|
    decreases |s| - i, 1
  {
    if i == |s| then [] else ScanAt(s, t, i)
  }

  /** One step of the scan at a position inside s: the hit there, or the
      character copied. */
  function ScanAt(s: string, t: seq<Option<Hit>>, i: nat): string
    requires |t| == |s| && i < |s|
    decreases |s| - i, 0
  {
    match t[i]
    case Some(h) =>
      if i < h.m.end <= |s| then h.text + Scan(s, t, h.m.end) else [s[i]] + Scan(s, t, i + 1)
    case None => [s[i]] + Scan(s, t, i + 1)
  }

  /** `pattern.sub(callback, s[i..])`, matching against the whole of s. */
  function SubFrom(rule: Rule, s: string, i: nat): string
    requires i <= |s|
  {
    Scan(s, HitTable(rule, s), i)
  }

  function Sub(rule: Rule, s: string): string
  {
    SubFrom(rule, s, 0)
  }

  /** The matches a scan over the table replaces, in order. */
  function FindIn(s: string, t: seq<Option<Hit>>, i: nat): seq<Match>
    requires |t| == |s| && i <= |s|
    decreases |s| - i, 1
  {
    if i == |s| then [] else FindAt(s, t, i)
  }

  function FindAt(s: string, t: seq<Option<Hit>>, i: nat): seq<Match>
    requires |t| == |s| && i < |s|
    decreases |s| - i, 0
  {
    match t[i]
    case Some(h) => if i < h.m.end <= |s| then [h.m] + FindIn(s, t, h.m.end) else FindIn(s, t, i + 1)
    case None => FindIn(s, t, i + 1)
  }

  /** `pattern.finditer(s)` from position i. */
  function FindAll(rule: Rule, s: string, i: nat): seq<Match>
    requires i <= |s|
  {
    FindIn(s, HitTable(rule, s), i)
  }

  predicate NoneIn(t: seq<Option<Hit>>, i: nat, j: nat)
    requires i <= j <= |t|
  {
    forall k :: i <= k < j ==> t[k].None?
  }

  predicate NoMatchIn(rule: Rule, s: string, i: nat, j: nat)
    requires i <= j <= |s|
  {
    forall k :: i <= k < j ==> MatchAt(rule, s, k).None?
  }

  // ------------------------------------------------------ lemmas on the scan

  lemma ScanCopy(s: string, t: seq<Option<Hit>>, i: nat, j: nat)
    requires ValidTable(s, t) && i < j <= |s| && t[i].None?
    requires Scan(s, t, i + 1) == s[i + 1..j] + Scan(s, t, j)
    ensures Scan(s, t, i) == s[i..j] + Scan(s, t, j)
  {
    var rest := Scan(s, t, j);
    calc {
      Scan(s, t, i);
      [s[i]] + Scan(s, t, i + 1);
      [s[i]] + (s[i + 1..j] + rest);
      { assert [s[i]] + (s[i + 1..j] + rest) == ([s[i]] + s[i + 1..j]) + rest; }
      ([s[i]] + s[i + 1..j]) + rest;
      { assert [s[i]] + s[i + 1..j] == s[i..j]; }
      s[i..j] + rest;
    }
  }

  lemma {:induction false} ScanSkip(s: string, t: seq<Option<Hit>>, i: nat, j: nat)
    requires ValidTable(s, t) && i <= j <= |s| && NoneIn(t, i, j)
    ensures Scan(s, t, i) == s[i..j] + Scan(s, t, j)
    decreases j - i
  {
    if i < j {
      ScanSkip(s, t, i + 1, j);
      ScanCopy(s, t, i, j);
    } else {
      assert s[i..j] == [];
    }
  }

  lemma {:induction false} FindInEmpty(s: string, t: seq<Option<Hit>>, i: nat)
    requires ValidTable(s, t) && i <= |s|
    ensures FindIn(s, t, i) == [] <==> NoneIn(t, i, |s|)
    decreases |s| - i
  {
    if i < |s| {
      FindInEmpty(s, t, i + 1);
    }
  }

  lemma {:induction false} FindInHead(s: string, t: seq<Option<Hit>>, i: nat)
    requires ValidTable(s, t) && i <= |s| && FindIn(s, t, i) != []
    ensures var m := FindIn(s, t, i)[0];
            && i <= m.start < |s| && NoneIn(t, i, m.start)
            && t[m.start].Some? && t[m.start].value.m == m
            && FindIn(s, t, i)[1..] == FindIn(s, t, m.end)
    decreases |s| - i
  {
    if t[i].None? {
      FindInHead(s, t, i + 1);
    }
  }

  /** Every hit's text differs from the text it replaces only in digits
      turned into '*'. */
  predicate HitsMaskOnly(s: string, t: seq<Option<Hit>>)
    requires ValidTable(s, t)
  {
    forall i :: 0 <= i < |s| && t[i].Some? ==> MasksOnly(s[i..t[i].value.m.end], t[i].value.text)
  }

  lemma {:induction false} ScanMasksOnly(s: string, t: seq<Option<Hit>>, i: nat)
    requires ValidTable(s, t) && i <= |s| && HitsMaskOnly(s, t)
    ensures MasksOnly(s[i..], Scan(s, t, i))
    decreases |s| - i
  {
    if i < |s| {
      match t[i]
      case Some(h) =>
        ScanMasksOnly(s, t, h.m.end);
        assert s[i..] == s[i..h.m.end] + s[h.m.end..];
        MasksOnlyConcat(s[i..h.m.end], h.text, s[h.m.end..], Scan(s, t, h.m.end));
      case None =>
        ScanMasksOnly(s, t, i + 1);
        assert s[i..] == [s[i]] + s[i + 1..];
        MasksOnlyConcat([s[i]], [s[i]], s[i + 1..], Scan(s, t, i + 1));
    }
  }

  predicate HitsCharsFrom(s: string, t: seq<Option<Hit>>)
    requires ValidTable(s, t)
  {
    forall i :: 0 <= i < |s| && t[i].Some? ==> CharsFrom(t[i].value.text, s)
  }

  lemma {:induction false} ScanChars(s: string, t: seq<Option<Hit>>, i: nat)
    requires ValidTable(s, t) && i <= |s| && HitsCharsFrom(s, t)
    ensures CharsFrom(Scan(s, t, i), s)
    decreases |s| - i
  {
    if i < |s| {
      match t[i]
      case Some(h) =>
        ScanChars(s, t, h.m.end);
        CharsFromConcat(h.text, Scan(s, t, h.m.end), s);
      case None =>
        ScanChars(s, t, i + 1);
        assert s[i] in s;
        CharsFromConcat([s[i]], Scan(s, t, i + 1), s);
    }
  }

  // ------------------------------------------------------- lemmas on re.sub

  /** Text up to the next match is copied unchanged. */
  lemma SubSkip(rule: Rule, s: string, i: nat, j: nat)
    requires i <= j <= |s| && NoMatchIn(rule, s, i, j)
    ensures SubFrom(rule, s, i) == s[i..j] + SubFrom(rule, s, j)
  {
    HitTableValid(rule, s);
    var t := HitTable(rule, s);
    forall k | i <= k < j ensures t[k].None? {
      HitTableAt(rule, s, k);
    }
    ScanSkip(s, t, i, j);
  }

  /** Where the pattern never matches, the substitution is the identity. */
  lemma SubNoMatch(rule: Rule, s: string, i: nat)
    requires i <= |s| && NoMatchIn(rule, s, i, |s|)
    ensures SubFrom(rule, s, i) == s[i..]
  {
    SubSkip(rule, s, i, |s|);
  }

  /** At a match, its replacement is emitted and the scan resumes after it. */
  lemma SubAtMatch(rule: Rule, s: string, i: nat)
    requires i < |s| && MatchAt(rule, s, i).Some?
    ensures var m := MatchAt(rule, s, i).value;
            SubFrom(rule, s, i) == Replacement(rule, s, m) + SubFrom(rule, s, m.end)
  {
    HitTableValid(rule, s);
    HitTableAt(rule, s, i);
    assert SubFrom(rule, s, i) == ScanAt(s, HitTable(rule, s), i);
  }

  /** `finditer` finds nothing exactly when the pattern matches nowhere. */
  lemma FindAllEmpty(rule: Rule, s: string, i: nat)
    requires i <= |s|
    ensures FindAll(rule, s, i) == [] <==> NoMatchIn(rule, s, i, |s|)
  {
    HitTableValid(rule, s);
    var t := HitTable(rule, s);
    FindInEmpty(s, t, i);
    forall k | i <= k < |s| ensures t[k].None? <==> MatchAt(rule, s, k).None? {
      HitTableAt(rule, s, k);
    }
  }

  /** The first match `finditer` reports is the leftmost one, and the rest are
      found from its end on. */
  lemma FindAllHead(rule: Rule, s: string, i: nat)
    requires i <= |s| && FindAll(rule, s, i) != []
    ensures var m := FindAll(rule, s, i)[0];
            && i <= m.start < |s| && NoMatchIn(rule, s, i, m.start)
            && MatchAt(rule, s, m.start) == Some(m)
            && FindAll(rule, s, i)[1..] == FindAll(rule, s, m.end)
  {
    HitTableValid(rule, s);
    var t := HitTable(rule, s);
    FindInHead(s, t, i);
    var m := FindAll(rule, s, i)[0];
    forall k | i <= k < m.start ensures MatchAt(rule, s, k).None? {
      HitTableAt(rule, s, k);
    }
    HitTableAt(rule, s, m.start);
  }

  /** The rules whose replacement only turns digits into '*'. */
  predicate MasksInPlace(rule: Rule)
  {
    !rule.Email? && !rule.Rrn?
  }

  /** out is orig with some digits replaced by '*'. */
  predicate MasksOnly(orig: string, out: string)
  {
    |out| == |orig| && forall k :: 0 <= k < |orig| ==> out[k] == orig[k] || (IsDigit(orig[k]) && out[k] == '*')
  }

  lemma MasksOnlyTrans(a: string, b: string, c: string)
    requires MasksOnly(a, b) && MasksOnly(b, c)
    ensures MasksOnly(a, c)
  {
  }

  lemma MasksOnlyConcat(a: string, a': string, b: string, b': string)
    requires MasksOnly(a, a') && MasksOnly(b, b')
    ensures MasksOnly(a + b, a' + b')
  {
  }

  lemma ReplacementMasksOnly(rule: Rule, s: string, m: Match)
    requires m.start <= m.cut1 <= m.cut2 <= m.end <= |s| && MasksInPlace(rule)
    ensures MasksOnly(s[m.start..m.end], Replacement(rule, s, m))
  {
    match rule
    case ApprovalNumber => KeywordMasksOnly(s, m);
    case AccountNumber => KeywordMasksOnly(s, m);
    case CardLoose => KeptLastMasksOnly(s[m.start..m.end], 4);
    case CardGrouped => KeptLastMasksOnly(s[m.start..m.end], 4);
    case CardCandidate => KeptLastMasksOnly(s[m.start..m.end], 4);
    case Phone => KeptLastMasksOnly(s[m.start..m.end], 4);
    case Email => assert false;
    case Rrn => assert false;
  }

  lemma KeptLastMasksOnly(raw: string, keep: nat)
    ensures MasksOnly(raw, KeptLast(raw, keep))
  {
  }

  /** The keyword rules copy the keyword and separator and mask the number. */
  lemma KeywordMasksOnly(s: string, m: Match)
    requires m.start <= m.cut1 <= m.cut2 <= m.end <= |s|
    ensures MasksOnly(s[m.start..m.end], MaskKeywordNumber(s[m.start..m.cut1], s[m.cut1..m.cut2], s[m.cut2..m.end]))
  {
    var head := s[m.start..m.cut2];
    var number := s[m.cut2..m.end];
    assert s[m.start..m.cut1] + s[m.cut1..m.cut2] == head;
    assert s[m.start..m.end] == head + number;
    MasksOnlyConcat(head, head, number, AllMasked(number));
  }

  /** The card, account, approval and phone substitutions never move text:
      the result has the same length and differs only where a digit became
      '*'. */
  lemma SubMasksOnly(rule: Rule, s: string, i: nat)
    requires i <= |s| && MasksInPlace(rule)
    ensures MasksOnly(s[i..], SubFrom(rule, s, i))
  {
    HitTableValid(rule, s);
    var t := HitTable(rule, s);
    forall k | 0 <= k < |s| && t[k].Some? ensures MasksOnly(s[k..t[k].value.m.end], t[k].value.text) {
      HitTableAt(rule, s, k);
      ReplacementMasksOnly(rule, s, t[k].value.m);
    }
    ScanMasksOnly(s, t, i);
  }

  /** The only characters the engine writes that were not in the text are
      '*', '-' and '@'. */
  predicate MaskChar(c: char) { c == '*' || c == '-' || c == '@' }

  predicate CharsFrom(out: string, src: string)
  {
    forall k :: 0 <= k < |out| ==> out[k] in src || MaskChar(out[k])
  }

  lemma CharsFromConcat(a: string, b: string, src: string)
    requires CharsFrom(a, src) && CharsFrom(b, src)
    ensures CharsFrom(a + b, src)
  {
    forall k | 0 <= k < |a + b| ensures (a + b)[k] in src || MaskChar((a + b)[k]) {
      if k < |a| {
        assert (a + b)[k] == a[k];
      } else {
        assert (a + b)[k] == b[k - |a|];
      }
    }
  }

  lemma CharsFromSlice(s: string, a: nat, b: nat)
    requires a <= b <= |s|
    ensures CharsFrom(s[a..b], s)
  {
    forall k | 0 <= k < b - a ensures s[a..b][k] in s {
      assert s[a..b][k] == s[a + k];
    }
  }

  lemma CharsFromMasks(raw: string, src: string, keep: nat)
    requires CharsFrom(raw, src)
    ensures CharsFrom(KeptLast(raw, keep), src) && CharsFrom(AllMasked(raw), src)
  {
  }

  lemma ReplacementChars(rule: Rule, s: string, m: Match)
    requires m.start <= m.cut1 <= m.cut2 <= m.end <= |s|
    ensures CharsFrom(Replacement(rule, s, m), s)
  {
    match rule
    case Email =>
      CharsFromSlice(s, m.start, m.cut1);
      CharsFromSlice(s, m.cut2, m.end);
      var local, domain := s[m.start..m.cut1], s[m.cut2..m.end];
      var r := Replacement(rule, s, m);
      var cut := |r| - |domain| - 1;
      forall k | 0 <= k < |r| ensures r[k] in s || MaskChar(r[k]) {
        if k >= cut + 1 {
          assert r[k] == domain[k - cut - 1];
        } else if k == 0 && |local| > 1 {
          assert r[k] == local[0];
        }
      }
    case Rrn =>
      CharsFromSlice(s, m.start, m.cut1);
      var r := Replacement(rule, s, m);
      var front := s[m.start..m.cut1];
      forall k | 0 <= k < |r| ensures r[k] in s || MaskChar(r[k]) {
        if k < |front| {
          assert r[k] == front[k];
        } else {
          assert r[k] == "-*******"[k - |front|];
        }
      }
    case ApprovalNumber =>
      KeywordReplacementChars(s, m);
    case AccountNumber =>
      KeywordReplacementChars(s, m);
    case _ =>
      CharsFromSlice(s, m.start, m.end);
      CharsFromMasks(s[m.start..m.end], s, 4);
  }

  lemma KeywordReplacementChars(s: string, m: Match)
    requires m.start <= m.cut1 <= m.cut2 <= m.end <= |s|
    ensures CharsFrom(MaskKeywordNumber(s[m.start..m.cut1], s[m.cut1..m.cut2], s[m.cut2..m.end]), s)
  {
    CharsFromSlice(s, m.start, m.cut2);
    CharsFromSlice(s, m.cut2, m.end);
    CharsFromMasks(s[m.cut2..m.end], s, 4);
    assert s[m.start..m.cut1] + s[m.cut1..m.cut2] == s[m.start..m.cut2];
    CharsFromConcat(s[m.start..m.cut2], AllMasked(s[m.cut2..m.end]), s);
  }

  /** Every character a substitution writes comes from its input or is one of
      '*', '-' and '@'. */
  lemma SubChars(rule: Rule, s: string, i: nat)
    requires i <= |s|
    ensures CharsFrom(SubFrom(rule, s, i), s)
  {
    HitTableValid(rule, s);
    var t := HitTable(rule, s);
    forall k | 0 <= k < |s| && t[k].Some? ensures CharsFrom(t[k].value.text, s) {
      HitTableAt(rule, s, k);
      ReplacementChars(rule, s, t[k].value.m);
    }
    ScanChars(s, t, i);
  }

  /** A 4-4-4-4 group between word boundaries, after text without digits, is
      masked down to its last four digits by the grouped-card substitution. */
  lemma GroupedCardMasked(pre: string, g: string, post: string)
    requires GroupedShape(g) && NoDigits(pre)
    requires pre == [] || !IsWordChar(pre[|pre| - 1])
    requires post == [] || !IsWordChar(post[0])
    ensures var s := pre + g + post;
            Sub(CardGrouped, s) == pre + KeptLast(g, 4) + SubFrom(CardGrouped, s, |pre| + 19)
    ensures DigitsOf(KeptLast(g, 4)) == g[15..]
  {
    var s := pre + g + post;
    assert s[|pre|..|pre| + 19] == g;
    forall k | 0 <= k < |pre| ensures MatchAt(CardGrouped, s, k).None? {
      assert s[k] == pre[k];
      NoGroupAt(s, k);
    }
    SubSkip(CardGrouped, s, 0, |pre|);
    assert s[0..|pre|] == pre;
    assert s[|pre|] == g[..4][0] && s[|pre| + 18] == g[15..][3];
    assert |pre| > 0 ==> s[|pre| - 1] == pre[|pre| - 1];
    assert |pre| + 19 < |s| ==> s[|pre| + 19] == post[0];
    GroupedAt(s, |pre|);
    SubAtMatch(CardGrouped, s, |pre|);
    GroupedKeptDigits(g);
  }

  /** A grouped card keeps exactly its last group of digits. */
  lemma GroupedKeptDigits(g: string)
    requires GroupedShape(g)
    ensures DigitsOf(KeptLast(g, 4)) == g[15..]
  {
    GroupedDigits(g);
    KeptLastDigits(g, 4);
  }

  /** No 4-4-4-4 group starts at a non-digit or too near the end. */
  lemma NoGroupAt(s: string, k: nat)
    requires k <= |s| && (k + 19 > |s| || !IsDigit(s[k]))
    ensures MatchAt(CardGrouped, s, k).None?
  {
    if k + 19 <= |s| {
      assert s[k..k + 19][..4][0] == s[k];
    }
  }

  /** A 4-4-4-4 group between word boundaries is a grouped-card match. */
  lemma GroupedAt(s: string, p: nat)
    requires p + 19 <= |s| && GroupedShape(s[p..p + 19]) && IsBoundary(s, p) && IsBoundary(s, p + 19)
    ensures MatchAt(CardGrouped, s, p) == Some(Match(p, p, p, p + 19))
  {
  }

  lemma GroupedDigits(g: string)
    requires GroupedShape(g)
    ensures DigitsOf(g) == g[..4] + g[5..9] + g[10..14] + g[15..]
  {
    assert g == g[..4] + [g[4]] + g[5..9] + [g[9]] + g[10..14] + [g[14]] + g[15..];
    DigitsOfAppend(g[..4] + [g[4]] + g[5..9] + [g[9]] + g[10..14] + [g[14]], g[15..]);
    DigitsOfAppend(g[..4] + [g[4]] + g[5..9] + [g[9]] + g[10..14], [g[14]]);
    DigitsOfAppend(g[..4] + [g[4]] + g[5..9] + [g[9]], g[10..14]);
    DigitsOfAppend(g[..4] + [g[4]] + g[5..9], [g[9]]);
    DigitsOfAppend(g[..4] + [g[4]], g[5..9]);
    DigitsOfAppend(g[..4], [g[4]]);
    AllDigitsOf(g[..4]);
    AllDigitsOf(g[5..9]);
    AllDigitsOf(g[10..14]);
    AllDigitsOf(g[15..]);
    assert DigitsOf([g[4]]) == [] && DigitsOf([g[9]]) == [] && DigitsOf([g[14]]) == [];
  }

  /** Masking a 4-4-4-4 group leaves no digit before its last group, and the
      last group as it was. */
  lemma GroupedMaskPrefix(g: string)
    requires GroupedShape(g)
    ensures |KeptLast(g, 4)| == 19
    ensures forall k :: 0 <= k < 15 ==> !IsDigit(KeptLast(g, 4)[k])
    ensures KeptLast(g, 4)[14] == g[14] && KeptLast(g, 4)[15..] == g[15..]
  {
    GroupedDigits(g);
    assert g == g[..15] + g[15..];
    DigitsOfAppend(g[..15], g[15..]);
    AllDigitsOf(g[15..]);
    assert DigitsBefore(g, 15) == 12;
    forall k | 0 <= k < 15 && IsDigit(g[k]) ensures KeptLast(g, 4)[k] == '*' {
      DigitsBeforeMono(g, k, 15);
    }
    forall k | 15 <= k < 19 ensures KeptLast(g, 4)[k] == g[k] {
      if k > 15 {
        DigitsBeforeMono(g, 15, k);
      }
    }
  }

  /** After one 4-4-4-4 group, fewer than 19 more characters hold no other
      group: the first pass masks that one group only. */
  lemma GroupedFirstPass(g: string, h: string)
    requires GroupedShape(g) && |h| < 19 && (h == [] || !IsWordChar(h[0]))
    ensures Sub(CardGrouped, g + h) == KeptLast(g, 4) + h
  {
    var s := g + h;
    assert [] + g + h == s;
    GroupedCardMasked([], g, h);
    SubNoMatch(CardGrouped, s, 19);
    assert s[19..] == h;
  }

  /** When the kept last group of a grouped card starts a new 4-4-4-4 group
      with the text after it, a pass over the masked text masks that group's
      first digit. */
  lemma GroupedSecondPass(g: string, h: string)
    requires GroupedShape(g) && GroupedShape(g[15..] + h)
    ensures var t := KeptLast(g, 4) + h;
            |t| == 34 && IsDigit(t[15]) && |Sub(CardGrouped, t)| > 15 && Sub(CardGrouped, t)[15] == '*'
  {
    var t := KeptLast(g, 4) + h;
    GroupedMaskPrefix(g);
    forall k | 0 <= k < 15 ensures MatchAt(CardGrouped, t, k).None? {
      assert t[k] == KeptLast(g, 4)[k];
      NoGroupAt(t, k);
    }
    SubSkip(CardGrouped, t, 0, 15);
    var x := t[15..34];
    assert x == g[15..] + h;
    assert t[14] == g[14];
    assert x[..4][0] == t[15] && x[15..][3] == t[33];
    GroupedAt(t, 15);
    SubAtMatch(CardGrouped, t, 15);
    GroupedDigits(x);
    assert DigitsBefore(x, 0) == 0;
    assert KeptLast(x, 4)[0] == '*';
  }

  /**
   * The grouped-card substitution is not idempotent. In a run of seven
   * groups such as "1111-2222-3333-4444-5555-6666-7777", the first pass
   * masks the leading 4-4-4-4 group and keeps its last group. That kept
   * group then starts a fresh 4-4-4-4 group with the next three, which the
   * second pass masks.
   */
  lemma GroupedNotIdempotent(g: string, h: string)
    requires GroupedShape(g) && |h| == 15 && GroupedShape(g[15..] + h)
    ensures Sub(CardGrouped, g + h) == KeptLast(g, 4) + h
    ensures Sub(CardGrouped, Sub(CardGrouped, g + h)) != Sub(CardGrouped, g + h)
  {
    assert h[0] == (g[15..] + h)[4];
    GroupedFirstPass(g, h);
    GroupedSecondPass(g, h);
  }
}
