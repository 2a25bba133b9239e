/**
 * What `redact_text` (app/core/redaction.py) does to a phone number, an
 * e-mail address and the numbers after an approval, transaction, terminal or
 * account keyword: generic lemmas about framed runs and digit-free results,
 * then the lines of tests/test_redaction.py worked through.
 */
module RedactionVectors {
  import opened Common
  import opened RedactionMasks
  import opened RedactionPatterns
  import opened Redaction
  import opened RedactionGating

  // ------------------------------------------------------- generic facts

  /** With fewer than twelve digits no card pattern matches anywhere. */
  lemma FewDigitsNoCard(s: string)
    requires |DigitsOf(s)| < 12
    ensures Sub(CardLoose, s) == s && Sub(CardGrouped, s) == s && Sub(CardCandidate, s) == s
  {
    forall k | 0 <= k < |s|
      ensures MatchAt(CardLoose, s, k).None? && MatchAt(CardGrouped, s, k).None?
      ensures MatchAt(CardCandidate, s, k).None?
    {
      DigitsInWhole(s, k, |s|);
      if LooseMatch(s, k).Some? { LooseDigits(s, k); }
      if MatchAt(CardGrouped, s, k).Some? { GroupedDigitsIn(s, k); }
    }
    SubNoMatch(CardLoose, s, 0);
    SubNoMatch(CardGrouped, s, 0);
    SubNoMatch(CardCandidate, s, 0);
  }

  /** Without digits, neither the phone nor the RRN pattern matches. */
  lemma DigitFreePhoneRrn(s: string)
    requires NoDigits(s)
    ensures Sub(Phone, s) == s && Sub(Rrn, s) == s
  {
    NoDigitsNone(s);
    forall k | 0 <= k < |s| ensures MatchAt(Phone, s, k).None? && MatchAt(Rrn, s, k).None? {
      DigitsInWhole(s, k, |s|);
      FewDigitsNoMatch(Phone, s, k);
      FewDigitsNoMatch(Rrn, s, k);
    }
    SubNoMatch(Phone, s, 0);
    SubNoMatch(Rrn, s, 0);
  }

  /** Once the approval and account passes leave no digit and no '@', the
      line is what those two passes made of it, whatever the strictness. */
  lemma KeywordPassesOnly(line: string, strict: bool)
    requires NoDigits(Sub(AccountNumber, Sub(ApprovalNumber, line)))
    requires '@' !in Sub(AccountNumber, Sub(ApprovalNumber, line))
    ensures RedactedLine(line, strict) == Sub(AccountNumber, Sub(ApprovalNumber, line))
    ensures NoDigits(RedactedLine(line, strict))
  {
    var c := Sub(AccountNumber, Sub(ApprovalNumber, line));
    NoDigitsNone(c);
    QuietText(c);
    assert Sub(CardLoose, c) == c && Sub(CardGrouped, c) == c && Sub(CardCandidate, c) == c;
    assert Sub(Email, c) == c && Sub(Phone, c) == c && Sub(Rrn, c) == c;
  }

  /** A keyword pass finds nothing in a line without any of its keywords'
      initials. */
  lemma ApprovalPassAbsent(s: string)
    requires NoKeywordInitial(s, ApprovalKeywords)
    ensures Sub(ApprovalNumber, s) == s
  {
    forall i | 0 <= i < |s| ensures MatchAt(ApprovalNumber, s, i).None? {
      NoKeywordMatch(s, i, ApprovalKeywords, 0, 4);
    }
    SubNoMatch(ApprovalNumber, s, 0);
  }

  lemma AccountPassAbsent(s: string)
    requires NoKeywordInitial(s, AccountKeywords)
    ensures Sub(AccountNumber, s) == s
  {
    forall i | 0 <= i < |s| ensures MatchAt(AccountNumber, s, i).None? {
      NoKeywordMatch(s, i, AccountKeywords, 0, 6);
    }
    SubNoMatch(AccountNumber, s, 0);
  }

  /** The number after the first `\s*[:：]?` choice that succeeds is a
      longest run of number characters. */
  lemma {:induction false} FirstSpacesRun(s: string, j: nat, n: nat, min: nat)
    requires j + n <= |s|
    decreases n
    ensures var r := TryFirstSpaces(s, j, n, min);
            r.Some? ==> r.value.1 == RunEnd(s, r.value.0, NumberChar)
  {
    if TryColon(s, j + n, min).None? && n > 0 {
      FirstSpacesRun(s, j, n - 1, min);
    }
  }

  lemma KeywordTailRun(s: string, j: nat, min: nat)
    requires j <= |s|
    ensures var r := KeywordTail(s, j, min);
            r.Some? ==> r.value.1 == RunEnd(s, r.value.0, NumberChar)
  {
    FirstSpacesRun(s, j, RunEnd(s, j, Space) - j, min);
  }

  /** A keyword match ends where the run of number characters after the
      keyword ends. */
  lemma {:induction false} KeywordMatchRun(s: string, i: nat, keywords: seq<string>, k: nat, min: nat)
    requires i <= |s|
    decreases |keywords| - k
    ensures var r := KeywordMatch(s, i, keywords, k, min);
            r.Some? ==> r.value.end == RunEnd(s, r.value.cut2, NumberChar)
  {
    if k < |keywords| {
      KeywordMatchRun(s, i, keywords, k + 1, min);
      if OccursAtIgnoreCase(s, keywords[k], i) {
        KeywordTailRun(s, i + |keywords[k]|, min);
      }
    }
  }

  /** The end of a run of `cls` characters, found by looking at them. */
  lemma {:induction false} RunEndAt(s: string, i: nat, e: nat, cls: CharClass)
    requires i <= e <= |s|
    requires forall t :: i <= t < e ==> InClass(s[t], cls)
    requires e < |s| ==> !InClass(s[e], cls)
    decreases e - i
    ensures RunEnd(s, i, cls) == e
  {
    if i < e {
      RunEndAt(s, i + 1, e, cls);
    }
  }

  /** Keywords that do not occur at i are skipped in the alternation. */
  lemma {:induction false} KeywordSkip(s: string, i: nat, keywords: seq<string>, k0: nat, k: nat, min: nat)
    requires i <= |s| && k0 <= k <= |keywords|
    requires forall k' :: k0 <= k' < k ==> !OccursAtIgnoreCase(s, keywords[k'], i)
    decreases k - k0
    ensures KeywordMatch(s, i, keywords, k0, min) == KeywordMatch(s, i, keywords, k, min)
  {
    if k0 < k {
      KeywordSkip(s, i, keywords, k0 + 1, k, min);
    }
  }

  /** A keyword whose first character differs does not occur. */
  lemma FirstCharDiffers(s: string, kw: string, i: nat)
    requires i < |s| && kw != [] && LowerChar(s[i]) != LowerChar(kw[0])
    ensures !OccursAtIgnoreCase(s, kw, i)
  {
    if i + |kw| <= |s| {
      assert Lower(s[i..i + |kw|])[0] == LowerChar(s[i]);
    }
  }

  /** `\s*[:：]?\s*` then the number, after a keyword ending at j, when a
      colon, one space and a run of at least `min` number characters follow:
      the first `\s*` takes nothing, the colon is taken, then the space. */
  lemma ColonTail(s: string, j: nat, min: nat, e: nat)
    requires j + 2 < e <= |s| && e - (j + 2) >= min && IsColon(s[j]) && s[j + 1] == ' '
    requires forall t :: j + 2 <= t < e ==> InClass(s[t], NumberChar)
    requires !IsSpace(s[j + 2]) && (e < |s| ==> !InClass(s[e], NumberChar))
    ensures KeywordTail(s, j, min) == Some((j + 2, e))
  {
    RunEndAt(s, j + 2, e, NumberChar);
    RunEndAt(s, j, j, Space);
    RunEndAt(s, j + 1, j + 2, Space);
    assert NumberAt(s, j + 2, min) == Some(e);
    assert TrySecondSpaces(s, j + 1, 1, min) == Some((j + 2, e));
    assert TryColon(s, j, min) == Some((j + 2, e));
  }

  /** The keyword at position k of the list occurs at i, with a tail after
      it: the alternation from k takes it. */
  lemma KeywordHit(s: string, i: nat, keywords: seq<string>, k: nat, min: nat, q: nat, e: nat)
    requires i <= |s| && k < |keywords| && OccursAtIgnoreCase(s, keywords[k], i)
    requires KeywordTail(s, i + |keywords[k]|, min) == Some((q, e)) && e > i
    ensures KeywordMatch(s, i, keywords, k, min) == Some(Match(i, i + |keywords[k]|, q, e))
  {
  }

  /** The first keyword of the list that occurs at i, with a tail after it,
      gives the match. */
  lemma KeywordAt(s: string, i: nat, keywords: seq<string>, k: nat, min: nat, q: nat, e: nat)
    requires i <= |s| && k < |keywords| && OccursAtIgnoreCase(s, keywords[k], i)
    requires forall k' :: 0 <= k' < k ==> !OccursAtIgnoreCase(s, keywords[k'], i)
    requires KeywordTail(s, i + |keywords[k]|, min) == Some((q, e)) && e > i
    ensures KeywordMatch(s, i, keywords, 0, min) == Some(Match(i, i + |keywords[k]|, q, e))
  {
    KeywordSkip(s, i, keywords, 0, k, min);
    KeywordHit(s, i, keywords, k, min, q, e);
  }

  /** Keywords earlier in the list whose first letter differs are skipped. */
  lemma EarlierKeywordsAbsent(s: string, i: nat, keywords: seq<string>, k: nat)
    requires i < |s| && k <= |keywords|
    requires forall k' :: 0 <= k' < k ==> keywords[k'] != [] && LowerChar(keywords[k'][0]) != LowerChar(s[i])
    ensures forall k' :: 0 <= k' < k ==> !OccursAtIgnoreCase(s, keywords[k'], i)
  {
    forall k' | 0 <= k' < k ensures !OccursAtIgnoreCase(s, keywords[k'], i) {
      FirstCharDiffers(s, keywords[k'], i);
    }
  }

  /** A keyword of the list at i, then a colon, one space and a run of at
      least `min` number characters ending at e; keywords earlier in the
      list do not occur at i. */
  lemma KeywordColonAt(s: string, i: nat, keywords: seq<string>, k: nat, min: nat, e: nat)
    requires k < |keywords| && OccursAtIgnoreCase(s, keywords[k], i)
    requires forall k' :: 0 <= k' < k ==> !OccursAtIgnoreCase(s, keywords[k'], i)
    requires i + |keywords[k]| + 2 < e <= |s| && e - (i + |keywords[k]| + 2) >= min
    requires IsColon(s[i + |keywords[k]|]) && s[i + |keywords[k]| + 1] == ' ' && !IsSpace(s[i + |keywords[k]| + 2])
    requires forall t :: i + |keywords[k]| + 2 <= t < e ==> InClass(s[t], NumberChar)
    requires e < |s| ==> !InClass(s[e], NumberChar)
    ensures KeywordMatch(s, i, keywords, 0, min) == Some(Match(i, i + |keywords[k]|, i + |keywords[k]| + 2, e))
  {
    ColonTail(s, i + |keywords[k]|, min, e);
    KeywordAt(s, i, keywords, k, min, i + |keywords[k]| + 2, e);
  }

  /**
   * A keyword of the list at i, ": " and a run of at least `min` number
   * characters ending at e: the match has the keyword as its first group,
   * ": " as its second and the whole run as its third. Keywords that come
   * earlier in the list start with other letters.
   */
  lemma LabelledNumberMatch(s: string, i: nat, j: nat, e: nat, keywords: seq<string>, k: nat, min: nat)
    requires k < |keywords| && keywords[k] != [] && j == i + |keywords[k]|
    requires forall k' :: 0 <= k' < k ==> keywords[k'] != [] && LowerChar(keywords[k'][0]) != LowerChar(keywords[k][0])
    requires j + 2 < e <= |s| && e - (j + 2) >= min
    requires s[i..j] == keywords[k]
    requires s[j] == ':' && s[j + 1] == ' ' && !IsSpace(s[j + 2])
    requires forall t :: j + 2 <= t < e ==> InClass(s[t], NumberChar)
    requires e < |s| ==> !InClass(s[e], NumberChar)
    ensures KeywordMatch(s, i, keywords, 0, min) == Some(Match(i, j, j + 2, e))
  {
    assert s[i] == keywords[k][0] by {
      assert s[i..j][0] == s[i];
    }
    EarlierKeywordsAbsent(s, i, keywords, k);
    KeywordColonAt(s, i, keywords, k, min, e);
  }

  /** Where the keyword, ": " and the number sit in `kw + ": " + num`. */
  lemma LabelParts(kw: string, num: string)
    ensures var s, j := kw + ": " + num, |kw|;
            && |s| == j + 2 + |num| && s[0..j] == kw && s[j] == ':' && s[j + 1] == ' '
            && s[j..j + 2] == ": " && s[j + 2..|s|] == num
            && forall t :: j + 2 <= t < |s| ==> s[t] == num[t - (j + 2)]
  {
  }

  /** The same with more text after the number. */
  lemma LabelRestParts(kw: string, num: string, rest: string)
    ensures var s, j := kw + ": " + num + rest, |kw|;
            && |s| == j + 2 + |num| + |rest| && s[0..j] == kw && s[j] == ':' && s[j + 1] == ' '
            && s[j..j + 2] == ": " && s[j + 2..j + 2 + |num|] == num
            && (forall t :: j + 2 <= t < j + 2 + |num| ==> s[t] == num[t - (j + 2)])
            && (rest != [] ==> s[j + 2 + |num|] == rest[0])
  {
  }

  /** The same with text before the keyword. */
  lemma PreLabelParts(pre: string, kw: string, num: string)
    ensures var s, j := pre + (kw + ": " + num), |pre| + |kw|;
            && |s| == j + 2 + |num| && s[|pre|..j] == kw && s[j] == ':' && s[j + 1] == ' '
            && s[j..j + 2] == ": " && s[j + 2..|s|] == num
            && forall t :: j + 2 <= t < |s| ==> s[t] == num[t - (j + 2)]
  {
  }

  /** A keyword match at i, replaced: the keyword and the separator stay,
      every digit of the number is masked, and the scan goes on after it. */
  lemma KeywordPassAt(rule: Rule, s: string, i: nat, m: Match)
    requires rule.ApprovalNumber? || rule.AccountNumber?
    requires i < |s| && MatchAt(rule, s, i) == Some(m)
    ensures SubFrom(rule, s, i)
            == MaskKeywordNumber(s[m.start..m.cut1], s[m.cut1..m.cut2], s[m.cut2..m.end]) + SubFrom(rule, s, m.end)
  {
    SubAtMatch(rule, s, i);
  }

  /** The same, with the match given by its positions. */
  lemma KeywordPassSlices(rule: Rule, s: string, i: nat, j: nat, e: nat)
    requires rule.ApprovalNumber? || rule.AccountNumber?
    requires i < |s| && MatchAt(rule, s, i) == Some(Match(i, j, j + 2, e))
    ensures SubFrom(rule, s, i) == MaskKeywordNumber(s[i..j], s[j..j + 2], s[j + 2..e]) + SubFrom(rule, s, e)
  {
    KeywordPassAt(rule, s, i, Match(i, j, j + 2, e));
  }

  /** A line that is one keyword match from start to end. */
  lemma KeywordWholeLine(rule: Rule, s: string, m: Match, r: string)
    requires rule.ApprovalNumber? || rule.AccountNumber?
    requires 0 < |s| && MatchAt(rule, s, 0) == Some(m) && m.end == |s|
    requires MaskKeywordNumber(s[m.start..m.cut1], s[m.cut1..m.cut2], s[m.cut2..m.end]) == r
    ensures Sub(rule, s) == r
  {
    KeywordPassAt(rule, s, 0, m);
    SubNoMatch(rule, s, |s|);
  }

  /** No two number characters (digits, '*', '-', ' ') side by side. */
  predicate NoNumberPair(s: string)
  {
    forall i :: 0 <= i < |s| - 1 ==> !InClass(s[i], NumberChar) || !InClass(s[i + 1], NumberChar)
  }

  lemma ShortNumberRuns(s: string)
    requires NoNumberPair(s)
    ensures forall p :: 0 <= p <= |s| ==> RunEnd(s, p, NumberChar) <= p + 1
  {
    forall p | 0 <= p <= |s| ensures RunEnd(s, p, NumberChar) <= p + 1 {
      if p + 1 < |s| && InClass(s[p], NumberChar) {
        assert !InClass(s[p + 1], NumberChar);
      }
    }
  }

  /** Keyword numbers are at least four characters long, so a line without
      two number characters side by side has no approval or account number,
      whatever keywords it holds. */
  lemma NoNumberPairNoKeywordNumbers(s: string)
    requires NoNumberPair(s)
    ensures NoMatchIn(ApprovalNumber, s, 0, |s|) && NoMatchIn(AccountNumber, s, 0, |s|)
  {
    ShortNumberRuns(s);
    forall i | 0 <= i < |s| ensures MatchAt(ApprovalNumber, s, i).None? && MatchAt(AccountNumber, s, i).None? {
      KeywordMatchRun(s, i, ApprovalKeywords, 0, 4);
      KeywordMatchRun(s, i, AccountKeywords, 0, 6);
    }
  }

  /** The same for a whole single-line text. */
  lemma KeywordPassesOnlyText(line: string, b: string, c: string, strict: bool)
    requires line != [] && forall j :: 0 <= j < |line| ==> !IsLineBreak(line[j])
    requires Sub(ApprovalNumber, line) == b && Sub(AccountNumber, b) == c
    requires NoDigits(c) && '@' !in c
    ensures RedactedText(line, strict) == c
  {
    KeywordPassesOnly(line, strict);
    SingleLineText(line, strict);
  }

  /** A line with no keyword number and no digit is changed by the e-mail
      pass alone. */
  lemma EmailOnlyText(line: string, f: string, strict: bool)
    requires line != [] && forall j :: 0 <= j < |line| ==> !IsLineBreak(line[j])
    requires NoNumberPair(line) && NoDigits(line) && Sub(Email, line) == f && NoDigits(f)
    ensures RedactedText(line, strict) == f
  {
    NoNumberPairNoKeywordNumbers(line);
    KeywordPassesKeep(line);
    NoDigitsNone(line);
    FewDigitsNoCard(line);
    DigitFreePhoneRrn(f);
    SingleLineText(line, strict);
  }

  /** A line whose only match of the rule is one that runs to its end. */
  lemma LastMatchLine(rule: Rule, s: string, i: nat, m: Match, r: string)
    requires i < |s| && NoMatchIn(rule, s, 0, i)
    requires MatchAt(rule, s, i) == Some(m) && m.end == |s| && Replacement(rule, s, m) == r
    ensures Sub(rule, s) == s[..i] + r
  {
    SubSkip(rule, s, 0, i);
    SubAtMatch(rule, s, i);
    SubNoMatch(rule, s, |s|);
  }

  /** A line that is two keyword matches, one after the other. */
  lemma KeywordTwoMatches(rule: Rule, s: string, j1: nat, e1: nat, j2: nat)
    requires rule.ApprovalNumber? || rule.AccountNumber?
    requires j1 + 2 <= e1 < |s| && e1 <= j2 && j2 + 2 <= |s|
    requires MatchAt(rule, s, 0) == Some(Match(0, j1, j1 + 2, e1))
    requires MatchAt(rule, s, e1) == Some(Match(e1, j2, j2 + 2, |s|))
    ensures Sub(rule, s)
            == MaskKeywordNumber(s[0..j1], s[j1..j1 + 2], s[j1 + 2..e1]) + MaskKeywordNumber(s[e1..j2], s[j2..j2 + 2], s[j2 + 2..|s|])
  {
    KeywordPassSlices(rule, s, 0, j1, e1);
    KeywordPassSlices(rule, s, e1, j2, |s|);
    SubNoMatch(rule, s, |s|);
  }
  /** The two keyword rules' patterns are their keyword alternations. */
  lemma KeywordRuleMatch(s: string, i: nat)
    requires i <= |s|
    ensures MatchAt(ApprovalNumber, s, i) == KeywordMatch(s, i, ApprovalKeywords, 0, 4)
    ensures MatchAt(AccountNumber, s, i) == KeywordMatch(s, i, AccountKeywords, 0, 6)
  {
  }

  /** An approval keyword at i, ": " at j and a run of number characters
      up to e: the approval pattern matches there. */
  lemma ApprovalMatchAt(s: string, i: nat, j: nat, e: nat, k: nat)
    requires k < |ApprovalKeywords| && j == i + |ApprovalKeywords[k]|
    requires forall k' :: 0 <= k' < k ==> LowerChar(ApprovalKeywords[k'][0]) != LowerChar(ApprovalKeywords[k][0])
    requires j + 2 < e <= |s| && e - (j + 2) >= 4
    requires s[i..j] == ApprovalKeywords[k]
    requires s[j] == ':' && s[j + 1] == ' ' && !IsSpace(s[j + 2])
    requires forall t :: j + 2 <= t < e ==> InClass(s[t], NumberChar)
    requires e < |s| ==> !InClass(s[e], NumberChar)
    ensures MatchAt(ApprovalNumber, s, i) == Some(Match(i, j, j + 2, e))
  {
    LabelledNumberMatch(s, i, j, e, ApprovalKeywords, k, 4);
    KeywordRuleMatch(s, i);
  }

  /** The same for an account keyword. */
  lemma AccountMatchAt(s: string, i: nat, j: nat, e: nat, k: nat)
    requires k < |AccountKeywords| && j == i + |AccountKeywords[k]|
    requires forall k' :: 0 <= k' < k ==> LowerChar(AccountKeywords[k'][0]) != LowerChar(AccountKeywords[k][0])
    requires j + 2 < e <= |s| && e - (j + 2) >= 6
    requires s[i..j] == AccountKeywords[k]
    requires s[j] == ':' && s[j + 1] == ' ' && !IsSpace(s[j + 2])
    requires forall t :: j + 2 <= t < e ==> InClass(s[t], NumberChar)
    requires e < |s| ==> !InClass(s[e], NumberChar)
    ensures MatchAt(AccountNumber, s, i) == Some(Match(i, j, j + 2, e))
  {
    LabelledNumberMatch(s, i, j, e, AccountKeywords, k, 6);
    KeywordRuleMatch(s, i);
  }

  /** A run copied from num into s at p keeps its characters' classes. */
  lemma NumberRunIn(s: string, p: nat, num: string)
    requires p + |num| <= |s| && forall t :: p <= t < p + |num| ==> s[t] == num[t - p]
    requires forall t :: 0 <= t < |num| ==> InClass(num[t], NumberChar)
    ensures forall t :: p <= t < p + |num| ==> InClass(s[t], NumberChar)
  {
    forall t | p <= t < p + |num| ensures InClass(s[t], NumberChar) {
      assert s[t] == num[t - p];
    }
  }

  /** A line that is an approval keyword, ": " and a run of number
      characters: the whole run is masked. */
  lemma ApprovalLabelledLine(num: string, k: nat)
    requires k < |ApprovalKeywords|
    requires forall k' :: 0 <= k' < k ==> LowerChar(ApprovalKeywords[k'][0]) != LowerChar(ApprovalKeywords[k][0])
    requires |num| >= 4 && !IsSpace(num[0])
    requires forall t :: 0 <= t < |num| ==> InClass(num[t], NumberChar)
    ensures Sub(ApprovalNumber, ApprovalKeywords[k] + ": " + num) == ApprovalKeywords[k] + ": " + AllMasked(num)
  {
    var s, j := ApprovalKeywords[k] + ": " + num, |ApprovalKeywords[k]|;
    LabelParts(ApprovalKeywords[k], num);
    NumberRunIn(s, j + 2, num);
    ApprovalMatchAt(s, 0, j, |s|, k);
    KeywordWholeLine(ApprovalNumber, s, Match(0, j, j + 2, |s|), ApprovalKeywords[k] + ": " + AllMasked(num));
  }

  /** The same for an account keyword. */
  lemma AccountLabelledLine(num: string, k: nat)
    requires k < |AccountKeywords|
    requires forall k' :: 0 <= k' < k ==> LowerChar(AccountKeywords[k'][0]) != LowerChar(AccountKeywords[k][0])
    requires |num| >= 6 && !IsSpace(num[0])
    requires forall t :: 0 <= t < |num| ==> InClass(num[t], NumberChar)
    ensures Sub(AccountNumber, AccountKeywords[k] + ": " + num) == AccountKeywords[k] + ": " + AllMasked(num)
  {
    var s, j := AccountKeywords[k] + ": " + num, |AccountKeywords[k]|;
    LabelParts(AccountKeywords[k], num);
    NumberRunIn(s, j + 2, num);
    AccountMatchAt(s, 0, j, |s|, k);
    KeywordWholeLine(AccountNumber, s, Match(0, j, j + 2, |s|), AccountKeywords[k] + ": " + AllMasked(num));
  }

  /** A keyword, ": " and a number, replaced: only the number is masked. */
  lemma MaskSlices(s: string, i: nat, j: nat, e: nat, kw: string, num: string)
    requires i <= j && j + 2 <= e <= |s|
    requires s[i..j] == kw && s[j..j + 2] == ": " && s[j + 2..e] == num
    ensures MaskKeywordNumber(s[i..j], s[j..j + 2], s[j + 2..e]) == kw + ": " + AllMasked(num)
  {
  }

  /** Equal pieces make equal concatenations. */
  lemma JoinEqual(a: string, a': string, b: string, b': string)
    requires a == a' && b == b'
    ensures a + b == a' + b'
  {
  }

  /** Where the pieces of two labelled numbers `kw1: num1kw2: num2` sit. */
  lemma TwoLabelFacts(kw1: string, num1: string, kw2: string, num2: string)
    requires kw2 != [] && num1 != [] && num2 != []
    requires forall t :: 0 <= t < |num1| ==> InClass(num1[t], NumberChar)
    requires forall t :: 0 <= t < |num2| ==> InClass(num2[t], NumberChar)
    ensures var first, j1 := kw1 + ": " + num1, |kw1|;
            var s, e1, j2 := first + (kw2 + ": " + num2), |first|, |first| + |kw2|;
            && e1 == j1 + 2 + |num1| && |s| == j2 + 2 + |num2|
            && s[0..j1] == kw1 && s[e1..j2] == kw2
            && s[j1..j1 + 2] == ": " && s[j2..j2 + 2] == ": " && s[j1 + 2..e1] == num1 && s[j2 + 2..|s|] == num2
            && s[j1] == ':' && s[j1 + 1] == ' ' && s[j1 + 2] == num1[0]
            && s[j2] == ':' && s[j2 + 1] == ' ' && s[j2 + 2] == num2[0]
            && (forall t :: j1 + 2 <= t < e1 ==> InClass(s[t], NumberChar))
            && (forall t :: j2 + 2 <= t < |s| ==> InClass(s[t], NumberChar))
            && s[e1] == kw2[0]
  {
    var first, second := kw1 + ": " + num1, kw2 + ": " + num2;
    var s, j1, j2 := first + second, |kw1|, |first| + |kw2|;
    LabelRestParts(kw1, num1, second);
    PreLabelParts(first, kw2, num2);
    NumberRunIn(s, j1 + 2, num1);
    NumberRunIn(s, j2 + 2, num2);
  }

  /** Two labelled approval numbers, the second keyword where the first run
      ends and the second run at the end of the text: both are replaced. */
  lemma ApprovalTwoAt(s: string, j1: nat, e1: nat, k1: nat, j2: nat, k2: nat)
    requires k1 < |ApprovalKeywords| && j1 == |ApprovalKeywords[k1]|
    requires k2 < |ApprovalKeywords| && j2 == e1 + |ApprovalKeywords[k2]|
    requires forall k' :: 0 <= k' < k1 ==> LowerChar(ApprovalKeywords[k'][0]) != LowerChar(ApprovalKeywords[k1][0])
    requires forall k' :: 0 <= k' < k2 ==> LowerChar(ApprovalKeywords[k'][0]) != LowerChar(ApprovalKeywords[k2][0])
    requires j1 + 2 < e1 && e1 - (j1 + 2) >= 4 && j2 + 2 < |s| && |s| - (j2 + 2) >= 4
    requires s[0..j1] == ApprovalKeywords[k1] && s[e1..j2] == ApprovalKeywords[k2]
    requires s[j1..j1 + 2] == ": " && s[j2..j2 + 2] == ": "
    requires s[j1] == ':' && s[j1 + 1] == ' ' && !IsSpace(s[j1 + 2])
    requires s[j2] == ':' && s[j2 + 1] == ' ' && !IsSpace(s[j2 + 2])
    requires forall t :: j1 + 2 <= t < e1 ==> InClass(s[t], NumberChar)
    requires forall t :: j2 + 2 <= t < |s| ==> InClass(s[t], NumberChar)
    requires !InClass(s[e1], NumberChar)
    ensures Sub(ApprovalNumber, s)
            == (ApprovalKeywords[k1] + ": " + AllMasked(s[j1 + 2..e1])) + (ApprovalKeywords[k2] + ": " + AllMasked(s[j2 + 2..|s|]))
  {
    ApprovalMatchAt(s, 0, j1, e1, k1);
    ApprovalMatchAt(s, e1, j2, |s|, k2);
    KeywordTwoMatches(ApprovalNumber, s, j1, e1, j2);
    MaskSlices(s, 0, j1, e1, ApprovalKeywords[k1], s[j1 + 2..e1]);
    MaskSlices(s, e1, j2, |s|, ApprovalKeywords[k2], s[j2 + 2..|s|]);
    JoinEqual(MaskKeywordNumber(s[0..j1], s[j1..j1 + 2], s[j1 + 2..e1]), ApprovalKeywords[k1] + ": " + AllMasked(s[j1 + 2..e1]),
              MaskKeywordNumber(s[e1..j2], s[j2..j2 + 2], s[j2 + 2..|s|]), ApprovalKeywords[k2] + ": " + AllMasked(s[j2 + 2..|s|]));
  }

  /** A line that is two labelled approval numbers, the first run ending at
      the second keyword: both runs are masked. */
  lemma ApprovalTwoLabelled(num1: string, k1: nat, num2: string, k2: nat)
    requires k1 < |ApprovalKeywords| && k2 < |ApprovalKeywords|
    requires forall k' :: 0 <= k' < k1 ==> LowerChar(ApprovalKeywords[k'][0]) != LowerChar(ApprovalKeywords[k1][0])
    requires forall k' :: 0 <= k' < k2 ==> LowerChar(ApprovalKeywords[k'][0]) != LowerChar(ApprovalKeywords[k2][0])
    requires |num1| >= 4 && !IsSpace(num1[0]) && forall t :: 0 <= t < |num1| ==> InClass(num1[t], NumberChar)
    requires |num2| >= 4 && !IsSpace(num2[0]) && forall t :: 0 <= t < |num2| ==> InClass(num2[t], NumberChar)
    requires !InClass(ApprovalKeywords[k2][0], NumberChar)
    ensures Sub(ApprovalNumber, (ApprovalKeywords[k1] + ": " + num1) + (ApprovalKeywords[k2] + ": " + num2))
            == (ApprovalKeywords[k1] + ": " + AllMasked(num1)) + (ApprovalKeywords[k2] + ": " + AllMasked(num2))
  {
    var first, second := ApprovalKeywords[k1] + ": " + num1, ApprovalKeywords[k2] + ": " + num2;
    var s, j1, j2 := first + second, |ApprovalKeywords[k1]|, |first| + |ApprovalKeywords[k2]|;
    TwoLabelFacts(ApprovalKeywords[k1], num1, ApprovalKeywords[k2], num2);
    ApprovalTwoAt(s, j1, |first|, k1, j2, k2);
  }

  // ------------------------------------------------------------ e-mail

  /** The greedy `[A-Za-z0-9.-]+` gives way to the last dot that works. */
  lemma {:induction false} DomainBack(s: string, lo: nat, q: nat, dot: nat)
    requires 1 <= lo <= dot <= q < |s|
    requires forall t :: dot < t <= q ==> s[t] != '.'
    decreases q - dot
    ensures DomainFrom(s, lo, q) == DomainFrom(s, lo, dot)
  {
    if q > dot {
      DomainBack(s, lo, q - 1, dot);
    }
  }

  /** No e-mail match starts before i when the text up to i holds no '@'
      and ends with a character the local part cannot hold. */
  lemma EmailNotBefore(s: string, i: nat)
    requires 0 < i <= |s| && !InClass(s[i - 1], EmailLocal)
    requires forall t :: 0 <= t < i ==> s[t] != '@'
    ensures NoMatchIn(Email, s, 0, i)
  {
    forall k | 0 <= k < i ensures MatchAt(Email, s, k).None? {
      var a := RunEnd(s, k, EmailLocal);
      assert a < i;
    }
  }

  /** Where the local part, '@', the host, the dot and the letters sit. */
  lemma AddressParts(pre: string, local: string, host: string, tld: string)
    ensures var s := pre + local + "@" + host + "." + tld;
            var i, a := |pre|, |pre| + |local|;
            var dot := a + 1 + |host|;
            && s[..i] == pre && s[i..a] == local && s[a + 1..] == host + "." + tld
            && s[a] == '@' && s[dot] == '.' && (local != [] ==> s[i] == local[0])
            && (pre != [] ==> s[i - 1] == pre[i - 1])
            && (forall t :: i <= t < a ==> s[t] == local[t - i])
            && (forall t :: a < t < dot ==> s[t] == host[t - a - 1])
            && (forall t :: dot < t < |s| ==> s[t] == tld[t - dot - 1])
            && (forall t :: 0 <= t < i ==> s[t] == pre[t])
            && |s| == dot + 1 + |tld|
  {
  }

  /** The domain: the greedy run takes host, dot and letters, and gives way
      to the dot before the letters. */
  lemma DomainTail(s: string, a: nat, dot: nat)
    requires a + 1 < dot < |s| - 2 && s[dot] == '.'
    requires forall t :: a < t < |s| ==> InClass(s[t], EmailDomain)
    requires forall t :: dot < t < |s| ==> InClass(s[t], Letter) && s[t] != '.'
    ensures RunEnd(s, a + 1, EmailDomain) == |s| && DomainFrom(s, a + 2, |s| - 1) == Some(|s|)
  {
    RunEndAt(s, a + 1, |s|, EmailDomain);
    RunEndAt(s, dot + 1, |s|, Letter);
    DomainBack(s, a + 2, |s| - 1, dot);
    assert DomainFrom(s, a + 2, dot) == Some(|s|);
  }

  /** An address at the end of a line, after a non-word character, with a
      local part of 1 to 64 characters and a domain ending in a dot and two or
      more letters, is one e-mail match. */
  lemma EmailMatchAt(s: string, i: nat, a: nat, dot: nat)
    requires 0 < i < a <= i + 64 && a + 1 < dot < |s| - 2
    requires !IsWordChar(s[i - 1]) && IsWordChar(s[i]) && s[a] == '@' && s[dot] == '.'
    requires forall t :: i <= t < a ==> InClass(s[t], EmailLocal)
    requires forall t :: a < t < |s| ==> InClass(s[t], EmailDomain)
    requires forall t :: dot < t < |s| ==> InClass(s[t], Letter) && s[t] != '.'
    ensures MatchAt(Email, s, i) == Some(Match(i, a, a + 1, |s|))
  {
    RunEndAt(s, i, a, EmailLocal);
    DomainTail(s, a, dot);
  }

  /** Such an address from i to the end of the text, with no '@' before it:
      the text before stays and the address is masked. */
  lemma EmailLineAt(s: string, i: nat, a: nat, dot: nat)
    requires 0 < i < a <= i + 64 && a + 1 < dot < |s| - 2
    requires !IsWordChar(s[i - 1]) && !InClass(s[i - 1], EmailLocal) && IsWordChar(s[i]) && s[a] == '@' && s[dot] == '.'
    requires forall t :: 0 <= t < i ==> s[t] != '@'
    requires forall t :: i <= t < a ==> InClass(s[t], EmailLocal)
    requires forall t :: a < t < |s| ==> InClass(s[t], EmailDomain)
    requires forall t :: dot < t < |s| ==> InClass(s[t], Letter) && s[t] != '.'
    ensures Sub(Email, s) == s[..i] + MaskEmail(s[i..a], s[a + 1..])
  {
    EmailNotBefore(s, i);
    EmailMatchAt(s, i, a, dot);
    assert s[a + 1..|s|] == s[a + 1..];
    LastMatchLine(Email, s, i, Match(i, a, a + 1, |s|), MaskEmail(s[i..a], s[a + 1..]));
  }

  /** The classes of the line's characters, from those of its pieces. */
  lemma AddressClasses(pre: string, local: string, host: string, tld: string)
    requires '@' !in pre
    requires forall t :: 0 <= t < |local| ==> InClass(local[t], EmailLocal)
    requires forall t :: 0 <= t < |host| ==> InClass(host[t], EmailDomain)
    requires '.' !in tld && forall t :: 0 <= t < |tld| ==> InClass(tld[t], Letter)
    ensures var s := pre + local + "@" + host + "." + tld;
            var i, a := |pre|, |pre| + |local|;
            var dot := a + 1 + |host|;
            && (forall t :: 0 <= t < i ==> s[t] != '@')
            && (forall t :: i <= t < a ==> InClass(s[t], EmailLocal))
            && (forall t :: a < t < |s| ==> InClass(s[t], EmailDomain))
            && (forall t :: dot < t < |s| ==> InClass(s[t], Letter) && s[t] != '.')
  {
    var s := pre + local + "@" + host + "." + tld;
    var i, a := |pre|, |pre| + |local|;
    var dot := a + 1 + |host|;
    AddressParts(pre, local, host, tld);
    forall t | 0 <= t < i ensures s[t] != '@' {
      assert pre[t] in pre;
    }
    forall t | a < t < |s| ensures InClass(s[t], EmailDomain) && (dot < t ==> InClass(s[t], Letter) && s[t] != '.') {
      if dot < t { assert tld[t - dot - 1] in tld; }
    }
  }

  /** The e-mail pass on such a line: the address is replaced by the masked
      local part, '@' and the domain. */
  lemma EmailLineSub(pre: string, local: string, host: string, tld: string)
    requires '@' !in pre && pre != [] && !InClass(pre[|pre| - 1], EmailLocal) && !IsWordChar(pre[|pre| - 1])
    requires 1 <= |local| <= 64 && IsWordChar(local[0])
    requires forall t :: 0 <= t < |local| ==> InClass(local[t], EmailLocal)
    requires host != [] && forall t :: 0 <= t < |host| ==> InClass(host[t], EmailDomain)
    requires |tld| >= 2 && '.' !in tld && forall t :: 0 <= t < |tld| ==> InClass(tld[t], Letter)
    ensures Sub(Email, pre + local + "@" + host + "." + tld) == pre + MaskEmail(local, host + "." + tld)
  {
    var s := pre + local + "@" + host + "." + tld;
    var i, a := |pre|, |pre| + |local|;
    AddressParts(pre, local, host, tld);
    AddressClasses(pre, local, host, tld);
    EmailLineAt(s, i, a, a + 1 + |host|);
    JoinEqual(s[..i], pre, MaskEmail(s[i..a], s[a + 1..]), MaskEmail(local, host + "." + tld));
  }

  // --------------------------------------------------------- phone runs

  /** `[- .]?\d{4}\b` at q: four digits ending on a boundary. */
  lemma PhoneLastAt(s: string, q: nat)
    requires DigitsAt(s, q, 4) && IsBoundary(s, q + 4)
    ensures PhoneLast(s, q) == Some(q + 4)
  {
    assert OptPhoneSeparator(s, q) == q;
  }

  /** Eleven digits: `0\d\d`, then four and four digits. */
  lemma PhoneRun11(s: string, p: nat)
    requires DigitsAt(s, p, 11) && IsBoundary(s, p + 11)
    ensures PhoneTail(s, p + 3) == Some(p + 11)
  {
    assert OptPhoneSeparator(s, p + 3) == p + 3;
    assert DigitsAt(s, p + 3, 4) && DigitsAt(s, p + 7, 4);
    PhoneLastAt(s, p + 7);
  }

  /** Ten digits: `0\d\d`, then three and four digits, the four-digit middle
      failing for want of a fourth final digit. */
  lemma PhoneRun10(s: string, p: nat)
    requires DigitsAt(s, p, 10) && IsBoundary(s, p + 10)
    requires p + 10 < |s| ==> !IsDigit(s[p + 10])
    ensures PhoneTail(s, p + 3) == Some(p + 10)
  {
    assert OptPhoneSeparator(s, p + 3) == p + 3;
    assert OptPhoneSeparator(s, p + 7) == p + 7;
    assert !DigitsAt(s, p + 7, 4);
    assert PhoneLast(s, p + 7).None?;
    assert DigitsAt(s, p + 3, 3) && DigitsAt(s, p + 6, 4);
    PhoneLastAt(s, p + 6);
  }

  /** Nine digits: `0\d\d` leaves too few digits, so `0\d` then three and
      four digits. */
  lemma PhoneRun9(s: string, p: nat)
    requires DigitsAt(s, p, 9) && IsBoundary(s, p + 9)
    requires p + 9 < |s| ==> !IsDigit(s[p + 9])
    ensures PhoneTail(s, p + 3).None? && PhoneTail(s, p + 2) == Some(p + 9)
  {
    assert OptPhoneSeparator(s, p + 3) == p + 3;
    assert OptPhoneSeparator(s, p + 6) == p + 6;
    assert OptPhoneSeparator(s, p + 2) == p + 2;
    assert !DigitsAt(s, p + 6, 4);
    assert PhoneLast(s, p + 7).None? && PhoneLast(s, p + 6).None?;
    assert PhoneTail(s, p + 3).None?;
    assert DigitsAt(s, p + 2, 3) && DigitsAt(s, p + 5, 4);
    PhoneLastAt(s, p + 5);
  }

  /** A run of nine to eleven digits starting with '0', on word boundaries, is
      one phone match. */
  lemma PhoneRunMatch(s: string, p: nat, n: nat)
    requires DigitsAt(s, p, n) && 9 <= n <= 11 && s[p] == '0' && IsBoundary(s, p)
    requires p + n < |s| ==> !IsWordChar(s[p + n])
    ensures PhoneMatch(s, p) == Some(p + n)
  {
    assert IsBoundary(s, p + n);
    assert DigitsAt(s, p + 1, 2);
    if n == 11 {
      PhoneRun11(s, p);
    } else if n == 10 {
      PhoneRun10(s, p);
    } else {
      PhoneRun9(s, p);
    }
  }

  /** The phone pass on a framed run of nine to eleven digits starting with
      '0': the run keeps its last four digits. */
  lemma FramedPhoneSub(pre: string, d: string, post: string)
    requires Framed(pre, post) && AllDigits(d) && 9 <= |d| <= 11 && d[0] == '0'
    ensures Sub(Phone, pre + d + post) == pre + KeptLast(d, 4) + post
  {
    var s, p, n := pre + d + post, |pre|, |d|;
    assert DigitsAt(s, p, n) by {
      forall t | p <= t < p + n ensures IsDigit(s[t]) { assert s[t] == d[t - p]; }
    }
    assert s[p] == d[0];
    assert p > 0 ==> s[p - 1] == pre[p - 1];
    assert p + n < |s| ==> s[p + n] == post[0];
    PhoneRunMatch(s, p, n);
    OutsideNoMatch(Phone, pre, d, post);
    SubOneMatch(Phone, pre, d, post);
    assert s[p..p + n] == d;
  }

  /**
   * A framed run of nine to eleven digits starting with '0', on a line with
   * no approval or account number, keeps only its last four digits, whether
   * or not the line names a card or an RRN and whatever the strictness.
   */
  lemma FramedPhoneRunMasked(pre: string, d: string, post: string, strict: bool)
    requires Framed(pre, post) && AllDigits(d) && 9 <= |d| <= 11 && d[0] == '0'
    requires var line := pre + d + post;
             NoMatchIn(ApprovalNumber, line, 0, |line|) && NoMatchIn(AccountNumber, line, 0, |line|)
    ensures RedactedLine(pre + d + post, strict) == pre + KeptLast(d, 4) + post
    ensures DigitsOf(RedactedLine(pre + d + post, strict)) == d[|d| - 4..]
  {
    var line := pre + d + post;
    KeywordPassesKeep(line);
    FramedDigits(pre, d, post);
    AllDigitsOf(d);
    FewDigitsNoCard(line);
    assert '@' !in d by {
      forall i | 0 <= i < |d| ensures d[i] != '@' {}
    }
    assert '@' !in line;
    forall k | 0 <= k < |line| ensures MatchAt(Email, line, k).None? {
      NoAtNoEmail(line, k);
    }
    SubNoMatch(Email, line, 0);
    FramedPhoneSub(pre, d, post);
    KeptLastDigits(d, 4);
    FramedMaskedQuiet(pre, d, post);
    FramedDigits(pre, KeptLast(d, 4), post);
  }

  // ------------------------------------------------- the phone test line

  const PhoneLabel: string := "전화: "
  const PhoneNumber: string := "01012345678"

  lemma PhoneLineFacts()
    ensures Framed(PhoneLabel, "") && AllDigits(PhoneNumber) && |PhoneNumber| == 11 && PhoneNumber[0] == '0'
    ensures NoKeywordInitial(PhoneLabel + PhoneNumber, ApprovalKeywords)
    ensures NoKeywordInitial(PhoneLabel + PhoneNumber, AccountKeywords)
  {
  }

  lemma PhoneNumberMask()
    ensures KeptLast(PhoneNumber, 4) == "*******5678"
  {
    KeptLastRun(PhoneNumber, 4);
  }

  /** The phone test's line: the number keeps its last four digits, so the
      text ends with "5678" and no longer holds the number. */
  lemma PhoneMaskedInText(strict: bool)
    ensures RedactedText(PhoneLabel + PhoneNumber, strict) == PhoneLabel + "*******5678"
  {
    var line := PhoneLabel + PhoneNumber;
    PhoneLineFacts();
    NoKeywordNumbers(line);
    assert line == PhoneLabel + PhoneNumber + "";
    FramedPhoneRunMasked(PhoneLabel, PhoneNumber, "", strict);
    PhoneNumberMask();
    assert forall j :: 0 <= j < |line| ==> !IsLineBreak(line[j]);
    SingleLineText(line, strict);
  }

  // ------------------------------------------------- the e-mail test line

  const EmailLabel: string := "문의: "

  lemma EmailLabelFacts()
    ensures !InClass(EmailLabel[|EmailLabel| - 1], EmailLocal) && !IsWordChar(EmailLabel[|EmailLabel| - 1])
    ensures '@' !in EmailLabel
  {
  }

  /** The e-mail test's address: "user@example.com" becomes "u***@example.com". */
  lemma EmailAddressMask()
    ensures MaskEmail("user", "example" + "." + "com") == "u***@example.com"
  {
  }

  lemma EmailLineNumbers()
    ensures NoNumberPair(EmailLabel + "user" + "@" + "example" + "." + "com")
  {
  }

  lemma EmailLineDigits()
    ensures NoDigits(EmailLabel + "user" + "@" + "example" + "." + "com")
    ensures NoDigits(EmailLabel + "u***@example.com")
  {
  }

  lemma EmailLineBreaks()
    ensures var line := EmailLabel + "user" + "@" + "example" + "." + "com";
            forall j :: 0 <= j < |line| ==> !IsLineBreak(line[j])
  {
  }

  lemma EmailAddressParts()
    ensures forall t :: 0 <= t < |"user"| ==> InClass("user"[t], EmailLocal)
    ensures forall t :: 0 <= t < |"example"| ==> InClass("example"[t], EmailDomain)
    ensures forall t :: 0 <= t < |"com"| ==> InClass("com"[t], Letter)
    ensures '.' !in "com" && IsWordChar("user"[0])
  {
  }

  /** The e-mail test's line: the address loses its local part but the first
      character, whatever the strictness. The line holds the initials of
      "MID" and "ACCOUNT", but no number after them. */
  lemma EmailMaskedInText(strict: bool)
    ensures RedactedText(EmailLabel + "user" + "@" + "example" + "." + "com", strict)
            == EmailLabel + "u***@example.com"
  {
    var line := EmailLabel + "user" + "@" + "example" + "." + "com";
    EmailLabelFacts();
    EmailAddressParts();
    EmailLineSub(EmailLabel, "user", "example", "com");
    EmailAddressMask();
    EmailLineNumbers();
    EmailLineDigits();
    EmailLineBreaks();
    EmailOnlyText(line, EmailLabel + "u***@example.com", strict);
  }

  // ---------------------------------------------- the approval test line

  const ApprovalLabel: string := "승인번호"
  const ApprovalValue: string := "99887766"

  lemma ApprovalLineFacts()
    ensures ApprovalLabel == ApprovalKeywords[0]
    ensures !IsSpace(ApprovalValue[0]) && forall t :: 0 <= t < |ApprovalValue| ==> InClass(ApprovalValue[t], NumberChar)
    ensures AllMasked(ApprovalValue) == "********"
  {
  }

  lemma ApprovalMaskedFacts()
    ensures var c := ApprovalLabel + ": " + "********";
            NoKeywordInitial(c, AccountKeywords) && NoDigits(c) && '@' !in c
    ensures var line := ApprovalLabel + ": " + ApprovalValue;
            forall j :: 0 <= j < |line| ==> !IsLineBreak(line[j])
  {
  }

  /** The approval test's line: no digit of "99887766" survives. */
  lemma ApprovalMaskedInText(strict: bool)
    ensures RedactedText(ApprovalLabel + ": " + ApprovalValue, strict) == ApprovalLabel + ": " + "********"
  {
    var line, c := ApprovalLabel + ": " + ApprovalValue, ApprovalLabel + ": " + "********";
    ApprovalLineFacts();
    ApprovalMaskedFacts();
    ApprovalLabelledLine(ApprovalValue, 0);
    AccountPassAbsent(c);
    KeywordPassesOnlyText(line, c, c, strict);
  }

  // ----------------------------------------------- the account test line

  const AccountLabel: string := "계좌번호"
  const AccountValue: string := "110-123-456789"

  lemma AccountLineFacts()
    ensures AccountLabel == AccountKeywords[0]
    ensures !IsSpace(AccountValue[0]) && forall t :: 0 <= t < |AccountValue| ==> InClass(AccountValue[t], NumberChar)
    ensures AllMasked(AccountValue) == "***-***-******"
  {
  }

  lemma AccountMaskedFacts()
    ensures NoKeywordInitial(AccountLabel + ": " + AccountValue, ApprovalKeywords)
    ensures var c := AccountLabel + ": " + "***-***-******"; NoDigits(c) && '@' !in c
    ensures var line := AccountLabel + ": " + AccountValue;
            forall j :: 0 <= j < |line| ==> !IsLineBreak(line[j])
  {
  }

  /** The account test's line: the dashes stay and no digit of
      "110-123-456789" survives. */
  lemma AccountMaskedInText(strict: bool)
    ensures RedactedText(AccountLabel + ": " + AccountValue, strict) == AccountLabel + ": " + "***-***-******"
  {
    var line, c := AccountLabel + ": " + AccountValue, AccountLabel + ": " + "***-***-******";
    AccountLineFacts();
    AccountMaskedFacts();
    ApprovalPassAbsent(line);
    AccountLabelledLine(AccountValue, 0);
    KeywordPassesOnlyText(line, line, c, strict);
  }

  // ---------------------------------- the transaction and terminal line

  const TransactionLabel: string := "거래번호"
  /** `[0-9*\- ]` includes ' ', so the first number takes the space after it. */
  const TransactionValue: string := "2023-9988 "
  const TerminalLabel: string := "단말기ID"
  const TerminalValue: string := "123456"

  lemma TransactionLineFacts()
    ensures TransactionLabel == ApprovalKeywords[2] && TerminalLabel == ApprovalKeywords[5]
    ensures forall k' :: 0 <= k' < 2 ==> LowerChar(ApprovalKeywords[k'][0]) != LowerChar(ApprovalKeywords[2][0])
    ensures forall k' :: 0 <= k' < 5 ==> LowerChar(ApprovalKeywords[k'][0]) != LowerChar(ApprovalKeywords[5][0])
    ensures !IsSpace(TransactionValue[0]) && forall t :: 0 <= t < |TransactionValue| ==> InClass(TransactionValue[t], NumberChar)
    ensures !IsSpace(TerminalValue[0]) && forall t :: 0 <= t < |TerminalValue| ==> InClass(TerminalValue[t], NumberChar)
    ensures !InClass(TerminalLabel[0], NumberChar)
    ensures AllMasked(TransactionValue) == "****-**** " && AllMasked(TerminalValue) == "******"
  {
  }

  lemma TransactionMaskedFacts()
    ensures var c := (TransactionLabel + ": " + "****-**** ") + (TerminalLabel + ": " + "******");
            NoKeywordInitial(c, AccountKeywords) && NoDigits(c) && '@' !in c
    ensures var line := (TransactionLabel + ": " + TransactionValue) + (TerminalLabel + ": " + TerminalValue);
            forall j :: 0 <= j < |line| ==> !IsLineBreak(line[j])
  {
  }

  /** The transaction and terminal test's line: neither "2023-9988" nor
      "123456" survives. "단말기ID" is tried before "단말기". */
  lemma TransactionMaskedInText(strict: bool)
    ensures RedactedText((TransactionLabel + ": " + TransactionValue) + (TerminalLabel + ": " + TerminalValue), strict)
            == (TransactionLabel + ": " + "****-**** ") + (TerminalLabel + ": " + "******")
  {
    var line := (TransactionLabel + ": " + TransactionValue) + (TerminalLabel + ": " + TerminalValue);
    var c := (TransactionLabel + ": " + "****-**** ") + (TerminalLabel + ": " + "******");
    TransactionLineFacts();
    TransactionMaskedFacts();
    ApprovalTwoLabelled(TransactionValue, 2, TerminalValue, 5);
    AccountPassAbsent(c);
    KeywordPassesOnlyText(line, c, c, strict);
  }
}
