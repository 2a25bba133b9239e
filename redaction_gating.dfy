/**
 * The keyword gating of `redact_text` in app/core/redaction.py. These lemmas
 * say which passes touch a line: a loose card run only when the line names
 * a card, an RRN only when it names one, a 4-4-4-4 group always. Each is
 * stated on the shape of line the passes look for. The lines of the
 * module's own tests are worked through at the end.
 */
module RedactionGating {
  import opened Common
  import opened RedactionMasks
  import opened RedactionPatterns
  import opened Redaction

  // ------------------------------------------------ digits a match needs

  /** The number of digits in s[i..j]. */
  function DigitsIn(s: string, i: nat, j: nat): (n: nat)
    requires i <= j <= |s|
    ensures n <= j - i
  {
    |DigitsOf(s[i..j])|
  }

  lemma DigitsInSplit(s: string, i: nat, j: nat, k: nat)
    requires i <= j <= k <= |s|
    ensures DigitsIn(s, i, k) == DigitsIn(s, i, j) + DigitsIn(s, j, k)
  {
    assert s[i..k] == s[i..j] + s[j..k];
    DigitsOfAppend(s[i..j], s[j..k]);
  }

  lemma DigitsInRun(s: string, p: nat, n: nat)
    requires DigitsAt(s, p, n)
    ensures DigitsIn(s, p, p + n) == n
  {
    assert AllDigits(s[p..p + n]);
    AllDigitsOf(s[p..p + n]);
  }

  /** Digits between i and j are digits of the whole text. */
  lemma DigitsInWhole(s: string, i: nat, j: nat)
    requires i <= j <= |s|
    ensures DigitsIn(s, i, j) <= |DigitsOf(s)|
  {
    DigitsInSplit(s, 0, i, |s|);
    DigitsInSplit(s, i, j, |s|);
    assert s[0..|s|] == s;
  }

  /** `[- .]?\d{4}\b` holds four digits. */
  lemma PhoneLastDigits(s: string, q: nat)
    requires q <= |s| && PhoneLast(s, q).Some?
    ensures DigitsIn(s, q, |s|) >= 4
  {
    var p := OptPhoneSeparator(s, q);
    DigitsInSplit(s, q, p, |s|);
    DigitsInSplit(s, p, p + 4, |s|);
    DigitsInRun(s, p, 4);
  }

  /** The middle and last parts of a phone number hold seven digits. */
  lemma PhoneTailDigits(s: string, p: nat)
    requires p <= |s| && PhoneTail(s, p).Some?
    ensures DigitsIn(s, p, |s|) >= 7
  {
    var m := OptPhoneSeparator(s, p);
    DigitsInSplit(s, p, m, |s|);
    var four := if DigitsAt(s, m, 4) then PhoneLast(s, m + 4) else None;
    if four.Some? {
      DigitsInSplit(s, m, m + 4, |s|);
      DigitsInRun(s, m, 4);
      PhoneLastDigits(s, m + 4);
    } else {
      DigitsInSplit(s, m, m + 3, |s|);
      DigitsInRun(s, m, 3);
      PhoneLastDigits(s, m + 3);
    }
  }

  /** A phone number holds at least nine digits. */
  lemma PhoneDigits(s: string, i: nat)
    requires i <= |s| && PhoneMatch(s, i).Some?
    ensures DigitsIn(s, i, |s|) >= 9
  {
    if DigitsAt(s, i + 1, 2) && PhoneTail(s, i + 3).Some? {
      PhoneAreaDigits(s, i, 3);
    } else {
      PhoneAreaDigits(s, i, 2);
    }
  }

  /** An area code of n digits followed by a phone tail holds n + 7 digits. */
  lemma PhoneAreaDigits(s: string, i: nat, n: nat)
    requires i + n <= |s| && DigitsAt(s, i, n) && PhoneTail(s, i + n).Some?
    ensures DigitsIn(s, i, |s|) >= n + 7
  {
    DigitsInSplit(s, i, i + n, |s|);
    DigitsInRun(s, i, n);
    PhoneTailDigits(s, i + n);
  }

  /** An RRN holds thirteen digits. */
  lemma RrnDigits(s: string, i: nat)
    requires i <= |s| && RrnMatch(s, i).Some?
    ensures DigitsIn(s, i, |s|) >= 13
  {
    var m := RrnMatch(s, i).value;
    DigitsInSplit(s, i, i + 6, |s|);
    DigitsInSplit(s, i + 6, m.cut2, |s|);
    DigitsInSplit(s, m.cut2, m.cut2 + 7, |s|);
    DigitsInRun(s, i, 6);
    DigitsInRun(s, m.cut2, 7);
  }

  /** A 4-4-4-4 group holds sixteen digits. */
  lemma GroupedDigitsIn(s: string, i: nat)
    requires i <= |s| && MatchAt(CardGrouped, s, i).Some?
    ensures DigitsIn(s, i, |s|) >= 16
  {
    GroupedDigits(s[i..i + 19]);
    DigitsInSplit(s, i, i + 19, |s|);
  }

  /** The chain of a loose card from its k-th digit on holds the 12 - k
      digits still to come. */
  lemma {:induction false} LooseFromDigits(s: string, p: nat, k: nat)
    requires p < |s| && IsDigit(s[p]) && LooseFrom(s, p, k).Some?
    decreases |s| - p
    ensures k + DigitsIn(s, p, |s|) >= 12
  {
    assert DigitsAt(s, p, 1);
    DigitsInRun(s, p, 1);
    DigitsInSplit(s, p, p + 1, |s|);
    var here := if 11 <= k && IsBoundary(s, p + 1) then Some(p + 1) else None;
    if k < 18 && NextChainDigit(s, p).Some? {
      var q := NextChainDigit(s, p).value;
      if LooseFrom(s, q, k + 1).Some? {
        LooseFromDigits(s, q, k + 1);
        DigitsInSplit(s, p + 1, q, |s|);
      }
    }
  }

  /** A loose card holds at least twelve digits. */
  lemma LooseDigits(s: string, i: nat)
    requires i <= |s| && LooseMatch(s, i).Some?
    ensures DigitsIn(s, i, |s|) >= 12
  {
    LooseFromDigits(s, i, 0);
  }

  /** From a position with fewer than nine digits after it, no pattern that
      looks for digits matches. */
  lemma FewDigitsNoMatch(rule: Rule, s: string, i: nat)
    requires i <= |s| && DigitsIn(s, i, |s|) < 9
    requires !rule.ApprovalNumber? && !rule.AccountNumber? && !rule.Email?
    ensures MatchAt(rule, s, i).None?
  {
    match rule
    case CardLoose => if LooseMatch(s, i).Some? { LooseDigits(s, i); }
    case CardCandidate => if LooseMatch(s, i).Some? { LooseDigits(s, i); }
    case CardGrouped => if MatchAt(rule, s, i).Some? { GroupedDigitsIn(s, i); }
    case Phone => if PhoneMatch(s, i).Some? { PhoneDigits(s, i); }
    case Rrn => if RrnMatch(s, i).Some? { RrnDigits(s, i); }
  }

  /** Without an '@' there is no email address. */
  lemma NoAtNoEmail(s: string, i: nat)
    requires i <= |s| && '@' !in s
    ensures MatchAt(Email, s, i).None?
  {
  }

  /** A text with fewer than nine digits and no '@' is left as it is by every
      pass but the two keyword-number ones. */
  lemma QuietText(s: string)
    requires |DigitsOf(s)| < 9 && '@' !in s
    ensures forall rule: Rule :: !rule.ApprovalNumber? && !rule.AccountNumber? ==> Sub(rule, s) == s
  {
    forall rule: Rule | !rule.ApprovalNumber? && !rule.AccountNumber? ensures Sub(rule, s) == s {
      forall k | 0 <= k < |s| ensures MatchAt(rule, s, k).None? {
        if rule.Email? {
          NoAtNoEmail(s, k);
        } else {
          DigitsInWhole(s, k, |s|);
          FewDigitsNoMatch(rule, s, k);
        }
      }
      SubNoMatch(rule, s, 0);
    }
  }

  // ------------------------------------------------------------ keywords

  /** No character of s is, ignoring case, the first character of one of the
      keywords. */
  predicate NoKeywordInitial(s: string, keywords: seq<string>)
  {
    forall i, k :: 0 <= i < |s| && 0 <= k < |keywords| && keywords[k] != [] ==>
      LowerChar(s[i]) != LowerChar(keywords[k][0])
  }

  predicate NonEmptyKeywords(keywords: seq<string>)
  {
    forall k :: 0 <= k < |keywords| ==> keywords[k] != []
  }

  /** A keyword can only start at a character that is its first one. */
  lemma {:induction false} NoKeywordMatch(s: string, i: nat, keywords: seq<string>, k: nat, min: nat)
    requires i <= |s| && NoKeywordInitial(s, keywords) && NonEmptyKeywords(keywords)
    decreases |keywords| - k
    ensures KeywordMatch(s, i, keywords, k, min).None?
  {
    if k < |keywords| {
      var kw := keywords[k];
      if i + |kw| <= |s| {
        assert Lower(s[i..i + |kw|])[0] == LowerChar(s[i]) != LowerChar(kw[0]) == Lower(kw)[0];
      }
      NoKeywordMatch(s, i, keywords, k + 1, min);
    }
  }

  /** Neither keyword-number pass matches a text in which no approval or
      account keyword can start. */
  lemma NoKeywordNumbers(s: string)
    requires NoKeywordInitial(s, ApprovalKeywords) && NoKeywordInitial(s, AccountKeywords)
    ensures NoMatchIn(ApprovalNumber, s, 0, |s|) && NoMatchIn(AccountNumber, s, 0, |s|)
  {
    forall i | 0 <= i <= |s| ensures MatchAt(ApprovalNumber, s, i).None? && MatchAt(AccountNumber, s, i).None? {
      NoKeywordMatch(s, i, ApprovalKeywords, 0, 4);
      NoKeywordMatch(s, i, AccountKeywords, 0, 6);
    }
  }

  /** The keywords' first letters, lower-cased, all occur in `initials`. */
  predicate InitialsIn(keywords: seq<string>, initials: string)
  {
    forall k :: 0 <= k < |keywords| ==> keywords[k] != [] && LowerChar(keywords[k][0]) in initials
  }

  /** A text none of whose lower-cased characters is an initial holds no
      keyword's first letter. */
  lemma InitialsAbsent(s: string, keywords: seq<string>, initials: string)
    requires InitialsIn(keywords, initials)
    requires forall i :: 0 <= i < |s| ==> LowerChar(s[i]) !in initials
    ensures NoKeywordInitial(s, keywords)
  {
  }

  const ApprovalInitials: string := "승원거가단tm"
  const AccountInitials: string := "계a"
  const CardInitials: string := "카신체결c"
  const RrnInitials: string := "주r"

  lemma KeywordInitials()
    ensures InitialsIn(ApprovalKeywords, ApprovalInitials) && InitialsIn(AccountKeywords, AccountInitials)
    ensures InitialsIn(CardKeywords, CardInitials) && InitialsIn(RrnKeywords, RrnInitials)
  {
  }

  /** `_contains_keyword` is false when no keyword can start anywhere. */
  lemma NoKeywordInitialMissing(s: string, keywords: seq<string>)
    requires NoKeywordInitial(s, keywords) && NonEmptyKeywords(keywords)
    ensures !ContainsKeyword(s, keywords)
  {
    forall k, i | 0 <= k < |keywords| && 0 <= i <= |s| ensures !OccursAt(Lower(s), Lower(keywords[k]), i) {
      var kw := keywords[k];
      if i + |kw| <= |s| {
        assert Lower(s)[i..i + |kw|][0] == LowerChar(s[i]) != LowerChar(kw[0]) == Lower(kw)[0];
      }
    }
  }

  /** A keyword in a prefix is a keyword of the whole text. */
  lemma KeywordInPrefix(pre: string, rest: string, keywords: seq<string>)
    requires ContainsKeyword(pre, keywords)
    ensures ContainsKeyword(pre + rest, keywords)
  {
    var k :| 0 <= k < |keywords| && Contains(Lower(pre), Lower(keywords[k]));
    var i :| 0 <= i <= |Lower(pre)| && OccursAt(Lower(pre), Lower(keywords[k]), i);
    var n := |Lower(keywords[k])|;
    assert Lower(pre + rest)[i..i + n] == Lower(pre)[i..i + n];
    assert OccursAt(Lower(pre + rest), Lower(keywords[k]), i);
  }

  // -------------------------------------------- passes with one match

  /** The patterns other than the keyword numbers and email start at a
      digit. */
  lemma NoDigitNoMatch(rule: Rule, s: string, k: nat)
    requires k <= |s| && (k == |s| || !IsDigit(s[k]))
    requires !rule.ApprovalNumber? && !rule.AccountNumber? && !rule.Email?
    ensures MatchAt(rule, s, k).None?
  {
    if rule.CardGrouped? {
      NoGroupAt(s, k);
    }
  }

  /** Around a number, text without digits holds no match of those
      patterns. */
  lemma OutsideNoMatch(rule: Rule, pre: string, x: string, post: string)
    requires NoDigits(pre) && NoDigits(post)
    requires !rule.ApprovalNumber? && !rule.AccountNumber? && !rule.Email?
    ensures var s := pre + x + post;
            NoMatchIn(rule, s, 0, |pre|) && NoMatchIn(rule, s, |pre| + |x|, |s|)
  {
    var s := pre + x + post;
    forall k | 0 <= k < |pre| ensures MatchAt(rule, s, k).None? {
      assert s[k] == pre[k];
      NoDigitNoMatch(rule, s, k);
    }
    forall k | |pre| + |x| <= k < |s| ensures MatchAt(rule, s, k).None? {
      assert s[k] == post[k - |pre| - |x|];
      NoDigitNoMatch(rule, s, k);
    }
  }

  /** A substitution whose only match spans x replaces x alone. */
  lemma SubOneMatch(rule: Rule, pre: string, x: string, post: string)
    requires var s := pre + x + post;
             && MatchAt(rule, s, |pre|).Some? && MatchAt(rule, s, |pre|).value.end == |pre| + |x|
             && NoMatchIn(rule, s, 0, |pre|) && NoMatchIn(rule, s, |pre| + |x|, |s|)
    ensures var s := pre + x + post;
            Sub(rule, s) == pre + Replacement(rule, s, MatchAt(rule, s, |pre|).value) + post
  {
    var s := pre + x + post;
    SubSkip(rule, s, 0, |pre|);
    SubAtMatch(rule, s, |pre|);
    SubNoMatch(rule, s, |pre| + |x|);
    assert s[0..|pre|] == pre && s[|pre| + |x|..] == post;
  }

  /** The passes before the card patterns leave a line without approval or
      account matches as it is. */
  lemma KeywordPassesKeep(line: string)
    requires NoMatchIn(ApprovalNumber, line, 0, |line|) && NoMatchIn(AccountNumber, line, 0, |line|)
    ensures Sub(AccountNumber, Sub(ApprovalNumber, line)) == line
  {
    SubNoMatch(ApprovalNumber, line, 0);
    SubNoMatch(AccountNumber, line, 0);
  }

  // ------------------------------------------------------- digit chains

  /** `(?:\d[ -]?){11,18}\d\b` along a chain of digit positions: each digit
      is followed by the next one of the chain, directly or after one
      separator, and the last is followed by a word boundary and no further
      digit. The greedy match then ends after the last digit. */
  lemma {:induction false} ChainEnd(s: string, ps: seq<nat>, j: nat)
    requires 12 <= |ps| <= 19 && j < |ps|
    requires forall t :: 0 <= t < |ps| ==> ps[t] < |s| && IsDigit(s[ps[t]])
    requires forall t :: 0 <= t < |ps| - 1 ==> ps[t] < |s| && NextChainDigit(s, ps[t]) == Some(ps[t + 1])
    requires var last := ps[|ps| - 1];
             last < |s| && NextChainDigit(s, last).None? && IsBoundary(s, last + 1)
    decreases |ps| - j
    ensures LooseFrom(s, ps[j], j) == Some(ps[|ps| - 1] + 1)
  {
    if j < |ps| - 1 {
      ChainEnd(s, ps, j + 1);
    }
  }

  /** A chain that starts at a word boundary is a loose card match. */
  lemma ChainMatch(s: string, ps: seq<nat>)
    requires 12 <= |ps| <= 19
    requires forall t :: 0 <= t < |ps| ==> ps[t] < |s| && IsDigit(s[ps[t]])
    requires forall t :: 0 <= t < |ps| - 1 ==> ps[t] < |s| && NextChainDigit(s, ps[t]) == Some(ps[t + 1])
    requires var last := ps[|ps| - 1];
             last < |s| && NextChainDigit(s, last).None? && IsBoundary(s, last + 1)
    requires IsBoundary(s, ps[0])
    ensures LooseMatch(s, ps[0]) == Some(Match(ps[0], ps[0], ps[0], ps[|ps| - 1] + 1))
  {
    ChainEnd(s, ps, 0);
  }

  /** Text in which no digit, and no '@', appears beside the number it
      surrounds, with non-word characters next to the number. */
  predicate Framed(pre: string, post: string)
  {
    && NoDigits(pre) && NoDigits(post) && '@' !in pre && '@' !in post
    && (pre == [] || !IsWordChar(pre[|pre| - 1]))
    && (post == [] || !IsWordChar(post[0]))
  }

  /** The digits of a framed number are the digits of the line. */
  lemma FramedDigits(pre: string, x: string, post: string)
    requires Framed(pre, post)
    ensures DigitsOf(pre + x + post) == DigitsOf(x)
  {
    NoDigitsNone(pre);
    NoDigitsNone(post);
    DigitsOfAppend(pre + x, post);
    DigitsOfAppend(pre, x);
  }

  /** Keep-last masking writes no '@'. */
  lemma KeptLastNoAt(x: string, keep: nat)
    requires '@' !in x
    ensures '@' !in KeptLast(x, keep)
  {
    forall i | 0 <= i < |x| ensures KeptLast(x, keep)[i] != '@' {
      assert x[i] in x;
    }
  }

  /** A framed number masked down to its last four digits, with no more than
      eight digits left, is left alone by every later pass. */
  lemma FramedMaskedQuiet(pre: string, x: string, post: string)
    requires Framed(pre, post) && '@' !in x && |DigitsOf(KeptLast(x, 4))| < 9
    ensures var c := pre + KeptLast(x, 4) + post;
            forall rule: Rule :: !rule.ApprovalNumber? && !rule.AccountNumber? ==> Sub(rule, c) == c
  {
    FramedDigits(pre, KeptLast(x, 4), post);
    KeptLastNoAt(x, 4);
    QuietText(pre + KeptLast(x, 4) + post);
  }

  // ------------------------------------------------------ loose card runs

  /** A run of 12 to 19 digits at a word boundary, followed by a non-word
      character and then no digit, is a loose card match. */
  lemma RunChainMatch(s: string, p: nat, n: nat)
    requires DigitsAt(s, p, n) && 12 <= n <= 19 && IsBoundary(s, p)
    requires p + n < |s| ==> !IsWordChar(s[p + n])
    requires p + n + 1 < |s| ==> !IsDigit(s[p + n + 1])
    ensures LooseMatch(s, p) == Some(Match(p, p, p, p + n))
  {
    var ps: seq<nat> := seq(n, t requires 0 <= t < n => p + t);
    ChainMatch(s, ps);
  }

  /** A run of 12 to 19 digits between non-word characters is one loose card
      match, and no other loose match starts on the line. */
  lemma RunIsLooseMatch(pre: string, d: string, post: string)
    requires Framed(pre, post) && AllDigits(d) && 12 <= |d| <= 19
    ensures var s := pre + d + post;
            && LooseMatch(s, |pre|) == Some(Match(|pre|, |pre|, |pre|, |pre| + |d|))
            && forall k :: 0 <= k < |s| && k != |pre| ==> LooseMatch(s, k).None?
  {
    var s := pre + d + post;
    var p := |pre|;
    var n := |d|;
    assert DigitsAt(s, p, n) by {
      forall t | p <= t < p + n ensures IsDigit(s[t]) {
        assert s[t] == d[t - p];
      }
    }
    assert |pre| > 0 ==> s[p - 1] == pre[|pre| - 1];
    assert p + n < |s| ==> s[p + n] == post[0];
    assert p + n + 1 < |s| ==> s[p + n + 1] == post[1];
    RunChainMatch(s, p, n);
    forall k | 0 <= k < |s| && k != p ensures LooseMatch(s, k).None? {
      if k < p {
        assert s[k] == pre[k];
      } else if k >= p + n {
        assert s[k] == post[k - p - n];
      } else {
        assert !IsBoundary(s, k);
      }
    }
  }

  /** The loose card pass on a framed run keeps its last four digits. */
  lemma RunLoosePass(pre: string, d: string, post: string)
    requires Framed(pre, post) && AllDigits(d) && 12 <= |d| <= 19
    ensures Sub(CardLoose, pre + d + post) == pre + KeptLast(d, 4) + post
  {
    var s := pre + d + post;
    RunIsLooseMatch(pre, d, post);
    OutsideNoMatch(CardLoose, pre, d, post);
    SubOneMatch(CardLoose, pre, d, post);
    assert s[|pre|..|pre| + |d|] == d;
  }

  /** A digit run holds no 4-4-4-4 group. */
  lemma RunNoGroup(pre: string, d: string, post: string)
    requires NoDigits(pre) && NoDigits(post) && AllDigits(d)
    ensures var s := pre + d + post; NoMatchIn(CardGrouped, s, 0, |s|)
  {
    var s := pre + d + post;
    var p := |pre|;
    var n := |d|;
    forall k | 0 <= k < |s| ensures MatchAt(CardGrouped, s, k).None? {
      if k < p {
        assert s[k] == pre[k];
        NoGroupAt(s, k);
      } else if k >= p + n {
        assert s[k] == post[k - p - n];
        NoGroupAt(s, k);
      } else if k + 19 <= |s| {
        if k + 4 < p + n {
          assert s[k..k + 19][4] == s[k + 4] == d[k + 4 - p];
        } else {
          assert s[k..k + 19][5..9][0] == s[k + 5] == post[k + 5 - p - n];
        }
      }
    }
  }

  /** No phone number starts a run of twelve or more digits: every place its
      last group could end lies inside the run. */
  lemma PhoneInRun(s: string, p: nat, n: nat)
    requires DigitsAt(s, p, n) && n >= 12
    ensures PhoneMatch(s, p).None?
  {
    assert !IsBoundary(s, p + 9) && !IsBoundary(s, p + 10) && !IsBoundary(s, p + 11);
    assert PhoneLast(s, p + 5).None? && PhoneLast(s, p + 6).None? && PhoneLast(s, p + 7).None?;
  }

  /** Inside a run of digits there is no word boundary, so no phone number
      starts there. */
  lemma RunNoPhone(pre: string, d: string, post: string)
    requires NoDigits(pre) && NoDigits(post) && AllDigits(d) && |d| >= 12
    ensures var s := pre + d + post; NoMatchIn(Phone, s, 0, |s|)
  {
    var s := pre + d + post;
    var p := |pre|;
    var n := |d|;
    forall t | 0 <= t < n ensures s[p + t] == d[t] {}
    forall k | 0 <= k < |s| ensures MatchAt(Phone, s, k).None? {
      if k < p {
        assert s[k] == pre[k];
      } else if k >= p + n {
        assert s[k] == post[k - p - n];
      } else if k == p {
        PhoneInRun(s, p, n);
      } else {
        assert !IsBoundary(s, k);
      }
    }
  }

  /** On a line that names a card, a framed run of 12 to 19 digits keeps only
      its last four, whatever the strictness. */
  lemma LooseRunMaskedWithCardKeyword(pre: string, d: string, post: string, strict: bool)
    requires Framed(pre, post) && AllDigits(d) && 12 <= |d| <= 19
    requires var line := pre + d + post;
             && NoMatchIn(ApprovalNumber, line, 0, |line|) && NoMatchIn(AccountNumber, line, 0, |line|)
             && ContainsKeyword(line, CardKeywords)
    ensures RedactedLine(pre + d + post, strict) == pre + KeptLast(d, 4) + post
    ensures DigitsOf(RedactedLine(pre + d + post, strict)) == d[|d| - 4..]
  {
    var line := pre + d + post;
    KeywordPassesKeep(line);
    RunLoosePass(pre, d, post);
    AllDigitsOf(d);
    KeptLastDigits(d, 4);
    FramedMaskedQuiet(pre, d, post);
    assert '@' !in d by {
      forall i | 0 <= i < |d| ensures d[i] != '@' {}
    }
    FramedDigits(pre, KeptLast(d, 4), post);
  }

  /**
   * On a line that names no card and no RRN, a framed run of 12 to 19 digits
   * survives. In strict mode it survives too when it fails the candidate
   * test (13 to 19 digits passing the Luhn check).
   */
  lemma LooseRunKeptWithoutCardKeyword(pre: string, d: string, post: string, strict: bool)
    requires Framed(pre, post) && AllDigits(d) && 12 <= |d| <= 19
    requires var line := pre + d + post;
             && NoMatchIn(ApprovalNumber, line, 0, |line|) && NoMatchIn(AccountNumber, line, 0, |line|)
             && !ContainsKeyword(line, CardKeywords) && !ContainsKeyword(line, RrnKeywords)
    requires strict ==> !CandidateMasked(d)
    ensures RedactedLine(pre + d + post, strict) == pre + d + post
  {
    var line := pre + d + post;
    KeywordPassesKeep(line);
    RunNoGroup(pre, d, post);
    SubNoMatch(CardGrouped, line, 0);
    if strict {
      RunIsLooseMatch(pre, d, post);
      OutsideNoMatch(CardCandidate, pre, d, post);
      SubOneMatch(CardCandidate, pre, d, post);
      assert line[|pre|..|pre| + |d|] == d;
    }
    forall k | 0 <= k <= |line| ensures MatchAt(Email, line, k).None? {
      NoAtNoEmail(line, k);
    }
    SubNoMatch(Email, line, 0);
    RunNoPhone(pre, d, post);
    SubNoMatch(Phone, line, 0);
  }

  // ---------------------------------------------------- 4-4-4-4 groups

  /** Where the digits of a 4-4-4-4 group sit. */
  const GroupOffsets: seq<nat> := [0, 1, 2, 3, 5, 6, 7, 8, 10, 11, 12, 13, 15, 16, 17, 18]

  /** The characters of a 4-4-4-4 group in place. */
  lemma GroupAt(s: string, p: nat)
    requires p + 19 <= |s| && GroupedShape(s[p..p + 19])
    ensures DigitsAt(s, p, 4) && DigitsAt(s, p + 5, 4) && DigitsAt(s, p + 10, 4) && DigitsAt(s, p + 15, 4)
    ensures IsCardSeparator(s[p + 4]) && IsCardSeparator(s[p + 9]) && IsCardSeparator(s[p + 14])
  {
    var g := s[p..p + 19];
    forall k | p <= k < p + 4 ensures IsDigit(s[k]) { assert g[..4][k - p] == s[k]; }
    forall k | p + 5 <= k < p + 9 ensures IsDigit(s[k]) { assert g[5..9][k - p - 5] == s[k]; }
    forall k | p + 10 <= k < p + 14 ensures IsDigit(s[k]) { assert g[10..14][k - p - 10] == s[k]; }
    forall k | p + 15 <= k < p + 19 ensures IsDigit(s[k]) { assert g[15..][k - p - 15] == s[k]; }
    assert g[4] == s[p + 4] && g[9] == s[p + 9] && g[14] == s[p + 14];
  }

  /** The positions of the sixteen digits of a 4-4-4-4 group at p. */
  function GroupPositions(p: nat): (ps: seq<nat>)
    ensures |ps| == 16 && ps[0] == p && ps[15] == p + 18
    ensures forall t :: 0 <= t < 16 ==> ps[t] == p + GroupOffsets[t]
  {
    seq(16, t requires 0 <= t < 16 => p + GroupOffsets[t])
  }

  lemma GroupChainDigits(s: string, p: nat)
    requires DigitsAt(s, p, 4) && DigitsAt(s, p + 5, 4) && DigitsAt(s, p + 10, 4) && DigitsAt(s, p + 15, 4)
    ensures forall t :: 0 <= t < 16 ==> GroupPositions(p)[t] < |s| && IsDigit(s[GroupPositions(p)[t]])
  {
    var ps := GroupPositions(p);
    forall t | 0 <= t < 16 ensures ps[t] < |s| && IsDigit(s[ps[t]]) {
      var j := GroupOffsets[t];
      assert j < 4 || 5 <= j < 9 || 10 <= j < 14 || 15 <= j < 19;
    }
  }

  lemma GroupChainSteps(s: string, p: nat)
    requires DigitsAt(s, p, 4) && DigitsAt(s, p + 5, 4) && DigitsAt(s, p + 10, 4) && DigitsAt(s, p + 15, 4)
    requires IsCardSeparator(s[p + 4]) && IsCardSeparator(s[p + 9]) && IsCardSeparator(s[p + 14])
    ensures forall t :: 0 <= t < 15 ==> GroupPositions(p)[t] < |s| && NextChainDigit(s, GroupPositions(p)[t]) == Some(GroupPositions(p)[t + 1])
  {
    var ps := GroupPositions(p);
    forall t | 0 <= t < 15 ensures ps[t] < |s| && NextChainDigit(s, ps[t]) == Some(ps[t + 1]) {
      var j := GroupOffsets[t];
      if t == 3 || t == 7 || t == 11 {
        assert !IsDigit(s[p + j + 1]) && ps[t + 1] == p + j + 2;
      } else {
        assert ps[t + 1] == p + j + 1;
      }
    }
  }

  /** A 4-4-4-4 group at a word boundary, followed by a non-word character and
      then no digit, is also a loose card match. */
  lemma GroupChainMatch(s: string, p: nat)
    requires p + 19 <= |s| && GroupedShape(s[p..p + 19]) && IsBoundary(s, p)
    requires p + 19 < |s| ==> !IsWordChar(s[p + 19])
    requires p + 20 < |s| ==> !IsDigit(s[p + 20])
    ensures LooseMatch(s, p) == Some(Match(p, p, p, p + 19))
  {
    GroupAt(s, p);
    GroupChainDigits(s, p);
    GroupChainSteps(s, p);
    ChainMatch(s, GroupPositions(p));
  }

  /** Masking a 4-4-4-4 group stars its first three groups. */
  lemma GroupedMaskShape(g: string)
    requires GroupedShape(g)
    ensures KeptLast(g, 4) == AllMasked(g[..15]) + g[15..]
  {
    GroupedMaskPrefix(g);
    KeptLastDigits(g, 4);
    forall k | 0 <= k < 15 ensures KeptLast(g, 4)[k] == AllMasked(g[..15])[k] {
      assert KeptLast(g, 4)[k] == '*' || KeptLast(g, 4)[k] == g[k];
    }
  }

  lemma GroupNoAt(g: string)
    requires GroupedShape(g)
    ensures '@' !in g
  {
    forall j | 0 <= j < 19 ensures g[j] != '@' {
      assert j < 4 ==> g[..4][j] == g[j];
      assert 5 <= j < 9 ==> g[5..9][j - 5] == g[j];
      assert 10 <= j < 14 ==> g[10..14][j - 10] == g[j];
      assert 15 <= j ==> g[15..][j - 15] == g[j];
    }
  }

  /** The loose pass masks a framed 4-4-4-4 group down to its last four
      digits. */
  lemma GroupLoosePass(pre: string, g: string, post: string)
    requires Framed(pre, post) && GroupedShape(g)
    ensures Sub(CardLoose, pre + g + post) == pre + KeptLast(g, 4) + post
  {
    var line := pre + g + post;
    var p := |pre|;
    assert line[p..p + 19] == g;
    assert p > 0 ==> line[p - 1] == pre[p - 1];
    assert p + 19 < |line| ==> line[p + 19] == post[0];
    assert p + 20 < |line| ==> line[p + 20] == post[1];
    assert line[p] == g[..4][0];
    GroupChainMatch(line, p);
    OutsideNoMatch(CardLoose, pre, g, post);
    SubOneMatch(CardLoose, pre, g, post);
  }

  /** So does the grouped pass. */
  lemma GroupGroupedPass(pre: string, g: string, post: string)
    requires Framed(pre, post) && GroupedShape(g)
    ensures Sub(CardGrouped, pre + g + post) == pre + KeptLast(g, 4) + post
  {
    var line := pre + g + post;
    GroupedCardMasked(pre, g, post);
    OutsideNoMatch(CardGrouped, pre, g, post);
    SubNoMatch(CardGrouped, line, |pre| + 19);
    assert line[|pre| + 19..] == post;
  }

  /**
   * A framed 4-4-4-4 group on a line without approval or account matches
   * keeps only its last four digits, whether the line names a card or not:
   * with a card keyword the loose pass masks it, otherwise the grouped one
   * does.
   */
  lemma GroupedCardAlwaysMasked(pre: string, g: string, post: string, strict: bool)
    requires Framed(pre, post) && GroupedShape(g)
    requires var line := pre + g + post;
             NoMatchIn(ApprovalNumber, line, 0, |line|) && NoMatchIn(AccountNumber, line, 0, |line|)
    ensures RedactedLine(pre + g + post, strict) == pre + KeptLast(g, 4) + post
    ensures DigitsOf(RedactedLine(pre + g + post, strict)) == g[15..]
  {
    var line := pre + g + post;
    KeywordPassesKeep(line);
    GroupNoAt(g);
    GroupedKeptDigits(g);
    FramedMaskedQuiet(pre, g, post);
    if ContainsKeyword(line, CardKeywords) {
      GroupLoosePass(pre, g, post);
    } else {
      GroupGroupedPass(pre, g, post);
    }
    FramedDigits(pre, KeptLast(g, 4), post);
  }

  // ------------------------------------------------------------------ RRN

  /** Six digits, a '-', seven digits. */
  predicate RrnShape(x: string)
  {
    |x| == 14 && AllDigits(x[..6]) && x[6] == '-' && AllDigits(x[7..])
  }

  const RrnOffsets: seq<nat> := [0, 1, 2, 3, 4, 5, 7, 8, 9, 10, 11, 12, 13]

  lemma RrnShapeAt(s: string, p: nat)
    requires p + 14 <= |s| && RrnShape(s[p..p + 14])
    ensures DigitsAt(s, p, 6) && s[p + 6] == '-' && DigitsAt(s, p + 7, 7)
  {
    var x := s[p..p + 14];
    assert forall j :: 0 <= j < 6 ==> x[..6][j] == x[j] == s[p + j];
    assert forall j :: 7 <= j < 14 ==> x[7..][j - 7] == x[j] == s[p + j];
  }

  lemma RrnShapeDigits(x: string)
    requires RrnShape(x)
    ensures DigitsOf(x) == x[..6] + x[7..] && '@' !in x
  {
    assert x == x[..6] + [x[6]] + x[7..];
    DigitsOfAppend(x[..6] + [x[6]], x[7..]);
    DigitsOfAppend(x[..6], [x[6]]);
    AllDigitsOf(x[..6]);
    AllDigitsOf(x[7..]);
    assert DigitsOf([x[6]]) == [];
    forall j | 0 <= j < 14 ensures x[j] != '@' {
      assert j < 6 ==> x[..6][j] == x[j];
      assert j > 6 ==> x[7..][j - 7] == x[j];
    }
  }

  /** An RRN at a word boundary, followed by a non-word character and then no
      digit, is also a loose card match. */
  lemma RrnChainMatch(s: string, p: nat)
    requires p + 14 <= |s| && RrnShape(s[p..p + 14]) && IsBoundary(s, p)
    requires p + 14 < |s| ==> !IsWordChar(s[p + 14])
    requires p + 15 < |s| ==> !IsDigit(s[p + 15])
    ensures LooseMatch(s, p) == Some(Match(p, p, p, p + 14))
  {
    RrnShapeAt(s, p);
    var ps: seq<nat> := seq(13, t requires 0 <= t < 13 => p + RrnOffsets[t]);
    ChainMatch(s, ps);
  }

  /** No phone number starts at an RRN: the '-' after six digits breaks
      every alternative. */
  lemma PhoneAtRrn(s: string, p: nat)
    requires p + 14 <= |s| && DigitsAt(s, p, 6) && s[p + 6] == '-' && DigitsAt(s, p + 7, 7)
    ensures PhoneMatch(s, p).None?
  {
    assert !IsBoundary(s, p + 11);
    assert PhoneLast(s, p + 6).None?;
    assert !DigitsAt(s, p + 5, 4) && !DigitsAt(s, p + 3, 4);
    assert PhoneLast(s, p + 5).None?;
  }

  /** The characters of a framed RRN and of its frame, as the patterns see
      them. */
  lemma FramedRrnAt(pre: string, x: string, post: string)
    requires Framed(pre, post) && RrnShape(x)
    ensures var line, p := pre + x + post, |pre|;
            && p + 14 <= |line| && line[p..p + 14] == x
            && DigitsAt(line, p, 6) && line[p + 6] == '-' && DigitsAt(line, p + 7, 7)
            && IsBoundary(line, p) && IsBoundary(line, p + 14)
            && (p + 14 < |line| ==> !IsWordChar(line[p + 14]))
            && (p + 15 < |line| ==> !IsDigit(line[p + 15]))
            && line[p + 14..] == post
  {
    var line := pre + x + post;
    var p := |pre|;
    assert line[p..p + 14] == x;
    RrnShapeAt(line, p);
    assert p > 0 ==> line[p - 1] == pre[p - 1];
    assert p + 14 < |line| ==> line[p + 14] == post[0];
    assert p + 15 < |line| ==> line[p + 15] == post[1];
    assert line[p + 14..] == post;
  }

  /** No 4-4-4-4 group and no e-mail address in a framed RRN's line. */
  lemma FramedRrnNoGroupNoEmail(pre: string, x: string, post: string)
    requires Framed(pre, post) && RrnShape(x)
    ensures var line := pre + x + post;
            NoMatchIn(CardGrouped, line, 0, |line|) && NoMatchIn(Email, line, 0, |line|)
  {
    var line := pre + x + post;
    RrnShapeDigits(x);
    FramedDigits(pre, x, post);
    forall k | 0 <= k <= |line| ensures MatchAt(CardGrouped, line, k).None? {
      if MatchAt(CardGrouped, line, k).Some? {
        GroupedDigitsIn(line, k);
        DigitsInWhole(line, k, |line|);
      }
    }
    assert '@' !in line;
    forall k | 0 <= k <= |line| ensures MatchAt(Email, line, k).None? {
      NoAtNoEmail(line, k);
    }
  }

  /** No phone number in a framed RRN's line. */
  lemma FramedRrnNoPhone(pre: string, x: string, post: string)
    requires Framed(pre, post) && RrnShape(x)
    ensures var line := pre + x + post;
            NoMatchIn(Phone, line, 0, |line|)
  {
    var line := pre + x + post;
    var p := |pre|;
    FramedRrnAt(pre, x, post);
    OutsideNoMatch(Phone, pre, x, post);
    forall k | p <= k < p + 14 ensures MatchAt(Phone, line, k).None? {
      if k == p {
        PhoneAtRrn(line, p);
      } else if k == p + 7 {
        DigitsInSplit(line, p + 7, p + 14, |line|);
        DigitsInRun(line, p + 7, 7);
        assert line[p + 14..|line|] == post;
        NoDigitsNone(post);
        FewDigitsNoMatch(Phone, line, k);
      } else if k != p + 6 {
        assert !IsBoundary(line, k);
      }
    }
  }

  /** Every pass before the RRN one leaves a framed RRN, on a line that names
      no card, as it is; in strict mode this needs its thirteen digits to fail
      the Luhn check. */
  lemma RrnLineBeforeRrnPass(pre: string, x: string, post: string, strict: bool)
    requires Framed(pre, post) && RrnShape(x)
    requires var line := pre + x + post;
             && NoMatchIn(ApprovalNumber, line, 0, |line|) && NoMatchIn(AccountNumber, line, 0, |line|)
             && !ContainsKeyword(line, CardKeywords)
    requires strict ==> !LuhnValid(x[..6] + x[7..])
    ensures var line := pre + x + post;
            Sub(Phone, Sub(Email, CardStages(line, strict))) == line
  {
    var line := pre + x + post;
    var p := |pre|;
    KeywordPassesKeep(line);
    FramedRrnNoGroupNoEmail(pre, x, post);
    SubNoMatch(CardGrouped, line, 0);
    if strict {
      FramedRrnAt(pre, x, post);
      RrnShapeDigits(x);
      RrnChainMatch(line, p);
      OutsideNoMatch(CardCandidate, pre, x, post);
      SubOneMatch(CardCandidate, pre, x, post);
    }
    SubNoMatch(Email, line, 0);
    FramedRrnNoPhone(pre, x, post);
    SubNoMatch(Phone, line, 0);
  }

  /** A framed RRN on a line that names an RRN keeps its first six digits and
      has the rest replaced. */
  lemma RrnMaskedWithRrnKeyword(pre: string, x: string, post: string, strict: bool)
    requires Framed(pre, post) && RrnShape(x)
    requires var line := pre + x + post;
             && NoMatchIn(ApprovalNumber, line, 0, |line|) && NoMatchIn(AccountNumber, line, 0, |line|)
             && !ContainsKeyword(line, CardKeywords) && ContainsKeyword(line, RrnKeywords)
    requires strict ==> !LuhnValid(x[..6] + x[7..])
    ensures RedactedLine(pre + x + post, strict) == pre + x[..6] + "-*******" + post
  {
    var line := pre + x + post;
    var p := |pre|;
    RrnLineBeforeRrnPass(pre, x, post, strict);
    FramedRrnSub(pre, x, post);
  }

  /** The RRN pass alone masks the serial half of a framed RRN. */
  lemma FramedRrnSub(pre: string, x: string, post: string)
    requires Framed(pre, post) && RrnShape(x)
    ensures Sub(Rrn, pre + x + post) == pre + x[..6] + "-*******" + post
  {
    var line := pre + x + post;
    var p := |pre|;
    FramedRrnMatch(pre, x, post);
    OutsideNoMatch(Rrn, pre, x, post);
    SubOneMatch(Rrn, pre, x, post);
    assert line[p..p + 6] == x[..6];
  }

  /** The RRN pattern matches a framed RRN exactly where it stands. */
  lemma FramedRrnMatch(pre: string, x: string, post: string)
    requires Framed(pre, post) && RrnShape(x)
    ensures MatchAt(Rrn, pre + x + post, |pre|) == Some(Match(|pre|, |pre| + 6, |pre| + 7, |pre| + 14))
  {
    FramedRrnAt(pre, x, post);
  }

  /** A framed RRN on a line that names no RRN keyword survives. */
  lemma RrnKeptWithoutRrnKeyword(pre: string, x: string, post: string, strict: bool)
    requires Framed(pre, post) && RrnShape(x)
    requires var line := pre + x + post;
             && NoMatchIn(ApprovalNumber, line, 0, |line|) && NoMatchIn(AccountNumber, line, 0, |line|)
             && !ContainsKeyword(line, CardKeywords) && !ContainsKeyword(line, RrnKeywords)
    requires strict ==> !LuhnValid(x[..6] + x[7..])
    ensures RedactedLine(pre + x + post, strict) == pre + x + post
  {
    RrnLineBeforeRrnPass(pre, x, post, strict);
  }

  // ------------------------------------------------------- whole lines

  /** Every loose match of s fails the strict candidate test. */
  predicate CandidatesUnmasked(s: string)
  {
    forall k :: 0 <= k < |s| && LooseMatch(s, k).Some? ==> !CandidateMasked(s[k..LooseMatch(s, k).value.end])
  }

  /** The strict pass puts back every candidate that fails the test, so it
      changes nothing when all of them fail. */
  lemma {:induction false} CandidatePassKeeps(s: string, i: nat)
    requires i <= |s| && CandidatesUnmasked(s)
    decreases |s| - i
    ensures SubFrom(CardCandidate, s, i) == s[i..]
  {
    if i < |s| {
      match MatchAt(CardCandidate, s, i)
      case None =>
        SubSkip(CardCandidate, s, i, i + 1);
        CandidatePassKeeps(s, i + 1);
        assert s[i..] == s[i..i + 1] + s[i + 1..];
      case Some(m) =>
        SubAtMatch(CardCandidate, s, i);
        CandidatePassKeeps(s, m.end);
        assert s[i..] == s[i..m.end] + s[m.end..];
    }
  }

  /**
   * A line on which neither a card nor an RRN is named, and on which no
   * approval or account number, 4-4-4-4 group, email address or phone number
   * matches, comes out unchanged. Loose card runs and RRNs on it survive, and
   * so do loose candidates in strict mode when all of them fail the Luhn
   * test.
   */
  lemma LineKept(line: string, strict: bool)
    requires NoMatchIn(ApprovalNumber, line, 0, |line|) && NoMatchIn(AccountNumber, line, 0, |line|)
    requires NoMatchIn(CardGrouped, line, 0, |line|)
    requires NoMatchIn(Email, line, 0, |line|) && NoMatchIn(Phone, line, 0, |line|)
    requires !ContainsKeyword(line, CardKeywords) && !ContainsKeyword(line, RrnKeywords)
    requires strict ==> CandidatesUnmasked(line)
    ensures RedactedLine(line, strict) == line
  {
    KeywordPassesKeep(line);
    SubNoMatch(CardGrouped, line, 0);
    if strict {
      CandidatePassKeeps(line, 0);
    }
    SubNoMatch(Email, line, 0);
    SubNoMatch(Phone, line, 0);
  }

  /** A text without line boundaries is one line. */
  lemma SingleLineText(text: string, strict: bool)
    requires text != [] && forall j :: 0 <= j < |text| ==> !IsLineBreak(text[j])
    ensures RedactedText(text, strict) == RedactedLine(text, strict)
  {
    assert NextBreak(text, 0) == |text|;
    assert SplitLines(text) == [text];
  }

  /** No 4-4-4-4 group spans a character that is neither a digit nor a
      separator. */
  lemma GroupBarrier(s: string, k: nat, j: nat)
    requires k <= j < k + 19 <= |s| && !IsDigit(s[j]) && !IsCardSeparator(s[j])
    ensures MatchAt(CardGrouped, s, k).None?
  {
    if MatchAt(CardGrouped, s, k).Some? {
      GroupAt(s, k);
    }
  }

  // ------------------------------------------- the lines of the tests

  const BarcodeLine: string := "바코드 8801045570068 금액 1,600 날짜 2014-01-21"

  lemma BarcodeNoGroup()
    ensures NoMatchIn(CardGrouped, BarcodeLine, 0, |BarcodeLine|)
  {
    var s := BarcodeLine;
    forall k | 0 <= k < |s| ensures MatchAt(CardGrouped, s, k).None? {
      if k + 19 > |s| {
        NoGroupAt(s, k);
      } else if k <= 16 {
        GroupBarrier(s, k, 18);
      } else {
        GroupBarrier(s, k, 27);
      }
    }
  }

  lemma BarcodeNoPhone()
    ensures NoMatchIn(Phone, BarcodeLine, 0, |BarcodeLine|)
  {
    var s := BarcodeLine;
    forall k | 0 <= k < |s| ensures MatchAt(Phone, s, k).None? {
      if k >= 32 {
        FewDigitsNoMatch(Phone, s, k);
      } else {
        assert !(s[k] == '0' && IsBoundary(s, k));
      }
    }
  }

  lemma BarcodeNoEmail()
    ensures NoMatchIn(Email, BarcodeLine, 0, |BarcodeLine|)
  {
    forall k | 0 <= k < |BarcodeLine| ensures MatchAt(Email, BarcodeLine, k).None? {
      NoAtNoEmail(BarcodeLine, k);
    }
  }

  lemma BarcodeNoApprovalInitial()
    ensures NoKeywordInitial(BarcodeLine, ApprovalKeywords)
  {
    KeywordInitials();
    InitialsAbsent(BarcodeLine, ApprovalKeywords, ApprovalInitials);
  }

  lemma BarcodeNoAccountInitial()
    ensures NoKeywordInitial(BarcodeLine, AccountKeywords)
  {
  }

  lemma BarcodeNoKeywordNumbers()
    ensures NoMatchIn(ApprovalNumber, BarcodeLine, 0, |BarcodeLine|)
    ensures NoMatchIn(AccountNumber, BarcodeLine, 0, |BarcodeLine|)
  {
    BarcodeNoApprovalInitial();
    BarcodeNoAccountInitial();
    NoKeywordNumbers(BarcodeLine);
  }

  lemma BarcodeNoCardKeyword()
    ensures !ContainsKeyword(BarcodeLine, CardKeywords)
  {
    KeywordInitials();
    InitialsAbsent(BarcodeLine, CardKeywords, CardInitials);
    NoKeywordInitialMissing(BarcodeLine, CardKeywords);
  }

  lemma BarcodeNoRrnKeyword()
    ensures !ContainsKeyword(BarcodeLine, RrnKeywords)
  {
    KeywordInitials();
    InitialsAbsent(BarcodeLine, RrnKeywords, RrnInitials);
    NoKeywordInitialMissing(BarcodeLine, RrnKeywords);
  }

  /** A barcode, an amount and a date, on a line that names neither a card
      nor an RRN, are kept. */
  lemma BarcodeLineKept()
    ensures RedactedLine(BarcodeLine, false) == BarcodeLine
  {
    BarcodeNoKeywordNumbers();
    BarcodeNoGroup();
    BarcodeNoEmail();
    BarcodeNoPhone();
    BarcodeNoCardKeyword();
    BarcodeNoRrnKeyword();
    LineKept(BarcodeLine, false);
  }

  lemma BarcodeNoBreak()
    ensures forall j :: 0 <= j < |BarcodeLine| ==> !IsLineBreak(BarcodeLine[j])
  {
  }

  /** The same line as a whole text: the first test of the redaction suite. */
  lemma BarcodeAmountDateKept()
    ensures RedactedText(BarcodeLine, false) == BarcodeLine
  {
    BarcodeLineKept();
    BarcodeNoBreak();
    SingleLineText(BarcodeLine, false);
  }

  const RrnLabel: string := "주민번호: "
  const RrnValue: string := "900101-1234567"

  lemma RrnLineFramed()
    ensures Framed(RrnLabel, "") && RrnShape(RrnValue)
  {
    assert RrnValue[..6] == "900101" && RrnValue[7..] == "1234567";
  }

  lemma RrnLineNoApprovalInitial()
    ensures NoKeywordInitial(RrnLabel + RrnValue, ApprovalKeywords)
  {
  }

  lemma RrnLineNoAccountInitial()
    ensures NoKeywordInitial(RrnLabel + RrnValue, AccountKeywords)
  {
  }

  lemma RrnLineNoCardInitial()
    ensures NoKeywordInitial(RrnLabel + RrnValue, CardKeywords)
  {
  }

  lemma RrnLineNamesRrn()
    ensures OccursAt(RrnLabel + RrnValue, RrnKeywords[0], 0)
  {
    assert (RrnLabel + RrnValue)[..4] == "주민번호";
  }

  lemma RrnLineMasked()
    ensures RedactedLine(RrnLabel + RrnValue, false) == RrnLabel + "900101-*******"
  {
    var line := RrnLabel + RrnValue;
    RrnLineFramed();
    RrnLineNoApprovalInitial();
    RrnLineNoAccountInitial();
    RrnLineNoCardInitial();
    RrnLineNamesRrn();
    NoKeywordNumbers(line);
    NoKeywordInitialMissing(line, CardKeywords);
    KeywordFound(line, RrnKeywords, 0, 0);
    assert line == RrnLabel + RrnValue + "";
    RrnMaskedWithRrnKeyword(RrnLabel, RrnValue, "", false);
    assert RrnValue[..6] + "-*******" == "900101-*******";
  }

  /** Masking the redaction test's RRN line as a whole text. */
  lemma RrnMaskedInText()
    ensures RedactedText(RrnLabel + RrnValue, false) == RrnLabel + "900101-*******"
  {
    RrnLineMasked();
    var line := RrnLabel + RrnValue;
    assert forall j :: 0 <= j < |line| ==> !IsLineBreak(line[j]);
    SingleLineText(line, false);
  }

  /** In a run of digits, all but the last `keep` become '*'. */
  lemma KeptLastRun(d: string, keep: nat)
    requires AllDigits(d) && keep < |d|
    ensures forall i :: 0 <= i < |d| - keep ==> KeptLast(d, keep)[i] == '*'
    ensures KeptLast(d, keep)[|d| - keep..] == d[|d| - keep..]
  {
    AllDigitsOf(d);
    forall i | 0 <= i < |d| ensures DigitsBefore(d, i) == i {
      assert AllDigits(d[..i]);
      AllDigitsOf(d[..i]);
    }
  }

  const CardLabel: string := "결제내역 "
  const TestCard: string := "4111111111111111"

  lemma CardLineFacts()
    ensures Framed(CardLabel, "") && AllDigits(TestCard) && |TestCard| == 16
    ensures OccursAt(CardLabel + TestCard, CardKeywords[3], 0)
  {
    assert (CardLabel + TestCard)[..2] == "결제";
  }

  lemma CardLineNoApprovalInitial()
    ensures NoKeywordInitial(CardLabel + TestCard, ApprovalKeywords)
  {
  }

  lemma CardLineNoAccountInitial()
    ensures NoKeywordInitial(CardLabel + TestCard, AccountKeywords)
  {
  }

  lemma TestCardMask()
    ensures KeptLast(TestCard, 4) == "************1111"
  {
    KeptLastRun(TestCard, 4);
  }

  lemma CardLineMasked()
    ensures RedactedLine(CardLabel + TestCard, true) == CardLabel + "************1111"
  {
    var line := CardLabel + TestCard;
    CardLineFacts();
    CardLineNoApprovalInitial();
    CardLineNoAccountInitial();
    NoKeywordNumbers(line);
    KeywordFound(line, CardKeywords, 3, 0);
    assert line == CardLabel + TestCard + "";
    LooseRunMaskedWithCardKeyword(CardLabel, TestCard, "", true);
    TestCardMask();
  }

  lemma CardLineNoBreak()
    ensures forall j :: 0 <= j < |CardLabel + TestCard| ==> !IsLineBreak((CardLabel + TestCard)[j])
  {
  }

  /**
   * The strict test's line: it names a card ("결제"), so its run is masked
   * to twelve stars and the last four digits, in strict mode as in loose.
   */
  lemma UnlabeledCardMaskedStrict()
    ensures RedactedText(CardLabel + TestCard, true) == CardLabel + "************1111"
  {
    CardLineMasked();
    CardLineNoBreak();
    SingleLineText(CardLabel + TestCard, true);
  }

  const CodeLabel: string := "코드 "
  const AlteredCard: string := "4111111111111112"

  lemma CodeLineFramed()
    ensures Framed(CodeLabel, "") && AllDigits(AlteredCard) && |AlteredCard| == 16
  {
  }

  lemma AlteredCardNotMasked()
    ensures !CandidateMasked(AlteredCard)
  {
    var s := AlteredCard;
    assert |s| == 16 && s[0] == '4' && s[15] == '2';
    assert forall j :: 1 <= j < 15 ==> s[j] == '1';
    LuhnRejectsAlteredCard(s);
    AllDigitsOf(s);
  }

  lemma CodeLineNoInitials()
    ensures NoKeywordInitial(CodeLabel + AlteredCard, ApprovalKeywords)
    ensures NoKeywordInitial(CodeLabel + AlteredCard, AccountKeywords)
  {
  }

  lemma CodeLineNoCardOrRrnInitial()
    ensures NoKeywordInitial(CodeLabel + AlteredCard, CardKeywords)
    ensures NoKeywordInitial(CodeLabel + AlteredCard, RrnKeywords)
  {
  }

  lemma CodeLineKept()
    ensures RedactedLine(CodeLabel + AlteredCard, true) == CodeLabel + AlteredCard
  {
    var line := CodeLabel + AlteredCard;
    CodeLineFramed();
    AlteredCardNotMasked();
    CodeLineNoInitials();
    CodeLineNoCardOrRrnInitial();
    NoKeywordNumbers(line);
    NoKeywordInitialMissing(line, CardKeywords);
    NoKeywordInitialMissing(line, RrnKeywords);
    assert line == CodeLabel + AlteredCard + "";
    LooseRunKeptWithoutCardKeyword(CodeLabel, AlteredCard, "", true);
  }

  lemma CodeLineNoBreak()
    ensures forall j :: 0 <= j < |CodeLabel + AlteredCard| ==> !IsLineBreak((CodeLabel + AlteredCard)[j])
  {
  }

  /** A sixteen-digit run that fails the Luhn test, on a line that names no
      card, survives strict mode. */
  lemma LuhnFailKeptStrict()
    ensures RedactedText(CodeLabel + AlteredCard, true) == CodeLabel + AlteredCard
  {
    CodeLineKept();
    CodeLineNoBreak();
    SingleLineText(CodeLabel + AlteredCard, true);
  }

  const GroupLabel: string := "카드번호: "
  const GroupedCard: string := "1234-5678-9012-3456"

  lemma GroupLineFacts()
    ensures Framed(GroupLabel, "") && GroupedShape(GroupedCard)
  {
    assert GroupedCard[..4] == "1234" && GroupedCard[5..9] == "5678";
    assert GroupedCard[10..14] == "9012" && GroupedCard[15..] == "3456";
  }

  lemma GroupLineNoInitials()
    ensures NoKeywordInitial(GroupLabel + GroupedCard, ApprovalKeywords)
    ensures NoKeywordInitial(GroupLabel + GroupedCard, AccountKeywords)
  {
    KeywordInitials();
    InitialsAbsent(GroupLabel + GroupedCard, ApprovalKeywords, ApprovalInitials);
    InitialsAbsent(GroupLabel + GroupedCard, AccountKeywords, AccountInitials);
  }

  lemma GroupedCardMask()
    requires GroupedShape(GroupedCard)
    ensures KeptLast(GroupedCard, 4) == "****-****-****-3456"
  {
    GroupedMaskShape(GroupedCard);
    assert AllMasked(GroupedCard[..15]) == "****-****-****-";
  }

  lemma GroupLineMasked()
    ensures RedactedLine(GroupLabel + GroupedCard, false) == GroupLabel + "****-****-****-3456"
  {
    var line := GroupLabel + GroupedCard;
    GroupLineFacts();
    GroupLineNoInitials();
    NoKeywordNumbers(line);
    assert line == GroupLabel + GroupedCard + "";
    GroupedCardAlwaysMasked(GroupLabel, GroupedCard, "", false);
    GroupedCardMask();
  }

  lemma GroupLineNoBreak()
    ensures forall j :: 0 <= j < |GroupLabel + GroupedCard| ==> !IsLineBreak((GroupLabel + GroupedCard)[j])
  {
  }

  /** The labelled card test: the 4-4-4-4 number keeps only its last group. */
  lemma LabelledCardMasked()
    ensures RedactedText(GroupLabel + GroupedCard, false) == GroupLabel + "****-****-****-3456"
  {
    GroupLineMasked();
    GroupLineNoBreak();
    SingleLineText(GroupLabel + GroupedCard, false);
  }

  // ------------------------------------- a second pass is not a no-op

  /** Every phone number starts with a '0'. */
  lemma NoZeroNoPhone(s: string)
    requires forall k :: 0 <= k < |s| ==> s[k] != '0'
    ensures NoMatchIn(Phone, s, 0, |s|)
  {
  }

  /** The characters a masked card number is made of. */
  predicate NumberChar(c: char)
  {
    IsDigit(c) || c == '-' || c == '*'
  }

  predicate NumberText(s: string)
  {
    forall i :: 0 <= i < |s| ==> NumberChar(s[i])
  }

  /** No keyword starts with a character of a number. */
  predicate LetterKeywords(keywords: seq<string>)
  {
    forall k :: 0 <= k < |keywords| ==> keywords[k] != [] && !NumberChar(LowerChar(keywords[k][0]))
  }

  lemma NumberTextNoInitial(s: string, keywords: seq<string>)
    requires NumberText(s) && LetterKeywords(keywords)
    ensures NoKeywordInitial(s, keywords)
  {
    forall i, k | 0 <= i < |s| && 0 <= k < |keywords| ensures LowerChar(s[i]) != LowerChar(keywords[k][0]) {
      assert NumberChar(s[i]);
    }
  }

  lemma KeywordListsStartWithLetters()
    ensures LetterKeywords(ApprovalKeywords) && LetterKeywords(AccountKeywords)
    ensures LetterKeywords(CardKeywords) && LetterKeywords(RrnKeywords)
  {
  }

  const WitnessGroup: string := "1111-2222-3333-4444"
  const WitnessTail: string := "-5555-6666-7777"
  const WitnessMasked: string := "****-****-****-4444-5555-6666-7777"

  lemma WitnessGroupShape()
    ensures GroupedShape(WitnessGroup) && WitnessGroup[15..] == "4444"
  {
    var g := WitnessGroup;
    assert g[..4] == "1111" && g[5..9] == "2222" && g[10..14] == "3333" && g[15..] == "4444";
  }

  lemma WitnessNextShape()
    ensures GroupedShape("4444" + WitnessTail)
  {
    var t := "4444" + WitnessTail;
    assert t == "4444-5555-6666-7777";
    assert t[..4] == "4444" && t[5..9] == "5555" && t[10..14] == "6666" && t[15..] == "7777";
  }

  lemma WitnessShape()
    ensures GroupedShape(WitnessGroup) && GroupedShape(WitnessGroup[15..] + WitnessTail)
  {
    WitnessGroupShape();
    WitnessNextShape();
  }

  lemma WitnessMask()
    requires GroupedShape(WitnessGroup)
    ensures KeptLast(WitnessGroup, 4) + WitnessTail == WitnessMasked
  {
    var g := WitnessGroup;
    GroupedMaskShape(g);
    assert AllMasked(g[..15]) == "****-****-****-";
  }

  lemma WitnessGroupedPass()
    ensures Sub(CardGrouped, WitnessGroup + WitnessTail) == WitnessMasked
    ensures |Sub(CardGrouped, WitnessMasked)| > 15 && Sub(CardGrouped, WitnessMasked)[15] == '*'
  {
    WitnessShape();
    WitnessMask();
    GroupedFirstPass(WitnessGroup, WitnessTail);
    GroupedSecondPass(WitnessGroup, WitnessTail);
  }

  lemma WitnessNumberText()
    ensures NumberText(WitnessGroup + WitnessTail) && NumberText(WitnessMasked)
  {
  }

  lemma NumberTextNoAt(s: string)
    requires NumberText(s)
    ensures '@' !in s
  {
  }

  lemma MaskedNumberText(a: string, b: string)
    requires NumberText(a) && MasksOnly(a, b)
    ensures NumberText(b)
  {
    forall i | 0 <= i < |b| ensures NumberChar(b[i]) {
      assert NumberChar(a[i]);
    }
  }

  /** None of the keyword-gated passes applies to a number on its own. */
  lemma NumberTextUnlabelled(s: string)
    requires NumberText(s)
    ensures Sub(AccountNumber, Sub(ApprovalNumber, s)) == s
    ensures !ContainsKeyword(s, CardKeywords) && !ContainsKeyword(s, RrnKeywords)
  {
    KeywordListsStartWithLetters();
    NumberTextNoInitial(s, ApprovalKeywords);
    NumberTextNoInitial(s, AccountKeywords);
    NumberTextNoInitial(s, CardKeywords);
    NumberTextNoInitial(s, RrnKeywords);
    NoKeywordNumbers(s);
    KeywordPassesKeep(s);
    NoKeywordInitialMissing(s, CardKeywords);
    NoKeywordInitialMissing(s, RrnKeywords);
  }

  /** The email pass leaves a number alone. */
  lemma NumberTextNoEmail(s: string)
    requires NumberText(s)
    ensures Sub(Email, s) == s
  {
    NumberTextNoAt(s);
    forall k | 0 <= k <= |s| ensures MatchAt(Email, s, k).None? {
      NoAtNoEmail(s, k);
    }
    SubNoMatch(Email, s, 0);
  }

  /** A number on its own whose 4-4-4-4 pass gives a number without a '0'
      comes out as that. */
  lemma NumberLineGrouped(x: string, y: string)
    requires NumberText(x) && NumberText(y) && Sub(CardGrouped, x) == y
    requires forall k :: 0 <= k < |y| ==> y[k] != '0'
    ensures RedactedLine(x, false) == y
  {
    NumberTextUnlabelled(x);
    NumberTextNoEmail(y);
    NoZeroNoPhone(y);
    SubNoMatch(Phone, y, 0);
    NumberTextUnlabelled(y);
  }

  /** A number on its own whose 4-4-4-4 pass masks a digit at position p
      is changed at p by redaction. */
  lemma NumberLineChanged(y: string, p: nat)
    requires NumberText(y) && p < |y| && IsDigit(y[p])
    requires |Sub(CardGrouped, y)| > p && Sub(CardGrouped, y)[p] == '*'
    ensures RedactedLine(y, false) != y
  {
    NumberTextUnlabelled(y);
    var d := Sub(CardGrouped, y);
    SubMasksOnly(CardGrouped, y, 0);
    assert y[0..] == y;
    MaskedNumberText(y, d);
    NumberTextNoEmail(d);
    var e := Sub(Phone, d);
    SubMasksOnly(Phone, d, 0);
    assert d[0..] == d;
    MaskedNumberText(d, e);
    NumberTextUnlabelled(e);
    assert RedactedLine(y, false) == e;
    assert e[p] == '*' != y[p];
  }

  lemma WitnessNoZero()
    ensures forall k :: 0 <= k < |WitnessMasked| ==> WitnessMasked[k] != '0'
    ensures IsDigit(WitnessMasked[15])
  {
  }

  lemma WitnessFirstLine()
    ensures RedactedLine(WitnessGroup + WitnessTail, false) == WitnessMasked
  {
    WitnessNumberText();
    WitnessGroupedPass();
    WitnessNoZero();
    NumberLineGrouped(WitnessGroup + WitnessTail, WitnessMasked);
  }

  lemma WitnessSecondLine()
    ensures RedactedLine(WitnessMasked, false) != WitnessMasked
  {
    WitnessNumberText();
    WitnessGroupedPass();
    WitnessNoZero();
    NumberLineChanged(WitnessMasked, 15);
  }

  /** A number on its own is one line. */
  lemma NumberTextOneLine(s: string, strict: bool)
    requires NumberText(s) && s != []
    ensures RedactedText(s, strict) == RedactedLine(s, strict)
  {
    forall j | 0 <= j < |s| ensures !IsLineBreak(s[j]) {
      assert NumberChar(s[j]);
    }
    SingleLineText(s, strict);
  }

  /**
   * `redact_text` is not idempotent: seven four-digit groups joined by
   * dashes have only their first card masked, which leaves the last four
   * groups shaped like a card, and a second pass masks those too.
   */
  lemma RedactedTextNotIdempotent()
    ensures RedactedText(WitnessGroup + WitnessTail, false) == WitnessMasked
    ensures RedactedText(WitnessMasked, false) != WitnessMasked
  {
    WitnessNumberText();
    WitnessFirstLine();
    WitnessSecondLine();
    NumberTextOneLine(WitnessGroup + WitnessTail, false);
    NumberTextOneLine(WitnessMasked, false);
  }
}
