/**
 * The digit-masking helpers of the redaction engine (app/core/redaction.py):
 * keep-last-N masking, mask-everything, the Luhn check, and the email and
 * resident-registration-number masks. Each loop of the source is a method
 * proved equal to a specification function; the properties the engine relies
 * on are lemmas about those functions.
 */
module RedactionMasks {
  import opened Common

  // ------------------------------------------------------------ digit counting

  /** Number of digits among the first i characters of s. */
  function DigitsBefore(s: string, i: nat): nat
    requires i <= |s|
  {
    |DigitsOf(s[..i])|
  }

  /** Going one character further adds that character if it is a digit. */
  lemma DigitsStep(s: string, i: nat)
    requires i < |s|
    ensures DigitsOf(s[..i + 1]) == DigitsOf(s[..i]) + (if IsDigit(s[i]) then [s[i]] else [])
  {
    assert s[..i + 1][..i] == s[..i];
  }

  /** The digit at position i is digit number DigitsBefore(s, i) of s. */
  lemma DigitAtCount(s: string, i: nat)
    requires i < |s| && IsDigit(s[i])
    ensures DigitsBefore(s, i) < |DigitsOf(s)|
    ensures DigitsOf(s)[DigitsBefore(s, i)] == s[i]
  {
    assert s == s[..i + 1] + s[i + 1..];
    DigitsOfAppend(s[..i + 1], s[i + 1..]);
    DigitsStep(s, i);
  }

  lemma DigitsBeforeBound(s: string, i: nat)
    requires i <= |s|
    ensures DigitsBefore(s, i) <= |DigitsOf(s)|
  {
    assert s == s[..i] + s[i..];
    DigitsOfAppend(s[..i], s[i..]);
  }

  /** A digit before position j is counted before j. */
  lemma DigitsBeforeMono(s: string, i: nat, j: nat)
    requires i < j <= |s| && IsDigit(s[i])
    ensures DigitsBefore(s, i) < DigitsBefore(s, j)
  {
    assert s[..j] == s[..i + 1] + s[i + 1..j];
    DigitsOfAppend(s[..i + 1], s[i + 1..j]);
    DigitsStep(s, i);
  }

  // ------------------------------------------------------ keep-last masking

  /** Whether the digit at position i is among the last `keep` digits of raw,
      in the sense of the source: when raw has no more than `keep` digits,
      none is kept. */
  predicate Kept(raw: string, keep: nat, i: nat)
    requires i <= |raw|
  {
    var n := |DigitsOf(raw)|;
    n > keep && DigitsBefore(raw, i) >= n - keep
  }

  /** Every digit of raw that is not kept becomes '*'; nothing else changes. */
  function KeptLast(raw: string, keep: nat): (r: string)
    ensures |r| == |raw|
  {
    seq(|raw|, i requires 0 <= i < |raw| => if IsDigit(raw[i]) && !Kept(raw, keep, i) then '*' else raw[i])
  }

  /** The replacement digits `_mask_digits_keep_last` builds: `n - keep`
      stars followed by the last `keep` digits, or n stars when there are no
      more than `keep` digits. Digit j of the line is masked by its entry j. */
  method DigitMask(digits: string, keepLast: nat) returns (masked: string)
    ensures |masked| >= |digits|
    ensures forall j :: 0 <= j < |digits| ==>
              masked[j] == if |digits| > keepLast && j >= |digits| - keepLast then digits[j] else '*'
  {
    var n := |digits|;
    if n <= keepLast {
      masked := seq(n, _ => '*');
    } else {
      // `digits[-keep_last:]` is the whole string when keep_last is 0.
      var tail := if keepLast == 0 then digits else digits[n - keepLast..];
      masked := seq(n - keepLast, _ => '*') + tail;
    }
  }

  /** One more character of the keep-last masking. */
  lemma KeptLastStepAt(raw: string, keep: nat, i: nat)
    requires i < |raw|
    ensures KeptLast(raw, keep)[..i + 1] == KeptLast(raw, keep)[..i] + [KeptLast(raw, keep)[i]]
    ensures KeptLast(raw, keep)[i] == if IsDigit(raw[i]) && !Kept(raw, keep, i) then '*' else raw[i]
  {
  }

  /** `_mask_digits_keep_last`. */
  method MaskDigitsKeepLast(raw: string, keepLast: nat) returns (r: string)
    ensures r == KeptLast(raw, keepLast)
  {
    var digits := DigitsOf(raw);
    var n := |digits|;
    if n == 0 {
      NoDigitsOf(raw);
      assert raw == KeptLast(raw, keepLast);
      return raw;
    }
    var masked := DigitMask(digits, keepLast);
    var result := [];
    var index := 0;
    var i := 0;
    while i < |raw|
      invariant 0 <= i <= |raw|
      invariant index == DigitsBefore(raw, i)
      invariant result == KeptLast(raw, keepLast)[..i]
    {
      DigitsStep(raw, i);
      KeptLastStepAt(raw, keepLast, i);
      if IsDigit(raw[i]) {
        DigitAtCount(raw, i);
        result := result + [masked[index]];
        index := index + 1;
      } else {
        result := result + [raw[i]];
      }
      i := i + 1;
    }
    assert KeptLast(raw, keepLast)[..i] == KeptLast(raw, keepLast);
    r := result;
  }

  /** Length is preserved, non-digits stay in place, and the digits that
      survive are exactly the last `keep` digits of the input, or none when the
      input has no more than `keep` digits. */
  lemma KeptLastDigits(raw: string, keep: nat)
    ensures |KeptLast(raw, keep)| == |raw|
    ensures forall i :: 0 <= i < |raw| && !IsDigit(raw[i]) ==> KeptLast(raw, keep)[i] == raw[i]
    ensures var n := |DigitsOf(raw)|;
            DigitsOf(KeptLast(raw, keep)) == if n > keep then DigitsOf(raw)[n - keep..] else []
  {
    var r := KeptLast(raw, keep);
    var i := 0;
    assert r[..0] == [] && raw[..0] == [];
    while i < |raw|
      invariant 0 <= i <= |raw|
      invariant DigitsOf(r[..i]) == SurvivingDigits(raw, keep, i)
    {
      KeptLastStep(raw, keep, i);
      i := i + 1;
    }
    assert r[..i] == r && raw[..i] == raw;
  }

  /** The digits of KeptLast(raw, keep)[..i]: those of raw[..i] from the first
      kept one on. */
  function SurvivingDigits(raw: string, keep: nat, i: nat): string
    requires i <= |raw|
  {
    var n := |DigitsOf(raw)|;
    var c := DigitsBefore(raw, i);
    if n > keep && c >= n - keep then DigitsOf(raw[..i])[n - keep..] else []
  }

  lemma KeptLastStep(raw: string, keep: nat, i: nat)
    requires i < |raw|
    requires DigitsOf(KeptLast(raw, keep)[..i]) == SurvivingDigits(raw, keep, i)
    ensures DigitsOf(KeptLast(raw, keep)[..i + 1]) == SurvivingDigits(raw, keep, i + 1)
  {
    var r := KeptLast(raw, keep);
    var n := |DigitsOf(raw)|;
    DigitsStep(raw, i);
    DigitsStep(r, i);
    if IsDigit(raw[i]) && Kept(raw, keep, i) {
      assert r[i] == raw[i];
      var d := DigitsOf(raw[..i]);
      assert DigitsOf(raw[..i + 1]) == d + [raw[i]];
      assert (d + [raw[i]])[n - keep..] == d[n - keep..] + [raw[i]];
    } else if IsDigit(raw[i]) {
      assert r[i] == '*';
    } else {
      assert r[i] == raw[i];
    }
  }

  /** Input without digits comes back unchanged. */
  lemma KeptLastNoDigits(raw: string, keep: nat)
    requires NoDigits(raw)
    ensures KeptLast(raw, keep) == raw
  {
  }

  // ------------------------------------------------------- mask every digit

  function AllMasked(raw: string): (r: string)
    ensures |r| == |raw|
  {
    seq(|raw|, i requires 0 <= i < |raw| => if IsDigit(raw[i]) then '*' else raw[i])
  }

  /** `_mask_digits_all`: every digit becomes '*', every other character stays
      in place, no digit is left, and a second pass changes nothing. */
  method MaskDigitsAll(raw: string) returns (r: string)
    ensures r == AllMasked(raw)
    ensures |r| == |raw| && NoDigits(r)
    ensures forall i :: 0 <= i < |raw| && !IsDigit(raw[i]) ==> r[i] == raw[i]
    ensures AllMasked(r) == r
  {
    var result := [];
    var i := 0;
    while i < |raw|
      invariant 0 <= i <= |raw|
      invariant result == AllMasked(raw)[..i]
    {
      if IsDigit(raw[i]) {
        result := result + ['*'];
      } else {
        result := result + [raw[i]];
      }
      i := i + 1;
    }
    assert AllMasked(raw)[..i] == AllMasked(raw);
    r := result;
  }

  /** Masking everything is keep-last with nothing kept. */
  lemma AllMaskedIsKeptLastZero(raw: string)
    ensures AllMasked(raw) == KeptLast(raw, 0)
  {
    forall i | 0 <= i < |raw| && IsDigit(raw[i]) ensures !Kept(raw, 0, i) {
      DigitAtCount(raw, i);
    }
  }

  // ------------------------------------------------------------------ Luhn

  /** The contribution of a digit at index `pos` counted from the right. */
  function LuhnTerm(d: nat, pos: nat): nat
  {
    if pos % 2 == 1 then (if 2 * d > 9 then 2 * d - 9 else 2 * d) else d
  }

  /** The Luhn sum of a digit string (the check digit is the last one). */
  function LuhnSum(s: string): nat
    requires AllDigits(s)
  {
    if s == [] then 0 else LuhnTerm(DigitValue(s[0]), |s| - 1) + LuhnSum(s[1..])
  }

  /** The Luhn check of ISO/IEC 7812-1, Annex B, on a non-empty digit string. */
  predicate LuhnValid(s: string)
  {
    s != [] && AllDigits(s) && LuhnSum(s) % 10 == 0
  }

  /** `_luhn_check`: false unless the input is a non-empty digit string
      (`str.isdigit`), and otherwise the Luhn check. */
  method LuhnCheck(number: string) returns (ok: bool)
    ensures ok <==> LuhnValid(number)
  {
    if !(|number| > 0 && AllDigits(number)) {
      return false;
    }
    var n := |number|;
    var total := 0;
    var index := 0;
    while index < n
      invariant 0 <= index <= n
      invariant total == LuhnSum(number[n - index..])
    {
      var digit := DigitValue(number[n - 1 - index]);
      if index % 2 == 1 {
        digit := digit * 2;
        if digit > 9 {
          digit := digit - 9;
        }
      }
      assert number[n - 1 - index..][1..] == number[n - index..];
      total := total + digit;
      index := index + 1;
    }
    assert number[n - index..] == number;
    ok := total % 10 == 0;
  }

  lemma LuhnStep(s: string, k: nat)
    requires AllDigits(s) && k < |s|
    ensures LuhnSum(s[k..]) == LuhnTerm(DigitValue(s[k]), |s| - 1 - k) + LuhnSum(s[k + 1..])
  {
    assert s[k..][1..] == s[k + 1..];
  }

  /** The digit at index k contributes exactly LuhnTerm at its position counted
      from the right, so two digit strings that differ only there differ in
      their sums by the difference of the two terms. */
  lemma {:induction false} LuhnSumDiff(s: string, t: string, k: nat)
    requires AllDigits(s) && AllDigits(t) && |s| == |t| && k < |s|
    requires forall j :: 0 <= j < |s| && j != k ==> s[j] == t[j]
    ensures LuhnSum(s) - LuhnSum(t)
         == LuhnTerm(DigitValue(s[k]), |s| - 1 - k) - LuhnTerm(DigitValue(t[k]), |s| - 1 - k)
  {
    if k == 0 {
      assert s[1..] == t[1..];
    } else {
      LuhnSumDiff(s[1..], t[1..], k - 1);
    }
  }

  /** The Luhn check catches every single-digit error: two digit strings that
      differ in exactly one position never both pass. */
  lemma LuhnDetectsSingleDigitError(s: string, t: string, k: nat)
    requires AllDigits(s) && AllDigits(t) && |s| == |t| && k < |s|
    requires forall j :: 0 <= j < |s| && j != k ==> s[j] == t[j]
    requires s[k] != t[k]
    ensures LuhnSum(s) % 10 != LuhnSum(t) % 10
    ensures !(LuhnValid(s) && LuhnValid(t))
  {
    LuhnSumDiff(s, t, k);
    var pos := |s| - 1 - k;
    var a, b := LuhnTerm(DigitValue(s[k]), pos), LuhnTerm(DigitValue(t[k]), pos);
    assert a != b && a < 10 && b < 10;
    ModDiffers(LuhnSum(s), LuhnSum(t));
  }

  lemma ModDiffers(x: int, y: int)
    requires x != y && -10 < x - y < 10
    ensures x % 10 != y % 10
  {
  }

  lemma {:induction false} LuhnOnes(s: string, k: nat)
    requires AllDigits(s) && 1 <= k <= |s|
    requires forall j :: k <= j < |s| ==> s[j] == '1'
    ensures LuhnSum(s[k..]) == (|s| - k) + (|s| - k) / 2
    decreases |s| - k
  {
    if k < |s| {
      LuhnStep(s, k);
      LuhnOnes(s, k + 1);
    }
  }

  /** The Visa test number 4111 1111 1111 1111 passes the check. */
  lemma LuhnAcceptsTestCard(s: string)
    requires |s| == 16 && s[0] == '4' && forall j :: 1 <= j < 16 ==> s[j] == '1'
    ensures LuhnValid(s)
  {
    LuhnOnes(s, 1);
    LuhnStep(s, 0);
    assert s[0..] == s;
  }

  /** Changing its check digit to 2 makes it fail. */
  lemma LuhnRejectsAlteredCard(s: string)
    requires |s| == 16 && s[0] == '4' && (forall j :: 1 <= j < 15 ==> s[j] == '1') && s[15] == '2'
    ensures !LuhnValid(s)
  {
    var t := s[..15] + ['1'];
    LuhnAcceptsTestCard(t);
    LuhnDetectsSingleDigitError(s, t, 15);
  }

  // ------------------------------------------------------- keyword numbers

  /** `_mask_keyword_number`: the keyword and separator are copied and every
      digit of the number is masked. */
  function MaskKeywordNumber(keyword: string, separator: string, number: string): (r: string)
    ensures |r| == |keyword| + |separator| + |number|
    ensures r[..|keyword| + |separator|] == keyword + separator
    ensures NoDigits(r[|keyword| + |separator|..])
    ensures DigitsOf(r) == DigitsOf(keyword + separator)
  {
    var r := keyword + separator + AllMasked(number);
    assert r[..|keyword| + |separator|] == keyword + separator;
    assert r[|keyword| + |separator|..] == AllMasked(number);
    DigitsOfAppend(keyword + separator, AllMasked(number));
    AllMaskedNoDigits(number);
    r
  }

  lemma AllMaskedNoDigits(raw: string)
    ensures NoDigits(AllMasked(raw)) && DigitsOf(AllMasked(raw)) == []
  {
    var r := AllMasked(raw);
    var i := 0;
    while i < |r|
      invariant 0 <= i <= |r| && DigitsOf(r[..i]) == []
    {
      DigitsStep(r, i);
      i := i + 1;
    }
    assert r[..i] == r;
  }

  // ------------------------------------------------------------ email, RRN

  /** `_mask_email`: the domain and the '@' are kept; of the local part at
      most its first character survives, followed by asterisks. */
  function MaskEmail(local: string, domain: string): (r: string)
    ensures var cut := |r| - |domain| - 1;
            && 0 < cut <= 4 && r[cut..] == "@" + domain
            && (forall k :: 1 <= k < cut ==> r[k] == '*')
            && (if |local| <= 1 then r[0] == '*' && cut == 1 else r[0] == local[0] && cut == 4)
  {
    var masked := if |local| <= 1 then "*" else [local[0]] + "***";
    assert (masked + "@" + domain)[|masked|..] == "@" + domain;
    masked + "@" + domain
  }

  /** `_mask_rrn`: the six-digit front part is kept and the rest is replaced by
      "-*******", so the front's digits are the only digits left. */
  function MaskRrn(front: string): (r: string)
    ensures |r| == |front| + 8 && r[..|front|] == front
    ensures DigitsOf(r) == DigitsOf(front)
  {
    var back := "-*******";
    assert DigitsOf(back) == [] by {
      assert DigitsOf(back[..1]) == [];
      assert back[..2][..1] == back[..1];
      assert DigitsOf(back[..2]) == [];
      assert back[..3][..2] == back[..2];
      assert DigitsOf(back[..3]) == [];
      assert back[..4][..3] == back[..3];
      assert DigitsOf(back[..4]) == [];
      assert back[..5][..4] == back[..4];
      assert DigitsOf(back[..5]) == [];
      assert back[..6][..5] == back[..5];
      assert DigitsOf(back[..6]) == [];
      assert back[..7][..6] == back[..6];
      assert DigitsOf(back[..7]) == [];
      assert back[..7] == back[..|back| - 1];
    }
    DigitsOfAppend(front, back);
    front + back
  }

  // --------------------------------------------------------------- keywords

  /** `_contains_keyword`: some keyword, lower-cased, occurs in the lower-cased
      text. */
  predicate ContainsKeyword(text: string, keywords: seq<string>)
  {
    exists k :: 0 <= k < |keywords| && Contains(Lower(text), Lower(keywords[k]))
  }

  /** A keyword written into the text as it is listed is found. */
  lemma KeywordFound(text: string, keywords: seq<string>, k: nat, at: nat)
    requires k < |keywords| && OccursAt(text, keywords[k], at)
    ensures ContainsKeyword(text, keywords)
  {
    var kw := keywords[k];
    assert Lower(text)[at..at + |kw|] == Lower(text[at..at + |kw|]);
    assert OccursAt(Lower(text), Lower(kw), at);
  }

  /** The check ignores ASCII case. */
  lemma KeywordIgnoresCase(text: string, keywords: seq<string>)
    ensures ContainsKeyword(Lower(text), keywords) <==> ContainsKeyword(text, keywords)
  {
    assert Lower(Lower(text)) == Lower(text);
  }
}
