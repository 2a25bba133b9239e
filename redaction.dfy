/**
 * `redact_text` and the structure walkers of app/core/redaction.py: the
 * ordered per-line passes, the strict-mode Luhn pass, and the recursion over
 * nested values.
 */
module Redaction {
  import opened Common
  import opened Values
  import opened RedactionMasks
  import opened RedactionPatterns

  const CardKeywords: seq<string> := ["카드", "신용", "체크", "결제", "CARD", "카드번호"]

  const RrnKeywords: seq<string> := ["주민번호", "주민등록", "주민", "RRN"]

  /** The values of REDACTION_STRICT that switch strict mode on. */
  const StrictValues: seq<string> := ["1", "true", "yes", "on"]

  /**
   * `_is_strict_enabled`: the environment variable, lower-cased, when it is
   * set; otherwise the truth of the setting. `setting` is None when reading
   * it raises (the settings object has no such field), which gives false.
   */
  function StrictEnabled(env: Option<string>, setting: Option<Value>): (b: bool)
    ensures env.Some? ==> (b <==> exists k :: 0 <= k < |StrictValues| && Lower(env.value) == StrictValues[k])
    ensures env.None? ==> (b <==> setting.Some? && Truthy(setting.value))
  {
    match env
    case Some(raw) => Lower(raw) in StrictValues
    case None => setting.Some? && Truthy(setting.value)
  }

  /** The strict flag `redact_text` uses: an explicit argument wins. */
  function EffectiveStrict(strict: Option<bool>, env: Option<string>, setting: Option<Value>): bool
  {
    if strict.Some? then strict.value else StrictEnabled(env, setting)
  }

  // ---------------------------------------------------------- one line

  /** The passes up to the strict candidates: approval, account, keyword-gated
      loose card, grouped card, and (in strict mode) Luhn candidates. */
  function CardStages(line: string, strict: bool): string
  {
    var a := Sub(ApprovalNumber, line);
    var b := Sub(AccountNumber, a);
    var c := if ContainsKeyword(b, CardKeywords) then Sub(CardLoose, b) else b;
    var d := Sub(CardGrouped, c);
    if strict then Sub(CardCandidate, d) else d
  }

  /** One line of `redact_text`: the card stages, then email, phone and the
      keyword-gated RRN pass. */
  function RedactedLine(line: string, strict: bool): string
  {
    var f := Sub(Phone, Sub(Email, CardStages(line, strict)));
    if ContainsKeyword(f, RrnKeywords) then Sub(Rrn, f) else f
  }

  /** Every line redacted, in order. */
  function RedactedLines(lines: seq<string>, strict: bool): (out: seq<string>)
    ensures |out| == |lines|
    ensures forall i :: 0 <= i < |lines| ==> out[i] == RedactedLine(lines[i], strict)
  {
    if lines == [] then []
    else RedactedLines(lines[..|lines| - 1], strict) + [RedactedLine(lines[|lines| - 1], strict)]
  }

  /** `redact_text` with its strict flag decided: empty text is returned as
      it is, anything else line by line, joined with "\n". */
  function RedactedText(text: string, strict: bool): string
  {
    if text == [] then text else Join(RedactedLines(SplitLines(text), strict), "\n")
  }

  // ------------------------------------------------- the imperative code

  /** `_mask_card_candidates_strict`: splices the Luhn-checked replacement of
      every loose card match into the line. */
  method MaskCardCandidatesStrict(line: string) returns (r: string)
    ensures r == Sub(CardCandidate, line)
  {
    var matches := FindAll(CardLoose, line, 0);
    if matches == [] {
      FindAllEmpty(CardLoose, line, 0);
      SameMatches(line);
      SubNoMatch(CardCandidate, line, 0);
      return line;
    }
    var result: string := [];
    var lastIndex: nat := 0;
    var k := 0;
    while k < |matches|
      invariant 0 <= k <= |matches| && lastIndex <= |line|
      invariant matches[k..] == FindAll(CardLoose, line, lastIndex)
      invariant result + SubFrom(CardCandidate, line, lastIndex) == Sub(CardCandidate, line)
      decreases |matches| - k
    {
      var m := matches[k];
      FindAllHead(CardLoose, line, lastIndex);
      var raw := line[m.start..m.end];
      var replacement := raw;
      if '*' !in raw {
        var digits := DigitsOf(raw);
        if 13 <= |digits| <= 19 {
          var ok := LuhnCheck(digits);
          if ok {
            replacement := MaskDigitsKeepLast(raw, 4);
          }
        }
      }
      CandidateStep(line, lastIndex, m);
      assert replacement == Replacement(CardCandidate, line, m);
      result := result + line[lastIndex..m.start] + replacement;
      lastIndex := m.end;
      k := k + 1;
    }
    FindAllEmpty(CardLoose, line, lastIndex);
    SameMatches(line);
    SubNoMatch(CardCandidate, line, lastIndex);
    r := result + line[lastIndex..];
  }

  /** The strict pass runs the loose card pattern. */
  lemma SameMatches(s: string)
    ensures forall k :: 0 <= k <= |s| ==> MatchAt(CardCandidate, s, k) == MatchAt(CardLoose, s, k)
  {
  }

  /** One splice of the strict pass: the text before the next loose match,
      then its replacement. */
  lemma CandidateStep(s: string, i: nat, m: Match)
    requires i <= |s| && FindAll(CardLoose, s, i) != [] && m == FindAll(CardLoose, s, i)[0]
    ensures i <= m.start <= m.cut1 <= m.cut2 <= m.end <= |s| && m.start < m.end
    ensures SubFrom(CardCandidate, s, i)
            == s[i..m.start] + Replacement(CardCandidate, s, m) + SubFrom(CardCandidate, s, m.end)
  {
    FindAllHead(CardLoose, s, i);
    SameMatches(s);
    SubSkip(CardCandidate, s, i, m.start);
    SubAtMatch(CardCandidate, s, m.start);
  }

  /** The body of `redact_text`'s loop: the passes over one line, in order. */
  method RedactLine(line: string, strictEnabled: bool) returns (redacted: string)
    ensures redacted == RedactedLine(line, strictEnabled)
  {
    redacted := line;
    redacted := Sub(ApprovalNumber, redacted);
    redacted := Sub(AccountNumber, redacted);
    if ContainsKeyword(redacted, CardKeywords) {
      redacted := Sub(CardLoose, redacted);
    }
    redacted := Sub(CardGrouped, redacted);
    if strictEnabled {
      redacted := MaskCardCandidatesStrict(redacted);
    }
    redacted := Sub(Email, redacted);
    redacted := Sub(Phone, redacted);
    if ContainsKeyword(redacted, RrnKeywords) {
      redacted := Sub(Rrn, redacted);
    }
  }

  /** The loop of `redact_text`: every line redacted, in order. */
  method RedactLines(lines: seq<string>, strictEnabled: bool) returns (redactedLines: seq<string>)
    ensures redactedLines == RedactedLines(lines, strictEnabled)
  {
    redactedLines := [];
    var i := 0;
    while i < |lines|
      invariant 0 <= i <= |lines|
      invariant redactedLines == RedactedLines(lines[..i], strictEnabled)
    {
      var line := lines[i];
      var redacted := RedactLine(line, strictEnabled);
      assert lines[..i + 1][..i] == lines[..i];
      redactedLines := redactedLines + [redacted];
      i := i + 1;
    }
    assert lines[..i] == lines;
  }

  /** `redact_text`. The environment variable and the setting are
      parameters. */
  method RedactText(text: string, strict: Option<bool>, env: Option<string>, setting: Option<Value>)
    returns (r: string)
    ensures r == RedactedText(text, EffectiveStrict(strict, env, setting))
  {
    if text == [] {
      return text;
    }
    var strictEnabled := if strict.Some? then strict.value else StrictEnabled(env, setting);
    var lines := SplitLines(text);
    var redactedLines := RedactLines(lines, strictEnabled);
    r := Join(redactedLines, "\n");
  }

  // ------------------------------------------------------ line structure

  lemma CharsFromTrans(a: string, b: string, c: string)
    requires CharsFrom(a, b) && CharsFrom(b, c)
    ensures CharsFrom(a, c)
  {
  }

  /** Every pass of a line writes only characters of the line and '*', '-'
      and '@'. */
  lemma RedactedLineChars(line: string, strict: bool)
    ensures CharsFrom(RedactedLine(line, strict), line)
  {
    var a := Sub(ApprovalNumber, line);
    var b := Sub(AccountNumber, a);
    var c := if ContainsKeyword(b, CardKeywords) then Sub(CardLoose, b) else b;
    var d := Sub(CardGrouped, c);
    var e := if strict then Sub(CardCandidate, d) else d;
    var f := Sub(Phone, Sub(Email, e));
    var g := if ContainsKeyword(f, RrnKeywords) then Sub(Rrn, f) else f;
    SubChars(ApprovalNumber, line, 0);
    SubChars(AccountNumber, a, 0);
    CharsFromTrans(b, a, line);
    SubChars(CardLoose, b, 0);
    CharsFromSlice(b, 0, |b|);
    assert b[0..|b|] == b;
    CharsFromTrans(c, b, line);
    SubChars(CardGrouped, c, 0);
    CharsFromTrans(d, c, line);
    SubChars(CardCandidate, d, 0);
    CharsFromSlice(d, 0, |d|);
    assert d[0..|d|] == d;
    CharsFromTrans(e, d, line);
    SubChars(Email, e, 0);
    CharsFromTrans(Sub(Email, e), e, line);
    SubChars(Phone, Sub(Email, e), 0);
    CharsFromTrans(f, Sub(Email, e), line);
    SubChars(Rrn, f, 0);
    CharsFromSlice(f, 0, |f|);
    assert f[0..|f|] == f;
    CharsFromTrans(g, f, line);
  }

  /** The redaction of a line holds no line break the line did not hold. */
  lemma RedactedLineNoNewline(line: string, strict: bool)
    requires '\n' !in line
    ensures '\n' !in RedactedLine(line, strict)
  {
    RedactedLineChars(line, strict);
  }

  /** The output's "\n"-separated lines are the redacted `splitlines` lines
      of the input, so there are as many of them. */
  lemma RedactedTextLines(text: string, strict: bool)
    requires text != []
    ensures SplitOn(RedactedText(text, strict), '\n') == RedactedLines(SplitLines(text), strict)
    ensures |SplitOn(RedactedText(text, strict), '\n')| == |SplitLines(text)|
  {
    var lines := SplitLines(text);
    var out := RedactedLines(lines, strict);
    forall i | 0 <= i < |out| ensures '\n' !in out[i] {
      assert lines[i] in lines;
      RedactedLineNoNewline(lines[i], strict);
    }
    assert forall l :: l in out ==> '\n' !in l;
    SplitOnJoin(out, '\n');
  }

  /** The passes before email change nothing but digits, each into '*'. */
  lemma CardStagesMaskOnly(line: string, strict: bool)
    ensures MasksOnly(line, CardStages(line, strict))
  {
    var a := Sub(ApprovalNumber, line);
    var b := Sub(AccountNumber, a);
    var c := if ContainsKeyword(b, CardKeywords) then Sub(CardLoose, b) else b;
    var d := Sub(CardGrouped, c);
    SubMasksOnly(ApprovalNumber, line, 0);
    SubMasksOnly(AccountNumber, a, 0);
    SubMasksOnly(CardLoose, b, 0);
    SubMasksOnly(CardGrouped, c, 0);
    SubMasksOnly(CardCandidate, d, 0);
    assert line[0..] == line && a[0..] == a && b[0..] == b && c[0..] == c && d[0..] == d;
  }
}
