/**
 * Shared vocabulary of the model: Option/Result, the character classes the
 * redaction and extraction patterns use, and the handful of Python string
 * operations (`strip`, `splitlines`, `join`, `split`, `find`, `rfind`,
 * `startswith`, `lower`, `in`) that the source relies on.
 *
 * Character classes are ASCII where the patterns are concerned: `\d` is
 * '0'..'9'; a word character for `\b` is an ASCII letter or digit, '_' or a
 * Hangul letter; `\s` is the set of characters Python's `str.isspace` accepts.
 */
module Common {

  datatype Option<+T> = None | Some(value: T)

  datatype Result<+T, +E> = Ok(value: T) | Err(error: E)

  // ---------------------------------------------------------------- characters

  predicate IsDigit(c: char) { '0' <= c <= '9' }

  predicate IsAsciiLetter(c: char) { 'a' <= c <= 'z' || 'A' <= c <= 'Z' }

  predicate IsHangul(c: char)
  {
    || '\U{1100}' <= c <= '\U{11FF}'   // jamo
    || '\U{3130}' <= c <= '\U{318F}'   // compatibility jamo
    || '\U{AC00}' <= c <= '\U{D7A3}'   // syllables
  }

  /** A character that Python's `\w` accepts (restricted as described above). */
  predicate IsWordChar(c: char) { IsDigit(c) || IsAsciiLetter(c) || c == '_' || IsHangul(c) }

  /** Python's `\b` between positions i-1 and i of s. */
  predicate IsBoundary(s: string, i: nat)
    requires i <= |s|
  {
    (i > 0 && IsWordChar(s[i - 1])) != (i < |s| && IsWordChar(s[i]))
  }

  /** The characters `str.isspace` (and so `\s` and `strip`) accepts. */
  predicate IsSpace(c: char)
  {
    || '\U{09}' <= c <= '\U{0D}' || '\U{1C}' <= c <= '\U{1F}' || c == ' '
    || c == '\U{85}' || c == '\U{A0}' || c == '\U{1680}' || '\U{2000}' <= c <= '\U{200A}'
    || c == '\U{2028}' || c == '\U{2029}' || c == '\U{202F}' || c == '\U{205F}' || c == '\U{3000}'
  }

  /** The line boundaries of `str.splitlines`. */
  predicate IsLineBreak(c: char)
  {
    '\U{0A}' <= c <= '\U{0D}' || '\U{1C}' <= c <= '\U{1E}' || c == '\U{85}' || c == '\U{2028}' || c == '\U{2029}'
  }

  function LowerChar(c: char): char
  {
    if 'A' <= c <= 'Z' then (c as int + 32) as char else c
  }

  /** `str.lower`, on ASCII letters. */
  function Lower(s: string): (r: string)
    ensures |r| == |s|
    ensures forall i :: 0 <= i < |s| ==> r[i] == LowerChar(s[i])
  {
    seq(|s|, i requires 0 <= i < |s| => LowerChar(s[i]))
  }

  predicate AllDigits(s: string) { forall i :: 0 <= i < |s| ==> IsDigit(s[i]) }

  predicate NoDigits(s: string) { forall i :: 0 <= i < |s| ==> !IsDigit(s[i]) }

  // ------------------------------------------------------------ substrings

  /** A slice of a slice is a slice. */
  lemma SliceOfSlice<T>(s: seq<T>, lo: nat, hi: nat, x: nat, y: nat)
    requires lo <= hi <= |s| && x <= y <= hi - lo
    ensures s[lo..hi][x..y] == s[lo + x..lo + y]
  {
    assert |s[lo..hi][x..y]| == y - x == |s[lo + x..lo + y]|;
    forall k | 0 <= k < y - x
      ensures s[lo..hi][x..y][k] == s[lo + x..lo + y][k]
    {
    }
  }

  predicate OccursAt(s: string, pat: string, i: nat)
  {
    i + |pat| <= |s| && s[i..i + |pat|] == pat
  }

  /** Python's `pat in s`. */
  predicate Contains(s: string, pat: string)
  {
    exists i :: 0 <= i <= |s| && OccursAt(s, pat, i)
  }

  /** Python's `s.startswith(p)`. */
  predicate StartsWith(s: string, p: string) { |p| <= |s| && s[..|p|] == p }

  /** Python's `s.find(c)` from position i, as an index (None for -1). */
  function FindFrom(s: string, c: char, i: nat): (r: Option<nat>)
    decreases |s| - i
    ensures r.Some? ==> i <= r.value < |s| && s[r.value] == c
    ensures r.Some? ==> forall k :: i <= k < r.value ==> s[k] != c
    ensures r.None? ==> forall k :: i <= k < |s| ==> s[k] != c
  {
    if i >= |s| then None else if s[i] == c then Some(i) else FindFrom(s, c, i + 1)
  }

  lemma NoneFound(s: string, c: char, i: nat)
    requires c !in s
    ensures FindFrom(s, c, i).None?
  {
  }

  lemma FirstFound(s: string, c: char, i: nat, k: nat)
    requires i <= k < |s| && s[k] == c
    requires forall j :: i <= j < k ==> s[j] != c
    ensures FindFrom(s, c, i) == Some(k)
  {
  }

  function Find(s: string, c: char): Option<nat> { FindFrom(s, c, 0) }

  /** Python's `s.rfind(c)` restricted to s[..n], as an index (None for -1). */
  function RFindBefore(s: string, c: char, n: nat): (r: Option<nat>)
    requires n <= |s|
    ensures r.Some? ==> r.value < n && s[r.value] == c
    ensures r.Some? ==> forall k :: r.value < k < n ==> s[k] != c
    ensures r.None? ==> forall k :: 0 <= k < n ==> s[k] != c
  {
    if n == 0 then None else if s[n - 1] == c then Some(n - 1) else RFindBefore(s, c, n - 1)
  }

  function RFind(s: string, c: char): Option<nat> { RFindBefore(s, c, |s|) }

  // ------------------------------------------------------------- strip

  function StripStart(s: string): (r: string)
    ensures |r| <= |s| && r == s[|s| - |r|..]
    ensures r == [] || !IsSpace(r[0])
    ensures forall k :: 0 <= k < |s| - |r| ==> IsSpace(s[k])
  {
    if s != [] && IsSpace(s[0]) then StripStart(s[1..]) else s
  }

  function StripEnd(s: string): (r: string)
    ensures |r| <= |s| && r == s[..|r|]
    ensures r == [] || !IsSpace(r[|r| - 1])
    ensures forall k :: |r| <= k < |s| ==> IsSpace(s[k])
  {
    if s != [] && IsSpace(s[|s| - 1]) then StripEnd(s[..|s| - 1]) else s
  }

  /** Python's `s.strip()`: a slice of s with no white space at either end,
      everything cut off being white space. */
  function Strip(s: string): (r: string)
    ensures exists a, b ::
              && 0 <= a <= b <= |s| && r == s[a..b]
              && (forall k :: 0 <= k < a ==> IsSpace(s[k]))
              && (forall k :: b <= k < |s| ==> IsSpace(s[k]))
    ensures r == [] || (!IsSpace(r[0]) && !IsSpace(r[|r| - 1]))
  {
    var t := StripStart(s);
    var r := StripEnd(t);
    var a := |s| - |t|;
    assert r == s[a..a + |r|];
    r
  }

  // ------------------------------------------------------- lines and joins

  /** Position of the first line boundary at or after i, or |s|. */
  function NextBreak(s: string, i: nat): (k: nat)
    requires i <= |s|
    decreases |s| - i
    ensures i <= k <= |s| && (k < |s| ==> IsLineBreak(s[k]))
    ensures forall j :: i <= j < k ==> !IsLineBreak(s[j])
  {
    if i == |s| || IsLineBreak(s[i]) then i else NextBreak(s, i + 1)
  }

  /** Python's `str.splitlines()`: "\r\n" is one boundary, and a boundary at
      the very end does not open an empty last line. */
  function SplitLines(s: string): (ls: seq<string>)
    decreases |s|
    ensures s != [] <==> |ls| > 0
    ensures forall l :: l in ls ==> forall j :: 0 <= j < |l| ==> !IsLineBreak(l[j])
  {
    if s == [] then []
    else
      var k := NextBreak(s, 0);
      if k == |s| then [s]
      else
        var width := if s[k] == '\r' && k + 1 < |s| && s[k + 1] == '\n' then 2 else 1;
        [s[..k]] + SplitLines(s[k + width..])
  }

  /** Python's `sep.join(ls)`. */
  function Join(ls: seq<string>, sep: string): string
  {
    if ls == [] then [] else if |ls| == 1 then ls[0] else ls[0] + sep + Join(ls[1..], sep)
  }

  /** Python's `s.split(c)` for a single character c. */
  function SplitOn(s: string, c: char): (parts: seq<string>)
    decreases |s|
    ensures |parts| > 0
  {
    match FindFrom(s, c, 0)
    case None => [s]
    case Some(k) => [s[..k]] + SplitOn(s[k + 1..], c)
  }

  /** Splitting a join at its separator gives back the pieces, provided none
      of them holds the separator. */
  lemma {:induction false} SplitOnJoin(ls: seq<string>, c: char)
    requires |ls| > 0
    requires forall l :: l in ls ==> c !in l
    ensures SplitOn(Join(ls, [c]), c) == ls
  {
    if |ls| == 1 {
      NoneFound(ls[0], c, 0);
    } else {
      var rest := Join(ls[1..], [c]);
      var s := ls[0] + [c] + rest;
      assert Join(ls, [c]) == s;
      var k := |ls[0]|;
      assert ls[0] in ls;
      forall j | 0 <= j < k ensures s[j] != c {
        assert s[j] == ls[0][j] && ls[0][j] in ls[0];
      }
      assert s[k] == c;
      FirstFound(s, c, 0, k);
      assert s[..k] == ls[0];
      assert s[k + 1..] == rest;
      SplitOnJoin(ls[1..], c);
      assert ls == [ls[0]] + ls[1..];
    }
  }

  lemma {:induction false} JoinHasNo(ls: seq<string>, sep: string, c: char)
    requires forall l :: l in ls ==> c !in l
    requires c !in sep
    ensures c !in Join(ls, sep)
  {
    if |ls| > 1 {
      JoinHasNo(ls[1..], sep, c);
    }
  }

  // ------------------------------------------------------- decimal numbers

  function DigitValue(c: char): nat
    requires IsDigit(c)
  {
    c as int - '0' as int
  }

  function DigitChar(d: nat): (c: char)
    requires d < 10
    ensures IsDigit(c) && DigitValue(c) == d
  {
    ('0' as int + d) as char
  }

  /** The ASCII digits of s, in order (`re.sub(r"[^0-9]", "", s)`). */
  function DigitsOf(s: string): (r: string)
    ensures AllDigits(r) && |r| <= |s|
  {
    if s == [] then []
    else if IsDigit(s[|s| - 1]) then DigitsOf(s[..|s| - 1]) + [s[|s| - 1]]
    else DigitsOf(s[..|s| - 1])
  }

  /** Python's `int(digits)` for a non-empty ASCII digit string. */
  function NatOf(digits: string): nat
    requires AllDigits(digits)
  {
    if digits == [] then 0 else 10 * NatOf(digits[..|digits| - 1]) + DigitValue(digits[|digits| - 1])
  }

  /** Python's `str(n)` for n >= 0. */
  function NatToString(n: nat): (s: string)
    ensures |s| > 0 && AllDigits(s)
  {
    if n < 10 then [DigitChar(n)] else NatToString(n / 10) + [DigitChar(n % 10)]
  }

  /** `int(str(n)) == n`. */
  lemma {:induction false} NatOfNatToString(n: nat)
    ensures NatOf(NatToString(n)) == n
  {
    if n >= 10 {
      var s := NatToString(n);
      assert s[..|s| - 1] == NatToString(n / 10);
      NatOfNatToString(n / 10);
    }
  }

  lemma {:induction false} DigitsOfAppend(a: string, b: string)
    ensures DigitsOf(a + b) == DigitsOf(a) + DigitsOf(b)
    decreases |b|
  {
    if b == [] {
      assert a + b == a;
    } else {
      var b' := b[..|b| - 1];
      assert (a + b)[..|a + b| - 1] == a + b';
      DigitsOfAppend(a, b');
    }
  }

  lemma {:induction false} AllDigitsOf(s: string)
    requires AllDigits(s)
    ensures DigitsOf(s) == s
  {
    if s != [] {
      AllDigitsOf(s[..|s| - 1]);
    }
  }

  lemma {:induction false} NoDigitsOf(s: string)
    requires DigitsOf(s) == []
    ensures NoDigits(s)
  {
    if s != [] {
      NoDigitsOf(s[..|s| - 1]);
      assert forall i :: 0 <= i < |s| - 1 ==> s[i] == s[..|s| - 1][i];
    }
  }

  /** The converse of NoDigitsOf. */
  lemma {:induction false} NoDigitsNone(s: string)
    requires NoDigits(s)
    ensures DigitsOf(s) == []
  {
    if s != [] {
      NoDigitsNone(s[..|s| - 1]);
    }
  }

  function CountChar(s: string, c: char): nat
  {
    if s == [] then 0 else (if s[|s| - 1] == c then 1 else 0) + CountChar(s[..|s| - 1], c)
  }
}
