/**
 * String primitives used by the client code, restricted to what the model needs:
 * ECMAScript whitespace, ASCII case mapping, prefix/suffix tests, first-occurrence
 * search and replacement, `split` on one character, `join`, and decimal rendering.
 */
module Text {
  import opened Wrappers

  /** ECMAScript WhiteSpace and LineTerminator code points: what `trim` removes and `\s` matches. */
  predicate IsSpace(c: char) {
    || c == '\t' || c == '\n' || c == '\U{B}' || c == '\U{C}' || c == '\r' || c == ' '
    || c == '\U{A0}' || c == '\U{1680}' || ('\U{2000}' <= c <= '\U{200A}')
    || c == '\U{2028}' || c == '\U{2029}' || c == '\U{202F}' || c == '\U{205F}'
    || c == '\U{3000}' || c == '\U{FEFF}'
  }

  predicate AllSpace(s: string) {
    forall i :: 0 <= i < |s| ==> IsSpace(s[i])
  }

  /** `String.prototype.trim`: drops leading and trailing whitespace and nothing else. */
  function Trim(s: string): (r: string)
    ensures exists i, j :: 0 <= i <= j <= |s| && r == s[i..j] && AllSpace(s[..i]) && AllSpace(s[j..])
    ensures r == [] || (!IsSpace(r[0]) && !IsSpace(r[|r| - 1]))
  {
    var a := LeadingSpace(s);
    var t := s[a..];
    var b := TrailingSpace(t);
    var r := t[..|t| - b];
    assert r == s[a..|s| - b] && t[|t| - b..] == s[|s| - b..];
    assert |r| > 0 ==> r[0] == s[a] && r[|r| - 1] == t[|t| - b - 1];
    r
  }

  /** The number of whitespace characters `s` starts with. */
  function LeadingSpace(s: string): (n: nat)
    ensures n <= |s| && AllSpace(s[..n])
    ensures n < |s| ==> !IsSpace(s[n])
  {
    if |s| > 0 && IsSpace(s[0]) then
      var n := LeadingSpace(s[1..]);
      assert s[..n + 1] == [s[0]] + s[1..][..n];
      n + 1
    else 0
  }

  /** The number of whitespace characters `s` ends with. */
  function TrailingSpace(s: string): (n: nat)
    ensures n <= |s| && AllSpace(s[|s| - n..])
    ensures n < |s| ==> !IsSpace(s[|s| - n - 1])
  {
    if |s| > 0 && IsSpace(s[|s| - 1]) then
      var init := s[..|s| - 1];
      var n := TrailingSpace(init);
      assert s[|s| - (n + 1)..] == init[|init| - n..] + [s[|s| - 1]];
      n + 1
    else 0
  }

  /** A string with no whitespace at either end is its own trim. */
  lemma TrimUnchanged(s: string)
    requires |s| > 0 && !IsSpace(s[0]) && !IsSpace(s[|s| - 1])
    ensures Trim(s) == s
  {
    assert LeadingSpace(s) == 0 && TrailingSpace(s) == 0;
  }

  /** Visible ASCII characters are not whitespace. */
  lemma VisibleNotSpace(c: char)
    requires '!' <= c <= '~'
    ensures !IsSpace(c)
  {
  }

  /** ASCII-only `toUpperCase` of one character. */
  function Upper(c: char): char {
    if 'a' <= c <= 'z' then (c as int - 32) as char else c
  }

  /** ASCII-only `toLowerCase` of one character. */
  function Lower(c: char): char {
    if 'A' <= c <= 'Z' then (c as int + 32) as char else c
  }

  function LowerStr(s: string): (r: string)
    ensures |r| == |s| && forall i :: 0 <= i < |s| ==> r[i] == Lower(s[i])
  {
    seq(|s|, i requires 0 <= i < |s| => Lower(s[i]))
  }

  predicate StartsWith(s: string, p: string) {
    |p| <= |s| && s[..|p|] == p
  }

  /** Case-insensitive prefix test (a regular expression anchored with `^` and flag `i`). */
  predicate StartsWithIgnoreCase(s: string, p: string) {
    |p| <= |s| && LowerStr(s[..|p|]) == LowerStr(p)
  }

  predicate EndsWith(s: string, p: string) {
    |p| <= |s| && s[|s| - |p|..] == p
  }

  predicate OccursAt(s: string, pat: string, k: int) {
    0 <= k && k + |pat| <= |s| && s[k..k + |pat|] == pat
  }

  /** First position at or after `from` where `pat` occurs. */
  function IndexOfFrom(s: string, pat: string, from: nat): (r: Option<nat>)
    decreases |s| - from
    ensures r.Some? ==> from <= r.value && OccursAt(s, pat, r.value)
    ensures r.Some? ==> forall k :: from <= k < r.value ==> !OccursAt(s, pat, k)
    ensures r.None? ==> forall k :: from <= k ==> !OccursAt(s, pat, k)
  {
    if from + |pat| > |s| then None
    else if s[from..from + |pat|] == pat then Some(from)
    else IndexOfFrom(s, pat, from + 1)
  }

  /** `String.prototype.indexOf`, with `None` for -1. */
  function IndexOf(s: string, pat: string): Option<nat> {
    IndexOfFrom(s, pat, 0)
  }

  predicate Contains(s: string, pat: string) {
    IndexOf(s, pat).Some?
  }

  /** A case-insensitive substring test (`/pat/i.test(s)` for a literal pattern). */
  predicate ContainsIgnoreCase(s: string, pat: string) {
    Contains(LowerStr(s), LowerStr(pat))
  }

  /** A pattern with a letter that `s` lacks in either case does not occur in `s`, ignoring case. */
  lemma MissingLetter(s: string, pat: string, m: nat)
    requires m < |pat| && 'a' <= pat[m] <= 'z'
    requires pat[m] !in s && Upper(pat[m]) !in s
    ensures !ContainsIgnoreCase(s, pat)
  {
  }

  /** A string that starts with the pattern, ignoring case, contains it. */
  lemma PrefixIgnoringCase(s: string, pat: string)
    requires |pat| <= |s| && forall i :: 0 <= i < |pat| ==> Lower(s[i]) == Lower(pat[i])
    ensures ContainsIgnoreCase(s, pat)
  {
    var ls, lp := LowerStr(s), LowerStr(pat);
    assert ls[0..|lp|] == lp;
    assert OccursAt(ls, lp, 0);
  }

  /** An occurrence at `k` with none before it is what `IndexOf` finds. */
  lemma IndexOfIsFirst(s: string, pat: string, k: nat)
    requires OccursAt(s, pat, k)
    requires forall j :: 0 <= j < k ==> !OccursAt(s, pat, j)
    ensures IndexOf(s, pat) == Some(k)
  {
  }

  /** `s.replace(pat, rep)` with a string pattern: only the first occurrence is replaced. */
  function ReplaceFirst(s: string, pat: string, rep: string): (r: string)
    ensures IndexOf(s, pat).None? ==> r == s
    ensures IndexOf(s, pat).Some? ==>
      var k := IndexOf(s, pat).value;
      r == s[..k] + rep + s[k + |pat|..]
  {
    match IndexOf(s, pat)
    case None => s
    case Some(k) => s[..k] + rep + s[k + |pat|..]
  }

  predicate IsDigit(c: char) {
    '0' <= c <= '9'
  }

  function Digit(d: nat): (c: char)
    requires d < 10
    ensures IsDigit(c)
  {
    ('0' as int + d) as char
  }

  /** Decimal rendering of a natural number, as `String(n)` prints it. */
  function NatToString(n: nat): (r: string)
    ensures |r| > 0
    ensures forall i :: 0 <= i < |r| ==> IsDigit(r[i])
    ensures |r| > 1 ==> r[0] != '0'
  {
    if n < 10 then [Digit(n)] else NatToString(n / 10) + [Digit(n % 10)]
  }

  /** Decimal rendering of an integer, with a leading `-` when negative. */
  function IntToString(i: int): (r: string)
    ensures |r| > 0
    ensures forall k :: 0 <= k < |r| ==> IsDigit(r[k]) || r[k] == '-'
  {
    if i < 0 then "-" + NatToString(-i) else NatToString(i)
  }

  /** `s.split(sep)` for a one-character separator: the pieces between separators, empty ones kept. */
  function Split(s: string, sep: char): (r: seq<string>)
    ensures |r| >= 1
    ensures forall i :: 0 <= i < |r| ==> sep !in r[i]
  {
    if |s| == 0 then [""]
    else
      var rest := Split(s[1..], sep);
      if s[0] == sep then [""] + rest
      else [[s[0]] + rest[0]] + rest[1..]
  }

  /** `parts.join(sep)`. */
  function Join(parts: seq<string>, sep: string): string {
    if |parts| == 0 then ""
    else if |parts| == 1 then parts[0]
    else parts[0] + sep + Join(parts[1..], sep)
  }

  /** The number of occurrences of `c` in `s`. */
  function CountChar(s: string, c: char): nat {
    if |s| == 0 then 0 else (if s[0] == c then 1 else 0) + CountChar(s[1..], c)
  }

  /** `split` yields one piece per separator plus one. */
  lemma {:induction false} SplitCount(s: string, sep: char)
    ensures |Split(s, sep)| == CountChar(s, sep) + 1
  {
    if |s| > 0 {
      SplitCount(s[1..], sep);
    }
  }

  /** Splitting and re-joining with the same separator gives the string back. */
  lemma {:induction false} JoinSplit(s: string, sep: char)
    ensures Join(Split(s, sep), [sep]) == s
  {
    if |s| > 0 {
      JoinSplit(s[1..], sep);
      var rest := Split(s[1..], sep);
      if s[0] == sep {
        assert Split(s, sep) == [""] + rest;
        assert s == [sep] + s[1..];
      } else {
        if |rest| == 1 {
          assert s == [s[0]] + rest[0];
        } else {
          assert Split(s, sep)[1..] == rest[1..];
          assert Join(rest, [sep]) == rest[0] + [sep] + Join(rest[1..], [sep]);
          assert s == [s[0]] + s[1..];
        }
      }
    }
  }
}
