/**
 * The JavaScript string operations the application relies on, with their
 * JavaScript meaning: `startsWith`, `indexOf`, `includes`, the first two
 * parts of `split`, `replace` with a string pattern (first occurrence only),
 * `substring`, `trim` and `Number.prototype.toString`.
 */
module Text {

  /** `s.startsWith(p)`. */
  predicate StartsWith(s: string, p: string) {
    p <= s
  }

  /** `pat` occurs in `s` starting at index `i`. */
  predicate OccursAt(s: string, pat: string, i: int) {
    0 <= i && i + |pat| <= |s| && s[i..i + |pat|] == pat
  }

  /** `pat[j..]` occurs in `s` at `i + j`, compared character by character. */
  function MatchFrom(s: string, pat: string, i: nat, j: nat): (r: bool)
    requires i + |pat| <= |s| && j <= |pat|
    ensures r <==> s[i + j..i + |pat|] == pat[j..]
    decreases |pat| - j
  {
    if j == |pat| then true
    else
      assert s[i + j..i + |pat|] == [s[i + j]] + s[i + j + 1..i + |pat|];
      assert pat[j..] == [pat[j]] + pat[j + 1..];
      s[i + j] == pat[j] && MatchFrom(s, pat, i, j + 1)
  }

  /** First occurrence of `pat` in `s` at or after `k`, or -1. */
  function IndexFrom(s: string, pat: string, k: nat): (r: int)
    ensures r == -1 || (k <= r && OccursAt(s, pat, r))
    ensures r == -1 ==> forall i :: k <= i ==> !OccursAt(s, pat, i)
    ensures r != -1 ==> forall i :: k <= i < r ==> !OccursAt(s, pat, i)
    decreases |s| - k
  {
    if k + |pat| > |s| then -1
    else if MatchFrom(s, pat, k, 0) then k
    else IndexFrom(s, pat, k + 1)
  }

  /** `s.indexOf(pat)`. */
  function IndexOf(s: string, pat: string): (r: int)
    ensures r == -1 || OccursAt(s, pat, r)
    ensures r == -1 <==> forall i :: !OccursAt(s, pat, i)
    ensures forall i :: 0 <= i < r ==> !OccursAt(s, pat, i)
  {
    IndexFrom(s, pat, 0)
  }

  /** `s.includes(pat)`. */
  predicate Contains(s: string, pat: string) {
    IndexOf(s, pat) != -1
  }

  /** An occurrence with none before it is the one `indexOf` finds. */
  lemma FirstAt(s: string, pat: string, i: int)
    requires OccursAt(s, pat, i)
    requires forall k :: 0 <= k < i ==> !OccursAt(s, pat, k)
    ensures IndexOf(s, pat) == i
  {
  }

  /** An occurrence is the first when one of the pattern's characters appears nowhere before its place in it. */
  lemma FirstByChar(s: string, pat: string, i: int, p: int)
    requires OccursAt(s, pat, i)
    requires 0 <= p < |pat| && pat[p] !in s[..i + p]
    ensures IndexOf(s, pat) == i
  {
    forall k | 0 <= k < i ensures !OccursAt(s, pat, k) {
      assert s[..i + p][k + p] == s[k + p];
      if k + |pat| <= |s| {
        assert s[k..k + |pat|][p] == s[k + p];
      }
    }
    FirstAt(s, pat, i);
  }

  /** Text added after the first occurrence does not move it. */
  lemma IndexOfExtend(x: string, y: string, pat: string)
    requires Contains(x, pat)
    ensures IndexOf(x + y, pat) == IndexOf(x, pat)
  {
    var r := IndexOf(x, pat);
    assert (x + y)[r..r + |pat|] == x[r..r + |pat|];
    forall k | 0 <= k < r ensures !OccursAt(x + y, pat, k) {
      assert !OccursAt(x, pat, k);
      assert (x + y)[k..k + |pat|] == x[k..k + |pat|];
    }
    FirstAt(x + y, pat, r);
  }

  /** A text that does not contain `pat` has no prefix that does. */
  lemma NotContainsPrefix(x: string, y: string, pat: string)
    requires !Contains(x + y, pat)
    ensures !Contains(x, pat)
  {
    if Contains(x, pat) {
      IndexOfExtend(x, y, pat);
    }
  }

  /**
   * When the first `pat` of `a + pat` is the one after `a`, splitting
   * `a + pat + b` at `pat` gives `a`, and the second part is `b` when `b`
   * holds no `pat`.
   */
  lemma SplitAround(a: string, pat: string, b: string)
    requires IndexOf(a + pat, pat) == |a|
    ensures Contains(a + pat + b, pat)
    ensures Before(a + pat + b, pat) == a && After(a + pat + b, pat) == b
    ensures !Contains(b, pat) ==> Second(a + pat + b, pat) == b
  {
    IndexOfExtend(a + pat, b, pat);
    assert (a + pat + b)[..|a|] == a;
    assert (a + pat + b)[|a| + |pat|..] == b;
  }

  /** A pattern is found at the start of itself. */
  lemma IndexOfSelf(pat: string)
    ensures IndexOf(pat, pat) == 0
  {
    assert pat[0..|pat|] == pat;
    FirstAt(pat, pat, 0);
  }

  /** `s.split(sep)[0]`: the text before the first `sep` (all of `s` when absent). */
  function Before(s: string, sep: string): (r: string)
    ensures r <= s
    ensures !Contains(s, sep) ==> r == s
    ensures Contains(s, sep) ==> |r| + |sep| <= |s| && s[|r|..|r| + |sep|] == sep
  {
    var i := IndexOf(s, sep);
    if i == -1 then s else s[..i]
  }

  /** The text after the first `sep`. */
  function After(s: string, sep: string): (r: string)
    requires Contains(s, sep)
    ensures Before(s, sep) + sep + r == s
  {
    var i := IndexOf(s, sep);
    s[i + |sep|..]
  }

  /**
   * `s.split(sep)[1]` when `s` contains `sep`: the text between the first
   * and the second occurrence of `sep`, or to the end when there is no second.
   */
  function Second(s: string, sep: string): (r: string)
    requires Contains(s, sep)
    ensures r <= After(s, sep)
    ensures !Contains(After(s, sep), sep) ==> r == After(s, sep)
  {
    Before(After(s, sep), sep)
  }

  /** `s.split(sep)[1] || ''`: the second part, or `""` when `s` holds no `sep`. */
  function SplitSecond(s: string, sep: string): (r: string)
    ensures Contains(s, sep) ==> r == Second(s, sep)
    ensures !Contains(s, sep) ==> r == ""
  {
    if Contains(s, sep) then Second(s, sep) else ""
  }

  /** A text misses a pattern when it lacks one of the pattern's characters. */
  lemma CharAbsent(s: string, pat: string, p: int)
    requires 0 <= p < |pat| && pat[p] !in s
    ensures !Contains(s, pat)
  {
    forall i ensures !OccursAt(s, pat, i) {
      if 0 <= i && i + |pat| <= |s| {
        assert s[i..i + |pat|][p] == s[i + p];
        assert s[i + p] in s;
      }
    }
  }

  /** A text shorter than a pattern does not contain it. */
  lemma ShorterAbsent(s: string, pat: string)
    requires |s| < |pat|
    ensures !Contains(s, pat)
  {
  }

  /** Text put in front keeps an occurrence. */
  lemma ContainsSuffix(x: string, y: string, pat: string)
    requires Contains(y, pat)
    ensures Contains(x + y, pat)
  {
    var i := IndexOf(y, pat);
    assert (x + y)[|x| + i..|x| + i + |pat|] == y[i..i + |pat|];
    assert OccursAt(x + y, pat, |x| + i);
  }

  /** `s.replace(pat, rep)` with a string pattern: only the first occurrence is replaced. */
  function ReplaceFirst(s: string, pat: string, rep: string): (r: string)
    ensures !Contains(s, pat) ==> r == s
    ensures Contains(s, pat) ==> r == Before(s, pat) + rep + After(s, pat)
  {
    var i := IndexOf(s, pat);
    if i == -1 then s else s[..i] + rep + s[i + |pat|..]
  }

  /** Replacing a leading pattern with nothing drops it. */
  lemma ReplaceLeading(s: string, pat: string)
    requires StartsWith(s, pat)
    ensures ReplaceFirst(s, pat, "") == s[|pat|..]
  {
    assert OccursAt(s, pat, 0);
    FirstAt(s, pat, 0);
  }

  /** `s.substring(0, n)`: the first `n` characters, or all of `s` when shorter. */
  function Take(s: string, n: nat): (r: string)
    ensures r <= s
    ensures |r| == if |s| < n then |s| else n
  {
    if |s| <= n then s else s[..n]
  }

  /** The characters `String.prototype.trim` removes: WhiteSpace and LineTerminator of ECMAScript. */
  predicate IsJsSpace(c: char) {
    c == '\t' || c == '\n' || c == '\U{000B}' || c == '\U{000C}' || c == '\r' || c == ' '
    || c == '\U{00A0}' || c == '\U{1680}' || ('\U{2000}' <= c <= '\U{200A}')
    || c == '\U{2028}' || c == '\U{2029}' || c == '\U{202F}' || c == '\U{205F}'
    || c == '\U{3000}' || c == '\U{FEFF}'
  }

  /** Every character of `s` is white space (so `s.trim()` is falsy). */
  predicate Blank(s: string) {
    forall i :: 0 <= i < |s| ==> IsJsSpace(s[i])
  }

  /** `s.trimStart()`: the suffix of `s` left after its leading white space. */
  function TrimStart(s: string): (r: string)
    ensures |r| <= |s| && r == s[|s| - |r|..]
    ensures Blank(s[..|s| - |r|])
    ensures r == [] || !IsJsSpace(r[0])
  {
    if s == [] || !IsJsSpace(s[0]) then s
    else
      var r := TrimStart(s[1..]);
      assert s[1..][..|s| - 1 - |r|] == s[1..|s| - |r|];
      r
  }

  /** `s.trimEnd()`: the prefix of `s` left after its trailing white space. */
  function TrimEnd(s: string): (r: string)
    ensures r <= s
    ensures Blank(s[|r|..])
    ensures r == [] || !IsJsSpace(r[|r| - 1])
  {
    if s == [] || !IsJsSpace(s[|s| - 1]) then s
    else
      var r := TrimEnd(s[..|s| - 1]);
      assert s[..|s| - 1][|r|..] + [s[|s| - 1]] == s[|r|..];
      r
  }

  /** `s.trim()`. */
  function Trim(s: string): string {
    TrimEnd(TrimStart(s))
  }

  /** Where `s.trim()` starts within `s`: the length of the leading white space. */
  function TrimOffset(s: string): nat {
    |s| - |TrimStart(s)|
  }

  /**
   * `s.trim()` is the part of `s` at `TrimOffset(s)` with only white space
   * before and after it, and it neither starts nor ends with white space.
   */
  lemma TrimSpec(s: string)
    ensures var r, i := Trim(s), TrimOffset(s);
      && i + |r| <= |s| && r == s[i..i + |r|]
      && Blank(s[..i]) && Blank(s[i + |r|..])
      && (r == [] || (!IsJsSpace(r[0]) && !IsJsSpace(r[|r| - 1])))
  {
    TrimInside(s);
    TrimAfter(s);
  }

  lemma TrimInside(s: string)
    ensures TrimOffset(s) + |Trim(s)| <= |s| && Trim(s) == s[TrimOffset(s)..TrimOffset(s) + |Trim(s)|]
  {
    var t := TrimStart(s);
    var i := |s| - |t|;
    assert t == s[i..];
    assert Trim(s) == TrimEnd(t) && TrimOffset(s) == i;
    PrefixOfSuffix(s, i, TrimEnd(t));
  }

  /** A prefix of the suffix of `s` at `i` is the slice of `s` starting at `i`. */
  lemma PrefixOfSuffix(s: string, i: nat, r: string)
    requires i <= |s| && r <= s[i..]
    ensures i + |r| <= |s| && r == s[i..i + |r|]
  {
    assert s[i..][..|r|] == s[i..i + |r|];
  }

  lemma TrimAfter(s: string)
    ensures TrimOffset(s) + |Trim(s)| <= |s| && Blank(s[TrimOffset(s) + |Trim(s)|..])
  {
    var t := TrimStart(s);
    var r := TrimEnd(t);
    var i := |s| - |t|;
    assert Trim(s) == r && TrimOffset(s) == i;
    assert Blank(t[|r|..]);
    assert s[i + |r|..] == t[|r|..];
  }

  /** `s.trim()` is empty exactly when every character of `s` is white space. */
  lemma TrimEmptyIffBlank(s: string)
    ensures Trim(s) == [] <==> Blank(s)
  {
    TrimSpec(s);
    var r, i := Trim(s), TrimOffset(s);
    if r == [] {
      assert i == |s|;
      forall k | 0 <= k < |s| ensures IsJsSpace(s[k]) {
        assert s[..i][k] == s[k];
      }
    } else {
      assert !IsJsSpace(s[i]) by { assert r[0] == s[i]; }
    }
  }

  /** `c.toLowerCase()` for ASCII letters; other characters unchanged. */
  function LowerChar(c: char): char {
    if 'A' <= c <= 'Z' then (c as int + 32) as char else c
  }

  /** `s.toLowerCase()` restricted to ASCII letters. */
  function ToLower(s: string): (r: string)
    ensures |r| == |s|
    ensures forall i :: 0 <= i < |s| ==> r[i] == LowerChar(s[i])
  {
    if s == [] then [] else [LowerChar(s[0])] + ToLower(s[1..])
  }

  /** `c.toUpperCase()` for ASCII letters; other characters unchanged. */
  function UpperChar(c: char): char {
    if 'a' <= c <= 'z' then (c as int - 32) as char else c
  }

  /** `s.toUpperCase()` restricted to ASCII letters. */
  function ToUpper(s: string): (r: string)
    ensures |r| == |s|
    ensures forall i :: 0 <= i < |s| ==> r[i] == UpperChar(s[i])
  {
    if s == [] then [] else [UpperChar(s[0])] + ToUpper(s[1..])
  }

  /** Every character is ASCII, where the case maps above are JavaScript's. */
  predicate Ascii(s: string) {
    forall i :: 0 <= i < |s| ==> s[i] < 128 as char
  }

  /** The digit `d` of `toString(16)`: `0`-`9` then lower-case `a`-`f`. */
  function DigitChar(d: nat): (c: char)
    requires d < 16
  {
    if d < 10 then ('0' as int + d) as char else ('a' as int + d - 10) as char
  }

  /** `n.toString(base)` for base 10 or 16, lower-case digits. */
  function NatToString(n: nat, base: nat): (r: string)
    requires base == 10 || base == 16
    ensures |r| >= 1
    ensures n >= base ==> |r| >= 2
    decreases n
  {
    if n < base then [DigitChar(n)]
    else NatToString(n / base, base) + [DigitChar(n % base)]
  }

  /** `n.toString()`. */
  function Decimal(n: nat): (r: string)
    ensures |r| >= 1
  {
    NatToString(n, 10)
  }

  /** Different numbers print differently. */
  lemma {:induction false} NatToStringInjective(a: nat, b: nat, base: nat)
    requires base == 10 || base == 16
    requires NatToString(a, base) == NatToString(b, base)
    ensures a == b
    decreases a
  {
    var s := NatToString(a, base);
    if a < base && b < base {
      assert DigitChar(a) == s[0] == DigitChar(b);
    } else if a >= base && b >= base {
      assert s[|s| - 1] == DigitChar(a % base) == DigitChar(b % base);
      assert s[..|s| - 1] == NatToString(a / base, base) == NatToString(b / base, base);
      NatToStringInjective(a / base, b / base, base);
      if base == 10 {
        assert a == 10 * (a / 10) + a % 10 && b == 10 * (b / 10) + b % 10;
      } else {
        assert a == 16 * (a / 16) + a % 16 && b == 16 * (b / 16) + b % 16;
      }
    }
  }
}
