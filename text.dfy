/**
 * The JavaScript string primitives the core relies on: the white-space
 * class shared by `String.prototype.trim` and the regular-expression
 * escape `\s`, the ASCII classes `\d` and `\w`, `trim` itself, and the
 * UTF-16 length reported by `.length`.
 */
module Text {

  /** White space and line terminators as ECMAScript defines them for `trim` and `\s`. */
  predicate IsSpace(c: char) {
    || c == ' ' || c == '\t' || c == '\n' || c == '\r' || c == '\U{000B}' || c == '\U{000C}'
    || c == '\U{00A0}' || c == '\U{1680}' || ('\U{2000}' <= c <= '\U{200A}')
    || c == '\U{2028}' || c == '\U{2029}' || c == '\U{202F}' || c == '\U{205F}'
    || c == '\U{3000}' || c == '\U{FEFF}'
  }

  /** `\d` without the unicode flag: ASCII digits only. */
  predicate IsDigit(c: char) {
    '0' <= c <= '9'
  }

  /** `\w` without the unicode flag, the class `\b` is defined by. */
  predicate IsWordChar(c: char) {
    ('a' <= c <= 'z') || ('A' <= c <= 'Z') || IsDigit(c) || c == '_'
  }

  predicate AllSpace(s: string) {
    forall k | 0 <= k < |s| :: IsSpace(s[k])
  }

  /** All of `s` from `lo` up to `hi` is white space, checked one character at a time. */
  predicate SpacesBetween(s: string, lo: nat, hi: nat)
    requires lo <= hi <= |s|
    decreases hi - lo
  {
    lo == hi || (IsSpace(s[lo]) && SpacesBetween(s, lo + 1, hi))
  }

  lemma {:induction false} SpacesBetweenAt(s: string, lo: nat, hi: nat)
    requires lo <= hi <= |s| && SpacesBetween(s, lo, hi)
    ensures forall k | lo <= k < hi :: IsSpace(s[k])
    decreases hi - lo
  {
    if lo < hi {
      SpacesBetweenAt(s, lo + 1, hi);
    }
  }

  /** Two adjacent runs of white space form one. */
  lemma {:induction false} SpacesBetweenJoin(s: string, lo: nat, mid: nat, hi: nat)
    requires lo <= mid <= hi <= |s| && SpacesBetween(s, lo, mid) && SpacesBetween(s, mid, hi)
    ensures SpacesBetween(s, lo, hi)
    decreases mid - lo
  {
    if lo < mid {
      SpacesBetweenJoin(s, lo + 1, mid, hi);
    }
  }

  /** The first position at or after `i` that is not white space. */
  function SkipLeading(s: string, i: nat): (j: nat)
    requires i <= |s|
    ensures i <= j <= |s|
    ensures SpacesBetween(s, i, j)
    ensures j == |s| || !IsSpace(s[j])
    decreases |s| - i
  {
    if i < |s| && IsSpace(s[i]) then SkipLeading(s, i + 1) else i
  }

  /** The end of the text before `j` once the white space back to `lo` is dropped. */
  function SkipTrailing(s: string, lo: nat, j: nat): (e: nat)
    requires lo <= j <= |s|
    ensures lo <= e <= j
    ensures forall k | e <= k < j :: IsSpace(s[k])
    ensures e == lo || !IsSpace(s[e - 1])
  {
    if lo < j && IsSpace(s[j - 1]) then SkipTrailing(s, lo, j - 1) else j
  }

  /** Where the trimmed text starts inside the original. */
  function TrimOffset(s: string): nat
    ensures TrimOffset(s) <= |s|
  {
    SkipLeading(s, 0)
  }

  /** Where the trimmed text ends inside the original. */
  function TrimLimit(s: string): nat
    ensures TrimOffset(s) <= TrimLimit(s) <= |s|
  {
    SkipTrailing(s, TrimOffset(s), |s|)
  }

  /** `String.prototype.trim`: the text between the leading and the trailing white space. */
  function Trim(s: string): (r: string)
    ensures |r| <= |s|
  {
    s[TrimOffset(s)..TrimLimit(s)]
  }

  /**
   * The trimmed text is the slice of `s` between a white-space prefix
   * and a white-space suffix, and it neither starts nor ends with white
   * space.
   */
  lemma TrimIsInnerSlice(s: string)
    ensures Trim(s) == s[TrimOffset(s)..TrimOffset(s) + |Trim(s)|]
    ensures AllSpace(s[..TrimOffset(s)]) && AllSpace(s[TrimOffset(s) + |Trim(s)|..])
    ensures Trim(s) == [] || (!IsSpace(Trim(s)[0]) && !IsSpace(Trim(s)[|Trim(s)| - 1]))
  {
    var i, e := TrimOffset(s), TrimLimit(s);
    SpacesBetweenAt(s, 0, i);
    SpacePrefix(s, i);
    SpaceSuffix(s, e);
    if i < e {
      assert Trim(s)[0] == s[i] && Trim(s)[|Trim(s)| - 1] == s[e - 1];
    }
  }

  lemma SpacePrefix(s: string, n: nat)
    requires n <= |s| && forall k | 0 <= k < n :: IsSpace(s[k])
    ensures AllSpace(s[..n])
  {
    assert forall k | 0 <= k < n :: s[..n][k] == s[k];
  }

  lemma SpaceSuffix(s: string, n: nat)
    requires n <= |s| && forall k | n <= k < |s| :: IsSpace(s[k])
    ensures AllSpace(s[n..])
  {
    assert forall k | 0 <= k < |s| - n :: s[n..][k] == s[n + k];
  }

  /** Text that neither starts nor ends with white space is its own trim. */
  lemma TrimFixesTrimmed(s: string)
    requires s == [] || (!IsSpace(s[0]) && !IsSpace(s[|s| - 1]))
    ensures Trim(s) == s
  {
  }

  /** `trim` is idempotent. */
  lemma TrimIdempotent(s: string)
    ensures Trim(Trim(s)) == Trim(s)
  {
    TrimIsInnerSlice(s);
    TrimFixesTrimmed(Trim(s));
  }

  /** A text trims to the empty string exactly when it is all white space. */
  lemma TrimEmptyIffAllSpace(s: string)
    ensures Trim(s) == [] <==> AllSpace(s)
  {
    TrimIsInnerSlice(s);
    var i := TrimOffset(s);
    if Trim(s) == [] {
      forall k | 0 <= k < |s| ensures IsSpace(s[k]) {
        assert s[..i][k] == s[k];
      }
    }
  }

  /** The number of UTF-16 code units of a string: characters above U+FFFF take two. */
  function Utf16Length(s: string): (n: nat)
    ensures |s| <= n <= 2 * |s|
  {
    if s == [] then 0 else (if s[0] as int > 0xFFFF then 2 else 1) + Utf16Length(s[1..])
  }

  /** `String.prototype.startsWith`. */
  predicate StartsWith(s: string, prefix: string) {
    |prefix| <= |s| && s[..|prefix|] == prefix
  }
}
