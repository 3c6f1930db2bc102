/**
 * Character classes and string operations the core relies on, restricted
 * to ASCII: Python's `\w`, `str.upper`, `str.lower`, `str.find` and the
 * substring test `q in s`.
 */
module Text {
  /** Python's `\w` on ASCII: a letter, a digit or an underscore. */
  predicate IsWordChar(c: char) {
    ('a' <= c <= 'z') || ('A' <= c <= 'Z') || ('0' <= c <= '9') || c == '_'
  }

  predicate IsLowerAscii(c: char) { 'a' <= c <= 'z' }

  predicate IsUpperAscii(c: char) { 'A' <= c <= 'Z' }

  /** `c.upper()` for ASCII; every other character is left alone. */
  function UpperChar(c: char): (u: char)
    ensures !IsLowerAscii(u)
    ensures IsLowerAscii(c) ==> IsUpperAscii(u) && u as int == c as int - 32
    ensures !IsLowerAscii(c) ==> u == c
  {
    if IsLowerAscii(c) then (c as int - 32) as char else c
  }

  /** `c.lower()` for ASCII; every other character is left alone. */
  function LowerChar(c: char): (l: char)
    ensures !IsUpperAscii(l)
    ensures IsUpperAscii(c) ==> IsLowerAscii(l) && l as int == c as int + 32
    ensures !IsUpperAscii(c) ==> l == c
  {
    if IsUpperAscii(c) then (c as int + 32) as char else c
  }

  /** `s.upper()`: every character upper-cased, the length kept. */
  function UpperAll(s: string): (u: string)
    ensures |u| == |s|
    ensures forall i :: 0 <= i < |s| ==> u[i] == UpperChar(s[i])
  {
    seq(|s|, i requires 0 <= i < |s| => UpperChar(s[i]))
  }

  /** `s.lower()`: every character lower-cased, the length kept. */
  function LowerAll(s: string): (l: string)
    ensures |l| == |s|
    ensures forall i :: 0 <= i < |s| ==> l[i] == LowerChar(s[i])
  {
    seq(|s|, i requires 0 <= i < |s| => LowerChar(s[i]))
  }

  /** No lower-case ASCII letter anywhere in `s`. */
  predicate NoLowerAscii(s: string) {
    forall i :: 0 <= i < |s| ==> !IsLowerAscii(s[i])
  }

  /**
   * The position of the first `c` in `s`, or `|s|` when there is none; this
   * is where `s.split(c, 1)` cuts.
   */
  function IndexOf(s: string, c: char): (i: nat)
    ensures i <= |s|
    ensures i < |s| ==> s[i] == c
    ensures forall j :: 0 <= j < i ==> s[j] != c
  {
    if s == [] then 0
    else if s[0] == c then 0
    else 1 + IndexOf(s[1..], c)
  }

  predicate StartsWith(s: string, p: string) {
    |p| <= |s| && s[..|p|] == p
  }

  /** `q` occurs in `s` starting at position `i`. */
  predicate OccursAt(s: string, q: string, i: int) {
    0 <= i <= |s| && StartsWith(s[i..], q)
  }

  /** Python's case-sensitive substring test `q in s`. */
  predicate Contains(s: string, q: string)
    decreases |s|
  {
    StartsWith(s, q) || (|s| > 0 && Contains(s[1..], q))
  }

  /** `Contains` holds exactly when `q` occurs at some position of `s`. */
  lemma {:induction false} ContainsIffOccurs(s: string, q: string)
    ensures Contains(s, q) <==> exists i :: OccursAt(s, q, i)
    decreases |s|
  {
    if StartsWith(s, q) {
      assert OccursAt(s, q, 0);
    } else if |s| > 0 {
      ContainsIffOccurs(s[1..], q);
      if Contains(s[1..], q) {
        var i :| OccursAt(s[1..], q, i);
        assert s[1..][i..] == s[i + 1..];
        assert OccursAt(s, q, i + 1);
      }
      if i :| OccursAt(s, q, i) {
        assert i != 0;
        assert s[1..][i - 1..] == s[i..];
        assert OccursAt(s[1..], q, i - 1);
      }
    }
  }

  /** A character of `q` that `s` lacks rules out `q in s`. */
  lemma {:induction false} MissingCharNotContained(s: string, q: string, k: int)
    requires 0 <= k < |q|
    requires forall i :: 0 <= i < |s| ==> s[i] != q[k]
    ensures !Contains(s, q)
    decreases |s|
  {
    if |q| <= |s| {
      assert s[..|q|][k] != q[k];
    }
    if |s| > 0 {
      MissingCharNotContained(s[1..], q, k);
    }
  }

  lemma ContainsAt(s: string, q: string, i: int)
    requires OccursAt(s, q, i)
    ensures Contains(s, q)
  {
    ContainsIffOccurs(s, q);
  }

  /** `a` is obtained from `b` by deleting characters (order kept). */
  predicate IsSubsequence(a: string, b: string)
    decreases |b|
  {
    a == [] ||
    (b != [] && ((a[0] == b[0] && IsSubsequence(a[1..], b[1..])) || IsSubsequence(a, b[1..])))
  }
}
