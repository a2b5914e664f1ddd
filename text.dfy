/**
 The two JavaScript string operations the search box relies on:
 `String.prototype.trim` and `String.prototype.length`.
 */
module JsText {

  /** The WhiteSpace and LineTerminator code points of ECMAScript, which `trim` removes. */
  predicate IsSpace(c: char)
  {
    || c == '\t' || c == '\n' || c == '\U{000B}' || c == '\U{000C}' || c == '\r'
    || c == ' ' || c == '\U{00A0}' || c == '\U{1680}' || ('\U{2000}' <= c <= '\U{200A}')
    || c == '\U{2028}' || c == '\U{2029}' || c == '\U{202F}' || c == '\U{205F}'
    || c == '\U{3000}' || c == '\U{FEFF}'
  }

  predicate AllSpace(s: string)
  {
    forall i :: 0 <= i < |s| ==> IsSpace(s[i])
  }

  /** The number of space characters at the start of `s`. */
  function LeadingSpace(s: string): (n: nat)
    ensures n <= |s|
    ensures forall i :: 0 <= i < n ==> IsSpace(s[i])
    ensures n < |s| ==> !IsSpace(s[n])
  {
    if s == [] || !IsSpace(s[0]) then 0 else 1 + LeadingSpace(s[1..])
  }

  /** The number of space characters at the end of `s`. */
  function TrailingSpace(s: string): (n: nat)
    ensures n <= |s|
    ensures forall i :: |s| - n <= i < |s| ==> IsSpace(s[i])
    ensures n < |s| ==> !IsSpace(s[|s| - 1 - n])
  {
    if s == [] || !IsSpace(s[|s| - 1]) then 0 else 1 + TrailingSpace(s[..|s| - 1])
  }

  /**
   `String.prototype.trim`: the part of `s` left after removing every
   space character at either end.
   */
  function Trim(s: string): (t: string)
    ensures LeadingSpace(s) + |t| <= |s|
    ensures t == s[LeadingSpace(s)..LeadingSpace(s) + |t|]
    ensures forall j :: LeadingSpace(s) + |t| <= j < |s| ==> IsSpace(s[j])
    ensures t == [] || (!IsSpace(t[0]) && !IsSpace(t[|t| - 1]))
  {
    var u := s[LeadingSpace(s)..];
    u[..|u| - TrailingSpace(u)]
  }

  /**
   `String.prototype.length`: the number of UTF-16 code units, so a code
   point above U+FFFF counts twice.
   */
  function Utf16Length(s: string): (n: nat)
    ensures |s| <= n <= 2 * |s|
    ensures n == |s| <==> forall i :: 0 <= i < |s| ==> s[i] as int <= 0xFFFF
  {
    if s == [] then 0
    else (if s[0] as int > 0xFFFF then 2 else 1) + Utf16Length(s[1..])
  }

  /** A string trims to nothing exactly when all of it is space. */
  lemma TrimBlank(s: string)
    ensures Trim(s) == [] <==> AllSpace(s)
  {
    var n := LeadingSpace(s);
    if Trim(s) != [] {
      assert !IsSpace(s[n]);
    }
  }

  /**
   The trimmed part is determined by the way it sits in `x`: space before it,
   space after it, and no space at either of its ends.
   */
  lemma TrimUnique(x: string, a: nat, t: string)
    requires a + |t| <= |x| && x[a..a + |t|] == t
    requires forall j :: 0 <= j < a ==> IsSpace(x[j])
    requires forall j :: a + |t| <= j < |x| ==> IsSpace(x[j])
    requires t == [] || (!IsSpace(t[0]) && !IsSpace(t[|t| - 1]))
    ensures Trim(x) == t
  {
    var r := Trim(x);
    var n := LeadingSpace(x);
    if t == [] {
      TrimBlank(x);
    } else {
      assert !IsSpace(x[a]);
      assert n == a;
      assert r != [] by {
        TrimBlank(x);
      }
      assert !IsSpace(x[n + |r| - 1]);
      assert !IsSpace(x[a + |t| - 1]);
      assert n + |r| == a + |t|;
    }
  }

  /** Space added at either end does not change what `trim` returns. */
  lemma TrimIgnoresPadding(pre: string, s: string, post: string)
    requires AllSpace(pre) && AllSpace(post)
    ensures Trim(pre + s + post) == Trim(s)
  {
    var x, t, n := pre + s + post, Trim(s), LeadingSpace(s);
    assert x[|pre| + n..|pre| + n + |t|] == s[n..n + |t|];
    TrimUnique(x, |pre| + n, t);
  }

  /** Trimming twice is trimming once. */
  lemma TrimIdempotent(s: string)
    ensures Trim(Trim(s)) == Trim(s)
  {
    var t := Trim(s);
    assert t[0..|t|] == t;
    TrimUnique(t, 0, t);
  }
}
