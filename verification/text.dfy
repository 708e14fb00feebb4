/**
  String helpers with the semantics of the JavaScript built-ins the backend calls:
  `String.prototype.trim`, `toLowerCase`, `startsWith`, and the truthiness of an
  optional request field. `NormalizeEmail` is `normalizeEmail` of server.js.
 */
module Text {
  import opened Wrappers

  /** The ECMAScript WhiteSpace and LineTerminator code points, which `trim` removes. */
  const Whitespace: set<char> := {
    '\t', '\n', '\U{000B}', '\U{000C}', '\r', ' ', '\U{00A0}', '\U{1680}',
    '\U{2000}', '\U{2001}', '\U{2002}', '\U{2003}', '\U{2004}', '\U{2005}',
    '\U{2006}', '\U{2007}', '\U{2008}', '\U{2009}', '\U{200A}',
    '\U{2028}', '\U{2029}', '\U{202F}', '\U{205F}', '\U{3000}', '\U{FEFF}'
  }

  predicate IsWhitespace(c: char) {
    c in Whitespace
  }

  /** Neither end of `s` is whitespace. */
  predicate IsTrimmed(s: string) {
    s == [] || (!IsWhitespace(s[0]) && !IsWhitespace(s[|s| - 1]))
  }

  predicate IsUpper(c: char) {
    'A' <= c <= 'Z'
  }

  predicate HasNoUpper(s: string) {
    forall i :: 0 <= i < |s| ==> !IsUpper(s[i])
  }

  /** JavaScript truthiness of an optional string: present and non-empty. */
  predicate Truthy(o: Option<string>) {
    o.Some? && o.value != ""
  }

  /** The first index at or after `i` that does not hold whitespace, or `|s|` when there is none. */
  function SkipForward(s: string, i: nat): (j: nat)
    requires i <= |s|
    ensures i <= j <= |s|
    ensures forall k :: i <= k < j ==> IsWhitespace(s[k])
    ensures j == |s| || !IsWhitespace(s[j])
    decreases |s| - i
  {
    if i < |s| && IsWhitespace(s[i]) then SkipForward(s, i + 1) else i
  }

  /** The least `e` in `lo..j` such that `s[e..j]` is all whitespace. */
  function SkipBackward(s: string, lo: nat, j: nat): (e: nat)
    requires lo <= j <= |s|
    ensures lo <= e <= j
    ensures forall k :: e <= k < j ==> IsWhitespace(s[k])
    ensures e == lo || !IsWhitespace(s[e - 1])
  {
    if lo < j && IsWhitespace(s[j - 1]) then SkipBackward(s, lo, j - 1) else j
  }

  /**
    `String.prototype.trim`: the result is the slice of `s` that starts at the
    first non-whitespace character; everything before it and everything after
    it is whitespace, and neither end of the result is whitespace.
   */
  function Trim(s: string): (r: string)
    ensures IsTrimmed(r)
    ensures var i := SkipForward(s, 0);
      && i + |r| <= |s| && r == s[i..i + |r|]
      && (forall k :: 0 <= k < i ==> IsWhitespace(s[k]))
      && (forall k :: i + |r| <= k < |s| ==> IsWhitespace(s[k]))
  {
    var i := SkipForward(s, 0);
    s[i..SkipBackward(s, i, |s|)]
  }

  /** A string with no whitespace at either end is its own trim. */
  lemma TrimOfTrimmed(s: string)
    requires IsTrimmed(s)
    ensures Trim(s) == s
  {
  }

  function LowerChar(c: char): (r: char)
    ensures !IsUpper(r)
    ensures IsUpper(c) ==> r as int == c as int + 32
    ensures !IsUpper(c) ==> r == c
  {
    if IsUpper(c) then (c as int + 32) as char else c
  }

  /** `toLowerCase` restricted to the ASCII letters: every `A`..`Z` becomes its lower-case letter, all else is kept. */
  function Lower(s: string): (r: string)
    ensures |r| == |s| && HasNoUpper(r)
    ensures forall i :: 0 <= i < |s| && !IsUpper(s[i]) ==> r[i] == s[i]
    ensures forall i :: 0 <= i < |s| && IsUpper(s[i]) ==> r[i] as int == s[i] as int + 32
    ensures forall i :: 0 <= i < |s| ==> (IsWhitespace(r[i]) <==> IsWhitespace(s[i]))
  {
    seq(|s|, i requires 0 <= i < |s| => LowerChar(s[i]))
  }

  /** `normalizeEmail(email = "")`: an absent email is the empty string, then trim, then lower-case. */
  function NormalizeEmail(email: Option<string>): (r: string)
    ensures IsTrimmed(r) && HasNoUpper(r)
    ensures |r| <= |email.GetOr("")|
  {
    Lower(Trim(email.GetOr("")))
  }

  /** A trimmed string without upper-case letters is already normal. */
  lemma NormalizeCanonical(s: string)
    requires IsTrimmed(s) && HasNoUpper(s)
    ensures NormalizeEmail(Some(s)) == s
  {
  }

  /** Normalising twice is normalising once. */
  lemma NormalizeIdempotent(email: Option<string>)
    ensures NormalizeEmail(Some(NormalizeEmail(email))) == NormalizeEmail(email)
  {
  }

  /** Every character of `s` is whitespace. */
  predicate AllWhitespace(s: string) {
    forall k :: 0 <= k < |s| ==> IsWhitespace(s[k])
  }

  /**
    Trim's result is determined by its shape: a trimmed string padded with
    whitespace on both sides trims back to itself.
   */
  lemma TrimUnique(pre: string, r: string, post: string)
    requires AllWhitespace(pre) && AllWhitespace(post) && IsTrimmed(r)
    ensures Trim(pre + r + post) == r
  {
    var t := pre + r + post;
    var i := SkipForward(t, 0);
    if r == [] {
      assert AllWhitespace(t) by {
        forall k | 0 <= k < |t| ensures IsWhitespace(t[k]) {
          if k < |pre| { assert t[k] == pre[k]; } else { assert t[k] == post[k - |pre|]; }
        }
      }
    } else {
      assert t[|pre|] == r[0];
      assert forall k :: 0 <= k < |pre| ==> t[k] == pre[k];
      assert i == |pre|;
      assert t[|pre| + |r| - 1] == r[|r| - 1];
      assert forall k :: |pre| + |r| <= k < |t| ==> t[k] == post[k - |pre| - |r|];
      assert SkipBackward(t, i, |t|) == |pre| + |r|;
      assert t[|pre|..|pre| + |r|] == r;
    }
  }

  /** Whitespace around a string never changes its trim. */
  lemma PaddingIgnored(pre: string, s: string, post: string)
    requires AllWhitespace(pre) && AllWhitespace(post)
    ensures Trim(pre + s + post) == Trim(s)
  {
    var r := Trim(s);
    var i := SkipForward(s, 0);
    var a := s[..i];
    var b := s[i + |r|..];
    assert s == a + r + b;
    assert pre + s + post == (pre + a) + r + (b + post);
    assert AllWhitespace(pre + a) by {
      forall k | 0 <= k < |pre + a| ensures IsWhitespace((pre + a)[k]) {
        if k >= |pre| { assert (pre + a)[k] == s[k - |pre|]; }
      }
    }
    assert AllWhitespace(b + post) by {
      forall k | 0 <= k < |b + post| ensures IsWhitespace((b + post)[k]) {
        if k < |b| { assert (b + post)[k] == s[i + |r| + k]; }
      }
    }
    TrimUnique(pre + a, r, b + post);
  }

  /** `a` and `b` differ at most in the case of ASCII letters. */
  predicate SameUpToCase(a: string, b: string) {
    |a| == |b| && forall k :: 0 <= k < |a| ==> LowerChar(a[k]) == LowerChar(b[k])
  }

  lemma LowerCharKeepsWhitespace(c: char)
    ensures IsWhitespace(LowerChar(c)) <==> IsWhitespace(c)
  {
  }

  lemma {:induction false} SkipForwardIgnoresCase(a: string, b: string, i: nat)
    requires SameUpToCase(a, b) && i <= |a|
    ensures SkipForward(a, i) == SkipForward(b, i)
    decreases |a| - i
  {
    if i < |a| {
      LowerCharKeepsWhitespace(a[i]);
      LowerCharKeepsWhitespace(b[i]);
      SkipForwardIgnoresCase(a, b, i + 1);
    }
  }

  lemma {:induction false} SkipBackwardIgnoresCase(a: string, b: string, lo: nat, j: nat)
    requires SameUpToCase(a, b) && lo <= j <= |a|
    ensures SkipBackward(a, lo, j) == SkipBackward(b, lo, j)
  {
    if lo < j {
      LowerCharKeepsWhitespace(a[j - 1]);
      LowerCharKeepsWhitespace(b[j - 1]);
      SkipBackwardIgnoresCase(a, b, lo, j - 1);
    }
  }

  /** Trimming cuts strings that differ only in case at the same places. */
  lemma TrimIgnoresCase(a: string, b: string)
    requires SameUpToCase(a, b)
    ensures SameUpToCase(Trim(a), Trim(b))
  {
    var i := SkipForward(a, 0);
    SkipForwardIgnoresCase(a, b, 0);
    SkipBackwardIgnoresCase(a, b, i, |a|);
    var j := SkipBackward(a, i, |a|);
    assert Trim(a) == a[i..j] && Trim(b) == b[i..j];
  }

  /** Lower-casing makes strings that differ only in case equal. */
  lemma LowerIgnoresCase(a: string, b: string)
    requires SameUpToCase(a, b)
    ensures Lower(a) == Lower(b)
  {
  }

  /** Emails that differ only in the case of their letters normalise alike. */
  lemma CaseIgnored(a: string, b: string)
    requires SameUpToCase(a, b)
    ensures NormalizeEmail(Some(a)) == NormalizeEmail(Some(b))
  {
    TrimIgnoresCase(a, b);
    LowerIgnoresCase(Trim(a), Trim(b));
  }

  /** Emails that differ only in surrounding whitespace normalise alike. */
  lemma NormalizePaddingIgnored(pre: string, s: string, post: string)
    requires AllWhitespace(pre) && AllWhitespace(post)
    ensures NormalizeEmail(Some(pre + s + post)) == NormalizeEmail(Some(s))
  {
    PaddingIgnored(pre, s, post);
  }

  /** `startsWith`. */
  predicate StartsWith(s: string, prefix: string) {
    |prefix| <= |s| && s[..|prefix|] == prefix
  }
}
