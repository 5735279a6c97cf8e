/** Text helpers with Python's semantics: `str.isspace`, `str.strip` and the
    code-point ordering Python uses to compare and sort strings. */
module Text {

  /** The characters Python's `str.isspace()` accepts; `str.strip()` with no
      argument removes exactly these from both ends. */
  predicate IsSpace(c: char) {
    || ('\t' <= c <= '\r')
    || ('\U{1c}' <= c <= ' ')
    || c == '\U{85}' || c == '\U{a0}' || c == '\U{1680}'
    || ('\U{2000}' <= c <= '\U{200a}')
    || c == '\U{2028}' || c == '\U{2029}' || c == '\U{202f}' || c == '\U{205f}'
    || c == '\U{3000}'
  }

  /** Every character of `s` is whitespace. */
  predicate AllSpace(s: string) {
    forall k :: 0 <= k < |s| ==> IsSpace(s[k])
  }

  /** How many whitespace characters `s` starts with. */
  function LeadingSpaces(s: string): (n: nat)
    ensures n <= |s|
    ensures forall k :: 0 <= k < n ==> IsSpace(s[k])
    ensures n < |s| ==> !IsSpace(s[n])
  {
    if |s| == 0 || !IsSpace(s[0]) then 0
    else
      var n := LeadingSpaces(s[1..]);
      assert forall k :: 1 <= k < 1 + n ==> s[k] == s[1..][k - 1];
      1 + n
  }

  /** How many whitespace characters `s` ends with. */
  function TrailingSpaces(s: string): (n: nat)
    ensures n <= |s|
    ensures forall k :: |s| - n <= k < |s| ==> IsSpace(s[k])
    ensures n < |s| ==> !IsSpace(s[|s| - 1 - n])
  {
    if |s| == 0 || !IsSpace(s[|s| - 1]) then 0
    else
      var n := TrailingSpaces(s[..|s| - 1]);
      assert forall k :: |s| - 1 - n <= k < |s| - 1 ==> s[k] == s[..|s| - 1][k];
      1 + n
  }

  lemma Split3(s: string, i: nat, j: nat)
    requires i <= j <= |s|
    ensures s == s[..i] + s[i..j] + s[j..]
  {
    assert s[..j] == s[..i] + s[i..j];
    assert s == s[..j] + s[j..];
  }

  /** `t` is `s` with its surrounding whitespace removed: `s` is `t` with
      whitespace around it, and `t` neither starts nor ends with whitespace. */
  ghost predicate StrippedFrom(s: string, t: string) {
    && (exists a, b {:trigger AllSpace(a), AllSpace(b)} :: AllSpace(a) && AllSpace(b) && s == a + t + b)
    && (|t| > 0 ==> !IsSpace(t[0]) && !IsSpace(t[|t| - 1]))
  }

  /** Python's `s.strip()`. */
  function Strip(s: string): (r: string)
    ensures StrippedFrom(s, r)
  {
    var i := LeadingSpaces(s);
    var j := if i == |s| then i else |s| - TrailingSpaces(s);
    assert i <= j;
    assert AllSpace(s[..i]) by {
      forall k | 0 <= k < i ensures IsSpace(s[..i][k]) {
        assert s[..i][k] == s[k];
      }
    }
    assert AllSpace(s[j..]) by {
      forall k | 0 <= k < |s| - j ensures IsSpace(s[j..][k]) {
        assert s[j..][k] == s[j + k];
      }
    }
    Split3(s, i, j);
    s[i..j]
  }

  /** A string strips to nothing exactly when it is all whitespace. */
  lemma StripEmptyIff(s: string)
    ensures Strip(s) == [] <==> AllSpace(s)
  {
    var r := Strip(s);
    var a, b :| AllSpace(a) && AllSpace(b) && s == a + r + b;
    if r == [] {
      assert s == a + b;
      forall k | 0 <= k < |s| ensures IsSpace(s[k]) {
        if k < |a| { assert s[k] == a[k]; } else { assert s[k] == b[k - |a|]; }
      }
    } else {
      assert s[|a|] == r[0];
    }
  }

  /** A whitespace run followed by a non-space is exactly the leading run. */
  lemma LeadingSpacesExact(s: string, n: nat)
    requires n < |s| && !IsSpace(s[n])
    requires forall k :: 0 <= k < n ==> IsSpace(s[k])
    ensures LeadingSpaces(s) == n
  {
  }

  /** A non-space followed by a whitespace run is exactly the trailing run. */
  lemma TrailingSpacesExact(s: string, n: nat)
    requires n < |s| && !IsSpace(s[|s| - 1 - n])
    requires forall k :: |s| - n <= k < |s| ==> IsSpace(s[k])
    ensures TrailingSpaces(s) == n
  {
  }

  /** Only one string is `s` with its surrounding whitespace removed. */
  lemma StrippedFromUnique(s: string, t: string)
    requires StrippedFrom(s, t)
    ensures t == Strip(s)
  {
    var a, b :| AllSpace(a) && AllSpace(b) && s == a + t + b;
    if |t| == 0 {
      assert s == a + b;
      forall k | 0 <= k < |s| ensures IsSpace(s[k]) {
        if k < |a| { assert s[k] == a[k]; } else { assert s[k] == b[k - |a|]; }
      }
      StripEmptyIff(s);
    } else {
      StripNonEmpty(s, a, t, b);
    }
  }

  lemma StripNonEmpty(s: string, a: string, t: string, b: string)
    requires AllSpace(a) && AllSpace(b) && s == a + t + b
    requires |t| > 0 && !IsSpace(t[0]) && !IsSpace(t[|t| - 1])
    ensures t == Strip(s)
  {
    assert forall k :: 0 <= k < |a| ==> s[k] == a[k];
    assert s[|a|] == t[0];
    LeadingSpacesExact(s, |a|);
    assert forall k :: |a| + |t| <= k < |s| ==> s[k] == b[k - |a| - |t|];
    assert s[|a| + |t| - 1] == t[|t| - 1];
    TrailingSpacesExact(s, |b|);
    assert s[|a|..|a| + |t|] == t;
  }

  /** Stripping twice is stripping once. */
  lemma StripIdempotent(s: string)
    ensures Strip(Strip(s)) == Strip(s)
  {
    var r := Strip(s);
    if |r| > 0 {
      assert LeadingSpaces(r) == 0;
      assert TrailingSpaces(r) == 0;
      assert r[0..|r|] == r;
    }
  }

  /** Python's `a < b` on strings: lexicographic by code point, a proper
      prefix coming first. */
  predicate LexLess(a: string, b: string) {
    if |a| == 0 then |b| > 0
    else if |b| == 0 then false
    else if a[0] != b[0] then a[0] < b[0]
    else LexLess(a[1..], b[1..])
  }

  lemma {:induction false} LexIrreflexive(a: string)
    ensures !LexLess(a, a)
  {
    if |a| > 0 {
      LexIrreflexive(a[1..]);
    }
  }

  lemma {:induction false} LexTransitive(a: string, b: string, c: string)
    requires LexLess(a, b) && LexLess(b, c)
    ensures LexLess(a, c)
  {
    if |a| > 0 && |b| > 0 && |c| > 0 && a[0] == b[0] && b[0] == c[0] {
      LexTransitive(a[1..], b[1..], c[1..]);
    }
  }

  /** Any two different strings are ordered one way. */
  lemma {:induction false} LexTotal(a: string, b: string)
    requires a != b
    ensures LexLess(a, b) || LexLess(b, a)
  {
    if |a| > 0 && |b| > 0 && a[0] == b[0] {
      assert a == [a[0]] + a[1..] && b == [b[0]] + b[1..];
      LexTotal(a[1..], b[1..]);
    }
  }

  /** At most one of `a < b` and `b < a` holds. */
  lemma {:induction false} LexAsymmetric(a: string, b: string)
    requires LexLess(a, b)
    ensures !LexLess(b, a)
  {
    if |a| > 0 && |b| > 0 && a[0] == b[0] {
      LexAsymmetric(a[1..], b[1..]);
    }
  }
}
