/**
 * The string operations the planner relies on: Foundation's whitespace
 * trimming, `prefix(_:)`, ASCII case mapping, substring search, and the
 * decimal rendering of integers used by formatted times and selection keys.
 */
module Text {

  /** Membership in `CharacterSet.whitespacesAndNewlines`: tab through carriage
      return, U+0085 and the Unicode space separators. */
  predicate IsWhitespace(c: char)
  {
    || c == ' ' || ('\t' <= c <= '\r') || c == '\U{0085}' || c == '\U{00A0}'
    || c == '\U{1680}' || ('\U{2000}' <= c <= '\U{200A}') || c == '\U{2028}'
    || c == '\U{2029}' || c == '\U{202F}' || c == '\U{205F}' || c == '\U{3000}'
  }

  predicate AllWhitespace(s: string)
  {
    forall k :: 0 <= k < |s| ==> IsWhitespace(s[k])
  }

  function TrimStart(s: string): (r: string)
    ensures |r| <= |s| && r == s[|s| - |r|..]
    ensures forall k :: 0 <= k < |s| - |r| ==> IsWhitespace(s[k])
    ensures r == [] || !IsWhitespace(r[0])
  {
    if s == [] || !IsWhitespace(s[0]) then s
    else
      var r := TrimStart(s[1..]);
      assert s[1..][|s| - 1 - |r|..] == s[|s| - |r|..];
      assert forall k :: 1 <= k < |s| - |r| ==> s[k] == s[1..][k - 1];
      r
  }

  function TrimEnd(s: string): (r: string)
    ensures |r| <= |s| && r == s[..|r|]
    ensures forall k :: |r| <= k < |s| ==> IsWhitespace(s[k])
    ensures r == [] || !IsWhitespace(r[|r| - 1])
  {
    if s == [] || !IsWhitespace(s[|s| - 1]) then s
    else
      var r := TrimEnd(s[..|s| - 1]);
      assert s[..|s| - 1][..|r|] == s[..|r|];
      assert forall k :: |r| <= k < |s| - 1 ==> s[k] == s[..|s| - 1][k];
      r
  }

  /** `trimmingCharacters(in: .whitespacesAndNewlines)`. */
  function Trim(s: string): (r: string)
    ensures exists i :: OccursAt(s, i, r)
    ensures r == [] || (!IsWhitespace(r[0]) && !IsWhitespace(r[|r| - 1]))
  {
    var a := TrimStart(s);
    var r := TrimEnd(a);
    assert OccursAt(s, |s| - |a|, r);
    r
  }

  lemma TrimStartHead(s: string)
    ensures AllWhitespace(s[..|s| - |TrimStart(s)|])
  {
    var h := s[..|s| - |TrimStart(s)|];
    forall k | 0 <= k < |h| ensures IsWhitespace(h[k]) {
      assert h[k] == s[k];
    }
  }

  lemma TrimEndTail(a: string)
    ensures AllWhitespace(a[|TrimEnd(a)|..])
  {
    var n := |TrimEnd(a)|;
    var t := a[n..];
    forall k | 0 <= k < |t| ensures IsWhitespace(t[k]) {
      assert t[k] == a[n + k];
    }
  }

  /**
   * Trimming drops whitespace from the two ends and nothing else: the result
   * sits in `s` between a whitespace-only head and a whitespace-only tail.
   */
  lemma TrimDropsOnlyWhitespace(s: string)
    ensures exists i :: OccursAt(s, i, Trim(s)) && AllWhitespace(s[..i]) && AllWhitespace(s[i + |Trim(s)|..])
  {
    var a := TrimStart(s);
    var r := TrimEnd(a);
    var i := |s| - |a|;
    assert Trim(s) == r;
    TrimStartHead(s);
    TrimEndTail(a);
    Sandwiched(s, a, r, i);
    assert OccursAt(s, i, Trim(s)) && AllWhitespace(s[..i]) && AllWhitespace(s[i + |Trim(s)|..]);
  }

  lemma Sandwiched(s: string, a: string, r: string, i: nat)
    requires i <= |s| && a == s[i..] && |r| <= |a| && r == a[..|r|]
    requires AllWhitespace(s[..i]) && AllWhitespace(a[|r|..])
    ensures OccursAt(s, i, r) && AllWhitespace(s[..i]) && AllWhitespace(s[i + |r|..])
  {
    assert s[i..i + |r|] == a[..|r|];
    assert s[i + |r|..] == a[|r|..];
  }

  /** A leading whitespace character makes no difference to trimming. */
  lemma TrimSkipsWhitespace(c: char, s: string)
    requires IsWhitespace(c)
    ensures Trim([c] + s) == Trim(s)
  {
    var t := [c] + s;
    calc {
      Trim(t);
      TrimEnd(TrimStart(t));
      { assert t != [] && IsWhitespace(t[0]); assert t[1..] == s; }
      TrimEnd(TrimStart(s));
      Trim(s);
    }
  }

  /** A string trims to nothing exactly when every character is whitespace. */
  lemma TrimEmptyIffBlank(s: string)
    ensures Trim(s) == [] <==> AllWhitespace(s)
  {
    var a := TrimStart(s);
    if Trim(s) == [] {
      assert a == [];
      forall k | 0 <= k < |s| ensures IsWhitespace(s[k]) {
        assert s[k] == s[..|s| - |a|][k];
      }
    }
  }

  /** Trimming a string that already has no surrounding whitespace leaves it alone. */
  lemma TrimIdempotent(s: string)
    ensures Trim(Trim(s)) == Trim(s)
  {
  }

  /** Swift's `prefix(n)`: the first `n` characters, or all of them when there are fewer. */
  function Prefix(s: string, n: nat): (r: string)
    ensures |r| == if |s| < n then |s| else n
    ensures r == s[..|r|]
  {
    if |s| < n then s else s[..n]
  }

  predicate IsUpperAscii(c: char) { 'A' <= c <= 'Z' }
  predicate IsLowerAscii(c: char) { 'a' <= c <= 'z' }

  function LowerChar(c: char): (r: char)
    ensures !IsUpperAscii(r)
  {
    if IsUpperAscii(c) then (c as int + 32) as char else c
  }

  function UpperChar(c: char): (r: char)
    ensures !IsLowerAscii(r)
  {
    if IsLowerAscii(c) then (c as int - 32) as char else c
  }

  /** `lowercased()`, on ASCII letters. */
  function Lowercased(s: string): (r: string)
    ensures |r| == |s|
    ensures forall k :: 0 <= k < |s| ==> r[k] == LowerChar(s[k])
  {
    seq(|s|, k requires 0 <= k < |s| => LowerChar(s[k]))
  }

  /** `uppercased()`, on ASCII letters. */
  function Uppercased(s: string): (r: string)
    ensures |r| == |s|
    ensures forall k :: 0 <= k < |s| ==> r[k] == UpperChar(s[k])
  {
    seq(|s|, k requires 0 <= k < |s| => UpperChar(s[k]))
  }

  /** `sub` occurs in `s` starting at position `i`. */
  predicate OccursAt(s: string, i: int, sub: string)
  {
    0 <= i <= |s| - |sub| && s[i..i + |sub|] == sub
  }

  /** `s.contains(sub)` for a string argument. */
  predicate Contains(s: string, sub: string)
  {
    exists i :: 0 <= i <= |s| - |sub| && OccursAt(s, i, sub)
  }

  /** A string containing a word contains every prefix of that word. */
  lemma ContainsPrefixOf(s: string, w: string, n: nat)
    requires n <= |w|
    requires Contains(s, w)
    ensures Contains(s, w[..n])
  {
    var i :| 0 <= i <= |s| - |w| && OccursAt(s, i, w);
    assert s[i..i + n] == s[i..i + |w|][..n];
    assert OccursAt(s, i, w[..n]);
  }

  // ---- decimal numbers ----

  function DigitChar(d: int): (c: char)
    requires 0 <= d < 10
    ensures '0' <= c <= '9'
  {
    ('0' as int + d) as char
  }

  predicate IsDigit(c: char) { '0' <= c <= '9' }

  /** The decimal rendering of a natural number, without leading zeros. */
  function NatString(n: nat): (r: string)
    ensures |r| >= 1
    ensures forall k :: 0 <= k < |r| ==> IsDigit(r[k])
    decreases n
  {
    if n < 10 then [DigitChar(n)] else NatString(n / 10) + [DigitChar(n % 10)]
  }

  /** The value of a string of decimal digits. */
  function DigitsValue(s: string): nat
  {
    if s == [] then 0
    else if IsDigit(s[|s| - 1]) then DigitsValue(s[..|s| - 1]) * 10 + (s[|s| - 1] as int - '0' as int)
    else DigitsValue(s[..|s| - 1]) * 10
  }

  /** Reading back a rendered number gives the number. */
  lemma {:induction false} NatStringRoundTrip(n: nat)
    ensures DigitsValue(NatString(n)) == n
    decreases n
  {
    var r := NatString(n);
    if n >= 10 {
      NatStringRoundTrip(n / 10);
      assert r[..|r| - 1] == NatString(n / 10);
    }
  }

  /** `"\(i)"` for an integer. */
  function IntString(i: int): (r: string)
    ensures |r| >= 1
    ensures forall k :: 0 <= k < |r| ==> r[k] != '|'
  {
    if i < 0 then "-" + NatString(-i) else NatString(i)
  }

  /** A rendered integer starts with a minus sign exactly when it is negative. */
  lemma IntStringSign(i: int)
    ensures IntString(i)[0] == '-' <==> i < 0
  {
    if i >= 0 {
      assert IsDigit(NatString(i)[0]);
    }
  }

  lemma NegativeIntString(i: int)
    requires i < 0
    ensures IntString(i)[1..] == NatString(-i)
  {
    assert ("-" + NatString(-i))[1..] == NatString(-i);
  }

  lemma NatStringInjective(x: nat, y: nat)
    requires NatString(x) == NatString(y)
    ensures x == y
  {
    NatStringRoundTrip(x);
    NatStringRoundTrip(y);
  }

  /** Different integers render differently. */
  lemma IntStringInjective(a: int, b: int)
    requires IntString(a) == IntString(b)
    ensures a == b
  {
    IntStringSign(a);
    IntStringSign(b);
    if a < 0 {
      assert b < 0;
      NegativeIntString(a);
      NegativeIntString(b);
      NatStringInjective(-a, -b);
    } else {
      assert b >= 0;
      NatStringInjective(a, b);
    }
  }

  /** `String(format: "%02d", n)` for a natural number. */
  function Pad2(n: nat): (r: string)
    ensures |r| >= 2
    ensures n < 100 ==> |r| == 2
    ensures forall k :: 0 <= k < |r| ==> IsDigit(r[k])
    ensures DigitsValue(r) == n
  {
    NatStringRoundTrip(n);
    if n < 10 then
      var r := "0" + NatString(n);
      assert r[..|r| - 1] == "0";
      assert DigitsValue("0"[..0]) == 0;
      r
    else NatString(n)
  }

  /** The position of the last `sep` in `s`, or -1 when there is none. */
  function LastIndexOf(s: string, sep: char): (r: int)
    ensures -1 <= r < |s|
  {
    if s == [] then -1
    else if s[|s| - 1] == sep then |s| - 1
    else LastIndexOf(s[..|s| - 1], sep)
  }

  lemma {:induction false} LastIndexOfJoin(x: string, y: string, sep: char)
    requires forall k :: 0 <= k < |y| ==> y[k] != sep
    ensures LastIndexOf(x + [sep] + y, sep) == |x|
    decreases |y|
  {
    var s := x + [sep] + y;
    if y != [] {
      assert s[..|s| - 1] == x + [sep] + y[..|y| - 1];
      LastIndexOfJoin(x, y[..|y| - 1], sep);
    }
  }

  /** Splitting at the last occurrence of a separator that does not occur after it. */
  lemma SplitAtLastSeparator(x: string, y: string, x': string, y': string, sep: char)
    requires x + [sep] + y == x' + [sep] + y'
    requires forall k :: 0 <= k < |y| ==> y[k] != sep
    requires forall k :: 0 <= k < |y'| ==> y'[k] != sep
    ensures x == x' && y == y'
  {
    var s := x + [sep] + y;
    LastIndexOfJoin(x, y, sep);
    LastIndexOfJoin(x', y', sep);
    assert x == s[..|x|];
    assert x' == s[..|x'|];
    assert y == s[|x| + 1..];
    assert y' == s[|x'| + 1..];
  }
}
