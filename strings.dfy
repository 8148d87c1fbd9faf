/**
 * The string primitives the three programs rely on: substring search
 * (JavaScript's `String.prototype.includes`, Python's `in` on strings),
 * ASCII lower-casing (`str.lower`), Python's `str.strip`, and the decimal
 * rendering of a whole number inside a template literal.
 */
module Strings {

  /** `t` occurs in `s` as a contiguous block: the reference definition of substring. */
  ghost predicate IsSubstring(t: string, s: string) {
    exists i :: OccursAt(t, s, i)
  }

  /** `t` occurs in `s` starting at index `i`. */
  predicate OccursAt(t: string, s: string, i: int) {
    0 <= i <= |s| - |t| && s[i..i + |t|] == t
  }

  predicate StartsWith(s: string, prefix: string) {
    |prefix| <= |s| && s[..|prefix|] == prefix
  }

  /** The naive left-to-right search both `includes` and Python's `in` perform: it finds `t` exactly when `t` is a substring of `s`. */
  function Contains(s: string, t: string): (r: bool)
    ensures r <==> IsSubstring(t, s)
    decreases |s|
  {
    if |t| > |s| then false
    else if StartsWith(s, t) then
      assert OccursAt(t, s, 0);
      true
    else
      TailOccurrence(s, t);
      Contains(s[1..], t)
  }

  /** When `t` does not start `s`, it occurs in `s` exactly when it occurs in the tail `s[1..]`. */
  lemma TailOccurrence(s: string, t: string)
    requires |t| <= |s| && !StartsWith(s, t)
    ensures IsSubstring(t, s) <==> IsSubstring(t, s[1..])
  {
    if IsSubstring(t, s[1..]) {
      var i :| OccursAt(t, s[1..], i);
      assert s[1..|s|] == s[1..];
      OccursInSlice(t, s, 1, |s|, i);
    }
    if IsSubstring(t, s) {
      var i :| OccursAt(t, s, i);
      if i > 0 {
        var rest := s[1..];
        var part, whole := rest[i - 1..i - 1 + |t|], s[i..i + |t|];
        forall x | 0 <= x < |t|
          ensures part[x] == whole[x]
        {
          assert rest[i - 1 + x] == s[i + x];
        }
        assert part == whole;
        assert OccursAt(t, rest, i - 1);
      }
    }
  }

  /** An occurrence inside a slice is an occurrence in the whole string, shifted by the slice's start. */
  lemma OccursInSlice(t: string, s: string, a: nat, b: nat, m: int)
    requires a <= b <= |s| && OccursAt(t, s[a..b], m)
    ensures OccursAt(t, s, a + m)
  {
    var inner := s[a..b];
    assert 0 <= m && m + |t| <= b - a;
    var part, whole := inner[m..m + |t|], s[a + m..a + m + |t|];
    forall x | 0 <= x < |t|
      ensures part[x] == whole[x]
    {
      assert inner[m + x] == s[a + m + x];
    }
    assert part == whole;
  }

  /** Every string occurs in any string that extends it on both sides. */
  lemma IsSubstringOfConcat(a: string, t: string, b: string)
    ensures IsSubstring(t, a + t + b)
  {
    var s := a + t + b;
    assert s[|a|..|a| + |t|] == t;
    assert OccursAt(t, s, |a|);
  }

  // ----- ASCII case folding -----

  function LowerChar(c: char): char {
    if 'A' <= c <= 'Z' then (c as int - 'A' as int + 'a' as int) as char else c
  }

  /** Python's `str.lower`, restricted to the ASCII letters. */
  function Lower(s: string): (r: string)
    ensures |r| == |s|
    ensures forall i :: 0 <= i < |s| ==> r[i] == LowerChar(s[i])
    ensures forall i :: 0 <= i < |r| ==> !('A' <= r[i] <= 'Z')
  {
    seq(|s|, i requires 0 <= i < |s| => LowerChar(s[i]))
  }

  // ----- Python's str.strip() -----

  /** The ASCII characters for which Python's `str.isspace` holds. */
  predicate IsSpace(c: char) {
    c == ' ' || c == '\t' || c == '\n' || c == '\r' || c == '\U{0B}' || c == '\U{0C}'
    || c == '\U{1C}' || c == '\U{1D}' || c == '\U{1E}' || c == '\U{1F}'
  }

  /** The length of the longest all-whitespace prefix of `s`. */
  function LeadingSpaces(s: string): (n: nat)
    ensures n <= |s|
    ensures forall i :: 0 <= i < n ==> IsSpace(s[i])
    ensures n < |s| ==> !IsSpace(s[n])
  {
    if s != [] && IsSpace(s[0]) then 1 + LeadingSpaces(s[1..]) else 0
  }

  /** The length of the longest all-whitespace suffix of `s`. */
  function TrailingSpaces(s: string): (n: nat)
    ensures n <= |s|
    ensures forall i :: |s| - n <= i < |s| ==> IsSpace(s[i])
    ensures n < |s| ==> !IsSpace(s[|s| - n - 1])
  {
    if s != [] && IsSpace(s[|s| - 1]) then 1 + TrailingSpaces(s[..|s| - 1]) else 0
  }

  /** Python's `str.strip()` with no argument: both whitespace runs removed. */
  function Trim(s: string): (r: string)
    ensures r != [] ==> !IsSpace(r[0]) && !IsSpace(r[|r| - 1])
  {
    var t := s[LeadingSpaces(s)..];
    t[..|t| - TrailingSpaces(t)]
  }

  /** What `strip` removes is whitespace at the two ends and nothing else. */
  lemma TrimRemovesOnlyEndSpaces(s: string)
    ensures exists a, b ::
      && 0 <= a <= b <= |s| && Trim(s) == s[a..b]
      && (forall i :: 0 <= i < a ==> IsSpace(s[i]))
      && (forall i :: b <= i < |s| ==> IsSpace(s[i]))
  {
    var a := LeadingSpaces(s);
    var t := s[a..];
    var b := a + |t| - TrailingSpaces(t);
    assert Trim(s) == s[a..b];
    forall i | b <= i < |s|
      ensures IsSpace(s[i])
    {
      assert s[i] == t[i - a];
    }
  }

  // ----- decimal rendering of whole numbers -----

  function DigitChar(d: nat): (c: char)
    requires d < 10
    ensures '0' <= c <= '9'
  {
    ('0' as int + d) as char
  }

  /** How a JavaScript template literal renders a non-negative integer below 10^21. */
  function Decimal(n: nat): (s: string)
    ensures s != []
    ensures forall i :: 0 <= i < |s| ==> '0' <= s[i] <= '9'
  {
    if n < 10 then [DigitChar(n)] else Decimal(n / 10) + [DigitChar(n % 10)]
  }

  /** Reads a string of decimal digits back as a number. */
  function ParseDecimal(s: string): nat
    requires forall i :: 0 <= i < |s| ==> '0' <= s[i] <= '9'
  {
    if s == [] then 0
    else ParseDecimal(s[..|s| - 1]) * 10 + (s[|s| - 1] as int - '0' as int)
  }

  lemma {:induction false} DecimalRoundTrip(n: nat)
    ensures ParseDecimal(Decimal(n)) == n
  {
    if n >= 10 {
      var s := Decimal(n);
      assert s[..|s| - 1] == Decimal(n / 10);
      DecimalRoundTrip(n / 10);
    }
  }

  /** Distinct numbers render as distinct strings. */
  lemma DecimalInjective(m: nat, n: nat)
    requires Decimal(m) == Decimal(n)
    ensures m == n
  {
    DecimalRoundTrip(m);
    DecimalRoundTrip(n);
  }
}
