/** The JavaScript string operations the core relies on: `trim`, `indexOf`,
    `lastIndexOf`, `startsWith`, `includes`, `slice`, `charAt`, `join` and the
    decimal rendering of integers. Strings are `seq<char>`, sequences of
    Unicode code points; JavaScript's `length` and indices count UTF-16 code
    units, so the two agree on text within the Basic Multilingual Plane
    only. */
module Text {
  import opened Wrappers

  /** ECMAScript WhiteSpace and LineTerminator code points: the characters
      matched by the regular-expression class `\s` and removed by `trim()`. */
  predicate IsJsWhitespace(c: char) {
    c == '\t' || c == '\n' || c == '\U{000B}' || c == '\U{000C}' || c == '\r' || c == ' ' ||
    c == '\U{00A0}' || c == '\U{1680}' || ('\U{2000}' <= c <= '\U{200A}') ||
    c == '\U{2028}' || c == '\U{2029}' || c == '\U{202F}' || c == '\U{205F}' ||
    c == '\U{3000}' || c == '\U{FEFF}'
  }

  /** The number of leading whitespace characters of `s`. */
  function LeadingBlanks(s: string): (n: nat)
    ensures n <= |s|
    ensures forall i :: 0 <= i < n ==> IsJsWhitespace(s[i])
    ensures n == |s| || !IsJsWhitespace(s[n])
    decreases |s|
  {
    if s != [] && IsJsWhitespace(s[0]) then 1 + LeadingBlanks(s[1..]) else 0
  }

  /** `s.trimStart()`: drops the leading whitespace. */
  function TrimStart(s: string): (r: string)
    ensures r == s[LeadingBlanks(s)..]
    ensures r == [] || !IsJsWhitespace(r[0])
  {
    s[LeadingBlanks(s)..]
  }

  /** `s.trimEnd()`: drops the trailing whitespace. */
  function TrimEnd(s: string): (r: string)
    ensures |r| <= |s| && r == s[..|r|]
    ensures forall i :: |r| <= i < |s| ==> IsJsWhitespace(s[i])
    ensures r == [] || !IsJsWhitespace(r[|r| - 1])
    decreases |s|
  {
    if s != [] && IsJsWhitespace(s[|s| - 1]) then TrimEnd(s[..|s| - 1]) else s
  }

  /** `s.trim()`: the slice of `s` that starts after its leading whitespace and
      stops before its trailing whitespace. */
  function Trim(s: string): (r: string)
    ensures LeadingBlanks(s) + |r| <= |s|
    ensures r == s[LeadingBlanks(s)..LeadingBlanks(s) + |r|]
    ensures forall i :: LeadingBlanks(s) + |r| <= i < |s| ==> IsJsWhitespace(s[i])
    ensures r == [] || (!IsJsWhitespace(r[0]) && !IsJsWhitespace(r[|r| - 1]))
  {
    var n := LeadingBlanks(s);
    var t := s[n..];
    var r := TrimEnd(t);
    assert r == s[n..][..|r|] == s[n..n + |r|];
    assert forall i :: n + |r| <= i < |s| ==> s[i] == t[i - n];
    r
  }

  /** A string made only of whitespace trims to the empty string, and a string
      that trims to the empty string is made only of whitespace. */
  lemma TrimEmptyIffBlank(s: string)
    ensures Trim(s) == [] <==> forall i :: 0 <= i < |s| ==> IsJsWhitespace(s[i])
  {
    if Trim(s) != [] {
      assert s[LeadingBlanks(s)] == Trim(s)[0];
    }
  }

  /** Trimming is idempotent. */
  lemma {:induction false} TrimIdempotent(s: string)
    ensures Trim(Trim(s)) == Trim(s)
  {
    var r := Trim(s);
    if r != [] {
      assert TrimStart(r) == r;
      assert TrimEnd(r) == r;
    }
  }

  /** `pat` occurs in `s` starting at index `i`. */
  predicate OccursAt(s: string, pat: string, i: int) {
    0 <= i && i + |pat| <= |s| && s[i..i + |pat|] == pat
  }

  /** The first index at or after `from` where `pat` occurs, if any. */
  function FindFrom(s: string, pat: string, from: nat): (r: Option<nat>)
    ensures r.Some? ==> from <= r.value && OccursAt(s, pat, r.value)
    ensures r.Some? ==> forall j :: from <= j < r.value ==> !OccursAt(s, pat, j)
    ensures r.None? ==> forall j :: from <= j ==> !OccursAt(s, pat, j)
    decreases |s| - from
  {
    if from + |pat| > |s| then None
    else if s[from..from + |pat|] == pat then Some(from)
    else FindFrom(s, pat, from + 1)
  }

  /** `xs.indexOf(x)`: the first index holding `x`, or -1. */
  function IndexOf<T(==)>(xs: seq<T>, x: T): (r: int)
    ensures -1 <= r < |xs|
    ensures r == -1 <==> x !in xs
    ensures r >= 0 ==> xs[r] == x && forall j :: 0 <= j < r ==> xs[j] != x
    decreases |xs|
  {
    if xs == [] then -1
    else if xs[0] == x then 0
    else var k := IndexOf(xs[1..], x); if k == -1 then -1 else k + 1
  }

  /** `xs.lastIndexOf(x)`: the last index holding `x`, or -1. */
  function LastIndexOf<T(==)>(xs: seq<T>, x: T): (r: int)
    ensures -1 <= r < |xs|
    ensures r == -1 <==> x !in xs
    ensures r >= 0 ==> xs[r] == x && forall j :: r < j < |xs| ==> xs[j] != x
    decreases |xs|
  {
    if xs == [] then -1
    else if xs[|xs| - 1] == x then |xs| - 1
    else LastIndexOf(xs[..|xs| - 1], x)
  }

  /** In a sequence without repeated elements, `indexOf` finds each element at its own index. */
  lemma IndexOfDistinct<T>(xs: seq<T>, i: int)
    requires 0 <= i < |xs|
    requires forall a, b :: 0 <= a < b < |xs| ==> xs[a] != xs[b]
    ensures IndexOf(xs, xs[i]) == i
  {
    assert xs[i] in xs;
  }

  /** `s.startsWith(p)`. */
  predicate StartsWith(s: string, p: string) {
    |p| <= |s| && s[..|p|] == p
  }

  /** `s.charAt(i)`: a one-character string, or the empty string out of range. */
  function CharAt(s: string, i: int): (r: string)
    ensures 0 <= i < |s| ==> r == [s[i]]
    ensures !(0 <= i < |s|) ==> r == []
  {
    if 0 <= i < |s| then [s[i]] else []
  }

  /** `s.slice(a, b)` for non-negative bounds: out-of-range bounds are clamped. */
  function Slice(s: string, a: nat, b: nat): (r: string)
    ensures a <= b <= |s| ==> r == s[a..b]
    ensures |r| <= |s|
  {
    var hi := if b <= |s| then b else |s|;
    var lo := if a <= hi then a else hi;
    s[lo..hi]
  }

  /** `parts.join(sep)`. */
  function Join(parts: seq<string>, sep: string): string
    decreases |parts|
  {
    if parts == [] then []
    else if |parts| == 1 then parts[0]
    else parts[0] + sep + Join(parts[1..], sep)
  }

  /** The decimal digit for `d`. */
  function Digit(d: int): char
    requires 0 <= d < 10
  {
    "0123456789"[d]
  }

  /** The decimal rendering of a natural number, as `String(n)` gives it. */
  function NatText(n: nat): (r: string)
    ensures |r| >= 1
    ensures forall i :: 0 <= i < |r| ==> '0' <= r[i] <= '9'
    decreases n
  {
    if n < 10 then [Digit(n)] else NatText(n / 10) + [Digit(n % 10)]
  }

  /** The decimal rendering of an integer, as `String(n)` gives it. */
  function IntText(n: int): string {
    if n < 0 then "-" + NatText(-n) else NatText(n)
  }

  /** The value of a string of decimal digits. */
  function DigitsValue(s: string): int
    requires forall i :: 0 <= i < |s| ==> '0' <= s[i] <= '9'
    decreases |s|
  {
    if s == [] then 0 else 10 * DigitsValue(s[..|s| - 1]) + (s[|s| - 1] - '0') as int
  }

  /** Reading back the decimal rendering gives the number: the rendering loses nothing. */
  lemma {:induction false} NatTextRoundTrip(n: nat)
    ensures DigitsValue(NatText(n)) == n
    decreases n
  {
    if n >= 10 {
      NatTextRoundTrip(n / 10);
      var r := NatText(n);
      assert r[..|r| - 1] == NatText(n / 10);
    }
  }

  /** Every character is an ASCII code unit (the negation of `/[^\x00-\x7F]/`). */
  predicate IsAscii(s: string) {
    forall i :: 0 <= i < |s| ==> s[i] as int < 128
  }

  /** The Euclidean quotient and remainder are the only ones with a
      remainder in [0, b). */
  lemma DivModUnique(a: int, b: int, q: int, r: int)
    requires b > 0 && 0 <= r < b && a == q * b + r
    ensures a / b == q && a % b == r
  {
    var q', r' := a / b, a % b;
    assert a == q' * b + r';
    assert (q - q') * b == r' - r;
    if q > q' {
      MulAtLeast(q - q', b);
    } else if q < q' {
      MulAtLeast(q' - q, b);
    }
  }

  /** Reducing modulo an even number keeps the parity. */
  lemma ResidueParity(a: int, m: int)
    requires m > 0 && m % 2 == 0
    ensures (a % m) % 2 == a % 2
  {
    var q, r, h := a / m, a % m, m / 2;
    assert m == 2 * h;
    assert a == m * q + r;
    assert m * q == 2 * (h * q);
    DivModUnique(a, 2, h * q + r / 2, r % 2);
  }

  /** The residue of a successor is the successor of the residue, wrapped. */
  lemma ResidueSucc(a: int, m: int)
    requires m > 0
    ensures (a + 1) % m == (a % m + 1) % m
  {
    var q, r := a / m, a % m;
    if r + 1 < m {
      DivModUnique(a + 1, m, q, r + 1);
      DivModUnique(r + 1, m, 0, r + 1);
    } else {
      DivModUnique(a + 1, m, q + 1, 0);
      DivModUnique(r + 1, m, 1, 0);
    }
  }

  lemma MulAtLeast(k: int, b: int)
    requires k >= 1 && b > 0
    ensures k * b >= b
  {
  }

  /** JavaScript's `%` on integers: the remainder of division truncated
      toward zero, which takes the sign of the dividend. */
  function JsRem(a: int, b: int): (r: int)
    requires b > 0
    ensures -b < r < b
    ensures a >= 0 ==> r == a % b
    ensures a < 0 ==> r <= 0 && (a % b == 0 ==> r == 0) && (a % b != 0 ==> r == a % b - b)
  {
    if a >= 0 then a % b
    else
      var m := (-a) % b;
      var q := (-a) / b;
      assert -a == q * b + m;
      if m == 0 then
        DivModUnique(a, b, -q, 0);
        0
      else
        DivModUnique(a, b, -q - 1, b - m);
        -m
  }

  /** Adding the divisor to a negative JavaScript remainder, as
      `r >= 0 ? r : r + b` does, gives the non-negative residue. */
  lemma JsRemLift(a: int, b: int)
    requires b > 0
    ensures (if JsRem(a, b) >= 0 then JsRem(a, b) else JsRem(a, b) + b) == a % b
  {
  }

  /** `((a % b) + b) % b` with JavaScript's `%`: the non-negative residue. */
  function JsMod(a: int, b: int): (r: int)
    requires b > 0
    ensures r == a % b
  {
    var r := JsRem(a, b);
    if r >= 0 then
      DivModUnique(r + b, b, 1, r);
      JsRem(r + b, b)
    else
      DivModUnique(r + b, b, 0, r + b);
      JsRem(r + b, b)
  }
}
