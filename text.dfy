/**
 * The string operations the services rely on, written out with Python's
 * semantics: `str.lower()`, `str.strip()`, `str.split(sep)` and the decimal
 * rendering of an `int` inside an f-string.
 */
module Text {
  import opened Wrappers

  // ---------------------------------------------------------------- lower()

  predicate IsUpper(c: char) {
    'A' <= c <= 'Z'
  }

  /** `c.lower()` for an ASCII letter; every other character is kept. */
  function LowerChar(c: char): (r: char)
    ensures !IsUpper(r)
    ensures !IsUpper(c) ==> r == c
    ensures IsUpper(c) ==> r as int == c as int + 32
  {
    if IsUpper(c) then (c as int + 32) as char else c
  }

  /** `s.lower()`: each character lowered on its own, so no upper-case letter is left and others are kept. */
  function Lower(s: string): (r: string)
    ensures |r| == |s|
    ensures forall i | 0 <= i < |s| :: r[i] == LowerChar(s[i])
    ensures forall i | 0 <= i < |r| :: !IsUpper(r[i])
    ensures forall i | 0 <= i < |r| :: !IsUpper(s[i]) ==> r[i] == s[i]
  {
    seq(|s|, i requires 0 <= i < |s| => LowerChar(s[i]))
  }

  /** Lower-casing twice is lower-casing once. */
  lemma LowerIdempotent(s: string)
    ensures Lower(Lower(s)) == Lower(s)
  {
  }

  /** A string with no upper-case letter is its own lower-case form. */
  lemma LowerOfLowercase(s: string)
    requires forall i | 0 <= i < |s| :: !IsUpper(s[i])
    ensures Lower(s) == s
  {
  }

  // ---------------------------------------------------------------- strip()

  /** The characters for which Python's `str.isspace()` holds. */
  predicate IsSpace(c: char) {
    var n := c as int;
    n == 0x20 || 0x09 <= n <= 0x0D || 0x1C <= n <= 0x1F || n == 0x85 || n == 0xA0
    || n == 0x1680 || 0x2000 <= n <= 0x200A || n == 0x2028 || n == 0x2029
    || n == 0x202F || n == 0x205F || n == 0x3000
  }

  /** Drops leading whitespace: the result is a suffix of `s` and only whitespace was dropped. */
  function TrimStart(s: string): (r: string)
    ensures |r| <= |s| && r == s[|s| - |r|..]
    ensures forall i | 0 <= i < |s| - |r| :: IsSpace(s[i])
    ensures r != [] ==> !IsSpace(r[0])
    decreases |s|
  {
    if s != [] && IsSpace(s[0]) then TrimStart(s[1..]) else s
  }

  /** Drops trailing whitespace: the result is a prefix of `s` and only whitespace was dropped. */
  function TrimEnd(s: string): (r: string)
    ensures |r| <= |s| && r == s[..|r|]
    ensures forall i | |r| <= i < |s| :: IsSpace(s[i])
    ensures r != [] ==> !IsSpace(r[|r| - 1])
    decreases |s|
  {
    if s != [] && IsSpace(s[|s| - 1]) then TrimEnd(s[..|s| - 1]) else s
  }

  /**
   * `s.strip()`: the slice of `s` left after dropping whitespace at both
   * ends; empty exactly when `s` is blank, and otherwise neither end is whitespace.
   */
  function Strip(s: string): (r: string)
    ensures |r| <= |s|
    ensures exists i, j | 0 <= i <= j <= |s| ::
              && r == s[i..j]
              && (forall k | 0 <= k < i :: IsSpace(s[k]))
              && (forall k | j <= k < |s| :: IsSpace(s[k]))
    ensures r == [] <==> forall i | 0 <= i < |s| :: IsSpace(s[i])
    ensures r != [] ==> !IsSpace(r[0]) && !IsSpace(r[|r| - 1])
  {
    var t := TrimStart(s);
    var r := TrimEnd(t);
    TrimmedSlice(s, t, r);
    TrimmedEmpty(s, t, r);
    r
  }

  /** Trimming both ends leaves a slice of `s` with only whitespace around it. */
  lemma TrimmedSlice(s: string, t: string, r: string)
    requires |t| <= |s| && t == s[|s| - |t|..]
    requires |r| <= |t| && r == t[..|r|]
    requires forall k | |r| <= k < |t| :: IsSpace(t[k])
    requires forall k | 0 <= k < |s| - |t| :: IsSpace(s[k])
    ensures exists i, j | 0 <= i <= j <= |s| ::
              && r == s[i..j]
              && (forall k | 0 <= k < i :: IsSpace(s[k]))
              && (forall k | j <= k < |s| :: IsSpace(s[k]))
  {
    var i := |s| - |t|;
    var j := i + |r|;
    assert r == s[i..j];
    forall k | j <= k < |s| ensures IsSpace(s[k]) {
      assert s[k] == t[k - i];
    }
  }

  /**
   * Trimming both ends leaves nothing exactly when every character is
   * whitespace, and otherwise leaves no whitespace at either end.
   */
  lemma TrimmedEmpty(s: string, t: string, r: string)
    requires |t| <= |s| && t == s[|s| - |t|..]
    requires |r| <= |t| && r == t[..|r|]
    requires forall k | |r| <= k < |t| :: IsSpace(t[k])
    requires forall k | 0 <= k < |s| - |t| :: IsSpace(s[k])
    requires t != [] ==> !IsSpace(t[0])
    requires r != [] ==> !IsSpace(r[|r| - 1])
    ensures r == [] <==> forall k | 0 <= k < |s| :: IsSpace(s[k])
    ensures r != [] ==> !IsSpace(r[0]) && !IsSpace(r[|r| - 1])
  {
    var i := |s| - |t|;
    if r == [] {
      assert t == [] by {
        if t != [] {
          assert false;
        }
      }
    } else {
      assert r[0] == t[0] == s[i];
    }
  }

  // ---------------------------------------------------------------- split()

  /** `sub` occurs in `s` at index `j`. */
  predicate OccursAt(s: string, sub: string, j: int) {
    0 <= j && j + |sub| <= |s| && s[j..j + |sub|] == sub
  }

  /** `s` begins with `prefix` (`s.startswith(prefix)`). */
  predicate StartsWith(s: string, prefix: string) {
    |prefix| <= |s| && s[..|prefix|] == prefix
  }

  /** `s` ends with `suffix` (`s.endswith(suffix)`). */
  predicate EndsWith(s: string, suffix: string) {
    |suffix| <= |s| && s[|s| - |suffix|..] == suffix
  }

  /** A value interpolated into a text stands right after the text before it. */
  lemma Interpolated(front: string, x: string, rest: string)
    ensures StartsWith(front + x + rest, front)
    ensures OccursAt(front + x + rest, x, |front|)
  {
    var s := front + x + rest;
    assert s[..|front|] == front;
    assert s[|front|..|front| + |x|] == x;
  }

  /** Two values interpolated one after the other. */
  lemma Interpolated2(front: string, x: string, y: string, rest: string)
    ensures StartsWith(front + x + y + rest, front)
    ensures OccursAt(front + x + y + rest, x, |front|)
    ensures OccursAt(front + x + y + rest, y, |front| + |x|)
  {
    var s := front + x + y + rest;
    assert s[..|front|] == front;
    assert s[|front|..|front| + |x|] == x;
    assert s[|front| + |x|..|front| + |x| + |y|] == y;
  }

  /** Values that begin with different characters give different interpolations. */
  lemma DifferentInterpolation(front: string, x: string, y: string, rest: string)
    requires x != [] && y != [] && x[0] != y[0]
    ensures front + x + rest != front + y + rest
  {
    assert (front + x + rest)[|front|] == x[0];
    assert (front + y + rest)[|front|] == y[0];
  }

  /** A value interpolated between the same two texts can be read back. */
  lemma CancelInterpolated(front: string, x: string, y: string, rest: string)
    requires front + x + rest == front + y + rest
    ensures x == y
  {
    var s := front + x + rest;
    assert |x| == |y|;
    assert x == s[|front|..|front| + |x|];
    assert y == (front + y + rest)[|front|..|front| + |y|];
  }

  /** `s.find(sub, k)`: the first occurrence of `sub` at or after `k`, if any. */
  function IndexFrom(s: string, sub: string, k: nat): (r: Option<nat>)
    requires |sub| > 0
    ensures r.Some? ==> k <= r.value && OccursAt(s, sub, r.value)
    ensures forall j | k <= j && (r.None? || j < r.value) :: !OccursAt(s, sub, j)
    decreases |s| - k
  {
    if k + |sub| > |s| then None
    else if s[k..k + |sub|] == sub then Some(k)
    else IndexFrom(s, sub, k + 1)
  }

  /** An occurrence at `m` with none between `k` and `m` is the one `find` reports. */
  lemma FirstOccurrence(s: string, sub: string, k: nat, m: nat)
    requires |sub| > 0 && k <= m
    requires OccursAt(s, sub, m)
    requires forall j | k <= j < m :: !OccursAt(s, sub, j)
    ensures IndexFrom(s, sub, k) == Some(m)
  {
    var r := IndexFrom(s, sub, k);
    assert r.Some?;
    assert r.value <= m;
  }

  /** `find` reports nothing in a string without an occurrence. */
  lemma NoOccurrence(s: string, sub: string, k: nat)
    requires |sub| > 0
    requires forall j | k <= j :: !OccursAt(s, sub, j)
    ensures IndexFrom(s, sub, k) == None
  {
  }

  /** Glues pieces back together with `sep` between them (`sep.join(parts)`). */
  function Join(parts: seq<string>, sep: string): string
    requires |parts| >= 1
    decreases |parts|
  {
    if |parts| == 1 then parts[0] else parts[0] + sep + Join(parts[1..], sep)
  }

  /** An occurrence inside a prefix of `s` is an occurrence in `s`. */
  lemma OccursInPrefix(s: string, sub: string, i: nat, j: int)
    requires i <= |s|
    requires OccursAt(s[..i], sub, j)
    ensures OccursAt(s, sub, j) && j + |sub| <= i
  {
    assert s[..i][j..j + |sub|] == s[j..j + |sub|];
  }

  /**
   * `s.split(sep)` for a non-empty separator, scanning left to right:
   * joining the pieces with `sep` gives `s` back, no piece contains `sep`,
   * and each piece ends at the leftmost occurrence of `sep` after it (no
   * occurrence starts inside a piece and runs into the separator that
   * follows it). There is one piece exactly when `s.find(sep)` finds
   * nothing, and otherwise the first piece ends where `find` reports.
   */
  function Split(s: string, sep: string): (r: seq<string>)
    requires |sep| > 0
    ensures |r| >= 1
    ensures Join(r, sep) == s
    ensures forall i, j | 0 <= i < |r| :: !OccursAt(r[i], sep, j)
    ensures forall i, j | 0 <= i < |r| - 1 && 0 <= j < |r[i]| :: !OccursAt(r[i] + sep, sep, j)
    ensures |r| == 1 <==> IndexFrom(s, sep, 0).None?
    ensures IndexFrom(s, sep, 0).Some? ==> |r[0]| == IndexFrom(s, sep, 0).value
    decreases |s|
  {
    match IndexFrom(s, sep, 0)
    case None => [s]
    case Some(i) =>
      var head, rest := s[..i], Split(s[i + |sep|..], sep);
      assert s == head + sep + s[i + |sep|..] by {
        assert s[i..i + |sep|] == sep;
        assert s == s[..i] + s[i..i + |sep|] + s[i + |sep|..];
      }
      forall j | OccursAt(head, sep, j) ensures false {
        OccursInPrefix(s, sep, i, j);
      }
      forall j | 0 <= j < |head| && OccursAt(head + sep, sep, j) ensures false {
        assert head + sep == s[..i + |sep|];
        OccursInPrefix(s, sep, i + |sep|, j);
      }
      var r := [head] + rest;
      assert r[1..] == rest;
      assert forall k | 1 <= k < |r| :: r[k] == rest[k - 1];
      r
  }

  // ---------------------------------------------------------------- integers

  predicate IsDigit(c: char) {
    '0' <= c <= '9'
  }

  predicate AllDigits(s: string) {
    forall i | 0 <= i < |s| :: IsDigit(s[i])
  }

  function DigitValue(c: char): (d: nat)
    requires IsDigit(c)
    ensures d < 10
  {
    c as int - '0' as int
  }

  function DigitChar(d: nat): (c: char)
    requires d < 10
    ensures IsDigit(c) && DigitValue(c) == d
  {
    ('0' as int + d) as char
  }

  /** The decimal digits of `n`, most significant first, with no leading zero. */
  function NatToString(n: nat): (r: string)
    ensures |r| >= 1 && AllDigits(r)
    ensures |r| > 1 ==> r[0] != '0'
    decreases n
  {
    if n < 10 then [DigitChar(n)] else NatToString(n / 10) + [DigitChar(n % 10)]
  }

  /** `f"{n}"` for a Python `int`: an optional minus sign, then the digits. */
  function IntToString(n: int): (r: string)
    ensures |r| >= 1
    ensures forall i | 0 <= i < |r| :: IsDigit(r[i]) || (i == 0 && r[i] == '-')
    ensures r[0] == '-' <==> n < 0
  {
    if n < 0 then "-" + NatToString(-n) else NatToString(n)
  }

  /** The value of a string of decimal digits (Python's `int(s)` on such a string). */
  function DigitsValue(s: string): nat
    requires AllDigits(s)
    decreases |s|
  {
    if s == [] then 0 else DigitsValue(s[..|s| - 1]) * 10 + DigitValue(s[|s| - 1])
  }

  /** Reads back what `IntToString` writes: `-` followed by digits, or digits alone. */
  function ParseInt(s: string): Option<int> {
    if |s| >= 2 && s[0] == '-' && AllDigits(s[1..]) then Some(0 - DigitsValue(s[1..]) as int)
    else if |s| >= 1 && AllDigits(s) then Some(DigitsValue(s))
    else None
  }

  lemma {:induction false} NatToStringRoundTrip(n: nat)
    ensures DigitsValue(NatToString(n)) == n
    decreases n
  {
    if n >= 10 {
      var p := NatToString(n / 10);
      var s := NatToString(n);
      assert s == p + [DigitChar(n % 10)];
      assert s[..|s| - 1] == p;
      NatToStringRoundTrip(n / 10);
    }
  }

  /** Decimal rendering loses nothing: parsing it gives the integer back. */
  lemma IntToStringRoundTrip(n: int)
    ensures ParseInt(IntToString(n)) == Some(n)
  {
    var s := IntToString(n);
    if n < 0 {
      assert s[1..] == NatToString(-n);
      NatToStringRoundTrip(-n);
    } else {
      NatToStringRoundTrip(n);
    }
  }

  /** Distinct integers are rendered as distinct strings. */
  lemma IntToStringInjective(a: int, b: int)
    requires IntToString(a) == IntToString(b)
    ensures a == b
  {
    IntToStringRoundTrip(a);
    IntToStringRoundTrip(b);
  }
}
