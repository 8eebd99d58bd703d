/** The few `java.lang.String` operations the application relies on, restricted
    to ASCII: lower-casing, `trim`, `contains`, `String.CASE_INSENSITIVE_ORDER`
    and the decimal rendering of an `int`. */
module Text {

  /** `Character.toLowerCase` on ASCII letters; every other character is kept. */
  function LowerChar(c: char): char {
    if 'A' <= c <= 'Z' then (c as int + 32) as char else c
  }

  /** `String.toLowerCase()`, character by character. */
  function Lower(s: string): (r: string)
    ensures |r| == |s|
  {
    if s == [] then [] else [LowerChar(s[0])] + Lower(s[1..])
  }

  /** Java's `trim` treats every character up to U+0020 as blank. */
  predicate IsBlankChar(c: char) {
    c <= ' '
  }

  ghost predicate IsBlank(s: string) {
    forall i :: 0 <= i < |s| ==> IsBlankChar(s[i])
  }

  /** Drops the leading blank characters. */
  function TrimStart(s: string): (r: string)
    ensures |r| <= |s| && r == s[|s| - |r|..]
    ensures r == [] || !IsBlankChar(r[0])
    ensures forall i :: 0 <= i < |s| - |r| ==> IsBlankChar(s[i])
  {
    if s != [] && IsBlankChar(s[0]) then TrimStart(s[1..]) else s
  }

  /** Drops the trailing blank characters. */
  function TrimEnd(s: string): (r: string)
    ensures |r| <= |s| && r == s[..|r|]
    ensures r == [] || !IsBlankChar(r[|r| - 1])
    ensures forall i :: |r| <= i < |s| ==> IsBlankChar(s[i])
  {
    if s != [] && IsBlankChar(s[|s| - 1]) then TrimEnd(s[..|s| - 1]) else s
  }

  /** `String.trim()`: leading blanks first, then trailing ones. */
  function Trim(s: string): string {
    TrimEnd(TrimStart(s))
  }

  /** A string trims to nothing exactly when every character of it is blank. */
  lemma TrimEmptyIffBlank(s: string)
    ensures Trim(s) == [] <==> IsBlank(s)
  {
    var t := TrimStart(s);
    if Trim(s) == [] {
      forall i | 0 <= i < |s| ensures IsBlankChar(s[i]) { }
    } else {
      assert t != [];
      assert t[0] == s[|s| - |t|];
    }
  }

  /** Java's `String.contains`: `x` occurs somewhere in `s`. */
  ghost predicate Occurs(s: string, x: string) {
    exists i :: OccursAt(s, x, i)
  }

  /** `x` occurs in `s` starting at index `i`. */
  ghost predicate OccursAt(s: string, x: string, i: int) {
    0 <= i <= |s| - |x| && s[i..i + |x|] == x
  }

  /** The executable search for `x` in `s`, front to back. */
  function Contains(s: string, x: string): bool {
    if |x| > |s| then false
    else if s[..|x|] == x then true
    else Contains(s[1..], x)
  }

  lemma {:induction false} ContainsIffOccurs(s: string, x: string)
    ensures Contains(s, x) <==> Occurs(s, x)
  {
    if |x| > |s| {
    } else if s[..|x|] == x {
      assert OccursAt(s, x, 0);
    } else {
      ContainsIffOccurs(s[1..], x);
      if Occurs(s, x) {
        var i :| OccursAt(s, x, i);
        assert i != 0;
        assert s[1..][i - 1..i - 1 + |x|] == x;
        assert OccursAt(s[1..], x, i - 1);
      }
      if Occurs(s[1..], x) {
        var i :| OccursAt(s[1..], x, i);
        assert s[i + 1..i + 1 + |x|] == x;
        assert OccursAt(s, x, i + 1);
      }
    }
  }

  /** `String.CASE_INSENSITIVE_ORDER.compare(a, b)`: the difference of the first
      pair of characters that differ after lower-casing, else the difference of
      the lengths. */
  function CompareIgnoreCase(a: string, b: string): int {
    if a == [] || b == [] then |a| - |b|
    else if LowerChar(a[0]) != LowerChar(b[0]) then LowerChar(a[0]) as int - LowerChar(b[0]) as int
    else CompareIgnoreCase(a[1..], b[1..])
  }

  lemma {:induction false} CompareIgnoreCaseAntisymmetric(a: string, b: string)
    ensures CompareIgnoreCase(a, b) == -CompareIgnoreCase(b, a)
  {
    if a != [] && b != [] && LowerChar(a[0]) == LowerChar(b[0]) {
      CompareIgnoreCaseAntisymmetric(a[1..], b[1..]);
    }
  }

  /** The order ties exactly the strings that are equal ignoring case. */
  lemma {:induction false} CompareIgnoreCaseZeroIff(a: string, b: string)
    ensures CompareIgnoreCase(a, b) == 0 <==> Lower(a) == Lower(b)
  {
    if a == [] || b == [] {
    } else if LowerChar(a[0]) != LowerChar(b[0]) {
      assert Lower(a)[0] != Lower(b)[0];
    } else {
      CompareIgnoreCaseZeroIff(a[1..], b[1..]);
      assert Lower(a) == [LowerChar(a[0])] + Lower(a[1..]);
      assert Lower(b) == [LowerChar(b[0])] + Lower(b[1..]);
      if Lower(a) == Lower(b) {
        assert Lower(a)[1..] == Lower(a[1..]);
        assert Lower(b)[1..] == Lower(b[1..]);
      }
    }
  }

  lemma {:induction false} CompareIgnoreCaseTransitive(a: string, b: string, c: string)
    requires CompareIgnoreCase(a, b) <= 0 && CompareIgnoreCase(b, c) <= 0
    ensures CompareIgnoreCase(a, c) <= 0
  {
    if a != [] && b != [] && c != [] {
      if LowerChar(a[0]) == LowerChar(b[0]) && LowerChar(b[0]) == LowerChar(c[0]) {
        CompareIgnoreCaseTransitive(a[1..], b[1..], c[1..]);
      }
    }
  }

  predicate IsDigit(c: char) {
    '0' <= c <= '9'
  }

  function DigitChar(d: nat): (c: char)
    requires d < 10
    ensures IsDigit(c) && c as int - '0' as int == d
  {
    "0123456789"[d]
  }

  /** `Integer.toString` of a non-negative number. */
  function NatToString(n: nat): (r: string)
    ensures |r| > 0
    ensures forall i :: 0 <= i < |r| ==> IsDigit(r[i])
    decreases n
  {
    if n < 10 then [DigitChar(n)] else NatToString(n / 10) + [DigitChar(n % 10)]
  }

  /** `Integer.toString`, with a leading minus sign for negative numbers. */
  function IntToString(i: int): (r: string)
    ensures |r| > 0
    ensures forall k :: 0 <= k < |r| ==> IsDigit(r[k]) || (k == 0 && r[k] == '-' && i < 0)
  {
    if i < 0 then "-" + NatToString(-i) else NatToString(i)
  }
}
