/** The parts of java.lang that the modelled code relies on: nullable values,
    thrown exceptions, and the String operations whose exact behaviour the
    models depend on (lastIndexOf, replace, trim, compareTo,
    compareToIgnoreCase, equalsIgnoreCase, decimal rendering of an int). */
module JavaLang {

  /** A Java reference that may be null. */
  datatype Option<+T> = None | Some(value: T)

  /** The exceptions the modelled code throws or lets escape. */
  datatype Exception =
    | NullPointerException
    | IllegalStateException(message: Option<string>)
    | StringIndexOutOfBoundsException
    | ClassCastException
    | SecurityException
    | XmlException(description: string)

  /** The result of a call that either returns a value or throws. */
  datatype Result<+T> = Ok(value: T) | Thrown(exception: Exception)

  /** Concatenation is associative; stated once so that proofs about
      appended text can regroup it without unfolding what it is made of. */
  lemma ConcatAssociative<T>(a: seq<T>, b: seq<T>, c: seq<T>)
    ensures (a + b) + c == a + (b + c)
  {
  }

  // ---------------------------------------------------------------------
  // startsWith, endsWith

  /** `s.startsWith(p)`. */
  predicate StartsWith(s: string, p: string) {
    |p| <= |s| && s[..|p|] == p
  }

  /** `s.endsWith(t)`. */
  predicate EndsWith(s: string, t: string) {
    |t| <= |s| && s[|s| - |t|..] == t
  }

  /** A concatenation starts with its first part. */
  lemma StartsWithFirstPart(a: string, b: string)
    ensures StartsWith(a + b, a)
  {
    assert (a + b)[..|a|] == a;
  }

  /** A concatenation ends with whatever its last part ends with. */
  lemma EndsWithLastPart(a: string, b: string, t: string)
    requires EndsWith(b, t)
    ensures EndsWith(a + b, t)
  {
    assert (a + b)[|a + b| - |t|..] == b[|b| - |t|..];
  }

  /** Every string ends with itself. */
  lemma EndsWithItself(t: string)
    ensures EndsWith(t, t)
  {
    assert t[0..] == t;
  }

  // ---------------------------------------------------------------------
  // lastIndexOf, substring, replace(char, char)

  /** `s.lastIndexOf(c)`: the last position of `c` in `s`, or -1. */
  function LastIndexOf(s: string, c: char): (r: int)
    ensures -1 <= r < |s|
    ensures r >= 0 ==> s[r] == c
    ensures forall k :: r < k < |s| ==> s[k] != c
  {
    if s == [] then -1
    else if s[|s| - 1] == c then |s| - 1
    else LastIndexOf(s[..|s| - 1], c)
  }

  /** `s.substring(b, e)`, which throws unless 0 <= b <= e <= length. */
  function Substring(s: string, b: int, e: int): (r: Result<string>)
    ensures r.Ok? <==> 0 <= b <= e <= |s|
    ensures r.Ok? ==> r.value == s[b..e]
  {
    if 0 <= b <= e <= |s| then Ok(s[b..e]) else Thrown(StringIndexOutOfBoundsException)
  }

  /** `s.replace(a, b)`: every occurrence of the character `a` becomes `b`. */
  function Replace(s: string, a: char, b: char): (r: string)
    ensures |r| == |s|
    ensures forall k :: 0 <= k < |s| ==> r[k] == (if s[k] == a then b else s[k])
  {
    if s == [] then [] else [if s[0] == a then b else s[0]] + Replace(s[1..], a, b)
  }

  // ---------------------------------------------------------------------
  // trim

  /** The characters `String.trim` strips: every character up to U+0020.
      A `char` here is a Unicode scalar value, not a UTF-16 code unit. */
  predicate IsTrimmable(c: char) { c <= ' ' }

  function TrimStart(s: string): (r: string)
    ensures |r| <= |s| && r == s[|s| - |r|..]
    ensures r == [] || !IsTrimmable(r[0])
    ensures forall k :: 0 <= k < |s| - |r| ==> IsTrimmable(s[k])
  {
    if s != [] && IsTrimmable(s[0]) then TrimStart(s[1..]) else s
  }

  function TrimEnd(s: string): (r: string)
    ensures |r| <= |s| && r == s[..|r|]
    ensures r == [] || !IsTrimmable(r[|r| - 1])
    ensures forall k :: |r| <= k < |s| ==> IsTrimmable(s[k])
  {
    if s != [] && IsTrimmable(s[|s| - 1]) then TrimEnd(s[..|s| - 1]) else s
  }

  /** `s.trim()`. */
  function Trim(s: string): string {
    TrimEnd(TrimStart(s))
  }

  /** A string is blank when it consists of trimmable characters only. */
  predicate IsBlank(s: string) {
    forall k :: 0 <= k < |s| ==> IsTrimmable(s[k])
  }

  /** `s.trim()` is empty exactly when `s` is blank. */
  lemma TrimEmptyIffBlank(s: string)
    ensures Trim(s) == [] <==> IsBlank(s)
  {
    var t := TrimStart(s);
    if Trim(s) == [] {
      assert |t| == 0;
    } else {
      var r := Trim(s);
      assert r == t[..|r|];
      assert !IsTrimmable(t[0]) && t[0] == s[|s| - |t|];
    }
  }

  // ---------------------------------------------------------------------
  // compareTo, compareToIgnoreCase, equalsIgnoreCase

  /** `s.compareTo(t)`: the difference of the first differing characters,
      or else the difference of the lengths. Characters are Unicode scalar
      values; Java compares UTF-16 code units, which gives the same result
      only while both strings stay within the Basic Multilingual Plane. */
  function CompareTo(s: string, t: string): int {
    if s == [] || t == [] then |s| - |t|
    else if s[0] != t[0] then s[0] as int - t[0] as int
    else CompareTo(s[1..], t[1..])
  }

  /** `compareTo` returns 0 exactly for equal strings. */
  lemma {:induction false} CompareToZeroIffEqual(s: string, t: string)
    ensures CompareTo(s, t) == 0 <==> s == t
  {
    if s == [] || t == [] {
    } else if s[0] != t[0] {
    } else {
      CompareToZeroIffEqual(s[1..], t[1..]);
      assert s == [s[0]] + s[1..] && t == [t[0]] + t[1..];
    }
  }

  /** `compareTo` is antisymmetric: swapping the arguments negates it. */
  lemma {:induction false} CompareToAntisymmetric(s: string, t: string)
    ensures CompareTo(t, s) == -CompareTo(s, t)
  {
    if s != [] && t != [] && s[0] == t[0] {
      CompareToAntisymmetric(s[1..], t[1..]);
    }
  }

  /** `compareTo` orders strings transitively. */
  lemma {:induction false} CompareToTransitive(s: string, t: string, u: string)
    requires CompareTo(s, t) <= 0 && CompareTo(t, u) <= 0
    ensures CompareTo(s, u) <= 0
  {
    if s != [] && t != [] && u != [] && s[0] == t[0] && t[0] == u[0] {
      CompareToTransitive(s[1..], t[1..], u[1..]);
    }
  }

  /** `compareTo` skips a common prefix. */
  lemma {:induction false} CompareToSkipsCommonPrefix(s: string, t: string, n: nat)
    requires n <= |s| && n <= |t| && s[..n] == t[..n]
    ensures CompareTo(s, t) == CompareTo(s[n..], t[n..])
    decreases n
  {
    if n > 0 {
      assert s[0] == s[..n][0] == t[..n][0] == t[0];
      assert s[1..][..n - 1] == s[..n][1..] && t[1..][..n - 1] == t[..n][1..];
      CompareToSkipsCommonPrefix(s[1..], t[1..], n - 1);
      assert s[1..][n - 1..] == s[n..] && t[1..][n - 1..] == t[n..];
    }
  }

  /** ASCII case folding; other characters are left as they are. */
  function ToLowerAscii(c: char): char {
    if 'A' <= c <= 'Z' then (c as int + 32) as char else c
  }

  function ToLowerAsciiString(s: string): (r: string)
    ensures |r| == |s|
    ensures forall k :: 0 <= k < |s| ==> r[k] == ToLowerAscii(s[k])
  {
    if s == [] then [] else [ToLowerAscii(s[0])] + ToLowerAsciiString(s[1..])
  }

  /** `s.compareToIgnoreCase(t)` for strings whose letters are ASCII. */
  function CompareToIgnoreCase(s: string, t: string): int {
    CompareTo(ToLowerAsciiString(s), ToLowerAsciiString(t))
  }

  /** A common prefix does not affect `compareToIgnoreCase`. */
  lemma CompareToIgnoreCaseCommonPrefix(p: string, s: string, t: string)
    ensures CompareToIgnoreCase(p + s, p + t) == CompareToIgnoreCase(s, t)
  {
    var lp, ls, lt := ToLowerAsciiString(p), ToLowerAsciiString(s), ToLowerAsciiString(t);
    assert ToLowerAsciiString(p + s) == lp + ls;
    assert ToLowerAsciiString(p + t) == lp + lt;
    assert (lp + ls)[..|lp|] == lp == (lp + lt)[..|lp|];
    CompareToSkipsCommonPrefix(lp + ls, lp + lt, |lp|);
    assert (lp + ls)[|lp|..] == ls && (lp + lt)[|lp|..] == lt;
  }

  /** `s.equalsIgnoreCase(t)` for strings whose letters are ASCII. */
  predicate EqualsIgnoreCase(s: string, t: string) {
    ToLowerAsciiString(s) == ToLowerAsciiString(t)
  }

  // ---------------------------------------------------------------------
  // Decimal rendering of an int (StringBuilder.append(int)) and back

  function DigitChar(d: nat): (c: char)
    requires d < 10
    ensures '0' <= c <= '9'
  {
    ('0' as int + d) as char
  }

  predicate IsDigit(c: char) { '0' <= c <= '9' }

  predicate AllDigits(s: string) {
    forall k :: 0 <= k < |s| ==> IsDigit(s[k])
  }

  /** The decimal digits of `n`, without leading zeros. */
  function NatToString(n: nat): (r: string)
    ensures |r| >= 1 && AllDigits(r)
    decreases n
  {
    if n < 10 then [DigitChar(n)] else NatToString(n / 10) + [DigitChar(n % 10)]
  }

  /** The decimal text of an int: a leading '-' for negative values. */
  function IntToString(i: int): (r: string)
    ensures |r| >= 1
    ensures forall k :: 0 <= k < |r| ==> IsDigit(r[k]) || r[k] == '-'
  {
    if i < 0 then "-" + NatToString(-i) else NatToString(i)
  }

  /** The value of a string of decimal digits. */
  function DigitsValue(s: string): nat
    requires AllDigits(s)
  {
    if s == [] then 0 else DigitsValue(s[..|s| - 1]) * 10 + (s[|s| - 1] as int - '0' as int)
  }

  /** Reading the decimal text back gives the number. */
  lemma {:induction false} NatToStringRoundTrip(n: nat)
    ensures DigitsValue(NatToString(n)) == n
    decreases n
  {
    if n >= 10 {
      NatToStringRoundTrip(n / 10);
      var s := NatToString(n);
      assert s[..|s| - 1] == NatToString(n / 10);
    }
  }
}
