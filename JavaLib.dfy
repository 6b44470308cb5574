/**
  The few Java library operations the editor's decisions rest on:
  `String.trim` and `String.isBlank`, the `\d` regular-expression class,
  `Integer.parseInt` and `Integer.toString`, `String.lastIndexOf` and
  `List.indexOf`.  Whitespace is every character at or below U+0020, which
  is exactly what `String.trim` strips.
*/
module JavaLib {

  /** A Java `int`. */
  type Int32 = x: int | -0x8000_0000 <= x < 0x8000_0000

  /** `Integer.MAX_VALUE`: `Integer.parseInt` throws above it. */
  const MaxInt32: int := 0x7FFF_FFFF

  predicate IsSpace(c: char) {
    c <= ' '
  }

  /** `String.isBlank`: empty, or whitespace only. */
  predicate IsBlank(s: string) {
    forall i :: 0 <= i < |s| ==> IsSpace(s[i])
  }

  /** `s` with its leading whitespace removed. */
  function TrimLeading(s: string): (r: string)
    ensures |r| <= |s| && r == s[|s| - |r|..]
    ensures IsBlank(s[..|s| - |r|])
    ensures r == [] || !IsSpace(r[0])
  {
    if s != [] && IsSpace(s[0]) then TrimLeading(s[1..]) else s
  }

  /** `s` with its trailing whitespace removed. */
  function TrimTrailing(s: string): (r: string)
    ensures |r| <= |s| && r == s[..|r|]
    ensures IsBlank(s[|r|..])
    ensures r == [] || !IsSpace(r[|r| - 1])
  {
    if s != [] && IsSpace(s[|s| - 1]) then TrimTrailing(s[..|s| - 1]) else s
  }

  /** `String.trim`: the result is empty exactly for a blank string, and otherwise neither starts nor ends with whitespace. */
  function Trim(s: string): (r: string)
    ensures r == [] <==> IsBlank(s)
    ensures r != [] ==> !IsSpace(r[0]) && !IsSpace(r[|r| - 1])
  {
    var t := TrimLeading(s);
    var r := TrimTrailing(t);
    assert r != [] ==> r[0] == t[0];
    r
  }

  /** Leading whitespace of a concatenation: a blank head disappears entirely, otherwise only the head is trimmed. */
  lemma {:induction false} TrimLeadingAppend(a: string, b: string)
    ensures IsBlank(a) ==> TrimLeading(a + b) == TrimLeading(b)
    ensures !IsBlank(a) ==> TrimLeading(a + b) == TrimLeading(a) + b
  {
    if a != [] {
      assert (a + b)[0] == a[0];
      assert (a + b)[1..] == a[1..] + b;
      TrimLeadingAppend(a[1..], b);
      if IsSpace(a[0]) {
        assert IsBlank(a) <==> IsBlank(a[1..]) by {
          if IsBlank(a[1..]) {
            forall i | 0 <= i < |a| ensures IsSpace(a[i]) {
              if i > 0 { assert a[i] == a[1..][i - 1]; }
            }
          }
        }
      }
    } else {
      assert a + b == b;
    }
  }

  /** Text that is not blank keeps a non-whitespace first character after its leading whitespace is removed. */
  lemma {:induction false} TrimLeadingOfText(s: string)
    requires !IsBlank(s)
    ensures TrimLeading(s) != [] && !IsSpace(TrimLeading(s)[0])
  {
    var i :| 0 <= i < |s| && !IsSpace(s[i]);
    if IsSpace(s[0]) {
      assert s[1..][i - 1] == s[i];
      TrimLeadingOfText(s[1..]);
    }
  }

  /** Text starting with a non-whitespace character is not blank and has no leading whitespace to remove. */
  lemma UnpaddedStart(s: string)
    requires s != [] && !IsSpace(s[0])
    ensures !IsBlank(s) && TrimLeading(s) == s
  {
  }

  /** A string that neither starts nor ends with whitespace is its own trim. */
  lemma TrimUnpadded(s: string)
    requires s == [] || (!IsSpace(s[0]) && !IsSpace(s[|s| - 1]))
    ensures Trim(s) == s
  {
  }

  predicate IsDigit(c: char) {
    '0' <= c <= '9'
  }

  /** The regular expression `\d*` (without Unicode classes): ASCII digits only. */
  predicate AllDigits(s: string) {
    forall i :: 0 <= i < |s| ==> IsDigit(s[i])
  }

  function Pow10(k: nat): (p: nat)
    ensures p >= 1
  {
    if k == 0 then 1 else 10 * Pow10(k - 1)
  }

  /** The number a string of decimal digits denotes, as `Integer.parseInt` reads it before its range check. */
  function DigitsValue(s: string): (n: nat)
    requires AllDigits(s)
    ensures n < Pow10(|s|)
  {
    if s == [] then 0
    else DigitsValue(s[..|s| - 1]) * 10 + (s[|s| - 1] as int - '0' as int)
  }

  function DigitChar(d: nat): (c: char)
    requires d < 10
    ensures IsDigit(c) && c as int - '0' as int == d
  {
    ('0' as int + d) as char
  }

  /** `Integer.toString` of a non-negative value: decimal digits without a leading zero. */
  function Decimal(n: nat): (s: string)
    ensures s != [] && AllDigits(s)
    ensures s[0] == '0' ==> n == 0
  {
    if n < 10 then [DigitChar(n)] else Decimal(n / 10) + [DigitChar(n % 10)]
  }

  /** Reading back the decimal text of a number gives the number. */
  lemma {:induction false} DecimalRoundTrip(n: nat)
    ensures DigitsValue(Decimal(n)) == n
  {
    if n >= 10 {
      var s := Decimal(n);
      assert s[..|s| - 1] == Decimal(n / 10);
      DecimalRoundTrip(n / 10);
    }
  }

  /** `Integer.toString`: a minus sign before the digits of a negative value. */
  function IntToString(n: int): (s: string)
    ensures s != [] && IsDigit(s[|s| - 1])
    ensures n >= 0 <==> AllDigits(s)
  {
    if n < 0 then
      var s := "-" + Decimal(-n);
      assert !IsDigit(s[0]);
      s
    else Decimal(n)
  }

  /** `String.lastIndexOf(c)`: the position of the last `c`, or -1 when there is none. */
  function LastIndexOf(s: string, c: char): (i: int)
    ensures -1 <= i < |s|
    ensures i >= 0 ==> s[i] == c
    ensures forall j :: i < j < |s| ==> s[j] != c
  {
    if s == [] then -1
    else if s[|s| - 1] == c then |s| - 1
    else LastIndexOf(s[..|s| - 1], c)
  }

  /** `List.indexOf(x)`: the position of the first `x`, or -1 when there is none. */
  function IndexOf<T(==)>(s: seq<T>, x: T): (i: int)
    ensures -1 <= i < |s|
    ensures i >= 0 ==> s[i] == x
    ensures forall j :: 0 <= j < |s| && (i < 0 || j < i) ==> s[j] != x
  {
    if s == [] then -1
    else if s[0] == x then 0
    else
      var j := IndexOf(s[1..], x);
      if j < 0 then -1 else j + 1
  }
}
