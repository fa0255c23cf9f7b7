/**
 * The parts of Python's `str` behaviour the assistant relies on, restricted to
 * ASCII: `strip()`, `title()`, `lower()`, `startswith()` and `str(int)`.
 */
module AsciiText {

  /** Python's `str.isspace()` on an ASCII character: tab through carriage
      return, the four separators 0x1C-0x1F, and the space. */
  predicate IsSpace(c: char) {
    c == ' ' || '\t' <= c <= '\r' || '\U{1C}' <= c <= '\U{1F}'
  }

  /** The cased characters of ASCII. */
  predicate IsLetter(c: char) {
    'A' <= c <= 'Z' || 'a' <= c <= 'z'
  }

  predicate IsDigit(c: char) {
    '0' <= c <= '9'
  }

  function UpperChar(c: char): (u: char)
    ensures IsLetter(u) == IsLetter(c)
    ensures IsLetter(c) ==> 'A' <= u <= 'Z'
    ensures !IsLetter(c) ==> u == c
  {
    if 'a' <= c <= 'z' then (c as int - 32) as char else c
  }

  function LowerChar(c: char): (l: char)
    ensures IsLetter(l) == IsLetter(c)
    ensures IsLetter(c) ==> 'a' <= l <= 'z'
    ensures !IsLetter(c) ==> l == c
  {
    if 'A' <= c <= 'Z' then (c as int + 32) as char else c
  }

  /** Changing case twice keeps only the last change. */
  lemma CaseCollapses(c: char)
    ensures LowerChar(UpperChar(c)) == LowerChar(c) && UpperChar(UpperChar(c)) == UpperChar(c)
    ensures UpperChar(LowerChar(c)) == UpperChar(c) && LowerChar(LowerChar(c)) == LowerChar(c)
  {
  }

  /** `str.lower()` */
  function Lower(s: string): (r: string)
    ensures |r| == |s|
    ensures forall i :: 0 <= i < |s| ==> r[i] == LowerChar(s[i])
  {
    seq(|s|, i requires 0 <= i < |s| => LowerChar(s[i]))
  }

  /** `s.startswith(p)` */
  predicate StartsWith(s: string, p: string) {
    p <= s
  }

  // ---------------------------------------------------------------------------
  // str.strip()

  function TrimLeft(s: string): (r: string)
    ensures |r| <= |s| && r == s[|s| - |r|..]
    ensures r == [] || !IsSpace(r[0])
    ensures forall i :: 0 <= i < |s| - |r| ==> IsSpace(s[i])
  {
    if s != [] && IsSpace(s[0]) then TrimLeft(s[1..]) else s
  }

  function TrimRight(s: string): (r: string)
    ensures |r| <= |s| && r == s[..|r|]
    ensures r == [] || !IsSpace(r[|r| - 1])
    ensures forall i :: |r| <= i < |s| ==> IsSpace(s[i])
  {
    if s != [] && IsSpace(s[|s| - 1]) then TrimRight(s[..|s| - 1]) else s
  }

  /** `r` is the slice of `s` that starts at `a`, and everything of `s` around it is whitespace. */
  predicate StrippedAt(s: string, r: string, a: int) {
    0 <= a <= |s| - |r| && r == s[a..a + |r|] &&
    (forall i :: 0 <= i < a ==> IsSpace(s[i])) &&
    (forall i :: a + |r| <= i < |s| ==> IsSpace(s[i]))
  }

  /** `str.strip()`: the longest infix without leading or trailing whitespace. */
  function Strip(s: string): (r: string)
    ensures r == [] || (!IsSpace(r[0]) && !IsSpace(r[|r| - 1]))
    ensures r == [] <==> forall i :: 0 <= i < |s| ==> IsSpace(s[i])
    ensures exists a :: StrippedAt(s, r, a)
  {
    var l := TrimLeft(s);
    var r := TrimRight(l);
    assert r != [] ==> r[0] == l[0];
    var a := |s| - |l|;
    assert StrippedAt(s, r, a);
    r
  }

  /** A string already without surrounding whitespace is left alone. */
  lemma StripUnchanged(s: string)
    requires s == [] || (!IsSpace(s[0]) && !IsSpace(s[|s| - 1]))
    ensures Strip(s) == s
  {
  }

  // ---------------------------------------------------------------------------
  // str.title()

  /** One character of `str.title()`: a letter becomes upper case unless it
      follows a letter, in which case it becomes lower case. */
  function TitleChar(c: char, afterLetter: bool): char {
    if !IsLetter(c) then c
    else if afterLetter then LowerChar(c)
    else UpperChar(c)
  }

  /** The scan `str.title()` performs, carrying whether the previous character was cased. */
  function TitleFrom(s: string, afterLetter: bool): (r: string)
    ensures |r| == |s|
    ensures forall i :: 0 <= i < |s| ==>
      r[i] == TitleChar(s[i], if i == 0 then afterLetter else IsLetter(s[i - 1]))
  {
    if s == [] then []
    else [TitleChar(s[0], afterLetter)] + TitleFrom(s[1..], IsLetter(s[0]))
  }

  /** `str.title()`: every letter that starts the string or follows a non-letter
      is upper-cased, every other letter lower-cased, everything else kept. */
  function Title(s: string): (r: string)
    ensures |r| == |s|
    ensures forall i :: 0 <= i < |s| ==> r[i] == TitleChar(s[i], i > 0 && IsLetter(s[i - 1]))
  {
    TitleFrom(s, false)
  }

  /** `title()` keeps every character's class: letters stay letters and
      whitespace stays whitespace. */
  lemma TitleKeepsClasses(s: string, i: int)
    requires 0 <= i < |s|
    ensures IsLetter(Title(s)[i]) == IsLetter(s[i])
    ensures IsSpace(Title(s)[i]) == IsSpace(s[i])
    ensures Lower(Title(s))[i] == Lower(s)[i]
  {
    var after := i > 0 && IsLetter(s[i - 1]);
    assert Title(s)[i] == TitleChar(s[i], after);
    CaseCollapses(s[i]);
  }

  /** Title-casing twice is title-casing once. */
  lemma TitleIdempotent(s: string)
    ensures Title(Title(s)) == Title(s)
  {
    var t := Title(s);
    forall i | 0 <= i < |s|
      ensures Title(t)[i] == t[i]
    {
      TitleKeepsClasses(s, i);
      if i > 0 {
        TitleKeepsClasses(s, i - 1);
      }
    }
  }

  /** Title-casing a stripped string gives a string that strip leaves alone. */
  lemma TitleOfStrippedIsStripped(s: string)
    ensures Strip(Title(Strip(s))) == Title(Strip(s))
  {
    var r := Strip(s);
    var t := Title(r);
    if r != [] {
      TitleKeepsClasses(r, 0);
      TitleKeepsClasses(r, |r| - 1);
    }
    StripUnchanged(t);
  }

  // ---------------------------------------------------------------------------
  // str(int)

  function DigitChar(d: nat): (c: char)
    requires d < 10
    ensures IsDigit(c) && c as int - '0' as int == d
  {
    ('0' as int + d) as char
  }

  /** Decimal digits of a natural number, without leading zeros. */
  function NatToDecimal(n: nat): (r: string)
    ensures |r| > 0
    ensures forall i :: 0 <= i < |r| ==> IsDigit(r[i])
    ensures r[0] == '0' ==> n == 0
  {
    if n < 10 then [DigitChar(n)] else NatToDecimal(n / 10) + [DigitChar(n % 10)]
  }

  /** The number a string of decimal digits denotes. */
  function DecimalValue(s: string): nat
    requires forall i :: 0 <= i < |s| ==> IsDigit(s[i])
  {
    if s == [] then 0
    else
      var last := s[|s| - 1];
      assert IsDigit(last);
      10 * DecimalValue(s[..|s| - 1]) + (last as int - '0' as int)
  }

  lemma {:induction false} NatDecimalRoundTrip(n: nat)
    ensures DecimalValue(NatToDecimal(n)) == n
  {
    if n >= 10 {
      var s := NatToDecimal(n);
      assert s[..|s| - 1] == NatToDecimal(n / 10);
      NatDecimalRoundTrip(n / 10);
    }
  }

  /** Python's `str(i)` for an `int`: a minus sign for negative values, then the digits. */
  function IntToDecimal(i: int): (r: string)
    ensures IsIntLiteral(r)
    ensures (r[0] == '-') == (i < 0)
    ensures Magnitude(r)[0] == '0' ==> i == 0
  {
    if i < 0 then "-" + NatToDecimal(-i) else NatToDecimal(i)
  }

  /** What `int(s)` accepts among the strings `str` produces. */
  predicate IsIntLiteral(s: string) {
    var digits := Magnitude(s);
    digits != [] && forall i :: 0 <= i < |digits| ==> IsDigit(digits[i])
  }

  /** The digits of a literal, after an optional minus sign. */
  function Magnitude(s: string): string {
    if s != [] && s[0] == '-' then s[1..] else s
  }

  /** `int(s)` on a decimal literal. */
  function ParseInt(s: string): int
    requires IsIntLiteral(s)
  {
    var value: int := DecimalValue(Magnitude(s));
    if s[0] == '-' then -value else value
  }

  /** `int(str(i)) == i`: the stored decimal string loses nothing. */
  lemma IntDecimalRoundTrip(i: int)
    ensures ParseInt(IntToDecimal(i)) == i
  {
    if i < 0 {
      assert IntToDecimal(i)[1..] == NatToDecimal(-i);
      NatDecimalRoundTrip(-i);
    } else {
      NatDecimalRoundTrip(i);
    }
  }
}
