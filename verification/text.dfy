/** The usual optional value, for absent form keys and failed parses. */
module Optional {
  datatype Option<+T> = None | Some(value: T)
}

/**
 * Character classes and string helpers shared by the validators and the
 * schema: ASCII digits and letters, decimal digit strings, JavaScript's
 * String.prototype.trim, and the integer syntax that validator.js's isInt
 * accepts.
 */
module Text {

  predicate IsDigit(c: char) { '0' <= c <= '9' }

  predicate AllDigits(s: string) { forall i | 0 <= i < |s| :: IsDigit(s[i]) }

  predicate IsAsciiLetter(c: char) { 'A' <= c <= 'Z' || 'a' <= c <= 'z' }

  function Pow10(k: nat): (p: nat)
    ensures p >= 1
  {
    if k == 0 then 1 else 10 * Pow10(k - 1)
  }

  function DigitValue(c: char): (d: nat)
    requires IsDigit(c)
    ensures d <= 9
  {
    c as int - '0' as int
  }

  function DigitChar(d: nat): (c: char)
    requires d <= 9
    ensures IsDigit(c) && DigitValue(c) == d
  {
    ('0' as int + d) as char
  }

  /** The number a string of decimal digits denotes, most significant first; "" denotes 0. */
  function DigitsValue(s: string): (n: nat)
    requires AllDigits(s)
    ensures n < Pow10(|s|)
  {
    if s == [] then 0 else DigitsValue(s[..|s| - 1]) * 10 + DigitValue(s[|s| - 1])
  }

  /** n written with exactly `width` digits, padded with leading zeroes. */
  function PadDigits(n: nat, width: nat): (s: string)
    requires n < Pow10(width)
    ensures |s| == width && AllDigits(s) && DigitsValue(s) == n
  {
    if width == 0 then ""
    else
      var s := PadDigits(n / 10, width - 1) + [DigitChar(n % 10)];
      assert s[..|s| - 1] == PadDigits(n / 10, width - 1);
      s
  }

  /** Appending digit d to q gives a number whose last digit is d and whose other digits are q. */
  lemma LastDigit(q: nat, d: nat)
    requires d <= 9
    ensures (q * 10 + d) / 10 == q && (q * 10 + d) % 10 == d
  {
  }

  lemma DigitCharOfValue(c: char)
    requires IsDigit(c)
    ensures DigitChar(DigitValue(c)) == c
  {
  }

  /** Reading a digit string and writing it back at its own width gives it back. */
  lemma {:induction false} DigitsRoundTrip(s: string)
    requires AllDigits(s)
    ensures PadDigits(DigitsValue(s), |s|) == s
  {
    if s != [] {
      var init, last := s[..|s| - 1], s[|s| - 1];
      DigitsRoundTrip(init);
      LastDigit(DigitsValue(init), DigitValue(last));
      DigitCharOfValue(last);
      assert s == init + [last];
    }
  }

  // ---------------------------------------------------------------------
  // String.prototype.trim

  /** The code points of ECMAScript's WhiteSpace and LineTerminator productions, which trim removes. */
  const SpaceCodes: set<int> := {
    0x09, 0x0A, 0x0B, 0x0C, 0x0D, 0x20, 0xA0, 0x1680,
    0x2000, 0x2001, 0x2002, 0x2003, 0x2004, 0x2005, 0x2006, 0x2007, 0x2008, 0x2009, 0x200A,
    0x2028, 0x2029, 0x202F, 0x205F, 0x3000, 0xFEFF }

  predicate IsSpace(c: char) { c as int in SpaceCodes }

  predicate AllSpace(s: string) { forall i | 0 <= i < |s| :: IsSpace(s[i]) }

  predicate NoSpace(s: string) { forall i | 0 <= i < |s| :: !IsSpace(s[i]) }

  /** The number of white-space characters s starts with. */
  function LeadingSpace(s: string): (k: nat)
    ensures k <= |s| && (k == |s| || !IsSpace(s[k]))
    ensures forall i | 0 <= i < k :: IsSpace(s[i])
  {
    if s != [] && IsSpace(s[0]) then
      var k := LeadingSpace(s[1..]);
      assert forall i | 1 <= i < 1 + k :: s[i] == s[1..][i - 1];
      1 + k
    else 0
  }

  /** The length s keeps once its trailing white space is dropped. */
  function KeptLength(s: string): (j: nat)
    ensures j <= |s| && (j == 0 || !IsSpace(s[j - 1]))
    ensures forall i | j <= i < |s| :: IsSpace(s[i])
  {
    if s != [] && IsSpace(s[|s| - 1]) then
      var j := KeptLength(s[..|s| - 1]);
      assert forall i | j <= i < |s| - 1 :: s[i] == s[..|s| - 1][i];
      j
    else |s|
  }

  /** r neither starts nor ends with white space. */
  predicate SpaceFreeEnds(r: string) {
    r == [] || (!IsSpace(r[0]) && !IsSpace(r[|r| - 1]))
  }

  /**
   * JavaScript's trim: what is left of s once the white space at both ends
   * is cut off. The result is s from its first non-space character on, up
   * to a point after which s holds only white space, and it neither starts
   * nor ends with white space.
   */
  function Trim(s: string): (r: string)
    ensures LeadingSpace(s) + |r| <= |s|
    ensures forall k | 0 <= k < |r| :: r[k] == s[LeadingSpace(s) + k]
    ensures forall k | LeadingSpace(s) + |r| <= k < |s| :: IsSpace(s[k])
    ensures SpaceFreeEnds(r)
  {
    var i := LeadingSpace(s);
    if i == |s| then ""
    else
      var j := KeptLength(s);
      assert i < j;
      s[i..j]
  }

  /** Trim yields the empty string exactly for all-space input. */
  lemma TrimEmptyIffAllSpace(s: string)
    ensures Trim(s) == [] <==> AllSpace(s)
  {
  }

  /** Trimming a string that holds no white space at all leaves it as it is. */
  lemma TrimNoSpace(s: string)
    requires NoSpace(s)
    ensures Trim(s) == s
  {
    assert LeadingSpace(s) == 0;
    assert KeptLength(s) == |s|;
    assert s[0..|s|] == s;
  }

  /** Trimming twice is trimming once. */
  lemma TrimIdempotent(s: string)
    ensures Trim(Trim(s)) == Trim(s)
  {
    var r := Trim(s);
    assert LeadingSpace(r) == 0;
    assert KeptLength(r) == |r|;
    assert r[0..|r|] == r;
  }

  // ---------------------------------------------------------------------
  // Integer syntax

  /** An optional leading '+' or '-' split off: (sign, rest). */
  function SplitSign(s: string): (int, string)
  {
    if |s| > 0 && s[0] == '-' then (-1, s[1..])
    else if |s| > 0 && s[0] == '+' then (1, s[1..])
    else (1, s)
  }

  /** An optional sign then one or more digits; leading zeroes allowed. */
  predicate IntSyntax(s: string) {
    var (_, digits) := SplitSign(s);
    |digits| > 0 && AllDigits(digits)
  }

  /** The integer an IntSyntax string denotes. */
  function IntValue(s: string): int
    requires IntSyntax(s)
  {
    var (sign, digits) := SplitSign(s);
    sign * DigitsValue(digits)
  }

  /** Integer syntax never contains white space, so trim leaves it alone. */
  lemma IntSyntaxNoSpace(s: string)
    requires IntSyntax(s)
    ensures NoSpace(s)
  {
    var (_, digits) := SplitSign(s);
    forall i | 0 <= i < |s| ensures !IsSpace(s[i]) {
      if |digits| < |s| && i > 0 {
        assert s[i] == digits[i - 1];
      } else if |digits| == |s| {
        assert s[i] == digits[i];
      }
    }
  }
}
