/**
 The text of a decimal: what `str` prints for a finite `Decimal`, plain or scientific, and what the
 constructor reads back.
 */
module DecimalText {
  import opened Prelude
  import opened DigitText

  /** A finite decimal number as Python keeps it, so that 12.50 and 12.5 are told apart. */
  datatype Decimal = Decimal(negative: bool, coefficient: nat, exponent: int)

  // ---------- Printing ----------

  /** Digits before the point: all of them belong there when the number has no exponent part. */
  function DotPlace(d: Decimal): int {
    var left := d.exponent + |Digits(d.coefficient)|;
    if d.exponent <= 0 && left > -6 then left else 1
  }

  function IntPart(digits: string, dot: int): string {
    if dot <= 0 then "0"
    else if dot >= |digits| then digits + Zeros(dot - |digits|)
    else digits[..dot]
  }

  /** The digits after the point; none means that no point is printed. */
  function FracPart(digits: string, dot: int): string {
    if dot <= 0 then Zeros(-dot) + digits
    else if dot >= |digits| then ""
    else digits[dot..]
  }

  /** `%+d` */
  function Signed(n: int): string {
    if n < 0 then "-" + Digits(-n) else "+" + Digits(n)
  }

  /** `whole`, and `.frac` unless that is empty. */
  function Pointed(whole: string, frac: string): string {
    whole + if frac == "" then "" else "." + frac
  }

  function Mantissa(digits: string, dot: int): string {
    Pointed(IntPart(digits, dot), FracPart(digits, dot))
  }

  /** The number after `E`, if one is printed. */
  function ExponentPart(d: Decimal): Option<int> {
    var left := d.exponent + |Digits(d.coefficient)|;
    if left == DotPlace(d) then None else Some(left - DotPlace(d))
  }

  function WithExponent(mantissa: string, e: Option<int>): string {
    mantissa + if e.None? then "" else "E" + Signed(e.value)
  }

  function Unsigned(d: Decimal): string {
    WithExponent(Mantissa(Digits(d.coefficient), DotPlace(d)), ExponentPart(d))
  }

  function Print(d: Decimal): string {
    (if d.negative then "-" else "") + Unsigned(d)
  }

  // ---------- Reading ----------

  /** The position of the first of the given characters, or the length. */
  function Until(s: string, stops: set<char>): (i: nat)
    ensures i <= |s|
  {
    if s == "" || s[0] in stops then 0 else 1 + Until(s[1..], stops)
  }

  function After(s: string, i: nat): string {
    if i < |s| then s[i + 1..] else ""
  }

  function ReadSigned(s: string): Option<int> {
    var negative := s != "" && s[0] == '-';
    var digits := if s != "" && s[0] in {'-', '+'} then s[1..] else s;
    if digits == "" || !AllDigits(digits) then None
    else
      var n: int := Value(digits);
      Some(if negative then -n else n)
  }

  /** The part after `E`; a missing part is 0, an empty one an error. */
  function ReadExponent(s: string): Option<int> {
    var e := Until(s, {'E', 'e'});
    if e == |s| then Some(0) else ReadSigned(After(s, e))
  }

  function FromParts(negative: bool, whole: string, frac: string, exponent: int): Option<Decimal> {
    if whole + frac == "" || !AllDigits(whole + frac) then None
    else Some(Decimal(negative, Value(whole + frac), exponent - |frac|))
  }

  function ReadMantissa(negative: bool, m: string, exponent: int): Option<Decimal> {
    var dot := Until(m, {'.'});
    FromParts(negative, m[..dot], After(m, dot), exponent)
  }

  function ReadUnsigned(negative: bool, body: string): Option<Decimal> {
    var exponent :- ReadExponent(body);
    ReadMantissa(negative, body[..Until(body, {'E', 'e'})], exponent)
  }

  /** `Decimal(s)` for finite numbers; None stands for InvalidOperation. */
  function Read(s: string): Option<Decimal> {
    ReadUnsigned(s != "" && s[0] == '-', if s != "" && s[0] in {'-', '+'} then s[1..] else s)
  }

  // ---------- The round trip ----------

  lemma {:induction false} UntilStop(a: string, c: char, b: string, stops: set<char>)
    requires c in stops && forall i :: 0 <= i < |a| ==> a[i] !in stops
    ensures Until(a + [c] + b, stops) == |a|
    ensures (a + [c] + b)[..|a|] == a && After(a + [c] + b, |a|) == b
  {
    if a != "" {
      assert (a + [c] + b)[1..] == a[1..] + [c] + b;
      UntilStop(a[1..], c, b, stops);
    }
  }

  lemma {:induction false} UntilEnd(a: string, stops: set<char>)
    requires forall i :: 0 <= i < |a| ==> a[i] !in stops
    ensures Until(a, stops) == |a|
  {
    if a != "" {
      UntilEnd(a[1..], stops);
    }
  }

  lemma SignedRoundTrip(n: int)
    ensures ReadSigned(Signed(n)) == Some(n)
  {
    DigitsRoundTrip(if n < 0 then -n else n);
    var digits := Digits(if n < 0 then -n else n);
    assert Signed(n)[1..] == digits;
  }

  /** The two parts of the mantissa hold the digits, with zeros in front or behind. */
  lemma MantissaParts(digits: string, dot: int)
    requires digits != "" && AllDigits(digits)
    ensures IntPart(digits, dot) != "" && AllDigits(IntPart(digits, dot)) && AllDigits(FracPart(digits, dot))
    ensures dot <= |digits| ==>
      Value(IntPart(digits, dot) + FracPart(digits, dot)) == Value(digits) && |FracPart(digits, dot)| == |digits| - dot
  {
    if dot <= 0 {
      assert "0" + (Zeros(-dot) + digits) == Zeros(1 - dot) + digits;
      ZerosInFront(1 - dot, digits);
    } else if dot < |digits| {
      assert digits[..dot] + digits[dot..] == digits;
    } else if dot == |digits| {
      assert digits + Zeros(0) + "" == digits;
    }
  }

  lemma SplitAtPoint(whole: string, frac: string)
    requires AllDigits(whole)
    ensures var m := Pointed(whole, frac); var dot := Until(m, {'.'});
      m[..dot] == whole && After(m, dot) == frac
  {
    if frac == "" {
      UntilEnd(whole, {'.'});
      AfterEnd(whole);
      assert whole + "" == whole;
    } else {
      UntilStop(whole, '.', frac, {'.'});
      assert whole + ("." + frac) == whole + ['.'] + frac;
    }
  }

  lemma PointedRead(negative: bool, whole: string, frac: string, exponent: int)
    requires AllDigits(whole) && AllDigits(frac) && whole != ""
    ensures AllDigits(whole + frac)
    ensures ReadMantissa(negative, Pointed(whole, frac), exponent) ==
      Some(Decimal(negative, Value(whole + frac), exponent - |frac|))
  {
    hide AllDigits, Pointed, Until, After, Value, FromParts;
    BothDigits(whole, frac);
    SplitAtPoint(whole, frac);
    Parts(negative, whole, frac, exponent);
  }

  lemma Parts(negative: bool, whole: string, frac: string, exponent: int)
    requires AllDigits(whole + frac) && whole != ""
    ensures FromParts(negative, whole, frac, exponent) ==
      Some(Decimal(negative, Value(whole + frac), exponent - |frac|))
  {
    hide Value;
    assert |whole + frac| > 0;
  }

  /** What the reader makes of a mantissa. */
  lemma MantissaRead(negative: bool, digits: string, dot: int, exponent: int)
    requires digits != "" && AllDigits(digits) && dot <= |digits|
    ensures ReadMantissa(negative, Mantissa(digits, dot), exponent) ==
      Some(Decimal(negative, Value(digits), exponent - (|digits| - dot)))
  {
    hide IntPart, FracPart, AllDigits, Pointed, Value, ReadMantissa;
    MantissaParts(digits, dot);
    PointedRead(negative, IntPart(digits, dot), FracPart(digits, dot), exponent);
  }

  lemma BothDigits(a: string, b: string)
    requires AllDigits(a) && AllDigits(b)
    ensures AllDigits(a + b)
  {
  }

  lemma AfterEnd(s: string)
    ensures After(s, |s|) == ""
  {
  }

  lemma MantissaChars(digits: string, dot: int)
    requires digits != "" && AllDigits(digits)
    ensures var m := Mantissa(digits, dot);
      m != "" && IsDigit(m[0]) && forall i :: 0 <= i < |m| ==> IsDigit(m[i]) || m[i] == '.'
  {
    MantissaParts(digits, dot);
    hide IntPart, FracPart;
  }

  /** Reading what was printed before and after the `E`. */
  lemma ReadBody(m: string, e: Option<int>)
    requires forall i :: 0 <= i < |m| ==> IsDigit(m[i]) || m[i] == '.'
    ensures var body := WithExponent(m, e);
      body[..Until(body, {'E', 'e'})] == m && ReadExponent(body) == Some(if e.None? then 0 else e.value)
  {
    if e.None? {
      UntilEnd(m, {'E', 'e'});
      assert m + "" == m;
    } else {
      UntilStop(m, 'E', Signed(e.value), {'E', 'e'});
      assert m + ("E" + Signed(e.value)) == m + ['E'] + Signed(e.value);
      SignedRoundTrip(e.value);
    }
  }

  lemma UnsignedRoundTrip(d: Decimal)
    ensures ReadUnsigned(d.negative, Unsigned(d)) == Some(d)
    ensures Unsigned(d) != "" && IsDigit(Unsigned(d)[0])
  {
    hide Mantissa, ReadMantissa, Until, ReadExponent, Value, Signed, Digits;
    var digits, dot, e := Digits(d.coefficient), DotPlace(d), ExponentPart(d);
    MantissaChars(digits, dot);
    ReadBody(Mantissa(digits, dot), e);
    MantissaRead(d.negative, digits, dot, if e.None? then 0 else e.value);
    DigitsRoundTrip(d.coefficient);
  }

  /** Every finite decimal comes back from its text, with sign, digits and exponent. */
  lemma DecimalRoundTrip(d: Decimal)
    ensures Read(Print(d)) == Some(d)
  {
    hide Unsigned, ReadUnsigned;
    UnsignedRoundTrip(d);
    if d.negative {
      assert Print(d)[1..] == Unsigned(d);
    } else {
      assert Print(d) == Unsigned(d);
    }
  }

  /** The text is plain exactly when the exponent is not positive and the first digit not too far behind the point. */
  lemma PlainIff(d: Decimal)
    ensures 'E' !in Print(d) <==> d.exponent <= 0 && d.exponent + |Digits(d.coefficient)| > -6
  {
    var digits, dot, e := Digits(d.coefficient), DotPlace(d), ExponentPart(d);
    hide Mantissa, Signed;
    MantissaChars(digits, dot);
    if e.Some? {
      assert Unsigned(d)[|Mantissa(digits, dot)|] == 'E';
      assert 'E' in Unsigned(d);
    } else {
      assert Unsigned(d) == Mantissa(digits, dot);
      assert 'E' !in Unsigned(d);
    }
    assert Print(d) == (if d.negative then "-" else "") + Unsigned(d);
    forall c | c in Unsigned(d) ensures c in Print(d) { }
  }
}
