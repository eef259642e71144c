/** The text form of a UUID, RFC 9562 section 4: 32 hexadecimal digits grouped 8-4-4-4-12. */
module UuidText {
  import opened Prelude

  function Power16(width: nat): (p: nat)
    ensures p > 0
  {
    if width == 0 then 1 else 16 * Power16(width - 1)
  }

  ghost predicate Is128Bits(id: Uuid) { id < Power16(32) }

  predicate LowerHex(c: char) { '0' <= c <= '9' || 'a' <= c <= 'f' }

  function Digit(d: nat): (c: char)
    requires d < 16
    ensures LowerHex(c)
  {
    if d < 10 then ('0' as int + d) as char else ('a' as int + d - 10) as char
  }

  function DigitValue(c: char): Option<nat> {
    if '0' <= c <= '9' then Some(c as int - '0' as int)
    else if 'a' <= c <= 'f' then Some(10 + c as int - 'a' as int)
    else if 'A' <= c <= 'F' then Some(10 + c as int - 'A' as int)
    else None
  }

  /** `%0<width>x`. */
  function Hex(n: nat, width: nat): (s: string)
    ensures |s| == width
    ensures forall i :: 0 <= i < |s| ==> LowerHex(s[i])
  {
    if width == 0 then "" else Hex(n / 16, width - 1) + [Digit(n % 16)]
  }

  function ParseHex(s: string): Option<nat> {
    if s == "" then Some(0)
    else
      var high, low := ParseHex(s[..|s| - 1]), DigitValue(s[|s| - 1]);
      if high.None? || low.None? then None else Some(16 * high.value + low.value)
  }

  function WithoutHyphens(s: string): string {
    if s == "" then ""
    else if s[0] == '-' then WithoutHyphens(s[1..]) else [s[0]] + WithoutHyphens(s[1..])
  }

  function Hyphenated(h: string): string
    requires |h| == 32
  {
    h[..8] + "-" + h[8..12] + "-" + h[12..16] + "-" + h[16..20] + "-" + h[20..]
  }

  function Print(id: Uuid): string { Hyphenated(Hex(id, 32)) }

  function Parse(s: string): Option<Uuid> {
    var h := WithoutHyphens(s);
    if |h| != 32 then None else ParseHex(h)
  }

  lemma DigitRoundTrip(d: nat)
    requires d < 16
    ensures DigitValue(Digit(d)) == Some(d)
  {
  }

  lemma DigitIsCanonical(c: char)
    requires LowerHex(c)
    ensures DigitValue(c).Some? && DigitValue(c).value < 16 && Digit(DigitValue(c).value) == c
  {
  }

  lemma LastDigit(high: string, c: char)
    ensures ParseHex(high + [c]) ==
      match (ParseHex(high), DigitValue(c)) case (Some(h), Some(l)) => Some(16 * h + l) case _ => None
  {
    hide DigitValue;
    assert (high + [c])[..|high|] == high;
  }

  lemma {:induction false} HexRoundTrip(n: nat, width: nat)
    requires n < Power16(width)
    ensures ParseHex(Hex(n, width)) == Some(n)
  {
    hide Digit, DigitValue;
    if width > 0 {
      var high := Hex(n / 16, width - 1);
      HexRoundTrip(n / 16, width - 1);
      DigitRoundTrip(n % 16);
      LastDigit(high, Digit(n % 16));
    }
  }

  lemma {:induction false} WithoutHyphensConcat(a: string, b: string)
    ensures WithoutHyphens(a + b) == WithoutHyphens(a) + WithoutHyphens(b)
  {
    if a == "" {
      assert a + b == b;
    } else {
      assert (a + b)[1..] == a[1..] + b;
      WithoutHyphensConcat(a[1..], b);
    }
  }

  lemma {:induction false} NoHyphensToDrop(s: string)
    requires '-' !in s
    ensures WithoutHyphens(s) == s
  {
    if s != "" {
      NoHyphensToDrop(s[1..]);
    }
  }

  lemma Grouped(a: string, b: string)
    requires '-' !in b
    ensures WithoutHyphens(a + "-" + b) == WithoutHyphens(a) + b
  {
    WithoutHyphensConcat(a + "-", b);
    WithoutHyphensConcat(a, "-");
    NoHyphensToDrop(b);
  }

  lemma HyphensComeOff(h: string)
    requires |h| == 32 && '-' !in h
    ensures WithoutHyphens(Hyphenated(h)) == h
  {
    var a, b, c, d, e := h[..8], h[8..12], h[12..16], h[16..20], h[20..];
    NoHyphensToDrop(a);
    Grouped(a, b);
    Grouped(a + "-" + b, c);
    Grouped(a + "-" + b + "-" + c, d);
    Grouped(a + "-" + b + "-" + c + "-" + d, e);
    assert a + b + c + d + e == h;
  }

  /** Reading a printed UUID gives it back, exactly for the identifiers that fit in 128 bits. */
  lemma UuidRoundTrip(id: Uuid)
    ensures Parse(Print(id)) == Some(id) <==> Is128Bits(id)
  {
    hide Power16;
    HyphensComeOff(Hex(id, 32));
    if Is128Bits(id) {
      HexRoundTrip(id, 32);
    } else {
      ParsedFits(Hex(id, 32));
    }
  }

  lemma {:induction false} ParsedFits(s: string)
    ensures ParseHex(s).Some? ==> ParseHex(s).value < Power16(|s|)
  {
    if s != "" {
      ParsedFits(s[..|s| - 1]);
    }
  }

  /** The other way round: a lower-case hexadecimal text is the print of what it reads as. */
  lemma {:induction false} HexIsCanonical(s: string)
    requires forall i :: 0 <= i < |s| ==> LowerHex(s[i])
    ensures ParseHex(s).Some? && Hex(ParseHex(s).value, |s|) == s
  {
    hide Digit, DigitValue;
    if s != "" {
      var high, c := s[..|s| - 1], s[|s| - 1];
      HexIsCanonical(high);
      DigitIsCanonical(c);
      LastDigit(high, c);
      assert s == high + [c];
      var h, l := ParseHex(high).value, DigitValue(c).value;
      assert (16 * h + l) / 16 == h && (16 * h + l) % 16 == l;
    }
  }

  /** Printing loses nothing: two identifiers with one text are one identifier. */
  lemma PrintIsInjective(a: Uuid, b: Uuid)
    requires Is128Bits(a) && Is128Bits(b) && Print(a) == Print(b)
    ensures a == b
  {
    UuidRoundTrip(a);
    UuidRoundTrip(b);
  }

  /** 36 characters: hyphens at four places, lower-case hexadecimal digits everywhere else. */
  lemma PrintShape(id: Uuid, i: nat)
    requires i < 36
    ensures |Print(id)| == 36
    ensures if i in {8, 13, 18, 23} then Print(id)[i] == '-' else LowerHex(Print(id)[i])
  {
    hide LowerHex;
    var h := Hex(id, 32);
    if i !in {8, 13, 18, 23} {
      var before := if i < 8 then 0 else if i < 13 then 1 else if i < 18 then 2 else if i < 23 then 3 else 4;
      assert LowerHex(h[i - before]);
      assert Print(id)[i] == h[i - before];
    }
  }
}
