/** Numeric literals of the assembly language: how the assembler reads them and how the
    disassembler prints them. */
module Literals {
  import opened Bytes

  predicate IsDigit(c: char) {
    '0' <= c <= '9'
  }

  function HexDigit(c: char): Option<nat> {
    if IsDigit(c) then Some(c as int - '0' as int)
    else if 'a' <= c <= 'f' then Some(c as int - 'a' as int + 10)
    else if 'A' <= c <= 'F' then Some(c as int - 'A' as int + 10)
    else None
  }

  /** The number a non-empty run of digits of the given base denotes. */
  function DigitsValue(s: string, base: nat): Option<nat>
    requires base == 10 || base == 16
  {
    if s == [] then None
    else
      var digit := HexDigit(s[|s| - 1]);
      if digit.None? || base <= digit.value then None
      else if |s| == 1 then digit
      else
        match DigitsValue(s[..|s| - 1], base)
        case None => None
        case Some(v) => Some(base * v + digit.value)
  }

  /** Convert.ToInt32 and Convert.ToUInt32 before their range checks: an optional sign, then
      decimal digits. */
  function IntegerValue(s: string): Option<int> {
    if s == [] then None
    else if s[0] == '-' then
      match DigitsValue(s[1..], 10)
      case None => None
      case Some(v) => Some(-(v as int))
    else DigitsValue(if s[0] == '+' then s[1..] else s, 10)
  }

  predicate HasHexPrefix(s: string) {
    2 <= |s| && s[0] == '0' && (s[1] == 'x' || s[1] == 'X')
  }

  /** Convert.ToUInt32(s, 16) before its range check: it admits a plus sign and a prefix of its own. */
  function HexValue(s: string): Option<nat> {
    var unsigned := if s != [] && s[0] == '+' then s[1..] else s;
    DigitsValue(if HasHexPrefix(unsigned) then unsigned[2..] else unsigned, 16)
  }

  function UInt32Value(text: string): Option<u32> {
    var v := if HasHexPrefix(text) then HexValue(text[2..]) else IntegerValue(text);
    if v.Some? && 0 <= v.value < 0x1_0000_0000 then Some(v.value) else None
  }

  function UInt16Value(text: string): Option<u16> {
    match UInt32Value(text)
    case Some(v) => if v < 0x1_0000 then Some(v) else None
    case None => None
  }

  function ByteValue(text: string): Option<byte> {
    match UInt32Value(text)
    case Some(v) => if v < 0x100 then Some(v) else None
    case None => None
  }

  /** The 16-bit pattern of an INT16 literal: a hexadecimal pattern or a signed decimal. */
  function Int16Pattern(text: string): Option<u16> {
    if HasHexPrefix(text) then
      match HexValue(text[2..])
      case Some(v) => if v < 0x1_0000 then Some(v) else None
      case None => None
    else
      match IntegerValue(text)
      case Some(v) => if -0x8000 <= v < 0x8000 then Some(Pattern16(v)) else None
      case None => None
  }

  /** The 32-bit pattern of an INT32 literal. */
  function Int32Pattern(text: string): Option<u32> {
    if HasHexPrefix(text) then
      match HexValue(text[2..])
      case Some(v) => if v < 0x1_0000_0000 then Some(v) else None
      case None => None
    else
      match IntegerValue(text)
      case Some(v) => if -0x8000_0000 <= v < 0x8000_0000 then Some(Pattern32(v)) else None
      case None => None
  }

  /** An unsigned integer in decimal, without leading zeros. */
  function Decimal(n: nat): (s: string)
    ensures s != [] && forall i | 0 <= i < |s| :: IsDigit(s[i])
  {
    if n < 10 then [n as char + '0'] else Decimal(n / 10) + [(n % 10) as char + '0']
  }

  function SignedDecimal(i: int): (s: string)
    ensures s != [] && forall k | 0 <= k < |s| :: IsDigit(s[k]) || s[k] == '-'
  {
    if i < 0 then ['-'] + Decimal(-i) else Decimal(i)
  }

  lemma {:induction false} DigitsOfDecimal(n: nat)
    ensures DigitsValue(Decimal(n), 10) == Some(n)
  {
    if 10 <= n {
      DigitsOfDecimal(n / 10);
      assert Decimal(n)[..|Decimal(n)| - 1] == Decimal(n / 10);
    }
  }

  lemma IntegerOfSignedDecimal(i: int)
    ensures IntegerValue(SignedDecimal(i)) == Some(i) && !HasHexPrefix(SignedDecimal(i))
  {
    DigitsOfDecimal(if i < 0 then -i else i);
    var s := Decimal(if i < 0 then -i else i);
    assert IsDigit(s[0]) && (1 < |s| ==> IsDigit(s[1]));
    if i < 0 {
      assert SignedDecimal(i)[1..] == s;
    }
  }

  /** Every printed literal reads back as the value it was printed from. */
  lemma LiteralsReadBack(w: u16, v: u32)
    ensures UInt16Value(Decimal(w)) == Some(w)
    ensures UInt32Value(Decimal(v)) == Some(v)
    ensures Int16Pattern(SignedDecimal(Signed16(w))) == Some(w)
    ensures Int32Pattern(SignedDecimal(Signed32(v))) == Some(v)
  {
    IntegerOfSignedDecimal(w);
    IntegerOfSignedDecimal(v);
    IntegerOfSignedDecimal(Signed16(w));
    IntegerOfSignedDecimal(Signed32(v));
  }
}
