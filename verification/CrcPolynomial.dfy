/** What CRC-32 is: the remainder of a division of polynomials over two elements (section 8 of RFC 1952). A polynomial
    is a number: its coefficient of x^i is the bit of weight 2^i. */
module CrcPolynomial {
  import opened Bytes
  import opened Bits
  import opened Crc32

  // Polynomials

  /** x^32 + x^26 + x^23 + x^22 + x^16 + x^12 + x^11 + x^10 + x^8 + x^7 + x^5 + x^4 + x^2 + x + 1 */
  const GENERATOR: nat :=
    Pow2(32) + Pow2(26) + Pow2(23) + Pow2(22) + Pow2(16) + Pow2(12) + Pow2(11) + Pow2(10) + Pow2(8) + Pow2(7) + Pow2(5) +
    Pow2(4) + Pow2(2) + Pow2(1) + Pow2(0)

  /** p times x^n */
  function Shift(n: nat, p: nat): nat {
    if n == 0 then p else 2 * Shift(n - 1, p)
  }

  /** The product of two polynomials. */
  function Times(q: nat, g: nat): nat {
    if q == 0 then 0 else Xor(2 * Times(q / 2, g), if q % 2 == 1 then g else 0)
  }

  /** The difference is a multiple of the generator. */
  ghost predicate Congruent(a: nat, b: nat) {
    exists q: nat :: Xor(a, b) == Times(q, GENERATOR)
  }

  /** The polynomial of n bits, of which the lowest goes first: it has the highest power. */
  function Reflect(n: nat, bits: nat): nat {
    if n == 0 then 0 else (if bits % 2 == 1 then Pow2(n - 1) else 0) + Reflect(n - 1, bits / 2)
  }

  /** The polynomial of a message: the first byte has the highest powers, and in each byte the lowest bit. */
  function Message(data: seq<byte>): nat {
    if data == [] then 0 else Xor(Shift(8 * |data[1..]|, Reflect(8, data[0])), Message(data[1..]))
  }

  // Exclusive or

  lemma XorDouble(a: nat, b: nat)
    ensures Xor(2 * a, 2 * b) == 2 * Xor(a, b)
  {
    if a == 0 && b == 0 {
      XorZero(0);
    } else {
      XorUnfold(2 * a, 2 * b);
      hide Xor;
    }
  }

  lemma XorSwap(a: nat, b: nat, c: nat, d: nat)
    ensures Xor(Xor(a, b), Xor(c, d)) == Xor(Xor(a, c), Xor(b, d))
  {
    hide Xor;
    XorAssociates(a, b, Xor(c, d));
    XorAssociates(b, c, d);
    XorCommutes(b, c);
    XorAssociates(c, b, d);
    XorAssociates(a, c, Xor(b, d));
  }

  lemma {:induction false} TimesAdds(p: nat, q: nat, g: nat)
    ensures Times(Xor(p, q), g) == Xor(Times(p, g), Times(q, g))
    decreases p + q
  {
    hide Xor, Times;
    if p == 0 {
      XorZero(q);
      TimesZero(g);
      XorZero(Times(q, g));
    } else if q == 0 {
      XorZero(p);
      TimesZero(g);
      XorZero(Times(p, g));
    } else {
      TimesAdds(p / 2, q / 2, g);
      TimesUnfold(p, g);
      TimesUnfold(q, g);
      TimesUnfold(Xor(p, q), g);
      XorUnfold(p, q);
      LastTerms(Times(p / 2, g), Times(q / 2, g), g, p % 2 == 1, q % 2 == 1);
    }
  }

  lemma LastTerms(a: nat, b: nat, g: nat, first: bool, second: bool)
    ensures
      Xor(Xor(2 * a, if first then g else 0), Xor(2 * b, if second then g else 0)) ==
      Xor(2 * Xor(a, b), if first != second then g else 0)
  {
    hide Xor;
    XorDouble(a, b);
    XorSwap(2 * a, if first then g else 0, 2 * b, if second then g else 0);
    XorSelf(g);
    XorZero(g);
    XorZero(0);
  }

  lemma TimesZero(g: nat)
    ensures Times(0, g) == 0
  {
  }

  lemma TimesUnfold(q: nat, g: nat)
    ensures Times(q, g) == Xor(2 * Times(q / 2, g), if q % 2 == 1 then g else 0)
  {
    if q == 0 {
      XorZero(0);
    }
  }

  // Congruence

  lemma CongruentSelf(a: nat)
    ensures Congruent(a, a)
  {
    XorSelf(a);
    assert Xor(a, a) == Times(0, GENERATOR);
  }

  lemma CongruentBack(a: nat, b: nat)
    requires Congruent(a, b)
    ensures Congruent(b, a)
  {
    XorCommutes(a, b);
  }

  lemma CongruentChain(a: nat, b: nat, c: nat)
    requires Congruent(a, b) && Congruent(b, c)
    ensures Congruent(a, c)
  {
    hide Xor, Times, GENERATOR;
    var p: nat :| Xor(a, b) == Times(p, GENERATOR);
    var q: nat :| Xor(b, c) == Times(q, GENERATOR);
    TimesAdds(p, q, GENERATOR);
    XorAssociates(a, b, Xor(b, c));
    XorAssociates(b, b, c);
    XorSelf(b);
    XorZero(c);
    assert Xor(a, c) == Times(Xor(p, q), GENERATOR);
  }

  lemma CongruentSum(a: nat, b: nat, c: nat, d: nat)
    requires Congruent(a, b) && Congruent(c, d)
    ensures Congruent(Xor(a, c), Xor(b, d))
  {
    hide Xor, Times, GENERATOR;
    var p: nat :| Xor(a, b) == Times(p, GENERATOR);
    var q: nat :| Xor(c, d) == Times(q, GENERATOR);
    TimesAdds(p, q, GENERATOR);
    XorSwap(a, c, b, d);
    assert Xor(Xor(a, c), Xor(b, d)) == Times(Xor(p, q), GENERATOR);
  }

  lemma CongruentDouble(a: nat, b: nat)
    requires Congruent(a, b)
    ensures Congruent(2 * a, 2 * b)
  {
    hide Xor, Times, GENERATOR;
    var q: nat :| Xor(a, b) == Times(q, GENERATOR);
    TimesDouble(q, GENERATOR);
    XorDouble(a, b);
    assert Xor(2 * a, 2 * b) == Times(2 * q, GENERATOR);
  }

  lemma TimesDouble(q: nat, g: nat)
    ensures Times(2 * q, g) == 2 * Times(q, g)
  {
    hide Xor, Times;
    TimesUnfold(2 * q, g);
    XorZero(2 * Times(q, g));
  }

  lemma {:induction false} CongruentShift(n: nat, a: nat, b: nat)
    requires Congruent(a, b)
    ensures Congruent(Shift(n, a), Shift(n, b))
  {
    hide Congruent;
    if n > 0 {
      CongruentShift(n - 1, a, b);
      CongruentDouble(Shift(n - 1, a), Shift(n - 1, b));
    }
  }

  lemma {:induction false} ShiftAdds(n: nat, a: nat, b: nat)
    ensures Shift(n, Xor(a, b)) == Xor(Shift(n, a), Shift(n, b))
  {
    hide Xor;
    if n > 0 {
      ShiftAdds(n - 1, a, b);
      XorDouble(Shift(n - 1, a), Shift(n - 1, b));
    }
  }

  lemma {:induction false} ShiftTwice(m: nat, n: nat, p: nat)
    ensures Shift(m, Shift(n, p)) == Shift(m + n, p)
  {
    if m > 0 {
      ShiftTwice(m - 1, n, p);
    }
  }

  // One bit

  lemma {:induction false} ReflectBound(n: nat, bits: nat)
    ensures Reflect(n, bits) < Pow2(n)
  {
    if n > 0 {
      ReflectBound(n - 1, bits / 2);
    }
  }

  lemma {:induction false} ReflectAdds(n: nat, a: nat, b: nat)
    ensures Reflect(n, Xor(a, b)) == Xor(Reflect(n, a), Reflect(n, b))
  {
    hide Xor;
    if n == 0 {
      XorZero(0);
    } else {
      ReflectAdds(n - 1, a / 2, b / 2);
      XorUnfold(a, b);
      hide Reflect;
      ReflectUnfold(n, a);
      ReflectUnfold(n, b);
      ReflectUnfold(n, Xor(a, b));
      ReflectBound(n - 1, a / 2);
      ReflectBound(n - 1, b / 2);
      TopAdds(n - 1, Reflect(n - 1, a / 2), Reflect(n - 1, b / 2), a % 2 == 1, b % 2 == 1);
    }
  }

  lemma ReflectUnfold(n: nat, bits: nat)
    requires n > 0
    ensures Reflect(n, bits) == (if bits % 2 == 1 then Pow2(n - 1) else 0) + Reflect(n - 1, bits / 2)
  {
  }

  lemma TopAdds(n: nat, x: nat, y: nat, high: bool, low: bool)
    requires x < Pow2(n) && y < Pow2(n)
    ensures
      Xor((if high then Pow2(n) else 0) + x, (if low then Pow2(n) else 0) + y) ==
      (if high != low then Pow2(n) else 0) + Xor(x, y)
  {
    hide Xor;
    var a, b := if high then 1 else 0, if low then 1 else 0;
    XorAbove(n, x, a);
    XorAbove(n, y, b);
    XorBound(x, y, n);
    XorAbove(n, Xor(x, y), if high != low then 1 else 0);
    XorSwap(x, Pow2(n) * a, y, Pow2(n) * b);
    XorSelf(Pow2(n));
    XorZero(Pow2(n));
    XorZero(0);
  }

  lemma {:induction false} ReflectWider(n: nat, bits: nat)
    requires bits < Pow2(n)
    ensures Reflect(n + 1, bits) == 2 * Reflect(n, bits)
  {
    if n > 0 {
      ReflectWider(n - 1, bits / 2);
    }
  }

  lemma {:induction false} ReflectShifted(k: nat, n: nat, bits: nat)
    requires bits < Pow2(n)
    ensures Reflect(n + k, bits) == Shift(k, Reflect(n, bits))
  {
    if k > 0 {
      ReflectShifted(k - 1, n, bits);
      PowerMonotonic(n, n + k - 1);
      ReflectWider(n + k - 1, bits);
    }
  }

  /** The constant is the generator without its highest power, reflected. */
  lemma PolynomialIsReflected()
    ensures Reflect(32, POLYNOMIAL) == 0x04C1_1DB7
  {
    Powers();
    assert Reflect(4, 0xE) == 0x7;
    assert Reflect(8, 0xED) == 0xB7;
    assert Reflect(12, 0xEDB) == 0xDB7;
    assert Reflect(16, 0xEDB8) == 0x1DB7;
    assert Reflect(20, 0xEDB88) == 0x11DB7;
    assert Reflect(24, 0xEDB883) == 0xC11DB7;
    assert Reflect(28, 0xEDB8832) == 0x4C11DB7;
    assert Reflect(32, 0xEDB88320) == 0x4C11DB7;
  }

  lemma Powers()
    ensures Pow2(0) == 1 && Pow2(1) == 2 && Pow2(2) == 4 && Pow2(3) == 8 && Pow2(4) == 0x10 && Pow2(5) == 0x20
    ensures Pow2(6) == 0x40 && Pow2(7) == 0x80 && Pow2(8) == 0x100 && Pow2(9) == 0x200 && Pow2(10) == 0x400
    ensures Pow2(11) == 0x800 && Pow2(12) == 0x1000 && Pow2(13) == 0x2000 && Pow2(14) == 0x4000 && Pow2(15) == 0x8000
    ensures Pow2(16) == 0x1_0000 && Pow2(17) == 0x2_0000 && Pow2(18) == 0x4_0000 && Pow2(19) == 0x8_0000
    ensures Pow2(20) == 0x10_0000 && Pow2(21) == 0x20_0000 && Pow2(22) == 0x40_0000 && Pow2(23) == 0x80_0000
    ensures Pow2(24) == 0x100_0000 && Pow2(25) == 0x200_0000 && Pow2(26) == 0x400_0000 && Pow2(27) == 0x800_0000
    ensures Pow2(28) == 0x1000_0000 && Pow2(29) == 0x2000_0000 && Pow2(30) == 0x4000_0000 && Pow2(31) == 0x8000_0000
    ensures Pow2(32) == 0x1_0000_0000
  {
    assert Pow2(6) == 0x40;
    assert Pow2(12) == 0x1000;
    assert Pow2(18) == 0x4_0000;
    assert Pow2(24) == 0x100_0000;
    assert Pow2(30) == 0x4000_0000;
  }

  lemma GeneratorIs()
    ensures GENERATOR == 0x1_04C1_1DB7
  {
    Powers();
    hide Pow2;
  }

  lemma SmallAbove(low: nat)
    requires low < 0x1_0000_0000
    ensures 0x1_0000_0000 + low == Xor(low, 0x1_0000_0000)
  {
    Powers();
    XorAbove(32, low, 1);
    hide Xor, Pow2;
  }

  /** A step of the register is a multiplication by x: what falls out is a multiple of the generator. */
  lemma BitStepMultiplies(crc: u32)
    ensures Congruent(2 * Reflect(32, crc), Reflect(32, BitStep(crc)))
  {
    hide Xor, Reflect, Times, Pow2, GENERATOR;
    Powers();
    var half := crc / 2;
    ReflectUnfold(32, crc);
    ReflectWider(31, half);
    ReflectBound(32, half);
    var low := Reflect(32, half);
    if crc % 2 == 1 {
      SmallAbove(low);
      ReflectAdds(32, half, POLYNOMIAL);
      PolynomialIsReflected();
      SmallAbove(0x04C1_1DB7);
      GeneratorIs();
      assert 2 * Reflect(32, crc) == Xor(low, 0x1_0000_0000);
      assert Reflect(32, BitStep(crc)) == Xor(low, 0x04C1_1DB7);
      XorSwap(low, 0x1_0000_0000, low, 0x04C1_1DB7);
      XorSelf(low);
      XorZero(Xor(0x1_0000_0000, 0x04C1_1DB7));
      XorCommutes(0x1_0000_0000, 0x04C1_1DB7);
      TimesOne(GENERATOR);
      assert Xor(2 * Reflect(32, crc), Reflect(32, BitStep(crc))) == Times(1, GENERATOR);
    } else {
      CongruentSelf(low);
    }
  }

  lemma TimesOne(g: nat)
    ensures Times(1, g) == g
  {
    assert Times(0, g) == 0;
    XorZero(g);
    hide Xor;
  }

  // Bytes

  lemma {:induction false} StepsMultiply(n: nat, crc: u32)
    ensures Congruent(Shift(n, Reflect(32, crc)), Reflect(32, Steps(n, crc)))
  {
    hide Congruent, BitStep, Reflect;
    if n == 0 {
      CongruentSelf(Reflect(32, crc));
    } else {
      BitStepMultiplies(crc);
      CongruentShift(n - 1, 2 * Reflect(32, crc), Reflect(32, BitStep(crc)));
      ShiftInside(n - 1, Reflect(32, crc));
      StepsMultiply(n - 1, BitStep(crc));
      CongruentChain(Shift(n, Reflect(32, crc)), Shift(n - 1, Reflect(32, BitStep(crc))), Reflect(32, Steps(n, crc)));
    }
  }

  lemma {:induction false} ShiftInside(n: nat, p: nat)
    ensures Shift(n, 2 * p) == 2 * Shift(n, p)
  {
    if n > 0 {
      ShiftInside(n - 1, p);
    }
  }

  /** A byte that goes in: its polynomial is added 32 powers up, and everything is 8 powers higher. */
  lemma UpdateMultiplies(crc: u32, b: byte)
    ensures Congruent(Xor(Shift(8, Reflect(32, crc)), Shift(32, Reflect(8, b))), Reflect(32, Update(crc, b)))
  {
    hide Congruent, Steps, Reflect, Xor, Shift, Pow2;
    StepsMultiply(8, Xor32(crc, b));
    ReflectAdds(32, crc, b);
    Powers();
    ReflectShifted(24, 8, b);
    ShiftAdds(8, Reflect(32, crc), Reflect(32, b));
    ShiftTwice(8, 24, Reflect(8, b));
  }

  /** A message that goes in. */
  lemma {:induction false} FeedMultiplies(crc: u32, data: seq<byte>)
    ensures Congruent(Xor(Shift(8 * |data|, Reflect(32, crc)), Shift(32, Message(data))), Reflect(32, Feed(crc, data)))
    decreases data
  {
    hide Congruent, Update, Reflect, Xor, Shift;
    if data == [] {
      MessageOfNothing(Reflect(32, crc));
      CongruentSelf(Reflect(32, crc));
    } else {
      var b, rest := data[0], data[1..];
      var n := 8 * |rest|;
      var next := Update(crc, b);
      FeedMultiplies(next, rest);
      UpdateMultiplies(crc, b);
      var sum := Xor(Shift(8, Reflect(32, crc)), Shift(32, Reflect(8, b)));
      CongruentShift(n, sum, Reflect(32, next));
      CongruentSelf(Shift(32, Message(rest)));
      CongruentSum(Shift(n, sum), Shift(n, Reflect(32, next)), Shift(32, Message(rest)), Shift(32, Message(rest)));
      Rearrange(n, Reflect(32, crc), Reflect(8, b), Message(rest));
      CongruentChain(Xor(Shift(n, sum), Shift(32, Message(rest))),
                     Xor(Shift(n, Reflect(32, next)), Shift(32, Message(rest))), Reflect(32, Feed(crc, data)));
    }
  }

  lemma MessageOfNothing(p: nat)
    ensures Xor(Shift(0, p), Shift(32, Message([]))) == p
  {
    ShiftZero(32);
    XorZero(p);
    hide Xor;
  }

  lemma {:induction false} ShiftZero(n: nat)
    ensures Shift(n, 0) == 0
  {
    if n > 0 {
      ShiftZero(n - 1);
    }
  }

  lemma Rearrange(n: nat, state: nat, first: nat, rest: nat)
    ensures
      Xor(Shift(n, Xor(Shift(8, state), Shift(32, first))), Shift(32, rest)) ==
      Xor(Shift(n + 8, state), Shift(32, Xor(Shift(n, first), rest)))
  {
    hide Xor, Shift;
    ShiftAdds(n, Shift(8, state), Shift(32, first));
    ShiftTwice(n, 8, state);
    ShiftTwice(n, 32, first);
    ShiftTwice(32, n, first);
    ShiftAdds(32, Shift(n, first), rest);
    XorAssociates(Shift(n + 8, state), Shift(n + 32, first), Shift(32, rest));
  }

  // The checksum

  const ONES: nat := Pow2(32) - 1

  lemma ComplementIsXor(crc: u32)
    ensures ALL_ONES - crc == Xor(ALL_ONES, crc)
  {
    hide Xor, Pow2;
    Powers();
    Complements(32, crc);
  }

  lemma {:induction false} Complements(n: nat, v: nat)
    requires v < Pow2(n)
    ensures Xor(Pow2(n) - 1, v) == Pow2(n) - 1 - v
  {
    hide Xor;
    if n == 0 {
      XorZero(0);
    } else {
      Complements(n - 1, v / 2);
      XorUnfold(Pow2(n) - 1, v);
    }
  }

  lemma {:induction false} OnesReflected(n: nat)
    ensures Reflect(n, Pow2(n) - 1) == Pow2(n) - 1
  {
    if n > 0 {
      OnesReflected(n - 1);
    }
  }

  /** CRC-32. The checksum, complemented, is the remainder of the message, with 32 powers more, divided by the generator;
      the first 32 bits of the message are complemented, too, which is to add as many ones at its highest powers. */
  lemma CrcIsRemainder(data: seq<byte>)
    ensures Reflect(32, Crc(data)) < Pow2(32)
    ensures Congruent(Xor(Shift(8 * |data|, ONES), Shift(32, Message(data))), Xor(Reflect(32, Crc(data)), ONES))
  {
    hide Congruent, Feed, Reflect, Xor, Shift, Pow2, Message;
    Powers();
    ReflectBound(32, Crc(data));
    FeedMultiplies(ALL_ONES, data);
    OnesReflected(32);
    ComplementIsXor(Feed(ALL_ONES, data));
    ReflectAdds(32, ALL_ONES, Feed(ALL_ONES, data));
    XorCommutes(ONES, Reflect(32, Feed(ALL_ONES, data)));
    XorCancels(Reflect(32, Feed(ALL_ONES, data)), ONES);
  }

  /** Below the degree of the generator there is only one remainder. */
  lemma RemainderIsUnique(a: nat, r: nat, s: nat)
    requires Congruent(a, r) && Congruent(a, s) && r < Pow2(32) && s < Pow2(32)
    ensures r == s
  {
    hide Xor, Times, Pow2, GENERATOR;
    CongruentBack(a, r);
    CongruentChain(r, a, s);
    var q: nat :| Xor(r, s) == Times(q, GENERATOR);
    XorBound(r, s, 32);
    if q != 0 {
      GeneratorIs();
      Powers();
      TimesGrows(q, GENERATOR);
    }
    assert Times(0, GENERATOR) == 0 by { TimesZero(GENERATOR); }
    XorCancels(r, s);
    XorCommutes(0, s);
    XorZero(s);
  }

  /** A multiple of the generator is not of lower degree. */
  lemma {:induction false} TimesGrows(q: nat, g: nat)
    requires q > 0 && Pow2(32) <= g < 2 * Pow2(32)
    ensures Pow2(32) <= Times(q, g)
  {
    hide Xor, Pow2;
    if q == 1 {
      TimesOne(g);
    } else {
      TimesGrows(q / 2, g);
      TimesUnfold(q, g);
      hide Times;
      var p := Times(q / 2, g);
      if q % 2 == 1 {
        HighStays(2 * p, g);
      } else {
        XorZero(2 * p);
      }
    }
  }

  lemma HighStays(p: nat, g: nat)
    requires 2 * Pow2(32) <= p && g < 2 * Pow2(32)
    ensures Pow2(32) <= Xor(p, g)
  {
    hide Xor;
    if Xor(p, g) < 2 * Pow2(32) {
      XorBound(Xor(p, g), g, 33);
      XorCancels(p, g);
    }
  }
}
