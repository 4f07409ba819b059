/** CRC-32 (section 8 of RFC 1952), one bit at a time as stage0 computes it. */
module Crc32 {
  import opened Bytes
  import opened Bits

  const POLYNOMIAL: u32 := 0xEDB8_8320
  const ALL_ONES: u32 := 0xFFFF_FFFF

  function BitStep(crc: u32): u32 {
    if crc % 2 == 1 then Xor32(crc / 2, POLYNOMIAL) else crc / 2
  }

  function Steps(n: nat, crc: u32): u32 {
    if n == 0 then crc else Steps(n - 1, BitStep(crc))
  }

  function Update(crc: u32, b: byte): u32 {
    Steps(8, Xor32(crc, b))
  }

  function Feed(crc: u32, data: seq<byte>): u32
    decreases data
  {
    if data == [] then crc else Feed(Update(crc, data[0]), data[1..])
  }

  function Crc(data: seq<byte>): u32 {
    ALL_ONES - Feed(ALL_ONES, data)
  }

  /** crc32_update */
  method UpdateByte(crc: u32, b: byte) returns (next: u32)
    ensures next == Update(crc, b)
  {
    hide BitStep, Xor32;
    next := Xor32(crc, b);
    for i := 0 to 8
      invariant Steps(8 - i, next) == Update(crc, b)
    {
      next := BitStep(next);
    }
  }

  /** crc32_buffer */
  method CrcOfBuffer(data: seq<byte>) returns (crc: u32)
    ensures crc == Crc(data)
  {
    hide Update;
    var state := ALL_ONES;
    for i := 0 to |data|
      invariant Feed(state, data[i..]) == Feed(ALL_ONES, data)
    {
      assert data[i..][1..] == data[i + 1..];
      state := UpdateByte(state, data[i]);
    }
    crc := ALL_ONES - state;
  }

  lemma {:induction false} FeedAppend(crc: u32, a: seq<byte>, b: seq<byte>)
    ensures Feed(crc, a + b) == Feed(Feed(crc, a), b)
    decreases a
  {
    hide Update;
    if a == [] {
      assert a + b == b;
    } else {
      assert (a + b)[1..] == a[1..] + b;
      FeedAppend(Update(crc, a[0]), a[1..], b);
    }
  }

  // A bit step can be undone: its top bit tells which branch it took

  lemma TopBit(x: nat)
    requires x < 0x8000_0000
    ensures Xor(x, POLYNOMIAL) >= 0x8000_0000
  {
    var y := Xor(x, POLYNOMIAL);
    if y < 0x8000_0000 {
      WordPowers();
      XorBound(x, y, 31);
      XorCommutes(x, y);
      XorCommutes(x, POLYNOMIAL);
      XorCancels(POLYNOMIAL, x);
    }
  }

  lemma BitStepInjective(a: u32, b: u32)
    requires BitStep(a) == BitStep(b)
    ensures a == b
  {
    hide Xor;
    TopBit(a / 2);
    TopBit(b / 2);
    if a % 2 == 1 && b % 2 == 1 {
      XorCancels(a / 2, POLYNOMIAL);
      XorCancels(b / 2, POLYNOMIAL);
    }
  }

  lemma {:induction false} StepsInjective(n: nat, a: u32, b: u32)
    requires Steps(n, a) == Steps(n, b)
    ensures a == b
  {
    hide BitStep;
    if n > 0 {
      StepsInjective(n - 1, BitStep(a), BitStep(b));
      BitStepInjective(a, b);
    }
  }

  lemma UpdateInjective(a: u32, b: u32, x: byte)
    requires Update(a, x) == Update(b, x)
    ensures a == b
  {
    hide Steps, Xor;
    StepsInjective(8, Xor32(a, x), Xor32(b, x));
    XorCancels(a, x);
    XorCancels(b, x);
  }

  lemma {:induction false} FeedInjective(a: u32, b: u32, data: seq<byte>)
    requires a != b
    ensures Feed(a, data) != Feed(b, data)
    decreases data
  {
    hide Update;
    if data != [] {
      if Update(a, data[0]) == Update(b, data[0]) {
        UpdateInjective(a, b, data[0]);
      }
      FeedInjective(Update(a, data[0]), Update(b, data[0]), data[1..]);
    }
  }

  // Up to four bytes go in like one word

  /** The bytes as a little-endian number. */
  function Word(data: seq<byte>): nat {
    if data == [] then 0 else data[0] + 0x100 * Word(data[1..])
  }

  lemma {:induction false} WordBound(data: seq<byte>)
    ensures Word(data) < Pow2(8 * |data|)
  {
    if data != [] {
      WordBound(data[1..]);
      PowerSum(8, 8 * |data[1..]|);
      WordPowers();
    }
  }

  lemma {:induction false} PowerSum(m: nat, n: nat)
    ensures Pow2(m + n) == Pow2(m) * Pow2(n)
  {
    if m > 0 {
      PowerSum(m - 1, n);
    }
  }

  lemma {:induction false} PowerMonotonic(m: nat, n: nat)
    requires m <= n
    ensures Pow2(m) <= Pow2(n)
  {
    if m < n {
      PowerMonotonic(m, n - 1);
    }
  }

  lemma Halves(x: nat, bit: nat)
    requires bit < 2
    ensures (2 * x + bit) / 2 == x && (2 * x + bit) % 2 == bit
  {
  }

  lemma BitStepShift(crc: u32, y: nat)
    requires 2 * y < 0x1_0000_0000
    ensures BitStep(Xor32(crc, 2 * y)) == Xor(BitStep(crc), y)
  {
    XorUnfold(crc, 2 * y);
    hide Xor;
    var half := crc / 2;
    assert Xor32(crc, 2 * y) == 2 * Xor(half, y) + crc % 2;
    Halves(Xor(half, y), crc % 2);
    if crc % 2 == 1 {
      XorAssociates(half, y, POLYNOMIAL);
      XorCommutes(y, POLYNOMIAL);
      XorAssociates(half, POLYNOMIAL, y);
    }
  }

  /** Steps pass a number added above them on to where it meets the state. */
  lemma {:induction false} StepsShift(n: nat, crc: u32, y: nat)
    requires Pow2(n) * y < 0x1_0000_0000
    ensures y < 0x1_0000_0000
    ensures Steps(n, Xor32(crc, Pow2(n) * y)) == Xor32(Steps(n, crc), y)
  {
    hide BitStep, Xor;
    ProductBound(Pow2(n), y);
    if n > 0 {
      var z := Pow2(n - 1) * y;
      assert Pow2(n) * y == 2 * z by { Double(Pow2(n - 1), y); }
      BitStepShift(crc, z);
      StepsShift(n - 1, BitStep(crc), y);
    }
  }

  lemma ProductBound(a: nat, b: nat)
    requires a > 0
    ensures b <= a * b
  {
  }

  lemma {:induction false} StepsAppend(m: nat, n: nat, crc: u32)
    ensures Steps(m + n, crc) == Steps(n, Steps(m, crc))
  {
    hide BitStep;
    if m > 0 {
      StepsAppend(m - 1, n, BitStep(crc));
    }
  }

  lemma WordFits(data: seq<byte>)
    requires |data| <= 4
    ensures Word(data) < 0x1_0000_0000
  {
    WordBound(data);
    PowerMonotonic(8 * |data|, 32);
    WordPowers();
  }

  /** Feeding up to four bytes is feeding their word in one go. */
  lemma {:induction false} FeedIsSteps(crc: u32, data: seq<byte>)
    requires |data| <= 4
    ensures Word(data) < 0x1_0000_0000
    ensures Feed(crc, data) == Steps(8 * |data|, Xor32(crc, Word(data)))
    decreases data
  {
    WordFits(data);
    if data == [] {
      XorZero(crc);
    } else {
      hide Steps, Xor;
      var b, rest := data[0], data[1..];
      var w := Word(rest);
      FeedIsSteps(Update(crc, b), rest);
      WordPowers();
      StepsShift(8, Xor32(crc, b), w);
      XorAssociates(crc, b, 0x100 * w);
      XorAbove(8, b, w);
      StepsAppend(8, 8 * |rest|, Xor32(crc, Word(data)));
    }
  }

  lemma {:induction false} WordInjective(x: seq<byte>, y: seq<byte>)
    requires |x| == |y| && Word(x) == Word(y)
    ensures x == y
  {
    if x != [] {
      WordInjective(x[1..], y[1..]);
      assert x == [x[0]] + x[1..] && y == [y[0]] + y[1..];
    }
  }

  lemma FourBytesChangeState(crc: u32, x: seq<byte>, y: seq<byte>)
    requires |x| == |y| <= 4 && x != y
    ensures Feed(crc, x) != Feed(crc, y)
  {
    hide Steps, Xor, Feed;
    FeedIsSteps(crc, x);
    FeedIsSteps(crc, y);
    if Feed(crc, x) == Feed(crc, y) {
      StepsInjective(8 * |x|, Xor32(crc, Word(x)), Xor32(crc, Word(y)));
      XorCommutes(crc, Word(x));
      XorCommutes(crc, Word(y));
      XorCancels(Word(x), crc);
      XorCancels(Word(y), crc);
      WordInjective(x, y);
    }
  }

  /** The CRC detects every change confined to four consecutive bytes. */
  lemma FourBytesDetected(before: seq<byte>, x: seq<byte>, y: seq<byte>, after: seq<byte>)
    requires |x| == |y| <= 4 && x != y
    ensures Crc(before + x + after) != Crc(before + y + after)
  {
    hide Feed;
    var state := Feed(ALL_ONES, before);
    FeedAppend(ALL_ONES, before + x, after);
    FeedAppend(ALL_ONES, before + y, after);
    FeedAppend(ALL_ONES, before, x);
    FeedAppend(ALL_ONES, before, y);
    FourBytesChangeState(state, x, y);
    FeedInjective(Feed(state, x), Feed(state, y), after);
  }
}
