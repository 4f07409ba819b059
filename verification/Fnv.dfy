/** The 32-bit FNV-1a checksum of object files and linked images. */
module Fnv {
  import opened Bytes
  import opened Bits

  const BASIS: u32 := 2166136261
  const PRIME: nat := 16777619
  /** The inverse of PRIME modulo 2^32. */
  const INVERSE: nat := 899433627

  function Step(hash: u32, b: byte): u32 {
    Xor32(hash, b) * PRIME % 0x1_0000_0000
  }

  function Hash(hash: u32, data: seq<byte>): u32
    decreases data
  {
    if data == [] then hash else Hash(Step(hash, data[0]), data[1..])
  }

  function Checksum(data: seq<byte>): u32 {
    Hash(BASIS, data)
  }

  /** The loop of checksum32, as the builder, the linker and the loader run it. */
  method Checksum32(data: seq<byte>) returns (value: u32)
    ensures value == Checksum(data)
  {
    value := BASIS;
    for i := 0 to |data|
      invariant Hash(value, data[i..]) == Checksum(data)
    {
      assert data[i..][1..] == data[i + 1..];
      value := Step(value, data[i]);
    }
  }

  lemma {:induction false} HashAppend(hash: u32, a: seq<byte>, b: seq<byte>)
    ensures Hash(hash, a + b) == Hash(Hash(hash, a), b)
    decreases a
  {
    if a == [] {
      assert a + b == b;
    } else {
      assert (a + b)[1..] == a[1..] + b;
      HashAppend(Step(hash, a[0]), a[1..], b);
    }
  }

  /** Multiplication by the prime is a bijection of 32-bit words: the prime is odd. */
  lemma MultiplyInjective(x: u32, y: u32)
    requires x * PRIME % 0x1_0000_0000 == y * PRIME % 0x1_0000_0000
    ensures x == y
  {
    Unmultiply(x);
    Unmultiply(y);
  }

  lemma Unmultiply(x: u32)
    ensures x * PRIME % 0x1_0000_0000 * INVERSE % 0x1_0000_0000 == x
  {
    var q, r := x * PRIME / 0x1_0000_0000, x * PRIME % 0x1_0000_0000;
    var k := 3513497 * x - q * INVERSE;
    assert r * INVERSE == x + 0x1_0000_0000 * k;
    ModMultiple(x, k);
  }

  lemma ModMultiple(x: u32, k: int)
    ensures (x + 0x1_0000_0000 * k) % 0x1_0000_0000 == x
  {
  }

  lemma StepInjective(a: u32, b: u32, x: byte, y: byte)
    requires Step(a, x) == Step(b, y)
    ensures x == y ==> a == b
    ensures a == b ==> x == y
  {
    MultiplyInjective(Xor32(a, x), Xor32(b, y));
    if x == y {
      XorCancels(a, x);
      XorCancels(b, x);
    }
    if a == b {
      XorCommutes(a, x);
      XorCommutes(a, y);
      XorCancels(x, a);
      XorCancels(y, a);
    }
  }

  /** Hashing on from different states stays apart. */
  lemma {:induction false} HashInjective(a: u32, b: u32, data: seq<byte>)
    requires a != b
    ensures Hash(a, data) != Hash(b, data)
    decreases data
  {
    if data != [] {
      if Step(a, data[0]) == Step(b, data[0]) {
        StepInjective(a, b, data[0], data[0]);
      }
      HashInjective(Step(a, data[0]), Step(b, data[0]), data[1..]);
    }
  }

  /** A change of any one byte changes the checksum. */
  lemma OneByteChangesChecksum(data: seq<byte>, i: nat, b: byte)
    requires i < |data| && b != data[i]
    ensures Checksum(data[i := b]) != Checksum(data)
  {
    var before := Hash(BASIS, data[..i]);
    assert data == data[..i] + data[i..] && data[i..][1..] == data[i + 1..];
    assert data[i := b] == data[..i] + ([b] + data[i + 1..]);
    HashAppend(BASIS, data[..i], data[i..]);
    HashAppend(BASIS, data[..i], [b] + data[i + 1..]);
    assert ([b] + data[i + 1..])[1..] == data[i + 1..];
    if Step(before, b) == Step(before, data[i]) {
      StepInjective(before, before, b, data[i]);
    }
    HashInjective(Step(before, b), Step(before, data[i]), data[i + 1..]);
  }

  lemma XorDigit(a: nat, b: nat, x: nat)
    requires Xor(a / 2, b / 2) == x
    ensures Xor(a, b) == (a + b) % 2 + 2 * x
  {
    XorUnfold(a, b);
    hide Xor;
  }

  lemma XorOfLow()
    ensures Xor(0xC5, 0x61) == 0xA4
  {
    hide Xor;
    XorSelf(0);
    XorDigit(0x1, 0x0, 0x0);
    XorDigit(0x3, 0x1, 0x1);
    XorDigit(0x6, 0x3, 0x2);
    XorDigit(0xC, 0x6, 0x5);
    XorDigit(0x18, 0xC, 0xA);
    XorDigit(0x31, 0x18, 0x14);
    XorDigit(0x62, 0x30, 0x29);
    XorDigit(0xC5, 0x61, 0x52);
  }

  lemma XorOfA()
    ensures Xor(0x811C_9DC5, 0x61) == 0x811C_9DA4
  {
    hide Xor;
    XorOfLow();
    WordPowers();
    XorAbove(8, 0xC5, 0x81_1C9D);
    XorAbove(8, 0xA4, 0x81_1C9D);
    XorAssociates(0x811C_9D00, 0xC5, 0x61);
    XorCommutes(0x811C_9D00, 0xC5);
    XorCommutes(0x811C_9D00, 0xA4);
  }

  /** Known hashes: of nothing, and of the letter a. */
  lemma KnownHashes()
    ensures Checksum([]) == 0x811C_9DC5 && Checksum([0x61]) == 0xE40C_292C
  {
    XorOfA();
    hide Xor;
    assert [0x61][1..] == [];
    assert Step(BASIS, 0x61) == 0xE40C_292C;
    assert Hash(0xE40C_292C, []) == 0xE40C_292C;
  }
}
