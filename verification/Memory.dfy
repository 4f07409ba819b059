/** Memory as bytes in place, and what a write leaves of it. */
module Memory {
  import opened Bytes

  // The board's memories

  const FLASH_SIZE: nat := 0x80_0000
  const PAGE_SIZE: nat := 256
  const SDRAM_BASE: u32 := 0x2000_0000
  const SDRAM_SIZE: nat := 0x80_0000

  /** `code` with `bytes` written at an offset. */
  function Patch(code: seq<byte>, at: nat, bytes: seq<byte>): (r: seq<byte>)
    requires at + |bytes| <= |code|
    ensures |r| == |code|
  {
    code[..at] + bytes + code[at + |bytes|..]
  }

  method Store(out: array<byte>, base: nat, bytes: seq<byte>)
    requires base + |bytes| <= out.Length
    modifies out
    ensures out[..] == Patch(old(out[..]), base, bytes)
  {
    forall i | 0 <= i < |bytes| {
      out[base + i] := bytes[i];
    }
  }

  lemma PatchInside(was: seq<byte>, base: nat, code: seq<byte>, at: nat, bytes: seq<byte>)
    requires base + |code| <= |was| && at + |bytes| <= |code|
    ensures Patch(Patch(was, base, code), base + at, bytes) == Patch(was, base, Patch(code, at, bytes))
  {
  }

  lemma PatchNothing(was: seq<byte>, at: nat)
    requires at <= |was|
    ensures Patch(was, at, []) == was
  {
  }

  lemma PatchMore(was: seq<byte>, at: nat, a: seq<byte>, b: seq<byte>)
    requires at + |a| + |b| <= |was|
    ensures Patch(Patch(was, at, a), at + |a|, b) == Patch(was, at, a + b)
  {
  }
}
