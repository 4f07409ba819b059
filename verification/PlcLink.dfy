/** The plcLink wire format: message headers and fragments. */
module PlcLink {
  import opened Bytes
  import opened Memory

  const MAGIC: u16 := 0x4C50
  const VERSION: byte := 1
  const HEADER_SIZE: nat := 18

  // HeaderFlags
  const FLAG_REQUEST: byte := 0x01
  const FLAG_RESPONSE: byte := 0x02
  const FLAG_MORE_FRAGMENTS: byte := 0x08

  // MessageType
  const CAPS_RESPONSE: byte := 0x02
  const DEFS_RESPONSE: byte := 0x11
  const STATES_RESPONSE: byte := 0x21
  const UPDATES_RESPONSE: byte := 0x23

  datatype Header = Header(
    magic: u16,
    version: byte,
    messageType: byte,
    flags: byte,
    requestId: byte,
    fragmentIndex: byte,
    fragmentCount: byte,
    payloadLength: u16,
    generation: u32,
    sequence: u32
  )

  /** isKnownMessageType */
  predicate IsKnownType(messageType: byte) {
    0x01 <= messageType <= 0x02 || 0x10 <= messageType <= 0x13 || 0x20 <= messageType <= 0x23 ||
    0x30 <= messageType <= 0x33 || 0x7E <= messageType <= 0x7F
  }

  predicate HasFlag(flags: byte, flag: byte)
    requires flag > 0
  {
    flags / flag % 2 == 1
  }

  /** isHeaderValid: exactly one of request and response, and the more-fragments flag exactly on
      fragments before the last. */
  predicate IsValid(h: Header) {
    && h.magic == MAGIC
    && h.version == VERSION
    && IsKnownType(h.messageType)
    && HasFlag(h.flags, FLAG_REQUEST) != HasFlag(h.flags, FLAG_RESPONSE)
    && h.fragmentCount != 0
    && h.fragmentIndex < h.fragmentCount
    && (h.fragmentCount == 1 ==> h.fragmentIndex == 0)
    && HasFlag(h.flags, FLAG_MORE_FRAGMENTS) == (h.fragmentIndex + 1 != h.fragmentCount)
  }

  function HeaderBytes(h: Header): (s: seq<byte>)
    ensures |s| == HEADER_SIZE
  {
    Le16(h.magic) +
    [h.version, h.messageType, h.flags, h.requestId, h.fragmentIndex, h.fragmentCount] +
    Le16(h.payloadLength) + Le32(h.generation) + Le32(h.sequence)
  }

  function ReadHeader(s: seq<byte>): Header
    requires HEADER_SIZE <= |s|
  {
    Header(Fetch16(s, 0), s[2], s[3], s[4], s[5], s[6], s[7], Fetch16(s, 8), Fetch32(s, 10), Fetch32(s, 14))
  }

  /** decodeHeader */
  function DecodeHeader(s: seq<byte>): (r: Option<Header>)
    ensures r.Some? ==> IsValid(r.value)
  {
    if |s| < HEADER_SIZE || !IsValid(ReadHeader(s)) then None else Some(ReadHeader(s))
  }

  /** encodeHeader: an invalid header or a short buffer is refused and nothing is written. */
  method EncodeHeader(h: Header, out: array<byte>, size: nat) returns (ok: bool)
    requires size <= out.Length
    modifies out
    ensures ok == (HEADER_SIZE <= size && IsValid(h))
    ensures out[..] == if ok then Patch(old(out[..]), 0, HeaderBytes(h)) else old(out[..])
  {
    hide Patch, HeaderBytes, IsKnownType, HasFlag;
    ok := HEADER_SIZE <= size && IsValid(h);
    if ok {
      Store(out, 0, HeaderBytes(h));
    }
  }

  lemma HeaderReads(h: Header, rest: seq<byte>)
    ensures ReadHeader(HeaderBytes(h) + rest) == h
  {
    var s := HeaderBytes(h) + rest;
    hide Le16, Le32, Fetch16, Fetch32;
    FetchLe16(h.magic, s, 0);
    FetchLe16(h.payloadLength, s, 8);
    FetchLe32(h.generation, s, 10);
    FetchLe32(h.sequence, s, 14);
  }

  /** An encoded header decodes to itself exactly if it is valid. */
  lemma HeaderRoundTrip(h: Header, rest: seq<byte>)
    ensures DecodeHeader(HeaderBytes(h) + rest) == if IsValid(h) then Some(h) else None
  {
    HeaderReads(h, rest);
    hide HeaderBytes, ReadHeader, IsKnownType, HasFlag;
  }

  // Fragments

  datatype Plan = Plan(count: byte, index: byte, length: u16, offset: nat)

  /** computeFragmentCount */
  function FragmentCount(size: nat, max: nat): (r: Option<byte>)
    ensures r.Some? ==> r.value > 0
  {
    if max == 0 then None
    else
      var count := (size + max - 1) / max;
      if count == 0 || 255 < count then None else Some(count)
  }

  /** buildFragmentPlan */
  function FragmentPlan(size: nat, max: nat, index: byte): Option<Plan> {
    match FragmentCount(size, max)
    case None => None
    case Some(count) =>
      if count <= index then None
      else
        var offset := index * max;
        var remaining := if offset < size then size - offset else 0;
        var length := if max < remaining then max else remaining;
        if 0xFFFF < length then None else Some(Plan(count, index, length, offset))
  }

  lemma CountBounds(size: nat, max: nat)
    requires size > 0 && max > 0
    ensures
      var count := (size + max - 1) / max;
      count > 0 && (count - 1) * max < size <= count * max
  {
    var q, r := (size + max - 1) / max, (size + max - 1) % max;
    assert size + max - 1 == max * q + r && 0 <= r < max;
    Commuted(max, q);
    assert size <= q * max;
    if q == 0 {
      assert false;
    }
    assert (q - 1) * max == q * max - max by { OneLess(q, max); }
  }

  /** What can be fragmented, and into how many. */
  lemma FragmentedExactly(size: nat, max: nat)
    ensures FragmentCount(size, max).Some? <==> 0 < size && 0 < max && size <= 255 * max
    ensures FragmentCount(size, max).Some? ==>
              (FragmentCount(size, max).value - 1) * max < size <= FragmentCount(size, max).value * max
  {
    if 0 < max {
      var count := (size + max - 1) / max;
      if 0 < size {
        CountBounds(size, max);
        if count <= 255 {
          Scaled(count, 255, max);
        } else {
          Scaled(255, count - 1, max);
        }
      } else {
        SmallQuotient(max - 1, max);
      }
    }
  }

  lemma SmallQuotient(n: nat, max: nat)
    requires n < max
    ensures n / max == 0
  {
  }

  lemma Commuted(a: nat, b: nat)
    ensures a * b == b * a
  {
  }

  lemma OneLess(q: nat, max: nat)
    ensures (q - 1) * max == q * max - max && (q + 1) * max == q * max + max
  {
  }

  lemma Scaled(a: nat, b: nat, max: nat)
    requires a <= b
    ensures a * max <= b * max
  {
  }

  /** Every fragment of a payload that can be fragmented at all is planned: full but for the last. */
  lemma PlanIs(size: nat, max: nat, index: nat)
    requires size > 0 && 0 < max <= 0xFFFF && FragmentCount(size, max).Some? && index < FragmentCount(size, max).value
    ensures
      var count := FragmentCount(size, max).value;
      var last := index + 1 == count;
      && FragmentPlan(size, max, index) ==
         Some(Plan(count, index, if last then size - index * max else max, index * max))
      && index * max < size && (if last then size - index * max <= max else index * max + max <= size)
  {
    var count := FragmentCount(size, max).value;
    CountBounds(size, max);
    OneLess(index, max);
    OneLess(count, max);
    if index + 1 < count {
      Scaled(index + 1, count - 1, max);
    }
    hide FragmentCount;
  }

  /** The payload as its fragments from `index` on carry it. */
  function Carried(payload: seq<byte>, max: nat, index: nat): seq<byte>
    requires payload != [] && 0 < max <= 0xFFFF && FragmentCount(|payload|, max).Some?
    requires index <= FragmentCount(|payload|, max).value
    decreases FragmentCount(|payload|, max).value - index
  {
    if index == FragmentCount(|payload|, max).value then []
    else
      PlanIs(|payload|, max, index);
      var plan := FragmentPlan(|payload|, max, index).value;
      payload[plan.offset..plan.offset + plan.length] + Carried(payload, max, index + 1)
  }

  /** The plans tile the payload: from any fragment on, their slices are what is left of it. */
  lemma {:induction false} PlansTile(payload: seq<byte>, max: nat, index: nat)
    requires payload != [] && 0 < max <= 0xFFFF && FragmentCount(|payload|, max).Some?
    requires index < FragmentCount(|payload|, max).value
    ensures index * max < |payload| && Carried(payload, max, index) == payload[index * max..]
    decreases FragmentCount(|payload|, max).value - index
  {
    var count := FragmentCount(|payload|, max).value;
    PlanIs(|payload|, max, index);
    var at := index * max;
    if index + 1 < count {
      PlansTile(payload, max, index + 1);
      OneLess(index, max);
      assert payload[at..at + max] + payload[at + max..] == payload[at..];
    } else {
      assert Carried(payload, max, index + 1) == [];
      assert payload[at..|payload|] + [] == payload[at..];
    }
  }

  /** The header of a planned fragment, the more-fragments flag as given. */
  function FragmentHeader(h: Header, plan: Plan, flags: byte): Header {
    h.(flags := flags, fragmentIndex := plan.index, fragmentCount := plan.count, payloadLength := plan.length)
  }

  /** A header for a planned fragment survives encoding and decoding exactly if the more-fragments flag
      says whether the fragment is not the last. */
  lemma FragmentHeaderSurvives(h: Header, size: nat, max: nat, index: byte, flags: byte, rest: seq<byte>)
    requires h.magic == MAGIC && h.version == VERSION && IsKnownType(h.messageType)
    requires HasFlag(flags, FLAG_REQUEST) != HasFlag(flags, FLAG_RESPONSE)
    requires FragmentPlan(size, max, index).Some?
    ensures
      var plan := FragmentPlan(size, max, index).value;
      var sent := FragmentHeader(h, plan, flags);
      DecodeHeader(HeaderBytes(sent) + rest) == Some(sent) <==>
      HasFlag(flags, FLAG_MORE_FRAGMENTS) == (index + 1 < plan.count)
  {
    hide IsKnownType, HasFlag, HeaderBytes, ReadHeader;
    var plan := FragmentPlan(size, max, index).value;
    HeaderRoundTrip(FragmentHeader(h, plan, flags), rest);
  }
}
