/** NodeNet on RS485: the frame encoding, and the receiver that finds frames in a byte stream. */
module NodeNet {
  import opened Bytes
  import opened Bits
  import opened Literals

  const LF: byte := 0x0A
  const SOH: byte := 0x01
  const STX: byte := 0x02
  const ETX: byte := 0x03
  const EOT: byte := 0x04

  datatype Message = Message(source: byte, destination: byte, payload: seq<byte>)

  // Encoding

  /** A nibble in the high half and its complement in the low one. */
  function HighByte(b: byte): byte {
    b / 0x10 * 0x10 + (0x0F - b / 0x10)
  }

  function LowByte(b: byte): byte {
    (0x0F - b % 0x10) * 0x10 + b % 0x10
  }

  function EncodeBytes(payload: seq<byte>): (s: seq<byte>)
    ensures |s| == 2 * |payload|
  {
    if payload == [] then [] else [HighByte(payload[0]), LowByte(payload[0])] + EncodeBytes(payload[1..])
  }

  /** The check byte after the payload. */
  function Check(check: byte, payload: seq<byte>): byte
    decreases payload
  {
    if payload == [] then check else Check(Xor8(check, payload[0]), payload[1..])
  }

  /** The frame from its start byte on. The check byte starts from the low length byte only. */
  function Frame(m: Message): (s: seq<byte>)
    ensures |s| == 2 * |m.payload| + 11 && s[0] == SOH
  {
    var size := |m.payload|;
    var check := Check(Xor8(Xor8(m.source, m.destination), size % 0x100), m.payload);
    [SOH, m.destination, m.source, size / 0x100 % 0x100, size % 0x100, STX] +
    EncodeBytes(m.payload) +
    [ETX, check, EOT, LF, LF]
  }

  /** Encode */
  function Encode(m: Message): seq<byte> {
    [LF, LF, LF] + Frame(m)
  }

  method EncodeFrame(source: byte, destination: byte, payload: seq<byte>) returns (frame: seq<byte>)
    ensures frame == Encode(Message(source, destination, payload))
  {
    hide HighByte, LowByte, Xor8;
    var size := |payload|;
    frame := [LF, LF, LF, SOH, destination, source, size / 0x100 % 0x100, size % 0x100, STX];
    ghost var head := frame;
    var check := Xor8(Xor8(source, destination), size % 0x100);
    ghost var start := check;
    assert head + [] == head && payload[0..] == payload;
    for i := 0 to size
      invariant frame + EncodeBytes(payload[i..]) == head + EncodeBytes(payload)
      invariant Check(check, payload[i..]) == Check(start, payload)
    {
      var b := payload[i];
      assert payload[i..][1..] == payload[i + 1..];
      ghost var rest := EncodeBytes(payload[i + 1..]);
      assert frame + ([HighByte(b), LowByte(b)] + rest) == frame + [HighByte(b), LowByte(b)] + rest;
      check := Xor8(check, b);
      frame := frame + [HighByte(b), LowByte(b)];
    }
    assert frame + [] == frame;
    frame := frame + [ETX, check, EOT, LF, LF];
  }

  // Decoding

  /** ~((x >> 4) | (x << 4)), in eight bits */
  function Counterpart(x: byte): byte {
    0xFF - (x % 0x10 * 0x10 + x / 0x10)
  }

  /** The payload bytes from `at` on; nothing at a pair that is not a byte and its complements. */
  function DecodeBytes(frame: seq<byte>, at: nat, n: nat): (r: Option<seq<byte>>)
    requires at + 2 * n <= |frame|
    ensures r.Some? ==> |r.value| == n
    decreases n
  {
    if n == 0 then Some([])
    else
      var high, low := frame[at], frame[at + 1];
      if Counterpart(high) != high || Counterpart(low) != low then None
      else
        match DecodeBytes(frame, at + 2, n - 1)
        case None => None
        case Some(rest) => Some([high / 0x10 * 0x10 + low % 0x10] + rest)
  }

  function Find(s: seq<byte>, b: byte): (i: nat)
    ensures i <= |s| && (i < |s| ==> s[i] == b) && forall k | 0 <= k < i :: s[k] != b
  {
    if s == [] || s[0] == b then 0 else 1 + Find(s[1..], b)
  }

  function Text(s: string): (r: seq<byte>) {
    seq(|s|, i requires 0 <= i < |s| => s[i] as int % 0x100)
  }

  function Heartbeat(source: byte): Message {
    Message(source, 0, Text("{\"cmd\":\"heartBeat\", \"from\":\"" + Decimal(source) + "\"}"))
  }

  /** Decode; nothing where the source throws. */
  function Decode(frame: seq<byte>): Option<Message> {
    var pos := Find(frame, SOH);
    if |frame| < pos + 6 then None
    else
      var destination, source := frame[pos + 1], frame[pos + 2];
      var size := 0x100 * frame[pos + 3] as int + frame[pos + 4] as int;
      if frame[pos + 5] != STX then if frame[pos + 5] == EOT then Some(Heartbeat(source)) else None
      else if |frame| < pos + 9 + 2 * size then None
      else
        match DecodeBytes(frame, pos + 6, size)
        case None => None
        case Some(payload) =>
          var start := Xor8(Xor8(Xor8(source, destination), frame[pos + 3]), frame[pos + 4]);
          var trailer := pos + 6 + 2 * size;
          if frame[trailer] != ETX || frame[trailer + 1] != Check(start, payload) || frame[trailer + 2] != EOT then None
          else Some(Message(source, destination, payload))
  }

  // The codec

  lemma NibblesSplit(h: int, l: int)
    requires 0 <= h < 0x10 && 0 <= l < 0x10
    ensures (h * 0x10 + l) / 0x10 == h && (h * 0x10 + l) % 0x10 == l
  {
  }

  lemma NibblesRead(b: byte)
    ensures Counterpart(HighByte(b)) == HighByte(b) && Counterpart(LowByte(b)) == LowByte(b)
    ensures HighByte(b) / 0x10 * 0x10 + LowByte(b) % 0x10 == b
  {
    var h, l := b / 0x10, b % 0x10;
    NibblesSplit(h, 0x0F - h);
    NibblesSplit(0x0F - l, l);
  }

  lemma {:induction false} BytesRead(frame: seq<byte>, at: nat, payload: seq<byte>)
    requires at + 2 * |payload| <= |frame| && frame[at..at + 2 * |payload|] == EncodeBytes(payload)
    ensures DecodeBytes(frame, at, |payload|) == Some(payload)
    decreases payload
  {
    hide HighByte, LowByte, Counterpart;
    if payload != [] {
      var code := frame[at..at + 2 * |payload|];
      NibblesRead(payload[0]);
      assert frame[at] == code[0] && frame[at + 1] == code[1];
      assert frame[at + 2..at + 2 * |payload|] == code[2..] == EncodeBytes(payload[1..]);
      BytesRead(frame, at + 2, payload[1..]);
      assert payload == [payload[0]] + payload[1..];
    }
  }

  lemma {:induction false} CheckInjective(a: byte, b: byte, payload: seq<byte>)
    requires Check(a, payload) == Check(b, payload)
    ensures a == b
    decreases payload
  {
    if payload != [] {
      hide Xor;
      CheckInjective(Xor8(a, payload[0]), Xor8(b, payload[0]), payload[1..]);
      XorCancels(a, payload[0]);
      XorCancels(b, payload[0]);
    }
  }

  /** Xoring in the high length byte changes the check unless it is zero. */
  lemma HighLengthMatters(start: byte, high: byte, low: byte, payload: seq<byte>)
    ensures Check(Xor8(Xor8(start, high), low), payload) == Check(Xor8(start, low), payload) <==> high == 0
  {
    hide Xor;
    if high == 0 {
      XorZero(start);
    } else if Check(Xor8(Xor8(start, high), low), payload) == Check(Xor8(start, low), payload) {
      CheckInjective(Xor8(Xor8(start, high), low), Xor8(start, low), payload);
      XorCancels(Xor8(start, high), low);
      XorCancels(start, low);
      XorCommutes(start, high);
      XorCommutes(start, 0);
      XorZero(start);
      XorCancels(high, start);
      XorCancels(0, start);
    }
  }

  lemma FrameReads(m: Message)
    requires |m.payload| < 0x1_0000
    ensures
      var f, size := Frame(m), |m.payload|;
      && Find(f, SOH) == 0
      && 0x100 * f[3] as int + f[4] as int == size && f[3] == size / 0x100 && f[4] == size % 0x100
      && f[1] == m.destination && f[2] == m.source && f[5] == STX
      && f[6..6 + 2 * size] == EncodeBytes(m.payload)
      && f[6 + 2 * size] == ETX && f[8 + 2 * size] == EOT
      && f[7 + 2 * size] == Check(Xor8(Xor8(m.source, m.destination), size % 0x100), m.payload)
  {
    hide Check, Xor8, EncodeBytes;
  }

  /** A frame decodes to its message exactly if it has fewer than 256 payload bytes, and not at all otherwise:
      the check byte leaves out the high length byte when encoding but not when decoding, and of a length of
      more than 16 bits the frame only holds 16. */
  lemma FrameRoundTrip(m: Message)
    ensures Decode(Frame(m)) == if |m.payload| < 0x100 then Some(m) else None
  {
    hide *;
    if |m.payload| < 0x1_0000 {
      ShortRoundTrip(m);
    } else {
      LongFrameFails(m);
    }
  }

  lemma ShortRoundTrip(m: Message)
    requires |m.payload| < 0x1_0000
    ensures Decode(Frame(m)) == if |m.payload| < 0x100 then Some(m) else None
  {
    var size := |m.payload|;
    var start := Xor8(m.source, m.destination);
    FrameReads(m);
    BytesRead(Frame(m), 6, m.payload);
    HighLengthMatters(start, size / 0x100, size % 0x100, m.payload);
    hide *;
    DecodesTo(Frame(m), m.destination, m.source, size, m.payload);
    assert size / 0x100 == 0 <==> size < 0x100;
  }

  /** Where the trailer is looked for, a longer payload goes on, and no encoded byte looks like ETX. */
  lemma LongFrameFails(m: Message)
    requires 0x1_0000 <= |m.payload|
    ensures Decode(Frame(m)) == None
  {
    var f, n := Frame(m), |m.payload| % 0x1_0000;
    LongFrameReads(m);
    EncodedAt(m.payload, n);
    assert f[6 + 2 * n] == f[6..6 + 2 * |m.payload|][2 * n];
    NeverEnds(m.payload[n]);
    hide Frame, EncodeBytes, DecodeBytes, Find, Heartbeat, Check, Xor8, HighByte, LowByte;
  }

  lemma LongFrameReads(m: Message)
    ensures
      var f, size := Frame(m), |m.payload|;
      && Find(f, SOH) == 0
      && 0x100 * f[3] as int + f[4] as int == size % 0x1_0000
      && f[5] == STX && f[6..6 + 2 * size] == EncodeBytes(m.payload)
  {
    var size := |m.payload|;
    assert size % 0x1_0000 == 0x100 * (size / 0x100 % 0x100) + size % 0x100;
    hide Check, Xor8, EncodeBytes;
  }

  lemma {:induction false} EncodedAt(payload: seq<byte>, n: nat)
    requires n < |payload|
    ensures EncodeBytes(payload)[2 * n] == HighByte(payload[n])
    decreases n
  {
    hide HighByte, LowByte;
    if n > 0 {
      EncodedAt(payload[1..], n - 1);
      assert EncodeBytes(payload)[2 * n] == EncodeBytes(payload[1..])[2 * (n - 1)];
    }
  }

  lemma NeverEnds(b: byte)
    ensures HighByte(b) != ETX
  {
  }

  /** Decoding a frame whose length, payload and trailer read as given. */
  lemma DecodesTo(f: seq<byte>, destination: byte, source: byte, size: nat, payload: seq<byte>)
    requires size == |payload| && |f| == 2 * size + 11 && Find(f, SOH) == 0
    requires f[1] == destination && f[2] == source && f[5] == STX
    requires size < 0x1_0000 && f[3] == size / 0x100 && f[4] == size % 0x100
    requires DecodeBytes(f, 6, size) == Some(payload)
    requires f[6 + 2 * size] == ETX && f[8 + 2 * size] == EOT
    ensures Decode(f) ==
      if f[7 + 2 * size] == Check(Xor8(Xor8(Xor8(source, destination), f[3]), f[4]), payload)
      then Some(Message(source, destination, payload)) else None
  {
    hide Check, Xor8, DecodeBytes, Find, Heartbeat;
    assert 0x100 * f[3] as int + f[4] as int == size;
  }

  /** The high half of a payload byte and its complement, and the low half the other way round. */
  lemma {:induction false} NibblesOnTheWire(payload: seq<byte>, k: nat)
    requires k < |payload|
    ensures
      var s, b := EncodeBytes(payload), payload[k];
      && s[2 * k] / 0x10 == b / 0x10 && s[2 * k] % 0x10 == 0x0F - b / 0x10
      && s[2 * k + 1] % 0x10 == b % 0x10 && s[2 * k + 1] / 0x10 == 0x0F - b % 0x10
    decreases k
  {
    if k > 0 {
      NibblesOnTheWire(payload[1..], k - 1);
    }
  }

  /** A frame, byte by byte, but for its check byte. */
  lemma FrameOnTheWire(m: Message)
    ensures
      var s, size := Encode(m), |m.payload|;
      && |s| == 2 * size + 14
      && s[..9] == [10, 10, 10, 1, m.destination, m.source, size / 0x100 % 0x100, size % 0x100, 2]
      && s[9..9 + 2 * size] == EncodeBytes(m.payload)
      && s[9 + 2 * size] == 3 && s[11 + 2 * size..] == [4, 10, 10]
  {
    hide EncodeBytes, Xor8, Check;
  }

  // The receiver

  datatype Step = Wait | Drop(bytes: nat, messages: seq<Message>)

  /** What the receiver does with a buffer that starts with SOH: it waits for more, or it drops some bytes
      and passes on what they held. A frame that does not decode is dropped silently. */
  function Next(rx: seq<byte>): (step: Step)
    ensures step.Drop? ==> 0 < step.bytes <= |rx|
  {
    if |rx| < 5 then Wait
    else
      var size := 0x100 * rx[3] as int + rx[4] as int;
      if size == 0 then
        if |rx| < 6 then Wait else if rx[5] != EOT then Drop(1, []) else Drop(6, [Heartbeat(rx[2])])
      else
        var frameSize := 6 + 2 * size + 3 + 2;
        if |rx| < frameSize then Wait
        else if rx[5] != STX then Drop(1, [])
        else match Decode(rx[..frameSize])
          case None => Drop(frameSize, [])
          case Some(m) => Drop(frameSize, [m])
  }

  datatype Received = Received(messages: seq<Message>, rx: seq<byte>)

  /** The messages in a buffer, and what stays in it for later. */
  function Scan(rx: seq<byte>): (r: Received)
    ensures |r.rx| <= |rx|
    decreases |rx|
  {
    var rest := rx[Find(rx, SOH)..];
    match Next(rest)
    case Wait => Received([], rest)
    case Drop(n, found) =>
      var r := Scan(rest[n..]);
      Received(found + r.messages, r.rx)
  }

  lemma ScanWaits(rx: seq<byte>)
    requires Next(rx[Find(rx, SOH)..]).Wait?
    ensures Scan(rx) == Received([], rx[Find(rx, SOH)..])
  {
    hide Next, Find;
  }

  lemma ScanDrops(rx: seq<byte>, n: nat, found: seq<Message>)
    requires Next(rx[Find(rx, SOH)..]) == Drop(n, found)
    ensures
      var rest := rx[Find(rx, SOH)..];
      n <= |rest| && Scan(rx) == Received(found + Scan(rest[n..]).messages, Scan(rest[n..]).rx)
  {
    hide Next, Find;
  }

  class Receiver {
    var rx: seq<byte>
    var messages: seq<Message>

    constructor ()
      ensures rx == [] && messages == []
    {
      rx, messages := [], [];
    }

    /** ProcessByte; `messages` are those handed over so far. */
    method ProcessByte(b: byte)
      modifies this
      ensures Received(messages, rx) ==
        var r := Scan(old(rx) + [b]); Received(old(messages) + r.messages, r.rx)
    {
      hide Heartbeat, Decode, Scan, Find;
      rx := rx + [b];
      ghost var all := Scan(rx);
      while true
        invariant old(messages) + all.messages == messages + Scan(rx).messages && all.rx == Scan(rx).rx
        decreases |rx|
      {
        ghost var was, said := rx, messages;
        var soh := Find(rx, SOH);
        if soh == |rx| {
          ScanWaits(was);
          rx := [];
          return;
        }
        rx := rx[soh..];
        if |rx| < 5 {
          ScanWaits(was);
          return;
        }
        var source := rx[2];
        var size := 0x100 * rx[3] as int + rx[4] as int;
        if size == 0 {
          if |rx| < 6 {
            ScanWaits(was);
            return;
          }
          if rx[5] != EOT {
            ScanDrops(was, 1, []);
            rx := rx[1..];
            continue;
          }
          ScanDrops(was, 6, [Heartbeat(source)]);
          rx := rx[6..];
          messages := messages + [Heartbeat(source)];
          continue;
        }
        var frameSize := 6 + 2 * size + 3 + 2;
        if |rx| < frameSize {
          ScanWaits(was);
          return;
        }
        if rx[5] != STX {
          ScanDrops(was, 1, []);
          rx := rx[1..];
          continue;
        }
        var frame := rx[..frameSize];
        match Decode(frame) {
          case Some(m) =>
            ScanDrops(was, frameSize, [m]);
            messages := messages + [m];
          case None =>
            ScanDrops(was, frameSize, []);
        }
        rx := rx[frameSize..];
      }
    }
  }

  // The stream

  /** A byte at a time. */
  function Feed(rx: seq<byte>, bytes: seq<byte>): Received
    decreases |bytes|
  {
    if bytes == [] then Received([], rx)
    else
      var first := Scan(rx + [bytes[0]]);
      var rest := Feed(first.rx, bytes[1..]);
      Received(first.messages + rest.messages, rest.rx)
  }

  lemma {:induction false} FindMore(s: seq<byte>, more: seq<byte>, b: byte)
    ensures Find(s + more, b) == if Find(s, b) < |s| then Find(s, b) else |s| + Find(more, b)
    decreases s
  {
    if s == [] {
      assert s + more == more;
    } else if s[0] != b {
      assert (s + more)[1..] == s[1..] + more;
      FindMore(s[1..], more, b);
    }
  }

  /** A decision taken is not taken back when more bytes come in. */
  lemma NextStays(rx: seq<byte>, more: seq<byte>)
    requires Next(rx).Drop?
    ensures Next(rx + more) == Next(rx)
  {
    hide Decode, Heartbeat;
    var size := 0x100 * rx[3] as int + rx[4] as int;
    if |rx| >= 11 + 2 * size {
      assert (rx + more)[..11 + 2 * size] == rx[..11 + 2 * size];
    }
  }

  lemma FindAgain(s: seq<byte>, b: byte)
    ensures Find(s[Find(s, b)..], b) == 0
  {
  }

  /** More bytes come in behind the first SOH; without one, everything before them goes. */
  lemma RestGrows(rx: seq<byte>, more: seq<byte>)
    ensures
      var rest := rx[Find(rx, SOH)..];
      && (rx + more)[Find(rx + more, SOH)..] == (rest + more)[Find(rest + more, SOH)..]
      && (rest != [] ==> Find(rest + more, SOH) == 0)
  {
    FindMore(rx, more, SOH);
    FindAgain(rx, SOH);
    var at := Find(rx, SOH);
    var rest := rx[at..];
    FindMore(rest, more, SOH);
    hide Find;
    if at == |rx| {
      assert rest == [] && rest + more == more;
      assert (rx + more)[|rx|..] == more;
    } else {
      assert (rx + more)[at..] == rest + more;
    }
  }

  lemma ScanFromRest(s: seq<byte>, t: seq<byte>)
    requires s[Find(s, SOH)..] == t[Find(t, SOH)..]
    ensures Scan(s) == Scan(t)
  {
    hide Next, Find;
  }

  /** Scanning early and going on with what stayed is scanning everything at once. */
  lemma {:induction false} ScanSplits(rx: seq<byte>, more: seq<byte>)
    ensures Scan(rx + more) ==
      var first := Scan(rx); var rest := Scan(first.rx + more);
      Received(first.messages + rest.messages, rest.rx)
    decreases |rx|
  {
    hide Next, Find, Scan;
    var rest := rx[Find(rx, SOH)..];
    RestGrows(rx, more);
    ScanFromRest(rx + more, rest + more);
    match Next(rest) {
      case Wait =>
        ScanWaits(rx);
      case Drop(n, found) =>
        ScanDrops(rx, n, found);
        NextStays(rest, more);
        NeedsStart(rest);
        ScanSplits(rest[n..], more);
        assert (rest + more)[0..] == rest + more;
        ScanDrops(rest + more, n, found);
        assert (rest + more)[n..] == rest[n..] + more;
    }
  }

  lemma NeedsStart(rx: seq<byte>)
    requires Next(rx).Drop?
    ensures rx != []
  {
  }

  lemma {:induction false} FeedIsScan(rx: seq<byte>, bytes: seq<byte>)
    requires Scan(rx) == Received([], rx)
    ensures Feed(rx, bytes) == Scan(rx + bytes)
    decreases |bytes|
  {
    hide Scan;
    if bytes == [] {
      assert rx + bytes == rx;
    } else {
      var more := rx + [bytes[0]];
      var first := Scan(more);
      ScanRests(more);
      FeedIsScan(first.rx, bytes[1..]);
      ScanSplits(more, bytes[1..]);
      assert more + bytes[1..] == rx + bytes;
    }
  }

  /** What stays holds no message yet. */
  lemma {:induction false} ScanRests(rx: seq<byte>)
    ensures Scan(Scan(rx).rx) == Received([], Scan(rx).rx)
    decreases |rx|
  {
    hide Next, Find;
    var rest := rx[Find(rx, SOH)..];
    match Next(rest) {
      case Wait =>
        FindAgain(rx, SOH);
        assert rest[0..] == rest;
      case Drop(n, found) =>
        ScanRests(rest[n..]);
    }
  }

  /** What is on the line: single bytes between frames, frames, and heartbeats. */
  datatype Item =
    | Noise(b: byte)
    | Packet(message: Message)
    | Beat(destination: byte, source: byte)
  {
    predicate Valid() {
      match this
      case Noise(b) => b != 0x01
      case Packet(m) => 0 < |m.payload| < 0x1_0000
      case Beat(_, _) => true
    }

    function Wire(): seq<byte> {
      match this
      case Noise(b) => [b]
      case Packet(m) => Encode(m)
      case Beat(destination, source) => [0x01, destination, source, 0, 0, 0x04]
    }

    /** A frame of 256 payload bytes or more is lost, and nothing else with it. */
    function Heard(): seq<Message> {
      match this
      case Noise(_) => []
      case Packet(m) => if |m.payload| < 0x100 then [m] else []
      case Beat(_, source) =>
        [Message(source, 0, Text("{\"cmd\":\"heartBeat\", \"from\":\"" + Decimal(source) + "\"}"))]
    }
  }

  function Wire(items: seq<Item>): seq<byte> {
    if items == [] then [] else items[0].Wire() + Wire(items[1..])
  }

  function Heard(items: seq<Item>): seq<Message> {
    if items == [] then [] else items[0].Heard() + Heard(items[1..])
  }

  lemma NoiseSkips(b: byte, rest: seq<byte>)
    requires b != SOH
    ensures Scan([b] + rest) == Scan(rest)
  {
    hide Next;
    assert ([b] + rest)[1..] == rest;
    var at := Find(rest, SOH);
    assert Find([b] + rest, SOH) == 1 + at;
    assert ([b] + rest)[1 + at..] == rest[at..];
  }

  lemma StartsAt(s: seq<byte>, n: nat, found: seq<Message>)
    requires s != [] && s[0] == SOH && Next(s) == Drop(n, found)
    ensures n <= |s| && Scan(s) == Received(found + Scan(s[n..]).messages, Scan(s[n..]).rx)
  {
    hide Next;
    assert s[0..] == s;
  }

  lemma PacketStep(m: Message, rest: seq<byte>)
    requires 0 < |m.payload| < 0x1_0000
    ensures Next(Frame(m) + rest) == Drop(|Frame(m)|, if |m.payload| < 0x100 then [m] else [])
  {
    FrameReads(m);
    FrameRoundTrip(m);
    hide Decode, Heartbeat, Frame, Find, EncodeBytes, Check, Xor8;
    var f := Frame(m);
    var s := f + rest;
    assert s[..|f|] == f;
    assert s[3] == f[3] && s[4] == f[4] && s[5] == f[5];
  }

  lemma ItemScans(item: Item, rest: seq<byte>)
    requires item.Valid()
    ensures Scan(item.Wire() + rest) == Received(item.Heard() + Scan(rest).messages, Scan(rest).rx)
  {
    hide Scan, Next, Frame;
    match item {
      case Noise(b) =>
        NoiseSkips(b, rest);
      case Packet(m) =>
        var s := Frame(m) + rest;
        assert item.Wire() + rest == [LF] + ([LF] + ([LF] + s));
        NoiseSkips(LF, s);
        NoiseSkips(LF, [LF] + s);
        NoiseSkips(LF, [LF] + ([LF] + s));
        PacketStep(m, rest);
        StartsAt(s, |Frame(m)|, item.Heard());
        assert s[|Frame(m)|..] == rest;
      case Beat(destination, source) =>
        var s := item.Wire() + rest;
        BeatStep(s);
        StartsAt(s, 6, item.Heard());
        assert s[6..] == rest;
    }
  }

  lemma BeatStep(s: seq<byte>)
    requires |s| >= 6 && s[3] == 0 && s[4] == 0 && s[5] == EOT
    ensures Next(s) == Drop(6, [Heartbeat(s[2])])
  {
    hide Heartbeat, Decode;
  }

  lemma {:induction false} ItemsScan(items: seq<Item>)
    requires forall item | item in items :: item.Valid()
    ensures Scan(Wire(items)) == Received(Heard(items), [])
  {
    hide Scan;
    if items == [] {
      EmptyScan();
    } else {
      ItemScans(items[0], Wire(items[1..]));
      ItemsScan(items[1..]);
    }
  }

  lemma EmptyScan()
    ensures Scan([]) == Received([], [])
  {
  }

  /** Whatever frames, heartbeats and noise come in one byte after the other, exactly the messages sent are
      heard, each once and in order, and nothing stays behind; only frames of 256 payload bytes or more are
      lost. */
  lemma StreamDecodes(items: seq<Item>)
    requires forall item | item in items :: item.Valid()
    ensures Feed([], Wire(items)) == Received(Heard(items), [])
  {
    hide Scan, Feed;
    EmptyScan();
    FeedIsScan([], Wire(items));
    ItemsScan(items);
    assert [] + Wire(items) == Wire(items);
  }
}
