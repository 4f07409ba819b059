/** The reader that cuts JSON objects out of a byte stream by counting braces. */
module JsonFramer {
  import opened Bytes

  const OPEN_BRACE: byte := 0x7B
  const CLOSE_BRACE: byte := 0x7D
  const QUOTE: byte := 0x22
  const BACKSLASH: byte := 0x5C

  /** The reader's fields. */
  datatype Reader = Reader(builder: seq<byte>, inString: bool, escape: bool, depth: int, started: bool)

  const IDLE := Reader([], false, false, 0, false)

  type Frame = Option<seq<byte>>

  datatype Run = Run(reader: Reader, frames: seq<Frame>)

  /** One byte: the reader afterwards, and the object it completes. */
  function Append(r: Reader, b: byte): (s: (Reader, Frame)) {
    if !r.started then
      if b != OPEN_BRACE then (r, None) else (r.(started := true, depth := 1, builder := [b]), None)
    else
      var s := r.(builder := r.builder + [b]);
      if r.escape then (s.(escape := false), None)
      else if b == BACKSLASH then (s.(escape := r.inString), None)
      else if b == QUOTE then (s.(inString := !r.inString), None)
      else if r.inString then (s, None)
      else if b == OPEN_BRACE then (s.(depth := r.depth + 1), None)
      else if b != CLOSE_BRACE then (s, None)
      else if r.depth == 1 then (IDLE, Some(s.builder))
      else (s.(depth := r.depth - 1), None)
  }

  class JsonObjectFrameReader {
    var builder: seq<byte>
    var inString: bool
    var escape: bool
    var depth: int
    var started: bool

    ghost function Fields(): Reader
      reads this
    {
      Reader(builder, inString, escape, depth, started)
    }

    constructor ()
      ensures Fields() == IDLE
    {
      builder, inString, escape, depth, started := [], false, false, 0, false;
    }

    method TryAppend(value: byte) returns (framed: bool, frame: seq<byte>)
      modifies this
      ensures (Fields(), if framed then Some(frame) else None) == Append(old(Fields()), value)
    {
      framed, frame := false, [];
      if !started {
        if value != OPEN_BRACE {
          return;
        }
        started := true;
        depth := 1;
        builder := [value];
        return;
      }
      builder := builder + [value];
      if escape {
        escape := false;
        return;
      }
      if value == BACKSLASH {
        if inString {
          escape := true;
        }
        return;
      }
      if value == QUOTE {
        inString := !inString;
        return;
      }
      if inString {
        return;
      }
      if value == OPEN_BRACE {
        depth := depth + 1;
      } else if value == CLOSE_BRACE {
        depth := depth - 1;
        if depth == 0 {
          framed, frame := true, builder;
          Reset();
        }
      }
    }

    method Reset()
      modifies this
      ensures Fields() == IDLE
    {
      builder, inString, escape, depth, started := [], false, false, 0, false;
    }
  }

  /** The reader over a stream, with what it returned at each byte. */
  function Feed(r: Reader, bytes: seq<byte>): (run: Run)
    ensures |run.frames| == |bytes|
  {
    if bytes == [] then Run(r, [])
    else
      var n := |bytes| - 1;
      var before := Feed(r, bytes[..n]);
      var (after, frame) := Append(before.reader, bytes[n]);
      Run(after, before.frames + [frame])
  }

  // Brace-balanced text

  datatype StringChar = Plain(b: byte) | Escaped(b: byte) {
    predicate Valid() {
      Plain? ==> b != '"' as byte && b != '\\' as byte
    }

    function Text(): seq<byte> {
      if Plain? then [b] else ['\\' as byte, b]
    }
  }

  function CharsText(chars: seq<StringChar>): seq<byte> {
    if chars == [] then [] else CharsText(chars[..|chars| - 1]) + chars[|chars| - 1].Text()
  }

  predicate CharsValid(chars: seq<StringChar>) {
    forall c | c in chars :: c.Valid()
  }

  /** What stands between the braces of an object: single bytes, strings and objects again. */
  datatype Body =
    | Empty
    | Byte(before: Body, b: byte)
    | Str(before: Body, chars: seq<StringChar>)
    | Nested(before: Body, inner: Body)
  {
    predicate Valid() {
      match this
      case Empty => true
      case Byte(before, b) => before.Valid() && b != '{' as byte && b != '}' as byte && b != '"' as byte
      case Str(before, chars) => before.Valid() && CharsValid(chars)
      case Nested(before, inner) => before.Valid() && inner.Valid()
    }

    function Text(): seq<byte> {
      match this
      case Empty => []
      case Byte(before, b) => before.Text() + [b]
      case Str(before, chars) => before.Text() + (['"' as byte] + CharsText(chars) + ['"' as byte])
      case Nested(before, inner) => before.Text() + (['{' as byte] + inner.Text() + ['}' as byte])
    }
  }

  function ObjectText(body: Body): seq<byte> {
    ['{' as byte] + body.Text() + ['}' as byte]
  }

  /** A stream: bytes outside any object, none an opening brace, and whole objects. */
  datatype Item = Gap(b: byte) | Object(body: Body) {
    predicate Valid() {
      match this
      case Gap(b) => b != '{' as byte
      case Object(body) => body.Valid()
    }

    function Text(): seq<byte> {
      match this
      case Gap(b) => [b]
      case Object(body) => ObjectText(body)
    }

    /** Nothing but the object, at its last byte. */
    function Frames(): seq<Frame> {
      match this
      case Gap(_) => [None]
      case Object(body) => Nothing(|ObjectText(body)| - 1) + [Some(ObjectText(body))]
    }
  }

  function Nothing(n: nat): seq<Frame> {
    seq(n, _ => None)
  }

  function Text(items: seq<Item>): seq<byte> {
    if items == [] then [] else Text(items[..|items| - 1]) + items[|items| - 1].Text()
  }

  function Frames(items: seq<Item>): seq<Frame> {
    if items == [] then [] else Frames(items[..|items| - 1]) + items[|items| - 1].Frames()
  }

  predicate ItemsValid(items: seq<Item>) {
    forall item | item in items :: item.Valid()
  }

  // Every stream of objects is framed

  lemma {:induction false} FeedSplits(r: Reader, a: seq<byte>, b: seq<byte>)
    ensures Feed(r, a + b) ==
      var first := Feed(r, a); var rest := Feed(first.reader, b);
      Run(rest.reader, first.frames + rest.frames)
    decreases |b|
  {
    hide Append;
    if b == [] {
      assert a + b == a;
    } else {
      var n := |b| - 1;
      FeedSplits(r, a, b[..n]);
      assert (a + b)[..|a| + n] == a + b[..n];
    }
  }

  lemma FeedOne(r: Reader, b: byte)
    ensures Feed(r, [b]) == Run(Append(r, b).0, [Append(r, b).1])
  {
    hide Append;
    assert Feed(r, [b][..0]) == Run(r, []);
  }

  predicate InObject(r: Reader) {
    r.started && r.depth >= 1 && !r.inString && !r.escape
  }

  /** These bytes only grow the builder. */
  predicate Grows(r: Reader, text: seq<byte>) {
    Feed(r, text) == Run(r.(builder := r.builder + text), Nothing(|text|))
  }

  lemma GrowsTwice(r: Reader, a: seq<byte>, b: seq<byte>)
    requires Grows(r, a) && Grows(r.(builder := r.builder + a), b)
    ensures Grows(r, a + b)
  {
    hide Feed;
    FeedSplits(r, a, b);
    assert r.builder + (a + b) == r.builder + a + b;
    assert Nothing(|a| + |b|) == Nothing(|a|) + Nothing(|b|);
  }

  lemma GrowsNothing(r: Reader)
    ensures Grows(r, [])
  {
    assert r.builder + [] == r.builder;
    assert Nothing(0) == [];
  }

  lemma CharGrows(r: Reader, c: StringChar)
    requires r.started && r.inString && !r.escape && c.Valid()
    ensures Grows(r, c.Text())
  {
    FeedOne(r, c.Text()[0]);
    if c.Plain? {
      assert Nothing(1) == [None];
    } else {
      FeedSplits(r, [BACKSLASH], [c.b]);
      FeedOne(r.(builder := r.builder + [BACKSLASH], escape := true), c.b);
      assert [BACKSLASH, c.b] == [BACKSLASH] + [c.b];
      assert Nothing(2) == [None] + [None];
      assert r.builder + [BACKSLASH] + [c.b] == r.builder + c.Text();
    }
  }

  lemma {:induction false} CharsGrow(r: Reader, chars: seq<StringChar>)
    requires r.started && r.inString && !r.escape && CharsValid(chars)
    ensures Grows(r, CharsText(chars))
  {
    hide Grows;
    GrowsNothing(r);
    if chars != [] {
      var n := |chars| - 1;
      CharsGrow(r, chars[..n]);
      CharGrows(r.(builder := r.builder + CharsText(chars[..n])), chars[n]);
      GrowsTwice(r, CharsText(chars[..n]), chars[n].Text());
    }
  }

  /** A part that ends what it starts: one byte opens it and one closes it. */
  lemma Enclosed(r: Reader, a: byte, middle: seq<byte>, b: byte)
    requires var (s, none) := Append(r, a); none == None && s.builder == r.builder + [a] && Grows(s, middle)
    ensures
      var (s, _) := Append(r, a);
      var (t, frame) := Append(s.(builder := s.builder + middle), b);
      Feed(r, [a] + middle + [b]) == Run(t, Nothing(1 + |middle|) + [frame])
  {
    hide Append, Feed;
    FeedOne(r, a);
    var (s, _) := Append(r, a);
    FeedSplits(r, [a], middle);
    FeedSplits(r, [a] + middle, [b]);
    FeedOne(s.(builder := s.builder + middle), b);
    assert [None] + Nothing(|middle|) == Nothing(1 + |middle|);
  }

  lemma StringGrows(r: Reader, chars: seq<StringChar>)
    requires InObject(r) && CharsValid(chars)
    ensures Grows(r, [QUOTE] + CharsText(chars) + [QUOTE])
  {
    hide Feed;
    var s := Append(r, QUOTE).0;
    CharsGrow(s, chars);
    Enclosed(r, QUOTE, CharsText(chars), QUOTE);
    var text := [QUOTE] + CharsText(chars) + [QUOTE];
    assert s.builder + CharsText(chars) + [QUOTE] == r.builder + text;
    assert Nothing(1 + |CharsText(chars)|) + [None] == Nothing(|text|);
  }

  lemma {:induction false} BodyGrows(r: Reader, body: Body)
    requires InObject(r) && body.Valid()
    ensures Grows(r, body.Text())
    decreases body
  {
    hide Grows, Append;
    match body {
      case Empty =>
        GrowsNothing(r);
      case Byte(before, b) =>
        BodyGrows(r, before);
        ByteGrows(r.(builder := r.builder + before.Text()), b);
        GrowsTwice(r, before.Text(), [b]);
      case Str(before, chars) =>
        BodyGrows(r, before);
        StringGrows(r.(builder := r.builder + before.Text()), chars);
        GrowsTwice(r, before.Text(), [QUOTE] + CharsText(chars) + [QUOTE]);
      case Nested(before, inner) =>
        BodyGrows(r, before);
        var s := r.(builder := r.builder + before.Text());
        BodyGrows(s.(builder := s.builder + [OPEN_BRACE], depth := s.depth + 1), inner);
        NestedGrows(s, inner);
        GrowsTwice(r, before.Text(), ObjectText(inner));
    }
  }

  lemma ByteGrows(r: Reader, b: byte)
    requires InObject(r) && b != OPEN_BRACE && b != CLOSE_BRACE && b != QUOTE
    ensures Grows(r, [b])
  {
    FeedOne(r, b);
    assert Nothing(1) == [None];
  }

  lemma NestedGrows(r: Reader, inner: Body)
    requires InObject(r)
    requires Grows(r.(builder := r.builder + [OPEN_BRACE], depth := r.depth + 1), inner.Text())
    ensures Grows(r, ObjectText(inner))
  {
    hide Feed;
    Enclosed(r, OPEN_BRACE, inner.Text(), CLOSE_BRACE);
    assert r.builder + [OPEN_BRACE] + inner.Text() + [CLOSE_BRACE] == r.builder + ObjectText(inner);
    assert Nothing(1 + |inner.Text()|) + [None] == Nothing(|ObjectText(inner)|);
  }

  lemma ItemFed(item: Item)
    requires item.Valid()
    ensures Feed(IDLE, item.Text()) == Run(IDLE, item.Frames())
  {
    hide Feed;
    match item {
      case Gap(b) => FeedOne(IDLE, b);
      case Object(body) =>
        BodyGrows(Append(IDLE, OPEN_BRACE).0, body);
        Enclosed(IDLE, OPEN_BRACE, body.Text(), CLOSE_BRACE);
    }
  }

  /** Every object of a stream is returned exactly once, at its last byte and with its exact text. */
  lemma {:induction false} ObjectsAreFramed(items: seq<Item>)
    requires ItemsValid(items)
    ensures Feed(IDLE, Text(items)) == Run(IDLE, Frames(items))
  {
    hide Feed;
    if items == [] {
      NothingFed();
    } else {
      var n := |items| - 1;
      ObjectsAreFramed(items[..n]);
      ItemFed(items[n]);
      FeedSplits(IDLE, Text(items[..n]), items[n].Text());
    }
  }

  lemma NothingFed()
    ensures Feed(IDLE, []) == Run(IDLE, [])
  {
  }

  // Only objects are framed

  /** An unfinished object: the bodies left open, the outermost first, and the string being read. */
  datatype Open = Open(bodies: seq<Body>, chars: Option<seq<StringChar>>, escape: bool) {
    predicate Valid() {
      && (forall body | body in bodies :: body.Valid())
      && (chars.Some? ==> bodies != [] && CharsValid(chars.value))
      && (escape ==> chars.Some?)
    }

    function Text(): seq<byte> {
      OpenText(bodies) +
      (if chars.Some? then [QUOTE] + CharsText(chars.value) else []) +
      (if escape then [BACKSLASH] else [])
    }

    /** The reader in the middle of it. */
    function State(): Reader {
      if bodies == [] then IDLE else Reader(Text(), chars.Some?, escape, |bodies|, true)
    }
  }

  function OpenText(bodies: seq<Body>): seq<byte> {
    if bodies == [] then []
    else OpenText(bodies[..|bodies| - 1]) + ([OPEN_BRACE] + bodies[|bodies| - 1].Text())
  }

  lemma OpenTextOf(outer: seq<Body>, last: Body)
    ensures OpenText(outer + [last]) == OpenText(outer) + ([OPEN_BRACE] + last.Text())
  {
    assert (outer + [last])[..|outer|] == outer;
  }

  lemma CharsTextOf(chars: seq<StringChar>, c: StringChar)
    ensures CharsText(chars + [c]) == CharsText(chars) + c.Text()
  {
    assert (chars + [c])[..|chars|] == chars;
  }

  /** How one byte goes on from `open` to `after`, and what it returns. */
  predicate GoesOn(open: Open, b: byte, after: Open, item: Option<Item>) {
    && after.Valid()
    && match item
       case None => after.Text() == open.Text() + [b] && Append(open.State(), b) == (after.State(), None)
       case Some(i) =>
         && i.Valid() && i.Text() == open.Text() + [b] && after == Open([], None, false)
         && i.Frames() == Nothing(|open.Text()|) + [Append(open.State(), b).1]
         && Append(open.State(), b).0 == IDLE
  }

  lemma OutsideGoesOn(b: byte) returns (after: Open, item: Option<Item>)
    ensures GoesOn(Open([], None, false), b, after, item)
  {
    if b == OPEN_BRACE {
      after, item := Open([Empty], None, false), None;
      OpenTextOf([], Empty);
      assert [] + [Empty] == [Empty];
      assert after.Text() == [b];
    } else {
      after, item := Open([], None, false), Some(Gap(b));
    }
  }

  /** Inside an object it is enough to compare the texts and the flags. */
  lemma GoesOnInside(open: Open, b: byte, after: Open)
    requires open.bodies != [] && after.bodies != [] && after.Valid()
    requires after.Text() == open.Text() + [b]
    requires
      var s := Reader([], open.chars.Some?, open.escape, |open.bodies|, true);
      Append(s, b) == (Reader([] + [b], after.chars.Some?, after.escape, |after.bodies|, true), None)
    ensures GoesOn(open, b, after, None)
  {
    hide Open.Text, Open.Valid, CharsValid;
  }

  lemma StringGoesOn(open: Open, b: byte) returns (after: Open)
    requires open.Valid() && open.chars.Some?
    ensures GoesOn(open, b, after, None)
  {
    hide CharsText, OpenText, GoesOn;
    var n := |open.bodies| - 1;
    var outer, body, chars := open.bodies[..n], open.bodies[n], open.chars.value;
    assert open.bodies == outer + [body] && body in open.bodies;
    if open.escape {
      after := open.(chars := Some(chars + [Escaped(b)]), escape := false);
      CharsTextOf(chars, Escaped(b));
    } else if b == BACKSLASH {
      after := open.(escape := true);
    } else if b == QUOTE {
      var closed := Str(body, chars);
      after := Open(outer + [closed], None, false);
      OpenTextOf(outer, body);
      OpenTextOf(outer, closed);
    } else {
      after := open.(chars := Some(chars + [Plain(b)]));
      CharsTextOf(chars, Plain(b));
    }
    assert after.Text() == open.Text() + [b];
    GoesOnInside(open, b, after);
  }

  lemma BodyGoesOn(open: Open, b: byte) returns (after: Open, item: Option<Item>)
    requires open.Valid() && open.bodies != [] && open.chars.None?
    ensures GoesOn(open, b, after, item)
  {
    hide CharsText, OpenText, GoesOn;
    item := None;
    if b == QUOTE {
      after := open.(chars := Some([]));
      NoChars();
      assert after.Text() == open.Text() + [b];
      GoesOnInside(open, b, after);
    } else if b == OPEN_BRACE {
      after := open.(bodies := open.bodies + [Empty]);
      OpenTextOf(open.bodies, Empty);
      assert after.Text() == open.Text() + [b];
      GoesOnInside(open, b, after);
    } else if b != CLOSE_BRACE {
      var n := |open.bodies| - 1;
      var outer, body := open.bodies[..n], open.bodies[n];
      assert open.bodies == outer + [body] && body in open.bodies;
      OpenTextOf(outer, body);
      after := open.(bodies := outer + [Byte(body, b)]);
      OpenTextOf(outer, Byte(body, b));
      assert after.Text() == open.Text() + [b];
      GoesOnInside(open, b, after);
    } else if |open.bodies| == 1 {
      after, item := ClosesLast(open);
    } else {
      after := Closes(open);
    }
  }

  lemma ClosesLast(open: Open) returns (after: Open, item: Option<Item>)
    requires open.Valid() && |open.bodies| == 1 && open.chars.None?
    ensures GoesOn(open, CLOSE_BRACE, after, item)
  {
    hide CharsText, OpenText;
    var body := open.bodies[0];
    after, item := Open([], None, false), Some(Object(body));
    OpenTextOf([], body);
    NothingOpen();
    assert open.bodies == [] + [body];
    assert open.Text() + [CLOSE_BRACE] == ObjectText(body);
  }

  lemma Closes(open: Open) returns (after: Open)
    requires open.Valid() && |open.bodies| > 1 && open.chars.None?
    ensures GoesOn(open, CLOSE_BRACE, after, None)
  {
    hide CharsText, OpenText, GoesOn;
    var n := |open.bodies| - 2;
    var around, outer, inner := open.bodies[..n], open.bodies[n], open.bodies[n + 1];
    var nested := Nested(outer, inner);
    after := open.(bodies := around + [nested]);
    assert open.bodies == around + [outer] + [inner] && outer in open.bodies && inner in open.bodies;
    OpenTextOf(around + [outer], inner);
    OpenTextOf(around, outer);
    OpenTextOf(around, nested);
    assert after.Text() == open.Text() + [CLOSE_BRACE];
    GoesOnInside(open, CLOSE_BRACE, after);
  }

  lemma ItemsGrow(items: seq<Item>, item: Item)
    ensures Text(items + [item]) == Text(items) + item.Text()
    ensures Frames(items + [item]) == Frames(items) + item.Frames()
  {
    assert (items + [item])[..|items|] == items;
  }

  /** Any stream at all is gaps, whole objects and possibly one object left unfinished; whatever the reader
      returns on it are these objects, and it then waits for the rest of the unfinished one. */
  lemma {:induction false} OnlyObjectsAreFramed(bytes: seq<byte>) returns (items: seq<Item>, open: Open)
    ensures ItemsValid(items) && open.Valid() && bytes == Text(items) + open.Text()
    ensures Feed(IDLE, bytes) == Run(open.State(), Frames(items) + Nothing(|open.Text()|))
  {
    if bytes == [] {
      items, open := [], Open([], None, false);
      assert Nothing(0) == [];
    } else {
      var n := |bytes| - 1;
      assert bytes == bytes[..n] + [bytes[n]];
      items, open := OnlyObjectsAreFramed(bytes[..n]);
      items, open := OneMore(bytes[..n], bytes[n], items, open);
    }
  }

  lemma OneMore(bytes: seq<byte>, b: byte, before: seq<Item>, open: Open)
    returns (items: seq<Item>, after: Open)
    requires ItemsValid(before) && open.Valid() && bytes == Text(before) + open.Text()
    requires Feed(IDLE, bytes) == Run(open.State(), Frames(before) + Nothing(|open.Text()|))
    ensures ItemsValid(items) && after.Valid() && bytes + [b] == Text(items) + after.Text()
    ensures Feed(IDLE, bytes + [b]) == Run(after.State(), Frames(items) + Nothing(|after.Text()|))
  {
    hide Append, Feed, Text, Frames, CharsText, OpenText, Body.Text;
    var item := None;
    if open.bodies == [] {
      after, item := OutsideGoesOn(b);
    } else if open.chars.Some? {
      after := StringGoesOn(open, b);
    } else {
      after, item := BodyGoesOn(open, b);
    }
    FeedSplits(IDLE, bytes, [b]);
    FeedOne(open.State(), b);
    match item {
      case None =>
        items := before;
        assert Nothing(|open.Text()|) + [None] == Nothing(|open.Text()| + 1);
      case Some(i) =>
        items := before + [i];
        ItemsGrow(before, i);
        assert OpenText([]) == [] by { NothingOpen(); }
        assert after.Text() == [] && Nothing(0) == [];
    }
  }

  lemma NoChars()
    ensures CharsText([]) == []
  {
  }

  lemma NothingOpen()
    ensures OpenText([]) == []
  {
  }
}
