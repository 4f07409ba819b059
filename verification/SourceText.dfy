/** Source text as a programmer writes it: lines with labels, comments and words apart, and numbers in both notations. */
module SourceText {
  import opened Bytes
  import opened Literals
  import opened Lexer

  // Lines

  predicate IsLetter(c: char) {
    'A' <= c <= 'Z' || 'a' <= c <= 'z'
  }

  /** A word of letters, digits, underscores, dots and signs. */
  predicate IsText(w: string) {
    w != "" && forall i | 0 <= i < |w| :: IsLetter(w[i]) || IsDigit(w[i]) || w[i] in "_.-+"
  }

  predicate AllText(words: seq<string>) {
    forall i | 0 <= i < |words| :: IsText(words[i])
  }

  /** What words are kept apart by. */
  predicate IsGlue(s: string) {
    s != "" && forall i | 0 <= i < |s| :: s[i] == ' ' || s[i] == '\t' || s[i] == ','
  }

  predicate IsPadding(s: string) {
    forall i | 0 <= i < |s| :: s[i] == ' ' || s[i] == '\t'
  }

  predicate IsComment(s: string) {
    s == "" || s[0] == ';' || s[0] == '#'
  }

  predicate IsLabel(tag: string, host: Host) {
    IsText(tag) && forall i | 0 <= i < |tag| :: tag[i] == '_' || host.isLetterOrDigit(tag[i])
  }

  lemma TextIsPlain(w: string)
    requires IsText(w)
    ensures PlainWord(w)
  {
  }

  lemma GlueSeparates(s: string)
    requires IsGlue(s)
    ensures forall i | 0 <= i < |s| :: IsSeparator(s[i])
  {
  }

  lemma {:induction false} TrimStartPadding(pad: string, s: string)
    requires IsPadding(pad) && (s != "" ==> !IsWhiteSpace(s[0]))
    ensures TrimStart(pad + s) == s
    decreases pad
  {
    if pad == "" {
      assert pad + s == s;
    } else {
      assert (pad + s)[1..] == pad[1..] + s;
      TrimStartPadding(pad[1..], s);
    }
  }

  lemma {:induction false} TrimEndPadding(s: string, pad: string)
    requires IsPadding(pad) && (s != "" ==> !IsWhiteSpace(s[|s| - 1]))
    ensures TrimEnd(s + pad) == s
    decreases pad
  {
    if pad == "" {
      assert s + pad == s;
    } else {
      var n := |pad| - 1;
      assert (s + pad)[..|s + pad| - 1] == s + pad[..n];
      TrimEndPadding(s, pad[..n]);
    }
  }

  /** A line inside padding. */
  lemma TrimPadding(before: string, s: string, after: string)
    requires IsPadding(before) && IsPadding(after) && s != "" && !IsWhiteSpace(s[0]) && !IsWhiteSpace(s[|s| - 1])
    ensures Trim(before + s + after) == s
  {
    assert before + s + after == before + (s + after);
    assert (s + after)[0] == s[0];
    TrimStartPadding(before, s + after);
    TrimEndPadding(s, after);
  }

  lemma StripText(text: string, comment: string)
    requires IsComment(comment) && forall i | 0 <= i < |text| :: !StartsComment(text[i])
    ensures StripComment(text + comment) == text
  {
    FindAfter(text, comment, StartsComment);
    assert Find(comment, StartsComment) == 0;
    assert (text + comment)[..|text|] == text;
  }

  lemma PaddingIsNoComment(pad: string)
    requires IsPadding(pad)
    ensures forall i | 0 <= i < |pad| :: !StartsComment(pad[i])
  {
  }

  lemma JoinedIsPlain(words: seq<string>, glue: string)
    requires AllText(words) && words != [] && IsGlue(glue)
    ensures PlainLine(Join(words, glue)) && Tokenize(Join(words, glue)) == words
  {
    hide PlainWord, IsText, Tokenize, PlainLine;
    forall i | 0 <= i < |words|
      ensures PlainWord(words[i])
    {
      TextIsPlain(words[i]);
    }
    GlueSeparates(glue);
    JoinIsPlain(words, glue);
    TokenizeJoin(words, glue);
  }

  /** A line without a label. */
  lemma ReadWords(before: string, words: seq<string>, glue: string, after: string, comment: string, number: nat, host: Host)
    requires IsPadding(before) && IsPadding(after) && AllText(words) && words != [] && IsGlue(glue) && IsComment(comment)
    ensures ReadLine(before + Join(words, glue) + after + comment, number, host) == Ok(Some(Line(number, "", words)))
  {
    JoinedIsPlain(words, glue);
    var s := Join(words, glue);
    hide AllText, Join, Tokenize;
    PaddingIsNoComment(before);
    PaddingIsNoComment(after);
    StripText(before + s + after, comment);
    TrimPadding(before, s, after);
    hide Trim, StripComment;
    assert Find(s, c => c == ':') == |s|;
  }

  /** A line with a label: padding may stand anywhere around it. */
  lemma ReadLabelled(before: string, tag: string, between: string, words: seq<string>, glue: string, after: string,
                     comment: string, number: nat, host: Host)
    requires IsPadding(before) && IsPadding(between) && IsPadding(after) && IsComment(comment) && IsLabel(tag, host)
    requires AllText(words) && IsGlue(glue)
    ensures ReadLine(before + (tag + ":" + between + Join(words, glue)) + after + comment, number, host) ==
            Ok(Some(Line(number, tag, words)))
  {
    LabelledParts(before, tag, between, words, glue, after, comment);
    LabelIsText(tag, host);
    var rest := between + Join(words, glue);
    hide Join, Tokenize, AllText, Trim, StripComment, IsLabel;
    var line := Trim(StripComment(before + (tag + ":" + between + Join(words, glue)) + after + comment));
    var colon := Find(line, c => c == ':');
    assert Trim(line[..colon]) == tag && Trim(line[colon + 1..]) == Join(words, glue);
    if words == [] {
      OfNone(glue);
    } else {
      JoinedIsPlain(words, glue);
    }
  }

  lemma LabelIsText(tag: string, host: Host)
    requires IsLabel(tag, host)
    ensures tag != "" && LabelChars(tag, host) && IsText(tag)
  {
  }

  lemma TextFacts(w: string)
    requires IsText(w)
    ensures w != "" && Trim(w) == w && !IsWhiteSpace(w[0]) && forall i | 0 <= i < |w| :: w[i] != ':' && !StartsComment(w[i])
  {
    TextIsPlain(w);
    TrimPlain(w);
  }

  lemma OfNone(glue: string)
    ensures Join([], glue) == "" && Tokenize("") == [] && Trim("") == "" && IsPadding("")
  {
  }

  lemma LabelledLine(before: string, tag: string, core: string, pad: string, comment: string)
    requires IsPadding(before) && IsPadding(pad) && IsComment(comment) && IsText(tag)
    requires tag + ":" <= core && !IsWhiteSpace(core[|core| - 1])
    requires forall i | 0 <= i < |core| :: !StartsComment(core[i])
    ensures Trim(StripComment(before + core + pad + comment)) == core
  {
    hide IsText, IsComment, StripComment, Trim;
    TextFacts(tag);
    PaddingIsNoComment(before);
    PaddingIsNoComment(pad);
    StripText(before + core + pad, comment);
    assert core[0] == tag[0];
    TrimPadding(before, core, pad);
  }

  lemma LabelCut(tag: string, rest: string)
    requires IsText(tag)
    ensures
      var line := tag + ":" + rest;
      var colon := Find(line, c => c == ':');
      colon < |line| && line[..colon] == tag && line[colon + 1..] == rest
  {
    TextFacts(tag);
    hide IsText;
    var line := tag + ":" + rest;
    assert line[|tag|] == ':' && forall i | 0 <= i < |tag| :: line[i] == tag[i];
    assert Find(line, c => c == ':') == |tag|;
  }

  lemma LabelledParts(before: string, tag: string, between: string, words: seq<string>, glue: string, after: string,
                      comment: string)
    requires IsPadding(before) && IsPadding(between) && IsPadding(after) && IsComment(comment) && IsText(tag)
    requires AllText(words) && IsGlue(glue)
    ensures
      var line := Trim(StripComment(before + (tag + ":" + between + Join(words, glue)) + after + comment));
      var colon := Find(line, c => c == ':');
      && colon < |line| && Trim(line[..colon]) == tag && Trim(line[colon + 1..]) == Join(words, glue)
  {
    hide *;
    var joined := Join(words, glue);
    TextFacts(tag);
    OfNone(glue);
    if words == [] {
      assert before + (tag + ":" + between + joined) + after == before + (tag + ":" + "") + (between + after);
      assert IsPadding(between + after) by { PaddingJoins(between, after); }
      assert !IsWhiteSpace(':') && !StartsComment(':') by { ColonIsPlain(); }
      LabelledLine(before, tag, tag + ":" + "", between + after, comment);
      LabelCut(tag, "");
    } else {
      JoinedIsPlain(words, glue);
      PlainParts(joined);
      PaddingIsNoComment(between);
      assert !StartsComment(':') by { ColonIsPlain(); }
      var core := tag + ":" + (between + joined);
      assert before + (tag + ":" + between + joined) + after == before + core + after;
      assert core[|core| - 1] == joined[|joined| - 1];
      LabelledLine(before, tag, core, after, comment);
      LabelCut(tag, between + joined);
      assert between + joined + "" == between + joined;
      TrimPadding(between, joined, "");
    }
  }

  lemma PlainParts(s: string)
    requires PlainLine(s)
    ensures s != "" && !IsWhiteSpace(s[0]) && !IsWhiteSpace(s[|s| - 1]) && forall i | 0 <= i < |s| :: !StartsComment(s[i])
  {
  }

  lemma PaddingJoins(a: string, b: string)
    requires IsPadding(a) && IsPadding(b)
    ensures IsPadding(a + b)
  {
  }

  lemma ColonIsPlain()
    ensures !IsWhiteSpace(':') && !StartsComment(':')
  {
  }

  // Numbers

  predicate IsHexDigits(digits: string) {
    digits == "0123456789ABCDEF" || digits == "0123456789abcdef"
  }

  /** The number in hexadecimal, in capital or small letters. */
  function Hex(n: nat, digits: string): (s: string)
    requires IsHexDigits(digits)
    ensures s != ""
  {
    if n < 16 then [digits[n]] else Hex(n / 16, digits) + [digits[n % 16]]
  }

  lemma DigitReads(n: nat, digits: string)
    requires n < 16 && IsHexDigits(digits)
    ensures |digits| == 16 && HexDigit(digits[n]) == Some(n) && digits[n] != '+' && digits[n] != 'x' && digits[n] != 'X'
  {
  }

  lemma {:induction false} HexReads(n: nat, digits: string)
    requires IsHexDigits(digits)
    ensures DigitsValue(Hex(n, digits), 16) == Some(n) && Hex(n, digits)[0] != '+'
    ensures |Hex(n, digits)| >= 2 ==> Hex(n, digits)[1] != 'x' && Hex(n, digits)[1] != 'X'
  {
    hide IsHexDigits, HexDigit;
    DigitReads(n % 16, digits);
    if 16 <= n {
      HexReads(n / 16, digits);
      assert Hex(n, digits)[..|Hex(n, digits)| - 1] == Hex(n / 16, digits);
    }
  }

  /** Hexadecimal numbers read back, where they are in range and nowhere else. */
  lemma HexNumbersRead(n: nat, digits: string, prefix: string)
    requires IsHexDigits(digits)
    requires prefix == "0x" || prefix == "0X"
    ensures
      var text := prefix + Hex(n, digits);
      && UInt32Value(text) == (if n <= 0xFFFF_FFFF then Some(n) else None)
      && Int32Pattern(text) == (if n <= 0xFFFF_FFFF then Some(n) else None)
      && UInt16Value(text) == (if n <= 0xFFFF then Some(n) else None)
      && Int16Pattern(text) == (if n <= 0xFFFF then Some(n) else None)
      && ByteValue(text) == (if n <= 0xFF then Some(n) else None)
  {
    HexReads(n, digits);
    hide Hex, DigitsValue, IsHexDigits;
    assert (prefix + Hex(n, digits))[2..] == Hex(n, digits);
    assert HexValue(Hex(n, digits)) == Some(n);
  }

  /** And so do decimal numbers. */
  lemma NumbersRead(i: int)
    ensures
      var text := SignedDecimal(i);
      && UInt32Value(text) == (if 0 <= i <= 0xFFFF_FFFF then Some(i) else None)
      && Int32Pattern(text) == (if -0x8000_0000 <= i <= 0x7FFF_FFFF then Some(i % 0x1_0000_0000) else None)
      && UInt16Value(text) == (if 0 <= i <= 0xFFFF then Some(i) else None)
      && Int16Pattern(text) == (if -0x8000 <= i <= 0x7FFF then Some(i % 0x1_0000) else None)
      && ByteValue(text) == (if 0 <= i <= 0xFF then Some(i) else None)
  {
    IntegerOfSignedDecimal(i);
    hide SignedDecimal, IntegerValue;
  }
}
