/** From a line of source text to a label and words. */
module Lexer {
  import opened Bytes

  /** Functions of the .NET runtime the assembler and the disassembler call. */
  datatype Host = Host(
    isLetterOrDigit: char -> bool,
    parseFloat: string -> Option<u32>,  // float.Parse, then the bits of the result
    formatFloat: u32 -> string  // the round-trip format of the float with these bits
  )

  /** char.IsWhiteSpace */
  predicate IsWhiteSpace(c: char) {
    var u := c as int;
    0x09 <= u <= 0x0D || u == 0x20 || u == 0x85 || u == 0xA0 || u == 0x1680 || 0x2000 <= u <= 0x200A ||
    u == 0x2028 || u == 0x2029 || u == 0x202F || u == 0x205F || u == 0x3000
  }

  predicate IsSeparator(c: char) {
    c == ' ' || c == '\t' || c == ','
  }

  predicate StartsComment(c: char) {
    c == ';' || c == '#'
  }

  /** The position of the first character that satisfies `p`, or the length. */
  function Find(s: string, p: char -> bool): (n: nat)
    ensures n <= |s|
    ensures forall i | 0 <= i < n :: !p(s[i])
    ensures n < |s| ==> p(s[n])
  {
    if s == [] || p(s[0]) then 0 else 1 + Find(s[1..], p)
  }

  function TrimStart(s: string): string {
    if s != [] && IsWhiteSpace(s[0]) then TrimStart(s[1..]) else s
  }

  function TrimEnd(s: string): string {
    if s != [] && IsWhiteSpace(s[|s| - 1]) then TrimEnd(s[..|s| - 1]) else s
  }

  function Trim(s: string): string {
    TrimEnd(TrimStart(s))
  }

  function StripComment(s: string): string {
    s[..Find(s, StartsComment)]
  }

  /** The words of a line, split at separators. A word of white space only comes out empty. */
  function Tokenize(s: string): seq<string> {
    if s == [] then []
    else if IsSeparator(s[0]) then Tokenize(s[1..])
    else
      var n := Find(s, IsSeparator);
      [Trim(s[..n])] + Tokenize(s[n..])
  }

  /** A source line: the label declared on it (empty if none) and its words. */
  datatype Line = Line(number: nat, tag: string, tokens: seq<string>)

  datatype LineError = LabelMissing | LabelInvalid

  predicate LabelChars(tag: string, host: Host) {
    forall i | 0 <= i < |tag| :: host.isLetterOrDigit(tag[i]) || tag[i] == '_'
  }

  /** ParseSourceLine: nothing for a blank line. */
  function ReadLine(text: string, number: nat, host: Host): Result<Option<Line>, LineError> {
    var line := Trim(StripComment(text));
    var colon := Find(line, c => c == ':');
    if line == [] then Ok(None)
    else if colon == |line| then
      var tokens := Tokenize(line);
      Ok(if tokens == [] then None else Some(Line(number, "", tokens)))
    else
      var tag := Trim(line[..colon]);
      if tag == "" then Err(LabelMissing)
      else if !LabelChars(tag, host) then Err(LabelInvalid)
      else Ok(Some(Line(number, tag, Tokenize(Trim(line[colon + 1..])))))
  }

  // Words that the lexer gives back unchanged

  predicate PlainChar(c: char) {
    !IsSeparator(c) && !StartsComment(c) && c != ':'
  }

  predicate PlainWord(w: string) {
    && w != []
    && !IsWhiteSpace(w[0])
    && !IsWhiteSpace(w[|w| - 1])
    && forall i | 0 <= i < |w| :: PlainChar(w[i])
  }

  /** Words joined by single separators and spaces, as the disassembler prints them: a space after
      the first word, then `glue` between words. */
  function Join(words: seq<string>, glue: string): string {
    if words == [] then ""
    else if |words| == 1 then words[0]
    else words[0] + glue + Join(words[1..], glue)
  }

  lemma TrimPlain(w: string)
    requires w != [] && !IsWhiteSpace(w[0]) && !IsWhiteSpace(w[|w| - 1])
    ensures Trim(w) == w
  {
  }

  lemma {:induction false} FindAfter(a: string, b: string, p: char -> bool)
    requires forall i | 0 <= i < |a| :: !p(a[i])
    ensures Find(a + b, p) == |a| + Find(b, p)
  {
    if a == [] {
      assert a + b == b;
    } else {
      assert (a + b)[1..] == a[1..] + b;
      FindAfter(a[1..], b, p);
    }
  }

  lemma TokenizeWord(w: string, rest: string)
    requires PlainWord(w) && (rest == "" || IsSeparator(rest[0]))
    ensures Tokenize(w + rest) == [w] + Tokenize(rest)
  {
    var s := w + rest;
    FindAfter(w, rest, IsSeparator);
    assert Find(rest, IsSeparator) == 0;
    assert s[..|w|] == w && s[|w|..] == rest;
    TrimPlain(w);
  }

  lemma {:induction false} TokenizeGlue(glue: string, rest: string)
    requires forall i | 0 <= i < |glue| :: IsSeparator(glue[i])
    ensures Tokenize(glue + rest) == Tokenize(rest)
  {
    if glue == "" {
      assert glue + rest == rest;
    } else {
      assert (glue + rest)[1..] == glue[1..] + rest;
      TokenizeGlue(glue[1..], rest);
    }
  }

  lemma {:induction false} TokenizeJoin(words: seq<string>, glue: string)
    requires forall i | 0 <= i < |words| :: PlainWord(words[i])
    requires glue != "" && forall i | 0 <= i < |glue| :: IsSeparator(glue[i])
    ensures Tokenize(Join(words, glue)) == words
  {
    if |words| == 1 {
      assert words[0] + "" == words[0];
      TokenizeWord(words[0], "");
    } else if |words| > 1 {
      var rest := Join(words[1..], glue);
      assert Join(words, glue) == words[0] + (glue + rest);
      TokenizeWord(words[0], glue + rest);
      TokenizeGlue(glue, rest);
      TokenizeJoin(words[1..], glue);
    }
  }

  predicate PlainLine(s: string) {
    && s != []
    && !IsWhiteSpace(s[0])
    && !IsWhiteSpace(s[|s| - 1])
    && forall i | 0 <= i < |s| :: !StartsComment(s[i]) && s[i] != ':'
  }

  lemma PlainGlue(w: string, glue: string, rest: string)
    requires PlainWord(w) && PlainLine(rest)
    requires forall i | 0 <= i < |glue| :: IsSeparator(glue[i])
    ensures PlainLine(w + glue + rest)
  {
    var s := w + glue + rest;
    assert s[|s| - 1] == rest[|rest| - 1];
    forall i | 0 <= i < |s|
      ensures !StartsComment(s[i]) && s[i] != ':'
    {
      assert s[i] == if i < |w| then w[i] else if i < |w| + |glue| then glue[i - |w|] else rest[i - |w| - |glue|];
    }
  }

  lemma {:induction false} JoinIsPlain(words: seq<string>, glue: string)
    requires words != [] && forall i | 0 <= i < |words| :: PlainWord(words[i])
    requires forall i | 0 <= i < |glue| :: IsSeparator(glue[i])
    ensures PlainLine(Join(words, glue))
  {
    if |words| > 1 {
      JoinIsPlain(words[1..], glue);
      PlainGlue(words[0], glue, Join(words[1..], glue));
    }
  }

  lemma ReadPlainLine(s: string, number: nat, host: Host)
    requires PlainLine(s)
    ensures ReadLine(s, number, host) ==
            Ok(if Tokenize(s) == [] then None else Some(Line(number, "", Tokenize(s))))
  {
    var n := Find(s, StartsComment);
    assert StripComment(s) == s;
    TrimPlain(s);
    assert Find(s, c => c == ':') == |s|;
  }

  function PrintLine(keyword: string, operands: seq<string>): string {
    if operands == [] then keyword else keyword + " " + Join(operands, ", ")
  }

  /** A line printed as a keyword, a space and operands joined by ", " reads back as its words. */
  lemma ReadPrintedLine(keyword: string, operands: seq<string>, number: nat, host: Host)
    requires PlainWord(keyword) && forall i | 0 <= i < |operands| :: PlainWord(operands[i])
    ensures ReadLine(PrintLine(keyword, operands), number, host) == Ok(Some(Line(number, "", [keyword] + operands)))
  {
    hide ReadLine;
    hide Tokenize;
    PrintedLineTokens(keyword, operands);
    ReadPlainLine(PrintLine(keyword, operands), number, host);
  }

  lemma PrintedLineTokens(keyword: string, operands: seq<string>)
    requires PlainWord(keyword) && forall i | 0 <= i < |operands| :: PlainWord(operands[i])
    ensures PlainLine(PrintLine(keyword, operands))
    ensures Tokenize(PrintLine(keyword, operands)) == [keyword] + operands
  {
    if operands == [] {
      assert keyword + "" == keyword;
      TokenizeWord(keyword, "");
    } else {
      JoinIsPlain(operands, ", ");
      PlainGlue(keyword, " ", Join(operands, ", "));
      TokenizeKeyword(keyword, operands);
    }
  }

  lemma TokenizeKeyword(keyword: string, operands: seq<string>)
    requires PlainWord(keyword) && forall i | 0 <= i < |operands| :: PlainWord(operands[i])
    ensures Tokenize(keyword + " " + Join(operands, ", ")) == [keyword] + operands
  {
    var joined := Join(operands, ", ");
    assert keyword + " " + joined == keyword + (" " + joined);
    TokenizeWord(keyword, " " + joined);
    TokenizeGlue(" ", joined);
    TokenizeJoin(operands, ", ");
  }

  // What every word the lexer returns looks like

  /** No separator, comment or surrounding white space; a colon is possible behind a label. */
  predicate Clean(w: string) {
    && (w != [] ==> !IsWhiteSpace(w[0]) && !IsWhiteSpace(w[|w| - 1]))
    && forall i | 0 <= i < |w| :: !IsSeparator(w[i]) && !StartsComment(w[i])
  }

  lemma CleanIsPlain(w: string)
    requires Clean(w)
    ensures PlainWord(w) <==> w != [] && ':' !in w
  {
  }

  lemma {:induction false} TrimEndKeeps(s: string)
    ensures TrimEnd(s) <= s
    ensures TrimEnd(s) != [] ==> !IsWhiteSpace(TrimEnd(s)[|TrimEnd(s)| - 1])
    ensures forall i | |TrimEnd(s)| <= i < |s| :: IsWhiteSpace(s[i])
    decreases |s|
  {
    if s != [] && IsWhiteSpace(s[|s| - 1]) {
      TrimEndKeeps(s[..|s| - 1]);
    }
  }

  lemma {:induction false} TrimStartKeeps(s: string)
    ensures |TrimStart(s)| <= |s| && TrimStart(s) == s[|s| - |TrimStart(s)|..]
    ensures TrimStart(s) != [] ==> !IsWhiteSpace(TrimStart(s)[0])
    decreases |s|
  {
    if s != [] && IsWhiteSpace(s[0]) {
      TrimStartKeeps(s[1..]);
    }
  }

  lemma TrimKeeps(s: string)
    ensures Trim(s) != [] ==> !IsWhiteSpace(Trim(s)[0]) && !IsWhiteSpace(Trim(s)[|Trim(s)| - 1])
    ensures forall c | c in Trim(s) :: c in s
  {
    TrimStartKeeps(s);
    TrimEndKeeps(TrimStart(s));
  }

  lemma {:induction false} TokensAreClean(s: string)
    requires forall c | c in s :: !StartsComment(c)
    ensures forall t | t in Tokenize(s) :: Clean(t)
    decreases |s|
  {
    if s != [] {
      if IsSeparator(s[0]) {
        TokensAreClean(s[1..]);
      } else {
        var n := Find(s, IsSeparator);
        TokensAreClean(s[n..]);
        TrimKeeps(s[..n]);
        assert forall c | c in s[..n] :: c in s && !IsSeparator(c);
      }
    }
  }

  lemma ReadLineIsClean(text: string, number: nat, host: Host)
    requires ReadLine(text, number, host).Ok? && ReadLine(text, number, host).value.Some?
    ensures forall t | t in ReadLine(text, number, host).value.value.tokens :: Clean(t)
  {
    hide Tokenize, Clean, Trim;
    var line := Trim(StripComment(text));
    TrimKeeps(StripComment(text));
    assert forall c | c in line :: !StartsComment(c);
    var colon := Find(line, c => c == ':');
    if colon == |line| {
      TokensAreClean(line);
    } else {
      TrimKeeps(line[colon + 1..]);
      assert forall c | c in line[colon + 1..] :: c in line;
      TokensAreClean(Trim(line[colon + 1..]));
    }
  }
}
