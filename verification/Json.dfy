/**
 JSON texts as encoding/json reads and writes them (RFC 8259): a lexer, a parser, the value a text
 decodes to, and the compact printer with sorted keys that CanonicalParams is made of.

 Text is a sequence of code points. Numbers keep their literal. The decoder's nesting cap and
 invalid UTF-8 are not modelled.
 */
module Json {
  import opened Prelude

  datatype Token =
    | LeftBrace | RightBrace | LeftBracket | RightBracket | Colon | Comma
    | Str(text: string) | Num(literal: string) | True | False | Null

  datatype Tree =
    | NullTree
    | BoolTree(value: bool)
    | NumTree(literal: string)
    | StrTree(text: string)
    | ArrTree(items: seq<Tree>)
    | ObjTree(members: seq<Member>)

  datatype Member = Member(key: string, value: Tree)

  // ---- Characters ----

  const BACKSPACE: char := 8 as char
  const FORMFEED: char := 12 as char
  const REPLACEMENT: char := 0xFFFD as char

  predicate IsSpace(c: char) { c in " \t\r\n" }

  function LowerHex(n: nat): (c: char)
    requires n < 16
    ensures IsHex(c) && HexValue(c) == n
  { if n < 10 then DigitOf(n) else ('a' as int + n - 10) as char }

  function HexText(n: nat): string
    requires n < 0x10000
  {
    var a := n / 16; var b := a / 16; var c := b / 16;
    [LowerHex(c), LowerHex(b % 16), LowerHex(a % 16), LowerHex(n % 16)]
  }

  /** Four hexadecimal digits at the start of `s`. */
  function HexQuad(s: string): (r: Option<nat>)
    ensures r.Some? ==> |s| >= 4 && r.value < 0x10000
  {
    if |s| >= 4 && IsHex(s[0]) && IsHex(s[1]) && IsHex(s[2]) && IsHex(s[3]) then
      Some(HexValue(s[0]) * 4096 + HexValue(s[1]) * 256 + HexValue(s[2]) * 16 + HexValue(s[3]))
    else None
  }

  // ---- Strings ----

  /** A character read from a literal and how much text it took. */
  datatype ReadChar = ReadChar(c: char, length: nat)

  /** What follows a backslash and "u": a scalar value, a surrogate pair, or the replacement character. */
  function ReadUnicode(s: string): (r: Option<ReadChar>)
    ensures r.Some? ==> 4 <= r.value.length <= |s|
  {
    match HexQuad(s)
    case None => None
    case Some(v) =>
      if !(0xD800 <= v < 0xE000) then Some(ReadChar(v as char, 4))
      else if v < 0xDC00 && |s| >= 10 && s[4..6] == "\\u" && HexQuad(s[6..]).Some?
              && 0xDC00 <= HexQuad(s[6..]).value < 0xE000 then
        Some(ReadChar((0x10000 + (v - 0xD800) * 0x400 + (HexQuad(s[6..]).value - 0xDC00)) as char, 10))
      else Some(ReadChar(REPLACEMENT, 4))
  }

  /** One character of a string literal, escaped or not; None for a bare control character. */
  function ReadOne(s: string): (r: Option<ReadChar>)
    requires s != ""
    ensures r.Some? ==> 1 <= r.value.length <= |s|
  {
    if s[0] == '\\' then
      if |s| < 2 then None
      else if s[1] == 'u' then
        match ReadUnicode(s[2..])
        case None => None
        case Some(r) => Some(ReadChar(r.c, r.length + 2))
      else match Unescaped(s[1])
        case None => None
        case Some(c) => Some(ReadChar(c, 2))
    else if s[0] < ' ' then None
    else Some(ReadChar(s[0], 1))
  }

  function Unescaped(c: char): Option<char> {
    if c in "\"\\/" then Some(c)
    else if c == 'b' then Some(BACKSPACE) else if c == 'f' then Some(FORMFEED)
    else if c == 'n' then Some('\n') else if c == 'r' then Some('\r') else if c == 't' then Some('\t')
    else None
  }

  /** The rest of a string literal after its opening quote: its text and what follows the closing quote. */
  function ReadString(s: string): (r: Option<(string, string)>)
    ensures r.Some? ==> |r.value.1| < |s|
  {
    if s == "" then None
    else if s[0] == '"' then Some(("", s[1..]))
    else match ReadOne(s)
      case None => None
      case Some(one) =>
        match ReadString(s[one.length..])
        case None => None
        case Some((text, rest)) => Some(([one.c] + text, rest))
  }

  /** The escape json.Marshal writes for one character, or the character itself. */
  function EscapeOne(c: char): string {
    if c == '"' || c == '\\' then ['\\', c]
    else if c == BACKSPACE then "\\b" else if c == FORMFEED then "\\f"
    else if c == '\n' then "\\n" else if c == '\r' then "\\r" else if c == '\t' then "\\t"
    else if c < ' ' || c in "<>&" || c == 0x2028 as char || c == 0x2029 as char then "\\u" + HexText(c as int)
    else [c]
  }

  function EscapeAll(s: string): string {
    if s == "" then "" else EscapeOne(s[0]) + EscapeAll(s[1..])
  }

  lemma HexQuadDigits(w: nat, x: nat, y: nat, z: nat, rest: string)
    requires w < 16 && x < 16 && y < 16 && z < 16
    ensures HexQuad([LowerHex(w), LowerHex(x), LowerHex(y), LowerHex(z)] + rest) ==
            Some(w * 4096 + x * 256 + y * 16 + z)
  {
    var s := [LowerHex(w), LowerHex(x), LowerHex(y), LowerHex(z)] + rest;
    assert s[0] == LowerHex(w) && s[1] == LowerHex(x) && s[2] == LowerHex(y) && s[3] == LowerHex(z);
  }

  lemma HexQuadText(n: nat, rest: string)
    requires n < 0x10000
    ensures HexQuad(HexText(n) + rest) == Some(n)
  {
    var a := n / 16; var b := a / 16; var c := b / 16;
    HexQuadDigits(c, b % 16, a % 16, n % 16, rest);
  }

  lemma ReadEscaped(c: char, rest: string)
    ensures EscapeOne(c) != "" && EscapeOne(c)[0] != '"'
    ensures ReadOne(EscapeOne(c) + rest) == Some(ReadChar(c, |EscapeOne(c)|))
  {
    var e := EscapeOne(c);
    if |e| == 6 {
      assert (e + rest)[2..] == HexText(c as int) + rest;
      HexQuadText(c as int, rest);
    }
  }

  lemma ReadStringStep(e: string, c: char, tail: string, text: string, rest: string)
    requires e != "" && e[0] != '"' && ReadOne(e + tail) == Some(ReadChar(c, |e|))
    requires ReadString(tail) == Some((text, rest))
    ensures ReadString(e + tail) == Some(([c] + text, rest))
  { assert (e + tail)[|e|..] == tail; }

  lemma {:induction false} ReadStringPrinted(s: string, rest: string)
    ensures ReadString(EscapeAll(s) + "\"" + rest) == Some((s, rest))
  {
    if s == "" {
      assert EscapeAll(s) + "\"" + rest == ['"'] + rest;
    } else {
      var e, tail := EscapeOne(s[0]), EscapeAll(s[1..]) + "\"" + rest;
      ReadStringPrinted(s[1..], rest);
      ReadEscaped(s[0], tail);
      ReadStringStep(e, s[0], tail, s[1..], rest);
      assert EscapeAll(s) + "\"" + rest == e + tail;
      assert [s[0]] + s[1..] == s;
    }
  }

  // ---- Numbers ----

  predicate NumberChar(c: char) { IsDigit(c) || c in "+-.eE" }

  function DigitRun(s: string): (n: nat)
    ensures n <= |s|
  { if s != "" && IsDigit(s[0]) then 1 + DigitRun(s[1..]) else 0 }

  function NumberRun(s: string): (n: nat)
    ensures n <= |s|
  { if s != "" && NumberChar(s[0]) then 1 + NumberRun(s[1..]) else 0 }

  /** Exponent, or nothing. */
  predicate ExponentOk(s: string) {
    s == "" || (s[0] in "eE" && var t := s[1..]; var u := if t != "" && t[0] in "+-" then t[1..] else t;
                                u != "" && AllDigits(u))
  }

  /** Fraction and exponent, or nothing. */
  predicate FractionOk(s: string) {
    if s != "" && s[0] == '.' then DigitRun(s[1..]) > 0 && ExponentOk(s[1 + DigitRun(s[1..])..])
    else ExponentOk(s)
  }

  /** The number grammar of section 6 of RFC 8259. */
  predicate NumberOk(s: string) {
    (forall i :: 0 <= i < |s| ==> NumberChar(s[i])) &&
    var t := if s != "" && s[0] == '-' then s[1..] else s;
    t != "" && if t[0] == '0' then FractionOk(t[1..]) else DigitRun(t) > 0 && FractionOk(t[DigitRun(t)..])
  }

  lemma {:induction false} NumberRunExact(lit: string, rest: string)
    requires forall i :: 0 <= i < |lit| ==> NumberChar(lit[i])
    requires rest == "" || !NumberChar(rest[0])
    ensures NumberRun(lit + rest) == |lit|
  {
    if lit == "" {
      assert lit + rest == rest;
    } else {
      NumberRunExact(lit[1..], rest);
      assert (lit + rest)[1..] == lit[1..] + rest;
    }
  }

  lemma {:induction false} DigitRunAll(s: string)
    requires AllDigits(s)
    ensures DigitRun(s) == |s|
  {
    if s != "" {
      DigitRunAll(s[1..]);
    }
  }

  lemma IntTextIsNumber(n: int)
    ensures NumberOk(IntText(n))
  {
    var d := NatText(if n < 0 then -n else n);
    DigitRunAll(d);
    assert n < 0 ==> IntText(n)[1..] == d;
    assert d[|d|..] == "";
  }

  // ---- Lexing ----

  datatype LexOneResult = NoToken | Got(token: Token, rest: string)

  /** One token at the very start of `s`. */
  function LexOne(s: string): (r: LexOneResult)
    ensures r.Got? ==> |r.rest| < |s|
  {
    if s == "" then NoToken
    else if s[0] == '{' then Got(LeftBrace, s[1..])
    else if s[0] == '}' then Got(RightBrace, s[1..])
    else if s[0] == '[' then Got(LeftBracket, s[1..])
    else if s[0] == ']' then Got(RightBracket, s[1..])
    else if s[0] == ':' then Got(Colon, s[1..])
    else if s[0] == ',' then Got(Comma, s[1..])
    else if s[0] == '"' then
      match ReadString(s[1..])
      case None => NoToken
      case Some((text, rest)) => Got(Str(text), rest)
    else if s[0] == '-' || IsDigit(s[0]) then
      var n := NumberRun(s);
      if NumberOk(s[..n]) && n > 0 then Got(Num(s[..n]), s[n..]) else NoToken
    else if "true" <= s then Got(True, s[4..])
    else if "false" <= s then Got(False, s[5..])
    else if "null" <= s then Got(Null, s[4..])
    else NoToken
  }

  /** Tokens, and the text from the first place where no token starts; "" when all of it lexes. */
  datatype Lexed = Lexed(tokens: seq<Token>, rest: string)

  function Lex(s: string): (r: Lexed)
    decreases |s|
  {
    if s != "" && IsSpace(s[0]) then Lex(s[1..])
    else match LexOne(s)
      case NoToken => Lexed([], s)
      case Got(token, rest) => var l := Lex(rest); Lexed([token] + l.tokens, l.rest)
  }

  predicate TokenOk(t: Token) { t.Num? ==> NumberOk(t.literal) }

  predicate TokensOk(ts: seq<Token>) { forall i :: 0 <= i < |ts| ==> TokenOk(ts[i]) }

  lemma {:induction false} LexTokensOk(s: string)
    ensures TokensOk(Lex(s).tokens)
    decreases |s|
  {
    if s != "" && IsSpace(s[0]) {
      LexTokensOk(s[1..]);
    } else if LexOne(s).Got? {
      LexTokensOk(LexOne(s).rest);
    }
  }

  // ---- Printing tokens ----

  function TokenText(t: Token): (s: string) {
    match t
    case LeftBrace => "{" case RightBrace => "}" case LeftBracket => "[" case RightBracket => "]"
    case Colon => ":" case Comma => ","
    case Str(text) => "\"" + EscapeAll(text) + "\""
    case Num(literal) => literal
    case True => "true" case False => "false" case Null => "null"
  }

  predicate AllSpace(s: string) { forall i :: 0 <= i < |s| ==> IsSpace(s[i]) }

  /** The tokens with `gaps[i]` before token i and `gaps[|ts|]` at the end. */
  function SpacedText(ts: seq<Token>, gaps: seq<string>): string
    requires |gaps| == |ts| + 1
  {
    if ts == [] then gaps[0] else gaps[0] + TokenText(ts[0]) + SpacedText(ts[1..], gaps[1..])
  }

  /** Whitespace wherever it is needed to keep two numbers apart. */
  predicate GapsOk(ts: seq<Token>, gaps: seq<string>) {
    && |gaps| == |ts| + 1
    && (forall i :: 0 <= i < |gaps| ==> AllSpace(gaps[i]))
    && (forall i :: 0 < i < |ts| ==> ts[i - 1].Num? && ts[i].Num? ==> gaps[i] != "")
  }

  lemma LexStr(text: string, rest: string)
    ensures LexOne(TokenText(Str(text)) + rest) == Got(Str(text), rest)
  {
    var body := EscapeAll(text) + "\"" + rest;
    ReadStringPrinted(text, rest);
    assert TokenText(Str(text)) + rest == ['"'] + body;
    LexQuoted(body, text, rest);
  }

  lemma LexQuoted(body: string, text: string, rest: string)
    requires ReadString(body) == Some((text, rest))
    ensures LexOne(['"'] + body) == Got(Str(text), rest)
  { assert (['"'] + body)[1..] == body; }

  lemma LexNum(literal: string, rest: string)
    requires NumberOk(literal) && (rest == "" || !NumberChar(rest[0]))
    ensures literal != "" && (literal[0] == '-' || IsDigit(literal[0]))
    ensures LexOne(literal + rest) == Got(Num(literal), rest)
  {
    var s := literal + rest;
    assert literal[0] == '-' || literal[0] == '0' || DigitRun(literal) > 0;
    NumberRunExact(literal, rest);
    assert s[0] == literal[0] && s[..|literal|] == literal && s[|literal|..] == rest;
  }

  lemma LexFixed(t: Token, rest: string)
    requires !t.Str? && !t.Num?
    ensures TokenText(t) != "" && !IsSpace(TokenText(t)[0]) && LexOne(TokenText(t) + rest) == Got(t, rest)
  {
    var s, n := TokenText(t) + rest, |TokenText(t)|;
    assert s[n..] == rest && s[0] == TokenText(t)[0];
  }

  lemma LexTokenText(t: Token, rest: string)
    requires TokenOk(t) && (t.Num? ==> rest == "" || !NumberChar(rest[0]))
    ensures TokenText(t) != "" && !IsSpace(TokenText(t)[0])
    ensures LexOne(TokenText(t) + rest) == Got(t, rest)
  {
    match t
    case Str(text) => LexStr(text, rest);
    case Num(literal) => LexNum(literal, rest);
    case _ => LexFixed(t, rest);
  }

  lemma {:induction false} LexSkipsSpace(gap: string, rest: string)
    requires AllSpace(gap)
    ensures Lex(gap + rest) == Lex(rest)
  {
    if gap == "" {
      assert gap + rest == rest;
    } else {
      LexSkipsSpace(gap[1..], rest);
      assert (gap + rest)[1..] == gap[1..] + rest;
    }
  }

  /** The text after the tokens does not continue a last number. */
  predicate TailOk(ts: seq<Token>, gaps: seq<string>, tail: string)
    requires |gaps| == |ts| + 1
  {
    ts == [] || !ts[|ts| - 1].Num? || gaps[|ts|] != "" || tail == "" || !NumberChar(tail[0])
  }

  lemma TailOkTail(ts: seq<Token>, gaps: seq<string>, tail: string)
    requires ts != [] && |gaps| == |ts| + 1 && TailOk(ts, gaps, tail)
    ensures TailOk(ts[1..], gaps[1..], tail)
  {
    if |ts| > 1 {
      assert ts[1..][|ts| - 2] == ts[|ts| - 1] && gaps[1..][|ts| - 1] == gaps[|ts|];
    }
  }

  /** Spaced tokens lex back to themselves whatever text follows, unless it continues a last number. */
  lemma {:induction false} LexSpacedPrefix(ts: seq<Token>, gaps: seq<string>, tail: string)
    requires TokensOk(ts) && GapsOk(ts, gaps) && TailOk(ts, gaps, tail)
    ensures Lex(SpacedText(ts, gaps) + tail) == Lexed(ts + Lex(tail).tokens, Lex(tail).rest)
  {
    if ts == [] {
      LexSkipsSpace(gaps[0], tail);
      assert ts + Lex(tail).tokens == Lex(tail).tokens;
    } else {
      GapsOkTail(ts, gaps);
      TailOkTail(ts, gaps, tail);
      LexSpacedPrefix(ts[1..], gaps[1..], tail);
      if ts[0].Num? {
        TailStart(ts, gaps, tail);
      }
      SpacedSplit(ts, gaps, tail);
      LexGapAndToken(gaps[0], ts[0], SpacedText(ts[1..], gaps[1..]) + tail);
      HeadAndTail(ts, Lex(tail).tokens);
    }
  }

  lemma HeadAndTail(ts: seq<Token>, more: seq<Token>)
    requires ts != []
    ensures [ts[0]] + (ts[1..] + more) == ts + more
  { }

  lemma LexGapAndToken(gap: string, t: Token, rest: string)
    requires AllSpace(gap) && TokenOk(t) && (t.Num? ==> rest == "" || !NumberChar(rest[0]))
    ensures Lex(gap + (TokenText(t) + rest)) == Lexed([t] + Lex(rest).tokens, Lex(rest).rest)
  {
    LexTokenText(t, rest);
    LexHead(t, rest);
    LexSkipsSpace(gap, TokenText(t) + rest);
  }

  lemma SpacedSplit(ts: seq<Token>, gaps: seq<string>, tail: string)
    requires ts != [] && |gaps| == |ts| + 1
    ensures SpacedText(ts, gaps) + tail == gaps[0] + (TokenText(ts[0]) + (SpacedText(ts[1..], gaps[1..]) + tail))
  { }

  /** Whitespace between tokens never matters: the spaced text lexes back to the tokens. */
  lemma LexSpacedText(ts: seq<Token>, gaps: seq<string>)
    requires TokensOk(ts) && GapsOk(ts, gaps)
    ensures Lex(SpacedText(ts, gaps)) == Lexed(ts, "")
  {
    LexSpacedPrefix(ts, gaps, "");
    assert SpacedText(ts, gaps) + "" == SpacedText(ts, gaps) && ts + [] == ts;
  }

  lemma LexHead(t: Token, rest: string)
    requires TokenText(t) != "" && !IsSpace(TokenText(t)[0]) && LexOne(TokenText(t) + rest) == Got(t, rest)
    ensures Lex(TokenText(t) + rest) == Lexed([t] + Lex(rest).tokens, Lex(rest).rest)
  { assert (TokenText(t) + rest)[0] == TokenText(t)[0]; }

  lemma GapsOkTail(ts: seq<Token>, gaps: seq<string>)
    requires ts != [] && TokensOk(ts) && GapsOk(ts, gaps)
    ensures TokensOk(ts[1..]) && GapsOk(ts[1..], gaps[1..])
  {
    forall i | 0 < i < |ts[1..]| && ts[1..][i - 1].Num? && ts[1..][i].Num? ensures gaps[1..][i] != "" {
      assert ts[(i + 1) - 1].Num? && ts[i + 1].Num?;
    }
  }

  /** What follows a number in a spaced text does not continue it. */
  lemma SpaceIsNoNumber()
    ensures forall c :: IsSpace(c) ==> !NumberChar(c)
  { }

  lemma TailStart(ts: seq<Token>, gaps: seq<string>, tail: string)
    requires ts != [] && TokensOk(ts) && GapsOk(ts, gaps) && ts[0].Num?
    requires |ts| == 1 && gaps[1] == "" ==> tail == "" || !NumberChar(tail[0])
    ensures var rest := SpacedText(ts[1..], gaps[1..]) + tail; rest == "" || !NumberChar(rest[0])
  {
    hide TokenText, NumberChar, IsSpace;
    SpaceIsNoNumber();
    if |ts| == 1 {
      assert SpacedText(ts[1..], gaps[1..]) == gaps[1];
      assert gaps[1] == "" ==> gaps[1] + tail == tail;
    } else {
      var next, more := TokenText(ts[1]), SpacedText(ts[1..][1..], gaps[1..][1..]);
      assert SpacedText(ts[1..], gaps[1..]) == gaps[1] + next + more;
      if gaps[1] != "" {
        assert (gaps[1] + next + more + tail)[0] == gaps[1][0];
      } else {
        assert ts[1 - 1].Num? && !ts[1].Num?;
        TokenStart(ts[1]);
        assert (gaps[1] + next + more + tail)[0] == next[0];
      }
    }
  }

  lemma TokenStart(t: Token)
    requires !t.Num?
    ensures TokenText(t) != "" && !NumberChar(TokenText(t)[0])
  { }
}
