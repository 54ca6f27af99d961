/**
 The grammar of RFC 8259 by what generates it, and that the decoder reads exactly what it generates.

 A spelling is given piece by piece: the escapes of a string's characters (section 7), the parts of a number
 (section 6), blanks between tokens (section 2), and the tokens of a value in its own order (sections 3 to 5).
 */
module JsonGrammar {
  import opened Prelude
  import opened Json
  import opened Canonical

  // ---- The characters of a string ----

  predicate ShortEscape(e: char, c: char) {
    || (e == c && c in "\"\\/")
    || (e == 'b' && c as int == 8) || (e == 't' && c as int == 9) || (e == 'n' && c as int == 10)
    || (e == 'f' && c as int == 12) || (e == 'r' && c as int == 13)
  }

  predicate High(v: int) { 0xD800 <= v < 0xDC00 }

  predicate Low(v: int) { 0xDC00 <= v < 0xE000 }

  /** The number that a backslash, "u" and four digits at the start of the text spell, or -1. */
  function Unit(p: string): int {
    if |p| >= 6 && p[0] == '\\' && p[1] == 'u' && HexQuad(p[2..]).Some? then HexQuad(p[2..]).value else -1
  }

  /** This piece of a literal spells this character, with this text behind it. */
  predicate Spells(p: string, c: char, next: string) {
    || (p == [c] && c >= ' ' && c != '"' && c != '\\')
    || (|p| == 2 && p[0] == '\\' && ShortEscape(p[1], c))
    || (|p| == 6 && Unit(p) == c as int && !High(c as int) && !Low(c as int))
    || (|p| == 12 && c as int >= 0x10000
        && Unit(p) == 0xD800 + (c as int - 0x10000) / 0x400
        && Unit(p[6..]) == 0xDC00 + (c as int - 0x10000) % 0x400)
    || (|p| == 6 && c == REPLACEMENT && (Low(Unit(p)) || (High(Unit(p)) && !Low(Unit(next)))))
  }

  lemma QuadIs(s: string, t: string)
    requires |s| >= 4 && |t| >= 4 && s[..4] == t[..4]
    ensures HexQuad(s) == HexQuad(t)
  { assert s[0] == s[..4][0] && s[1] == s[..4][1] && s[2] == s[..4][2] && s[3] == s[..4][3]; }

  /** A unit is decided by six characters. */
  lemma UnitIs(s: string, n: nat)
    requires 6 <= n <= |s|
    ensures Unit(s[..n]) == Unit(s)
  {
    assert s[..n][2..][..4] == s[2..][..4];
    QuadIs(s[..n][2..], s[2..]);
  }

  lemma PairIs(v: int, w: int, c: int)
    requires High(v) && Low(w)
    ensures c == 0x10000 + (v - 0xD800) * 0x400 + (w - 0xDC00) <==>
            c >= 0x10000 && v == 0xD800 + (c - 0x10000) / 0x400 && w == 0xDC00 + (c - 0x10000) % 0x400
    ensures 0x10000 <= 0x10000 + (v - 0xD800) * 0x400 + (w - 0xDC00) < 0x110000
  { }

  /** A short or bare piece. */
  lemma PlainExactly(s: string, c: char, n: nat)
    requires s != "" && s[0] != '"' && !(s[0] == '\\' && |s| >= 2 && s[1] == 'u')
    ensures ReadOne(s) == Some(ReadChar(c, n)) <==> 1 <= n <= |s| && Spells(s[..n], c, s[n..])
  {
    hide HexQuad;
    if 1 <= n <= |s| {
      assert s[..n][0] == s[0] && (n >= 2 ==> s[..n][1] == s[1]);
      assert s[..1] == [s[0]];
      assert Unit(s[..n]) == -1;
    }
  }

  lemma UnicodeIs(s: string)
    requires |s| >= 2 && s[0] == '\\' && s[1] == 'u'
    ensures Unit(s) >= 0 ==> |s| >= 6 && Unit(s) < 0x10000
    ensures var v, w := Unit(s), if |s| >= 6 then Unit(s[6..]) else -1;
            ReadUnicode(s[2..]) ==
            if v < 0 then None
            else if !High(v) && !Low(v) then Some(ReadChar(v as char, 4))
            else if High(v) && Low(w) then Some(ReadChar((0x10000 + (v - 0xD800) * 0x400 + (w - 0xDC00)) as char, 10))
            else Some(ReadChar(REPLACEMENT, 4))
  {
    hide HexQuad;
    QuadShort(s[2..]);
    if |s| >= 6 {
      PairStart(s);
      if |s| >= 8 {
        assert s[2..][6..] == s[6..][2..];
        QuadShort(s[6..][2..]);
      }
    }
  }

  /** An escape by number. */
  lemma UnitExactly(s: string, c: char, n: nat)
    requires |s| >= 2 && s[0] == '\\' && s[1] == 'u'
    ensures ReadOne(s) == Some(ReadChar(c, n)) <==> 1 <= n <= |s| && Spells(s[..n], c, s[n..])
  {
    hide HexQuad, Unit, ReadUnicode;
    UnicodeIs(s);
    var v, w := Unit(s), if |s| >= 6 then Unit(s[6..]) else -1;
    if 1 <= n <= |s| {
      assert s[..n][0] == s[0] && (n >= 2 ==> s[..n][1] == s[1]);
      if n >= 6 {
        UnitIs(s, n);
      }
    }
    if High(v) && Low(w) {
      PairIs(v, w, c as int);
      LowLength(s[6..]);
      UnitSlice(s);
    }
    if n == 12 <= |s| {
      UnitSlice(s);
      UnitOfPair(s, c);
    }
  }

  lemma LowLength(s: string)
    ensures Unit(s) >= 0 ==> |s| >= 6
  { QuadShort(if |s| >= 2 then s[2..] else ""); }

  /** A pair of units spells one character only. */
  lemma UnitOfPair(s: string, c: char)
    requires |s| >= 12
    ensures c as int >= 0x10000 && Unit(s) == 0xD800 + (c as int - 0x10000) / 0x400
            && Unit(s[6..]) == 0xDC00 + (c as int - 0x10000) % 0x400 ==>
              High(Unit(s)) && Low(Unit(s[6..]))
              && c as int == 0x10000 + (Unit(s) - 0xD800) * 0x400 + (Unit(s[6..]) - 0xDC00)
  { hide Unit; }

  lemma QuadShort(s: string)
    ensures HexQuad(s).Some? ==> |s| >= 4 && 0 <= HexQuad(s).value < 0x10000
  { }

  lemma PairStart(s: string)
    requires |s| >= 6
    ensures |s[2..]| >= 10 && s[2..][4..6] == "\\u" <==> |s| >= 12 && s[6] == '\\' && s[7] == 'u'
  {
    if |s| >= 12 {
      assert s[2..][4..6] == [s[6], s[7]];
    }
  }

  lemma UnitSlice(s: string)
    requires |s| >= 12
    ensures Unit(s[..12][6..]) == Unit(s[6..])
  {
    assert s[..12][6..] == s[6..][..6];
    UnitIs(s[6..], 6);
  }

  /** Reading one character takes exactly the piece that spells it. */
  lemma OneExactly(s: string, c: char, n: nat)
    requires s != "" && s[0] != '"'
    ensures ReadOne(s) == Some(ReadChar(c, n)) <==> 1 <= n <= |s| && Spells(s[..n], c, s[n..])
  {
    if s[0] == '\\' && |s| >= 2 && s[1] == 'u' {
      UnitExactly(s, c, n);
    } else {
      PlainExactly(s, c, n);
    }
  }

  // ---- A string ----

  /** The text of a literal after its opening quote: pieces that spell its characters, the quote, and the rest. */
  ghost predicate Literal(s: string, text: string, rest: string)
    decreases |text|
  {
    if text == "" then s == "\"" + rest
    else s != "" && s[0] != '"' && exists n: nat :: PieceAt(s, text[0], n) && Literal(s[n..], text[1..], rest)
  }

  predicate PieceAt(s: string, c: char, n: nat) { 1 <= n <= |s| && Spells(s[..n], c, s[n..]) }

  lemma {:induction false} LiteralExactly(s: string, text: string, rest: string)
    ensures ReadString(s) == Some((text, rest)) <==> Literal(s, text, rest)
    decreases |s|
  {
    hide ReadOne, Spells;
    if s != "" && s[0] == '"' {
      assert s == "\"" + s[1..];
      assert s == "\"" + rest ==> rest == s[1..];
    } else if s != "" {
      LiteralStep(s, text, rest);
    }
  }

  lemma {:induction false} LiteralStep(s: string, text: string, rest: string)
    requires s != "" && s[0] != '"'
    ensures ReadString(s) == Some((text, rest)) <==> Literal(s, text, rest)
    decreases |s|, 0
  {
    hide ReadOne, Spells;
    var one := ReadOne(s);
    forall c, n: nat ensures PieceAt(s, c, n) <==> one == Some(ReadChar(c, n)) {
      OneExactly(s, c, n);
    }
    if one.Some? {
      var n := one.value.length;
      if text != "" {
        LiteralExactly(s[n..], text[1..], rest);
        assert text == [text[0]] + text[1..];
      }
      if ReadString(s[n..]).Some? {
        var t := [one.value.c] + ReadString(s[n..]).value.0;
        assert t[1..] == ReadString(s[n..]).value.0;
      }
    }
  }

  // ---- A number ----

  predicate Digits(s: string) { s != "" && AllDigits(s) }

  /** No leading zero. */
  predicate Whole(s: string) { Digits(s) && (|s| > 1 ==> s[0] != '0') }

  predicate Fraction(s: string) { s == "" || (s[0] == '.' && Digits(s[1..])) }

  predicate Exponent(s: string) {
    s == "" || (s[0] in "eE" && (Digits(s[1..]) || (|s| > 1 && s[1] in "+-" && Digits(s[2..]))))
  }

  /** Sign, whole part, fraction and exponent, cut at these places. */
  predicate NumberAt(s: string, a: nat, b: nat, c: nat) {
    a <= b <= c <= |s| && (s[..a] == "" || s[..a] == "-") && Whole(s[a..b]) && Fraction(s[b..c]) && Exponent(s[c..])
  }

  ghost predicate Number(s: string) { exists a: nat, b: nat, c: nat :: NumberAt(s, a, b, c) }

  lemma {:induction false} DigitRunIs(s: string)
    ensures AllDigits(s[..DigitRun(s)]) && (DigitRun(s) < |s| ==> !IsDigit(s[DigitRun(s)]))
  {
    if s != "" && IsDigit(s[0]) {
      DigitRunIs(s[1..]);
      assert s[..DigitRun(s)] == [s[0]] + s[1..][..DigitRun(s[1..])];
    }
  }

  lemma {:induction false} DigitRunStops(s: string, n: nat)
    requires n <= |s| && AllDigits(s[..n]) && (n < |s| ==> !IsDigit(s[n]))
    ensures DigitRun(s) == n
  {
    if n > 0 {
      assert s[0] == s[..n][0] && s[1..][..n - 1] == s[..n][1..];
      DigitRunStops(s[1..], n - 1);
    }
  }

  lemma ExponentIs(s: string)
    ensures ExponentOk(s) <==> Exponent(s)
    ensures Exponent(s) ==> forall i :: 0 <= i < |s| ==> NumberChar(s[i])
  {
    if |s| > 1 {
      assert s[1..][1..] == s[2..];
    }
  }

  /** Where the fraction of a text that goes on with fraction and exponent ends. */
  function FractionEnd(s: string): (n: nat)
    ensures n <= |s|
  { if s != "" && s[0] == '.' then 1 + DigitRun(s[1..]) else 0 }

  lemma FractionIs(s: string)
    ensures FractionOk(s) <==> exists n: nat :: n <= |s| && Fraction(s[..n]) && Exponent(s[n..])
    ensures FractionOk(s) ==> Fraction(s[..FractionEnd(s)]) && Exponent(s[FractionEnd(s)..])
    ensures FractionOk(s) ==> forall i :: 0 <= i < |s| ==> NumberChar(s[i])
  {
    hide DigitRun, Exponent, ExponentOk, NumberChar;
    var m := FractionEnd(s);
    ExponentIs(s[m..]);
    assert s[0..] == s;
    if s != "" && s[0] == '.' {
      PointIs(s);
      forall n: nat | n <= |s| && Fraction(s[..n]) && Exponent(s[n..]) ensures n == m {
        PointEnds(s, n);
      }
    } else {
      forall n: nat | n <= |s| && Fraction(s[..n]) ensures n == 0 {
        FractionStarts(s, n);
      }
    }
  }

  lemma PointIs(s: string)
    requires s != "" && s[0] == '.'
    ensures var m := FractionEnd(s);
            (DigitRun(s[1..]) > 0 <==> Fraction(s[..m])) && (forall i :: 0 <= i < m ==> NumberChar(s[i]))
  {
    var m := FractionEnd(s);
    DigitRunIs(s[1..]);
    assert s[..m][1..] == s[1..][..DigitRun(s[1..])];
    assert forall i :: 0 < i < m ==> s[i] == s[..m][1..][i - 1];
  }

  lemma PointEnds(s: string, n: nat)
    requires s != "" && s[0] == '.' && n <= |s| && Fraction(s[..n]) && Exponent(s[n..])
    ensures n == FractionEnd(s)
  {
    assert s[0..] == s;
    if n > 0 {
      assert s[..n][1..] == s[1..][..n - 1];
      assert n < |s| ==> s[n..][0] == s[n] && !IsDigit(s[n]);
      DigitRunStops(s[1..], n - 1);
    }
  }

  lemma FractionStarts(s: string, n: nat)
    requires n <= |s| && Fraction(s[..n])
    ensures n > 0 ==> s[0] == '.'
  {
    if n > 0 {
      assert s[..n][0] == s[0];
    }
  }

  /** The whole part of an unsigned number. */
  function WholeEnd(t: string): (n: nat)
    ensures n <= |t|
  { if t == "" then 0 else if t[0] == '0' then 1 else DigitRun(t) }

  predicate Unsigned(t: string) {
    t != "" && if t[0] == '0' then FractionOk(t[1..]) else DigitRun(t) > 0 && FractionOk(t[DigitRun(t)..])
  }

  lemma UnsignedIs(t: string)
    ensures Unsigned(t) ==> Whole(t[..WholeEnd(t)]) && FractionOk(t[WholeEnd(t)..])
    ensures forall n: nat :: n <= |t| && Whole(t[..n]) && FractionOk(t[n..]) ==> Unsigned(t)
  {
    if t != "" {
      DigitRunIs(t);
      assert t[0] == '0' ==> t[..1] == "0";
      assert DigitRun(t) > 0 ==> t[..DigitRun(t)][0] == t[0];
    }
    forall n: nat | n <= |t| && Whole(t[..n]) && FractionOk(t[n..]) ensures Unsigned(t) {
      assert t[..n][0] == t[0];
      assert n < |t| ==> t[n..][0] == t[n] && !IsDigit(t[n]);
      DigitRunStops(t, n);
    }
  }

  lemma UnsignedChars(t: string)
    requires Unsigned(t)
    ensures forall i :: 0 <= i < |t| ==> NumberChar(t[i])
  {
    UnsignedIs(t);
    var n := WholeEnd(t);
    FractionIs(t[n..]);
    assert t == t[..n] + t[n..];
    forall i | 0 <= i < |t| ensures NumberChar(t[i]) {
      assert i < n ==> t[i] == t[..n][i];
      assert i >= n ==> t[i] == t[n..][i - n];
    }
  }

  function SignEnd(s: string): (a: nat)
    ensures a <= |s|
  { if s != "" && s[0] == '-' then 1 else 0 }

  lemma UnsignedNumber(s: string)
    requires Unsigned(s[SignEnd(s)..])
    ensures Number(s) && forall i :: 0 <= i < |s| ==> NumberChar(s[i])
  {
    hide *;
    var a := SignEnd(s);
    UnsignedCut(s[a..]);
    var n: nat, m: nat :| n <= m <= |s[a..]| && Whole(s[a..][..n]) && Fraction(s[a..][n..m]) && Exponent(s[a..][m..]);
    CutsAt(s, n, m);
    CutNumber(s, a, a + n, a + m);
    SignedChars(s);
  }

  lemma CutsAt(s: string, n: nat, m: nat)
    requires var t := s[SignEnd(s)..];
             n <= m <= |t| && Whole(t[..n]) && Fraction(t[n..m]) && Exponent(t[m..])
    ensures NumberAt(s, SignEnd(s), SignEnd(s) + n, SignEnd(s) + m)
  {
    hide Whole, Fraction, Exponent;
    var a := SignEnd(s);
    SliceOf(s, a, 0, n);
    SliceOf(s, a, n, m);
    SliceOf(s, a, m, |s| - a);
    assert s[a..][..n] == s[a..][0..n] && s[a..][m..] == s[a..][m..|s| - a] && s[a + m..] == s[a + m..|s|];
    assert s[..a] == "" || s[..a] == "-";
  }

  lemma SliceOf(s: string, a: nat, n: nat, m: nat)
    requires a <= |s| && n <= m <= |s| - a
    ensures s[a + n..a + m] == s[a..][n..m]
  { }

  lemma SignedChars(s: string)
    requires Unsigned(s[SignEnd(s)..])
    ensures forall i :: 0 <= i < |s| ==> NumberChar(s[i])
  {
    hide Unsigned, NumberChar;
    var a := SignEnd(s);
    UnsignedChars(s[a..]);
    NumberCharMinus();
    forall i | 0 <= i < |s| ensures NumberChar(s[i]) {
      assert i >= a ==> s[i] == s[a..][i - a];
    }
  }

  lemma CutNumber(s: string, a: nat, b: nat, c: nat)
    requires NumberAt(s, a, b, c)
    ensures Number(s)
  { hide NumberAt; }

  lemma UnsignedCut(t: string)
    requires Unsigned(t)
    ensures exists n: nat, m: nat :: n <= m <= |t| && Whole(t[..n]) && Fraction(t[n..m]) && Exponent(t[m..])
  {
    hide FractionOk, DigitRun, Unsigned, Whole, Fraction, Exponent, NumberChar;
    UnsignedIs(t);
    var n := WholeEnd(t);
    FractionIs(t[n..]);
    var m := FractionEnd(t[n..]);
    assert t[n..][..m] == t[n..n + m] && t[n..][m..] == t[n + m..];
  }

  lemma NumberUnsigned(s: string, a: nat, b: nat, c: nat)
    requires NumberAt(s, a, b, c)
    ensures Unsigned(s[SignEnd(s)..])
  {
    SignIs(s, a, b, c);
    hide FractionOk, ExponentOk, DigitRun, Unsigned, Whole, Fraction, Exponent;
    var t := s[a..];
    UnsignedIs(t);
    assert t[..b - a] == s[a..b] && t[b - a..][..c - b] == s[b..c] && t[b - a..][c - b..] == s[c..];
    FractionIs(t[b - a..]);
  }

  /** The number test accepts exactly the numbers of the grammar. */
  lemma NumberExactly(s: string)
    ensures NumberOk(s) <==> Number(s)
  {
    hide FractionOk, NumberAt, NumberChar;
    assert s[0..] == s;
    assert NumberOk(s) <==> Unsigned(s[SignEnd(s)..]) && forall i :: 0 <= i < |s| ==> NumberChar(s[i]);
    if Unsigned(s[SignEnd(s)..]) {
      UnsignedNumber(s);
    }
    if a: nat, b: nat, c: nat :| NumberAt(s, a, b, c) {
      NumberUnsigned(s, a, b, c);
    }
  }

  lemma SignIs(s: string, a: nat, b: nat, c: nat)
    requires NumberAt(s, a, b, c)
    ensures a == SignEnd(s)
  {
    assert s[a..b][0] == s[a];
    assert a == 1 ==> s[0] == s[..1][0];
  }

  lemma NumberCharMinus()
    ensures NumberChar('-')
  { }

  // ---- Tokens and blanks ----

  /** The text starts with a spelling of the token, and this rest is behind it; a number ends before the rest. */
  ghost predicate TokenAt(s: string, t: Token, rest: string) {
    match t
    case Str(text) => s != "" && s[0] == '"' && Literal(s[1..], text, rest)
    case Num(literal) => s == literal + rest && Number(literal) && (rest == "" || !NumberChar(rest[0]))
    case _ => s == TokenText(t) + rest
  }

  /** Tokens with blanks between them. */
  ghost predicate SpellsTokens(s: string, ts: seq<Token>)
    decreases |ts|
  {
    if ts == [] then AllSpace(s)
    else exists i: nat, rest: string :: BlanksThen(s, i, ts[0], rest) && SpellsTokens(rest, ts[1..])
  }

  ghost predicate BlanksThen(s: string, i: nat, t: Token, rest: string) {
    i <= |s| && AllSpace(s[..i]) && TokenAt(s[i..], t, rest)
  }

  lemma {:induction false} NumberRunIs(s: string)
    ensures forall i :: 0 <= i < NumberRun(s) ==> NumberChar(s[i])
    ensures NumberRun(s) < |s| ==> !NumberChar(s[NumberRun(s)])
  {
    if s != "" && NumberChar(s[0]) {
      NumberRunIs(s[1..]);
    }
  }

  lemma NumberStarts(s: string)
    requires Number(s)
    ensures s != "" && (s[0] == '-' || IsDigit(s[0]))
  {
    hide Fraction, Exponent;
    var a: nat, b: nat, c: nat :| NumberAt(s, a, b, c);
    assert s[a..b][0] == s[a];
    assert a > 0 ==> s[..a][0] == s[0];
  }

  lemma NumberTokenExactly(s: string, literal: string, rest: string)
    requires s != "" && (s[0] == '-' || IsDigit(s[0]))
    ensures LexOne(s) == Got(Num(literal), rest) <==> TokenAt(s, Num(literal), rest)
  {
    hide Number, NumberOk;
    var n := NumberRun(s);
    NumberRunIs(s);
    NumberExactly(s[..n]);
    assert s == s[..n] + s[n..];
    if TokenAt(s, Num(literal), rest) {
      NumberExactly(literal);
      NumberChars(literal);
      NumberRunExact(literal, rest);
    }
  }

  lemma NumberChars(literal: string)
    requires NumberOk(literal)
    ensures forall i :: 0 <= i < |literal| ==> NumberChar(literal[i])
  { hide FractionOk; }

  /** The lexer takes exactly a token's spelling. */
  lemma TokenExactly(s: string, t: Token, rest: string)
    ensures LexOne(s) == Got(t, rest) <==> TokenAt(s, t, rest)
  {
    hide Number, NumberOk, ReadString, Literal;
    if s == "" {
      NoTokenInNothing(t, rest);
    } else if s[0] == '"' {
      StringTokenExactly(s, t, rest);
    } else if s[0] == '-' || IsDigit(s[0]) {
      if t.Num? {
        NumberTokenExactly(s, t.literal, rest);
      }
    } else {
      assert s == [s[0]] + s[1..];
      assert "true" <= s ==> s == "true" + s[4..];
      assert "false" <= s ==> s == "false" + s[5..];
      assert "null" <= s ==> s == "null" + s[4..];
      if t.Num? && TokenAt(s, t, rest) {
        NumberStarts(t.literal);
      }
    }
  }

  lemma NoTokenInNothing(t: Token, rest: string)
    ensures !TokenAt("", t, rest)
  {
    if t.Num? && Number(t.literal) {
      NumberStarts(t.literal);
    }
  }

  lemma StringTokenExactly(s: string, t: Token, rest: string)
    requires s != "" && s[0] == '"'
    ensures LexOne(s) == Got(t, rest) <==> TokenAt(s, t, rest)
  {
    hide Number;
    if t.Str? {
      LiteralExactly(s[1..], t.text, rest);
    } else if t.Num? && TokenAt(s, t, rest) {
      NumberStarts(t.literal);
    }
  }

  lemma BlanksEnd(s: string, i: nat, t: Token, rest: string)
    requires i <= |s| && AllSpace(s[..i]) && TokenAt(s[i..], t, rest)
    ensures Lex(s).tokens == [t] + Lex(rest).tokens && Lex(s).rest == Lex(rest).rest
    ensures |rest| < |s|
    decreases i
  {
    hide TokenAt;
    TokenExactly(s[i..], t, rest);
    if i == 0 {
      assert s[0..] == s;
      TokenIsNoBlank(s, t, rest);
    } else {
      assert s[0] == s[..i][0] && s[1..][..i - 1] == s[..i][1..] && s[1..][i - 1..] == s[i..];
      BlanksEnd(s[1..], i - 1, t, rest);
    }
  }

  lemma TokenIsNoBlank(s: string, t: Token, rest: string)
    requires LexOne(s) == Got(t, rest)
    ensures s != "" && !IsSpace(s[0])
  { hide ReadString, NumberOk; }

  lemma {:induction false} BlanksOnly(s: string)
    requires AllSpace(s)
    ensures Lex(s) == Lexed([], "")
  {
    if s != "" {
      BlanksOnly(s[1..]);
    }
  }

  /** A text lexes to these tokens, all of it, exactly when it spells them. */
  lemma {:induction false} LexExactly(s: string, ts: seq<Token>)
    ensures Lex(s) == Lexed(ts, "") <==> SpellsTokens(s, ts)
    decreases |s|
  {
    hide LexOne, TokenAt;
    if SpellsTokens(s, ts) {
      if ts == [] {
        BlanksOnly(s);
      } else {
        var i: nat, rest: string :| BlanksThen(s, i, ts[0], rest) && SpellsTokens(rest, ts[1..]);
        BlanksEnd(s, i, ts[0], rest);
        LexExactly(rest, ts[1..]);
        assert ts == [ts[0]] + ts[1..];
      }
    }
    if Lex(s) == Lexed(ts, "") {
      LexedSpells(s, ts);
    }
  }

  lemma {:induction false} LexedSpells(s: string, ts: seq<Token>)
    requires Lex(s) == Lexed(ts, "")
    ensures SpellsTokens(s, ts)
    decreases |s|, 0
  {
    hide LexOne, TokenAt;
    if s != "" && IsSpace(s[0]) {
      LexedSpells(s[1..], ts);
      OneMoreBlank(s, ts);
    } else if LexOne(s).Got? {
      var t, rest := LexOne(s).token, LexOne(s).rest;
      TokenExactly(s, t, rest);
      assert ts[0] == t && ts[1..] == Lex(rest).tokens;
      LexedSpells(rest, ts[1..]);
      assert s[0..] == s && s[..0] == "";
      assert BlanksThen(s, 0, t, rest);
    }
  }

  lemma OneMoreBlank(s: string, ts: seq<Token>)
    requires s != "" && IsSpace(s[0]) && SpellsTokens(s[1..], ts)
    ensures SpellsTokens(s, ts)
  {
    hide TokenAt;
    if ts != [] {
      var i: nat, rest: string :| BlanksThen(s[1..], i, ts[0], rest) && SpellsTokens(rest, ts[1..]);
      assert s[..i + 1] == [s[0]] + s[1..][..i] && s[i + 1..] == s[1..][i..];
      assert BlanksThen(s, i + 1, ts[0], rest);
    }
  }

  // ---- Values ----

  lemma EmptyTokens()
    ensures Tokens(ArrTree([])) == [LeftBracket, RightBracket] && Tokens(ObjTree([])) == [LeftBrace, RightBrace]
  { }

  /** What parses is the value's own tokens and the rest. */
  lemma {:induction false} ParsedTokens(ts: seq<Token>)
    ensures ParseValue(ts).Done? ==> ts == Tokens(ParseValue(ts).value) + ParseValue(ts).rest
    decreases |ts|, 0
  {
    hide ParseItems, ParseMembers, ItemTokens, MemberTokens;
    EmptyTokens();
    if ParseValue(ts).Done? {
      var rest := ParseValue(ts).rest;
      assert ts == [ts[0]] + ts[1..];
      if ts[0] == LeftBracket {
        if |ts| > 1 && ts[1] == RightBracket {
          assert ts == [LeftBracket, RightBracket] + ts[2..];
        } else {
          ParsedItemTokens(ts[1..]);
        }
      } else if ts[0] == LeftBrace {
        if |ts| > 1 && ts[1] == RightBrace {
          assert ts == [LeftBrace, RightBrace] + ts[2..];
        } else {
          ParsedMemberTokens(ts[1..]);
        }
      }
    }
  }

  lemma {:induction false} ParsedItemTokens(ts: seq<Token>)
    ensures ParseItems(ts).Done? ==>
              ParseItems(ts).value != []
              && ts == ItemTokens(ParseItems(ts).value) + [RightBracket] + ParseItems(ts).rest
    decreases |ts|, 1
  {
    hide Tokens, ParseValue;
    ParsedTokens(ts);
    if ParseItems(ts).Done? {
      var item, rest := ParseValue(ts).value, ParseValue(ts).rest;
      assert rest == [rest[0]] + rest[1..];
      if rest[0] == Comma {
        ParsedItemTokens(rest[1..]);
        var items := ParseItems(rest[1..]).value;
        assert ([item] + items)[1..] == items;
      }
    }
  }

  lemma {:induction false} ParsedMemberTokens(ts: seq<Token>)
    ensures ParseMembers(ts).Done? ==>
              ParseMembers(ts).value != []
              && ts == MemberTokens(ParseMembers(ts).value) + [RightBrace] + ParseMembers(ts).rest
    decreases |ts|, 1
  {
    hide Tokens, ParseValue;
    if ParseMembers(ts).Done? {
      ParsedTokens(ts[2..]);
      var value, rest := ParseValue(ts[2..]).value, ParseValue(ts[2..]).rest;
      var m := Member(ts[0].text, value);
      assert ts == [ts[0], ts[1]] + ts[2..] && rest == [rest[0]] + rest[1..];
      if rest[0] == Comma {
        ParsedMemberTokens(rest[1..]);
        var members := ParseMembers(rest[1..]).value;
        assert ([m] + members)[1..] == members;
      }
    }
  }

  /**
   The decoder reads exactly the grammar: a text decodes to a value when and only when it spells that value's
   tokens, whatever its escapes and blanks, with nothing else in it.
   */
  lemma DecodeExactly(raw: string, t: Tree)
    ensures Decode(raw) == Some(t) <==> SpellsTokens(raw, Tokens(t))
  {
    hide Lex, ParseValue, SpellsTokens;
    LexExactly(raw, Tokens(t));
    if SpellsTokens(raw, Tokens(t)) {
      ParseTokens(t, []);
      assert Tokens(t) + [] == Tokens(t);
    }
    if Decode(raw) == Some(t) {
      ParsedTokens(Lex(raw).tokens);
      assert Tokens(t) + [] == Tokens(t);
    }
  }
}
