/**
 escapeUntrusted: stored text printed so that every code point a reader could not see for what it is
 becomes a visible `<U+XXXX>`.

 The class of unseen code points comes from the Unicode tables and is a parameter; of it only this is
 used, that no visible ASCII character belongs to it.
 */
module Escape {
  import opened Prelude

  ghost predicate VisibleAscii(unseen: char -> bool) { forall c :: '!' <= c <= '~' ==> !unseen(c) }

  // ---- Hexadecimal, as %04X ----

  predicate IsUpperHex(c: char) { IsDigit(c) || 'A' <= c <= 'F' }

  /** At least `width` digits. */
  function HexDigits(n: nat, width: nat): (s: string)
    ensures |s| >= width && forall i :: 0 <= i < |s| ==> IsUpperHex(s[i])
    decreases n, width
  {
    if n == 0 && width == 0 then "" else HexDigits(n / 16, if width > 0 then width - 1 else 0) + [UpperHex(n % 16)]
  }

  function HexNumber(s: string): nat
    requires forall i :: 0 <= i < |s| ==> IsUpperHex(s[i])
  {
    if s == "" then 0
    else
      assert IsUpperHex(s[|s| - 1]);
      HexNumber(s[..|s| - 1]) * 16 + HexValue(s[|s| - 1])
  }

  lemma {:induction false} HexRoundTrip(n: nat, width: nat)
    ensures HexNumber(HexDigits(n, width)) == n
    decreases n, width
  {
    if n != 0 || width != 0 {
      HexRoundTrip(n / 16, if width > 0 then width - 1 else 0);
      var s := HexDigits(n, width);
      assert s[..|s| - 1] == HexDigits(n / 16, if width > 0 then width - 1 else 0);
    }
  }

  // ---- Escaping ----

  function EscapeRune(unseen: char -> bool, r: char): string {
    if r == '<' then "<U+003C>"
    else if r != ' ' && unseen(r) then "<U+" + HexDigits(r as int, 4) + ">"
    else [r]
  }

  function Escaped(unseen: char -> bool, s: string): string {
    if s == "" then "" else Escaped(unseen, s[..|s| - 1]) + EscapeRune(unseen, s[|s| - 1])
  }

  method EscapeUntrusted(unseen: char -> bool, s: string) returns (b: string)
    ensures b == Escaped(unseen, s)
  {
    b := "";
    for i := 0 to |s|
      invariant b == Escaped(unseen, s[..i])
    {
      var r := s[i];
      if r == '<' {
        b := b + "<U+003C>";
      } else if r != ' ' && unseen(r) {
        b := b + "<U+" + HexDigits(r as int, 4) + ">";
      } else {
        b := b + [r];
      }
      assert s[..i + 1][..i] == s[..i];
      assert b == Escaped(unseen, s[..i]) + EscapeRune(unseen, r);
    }
    assert s[..|s|] == s;
  }

  /** A rune that can be seen for what it is, or the ASCII space. */
  predicate Clear(unseen: char -> bool, r: char) { r != '<' && (r == ' ' || !unseen(r)) }

  lemma RuneLength(unseen: char -> bool, r: char)
    ensures if Clear(unseen, r) then EscapeRune(unseen, r) == [r] else |EscapeRune(unseen, r)| > 1
  { hide HexDigits; }

  lemma {:induction false} HexLeads(n: nat, width: nat)
    ensures var s := HexDigits(n, width); |s| > width ==> s[0] != '0'
    decreases n, width
  {
    if n != 0 || width != 0 {
      var less := if width > 0 then width - 1 else 0;
      HexLeads(n / 16, less);
      var front := HexDigits(n / 16, less);
      assert HexDigits(n, width) == front + [UpperHex(n % 16)];
      if |front| + 1 > width && front == "" {
        assert n / 16 == 0 && n % 16 != 0;
      }
    }
  }

  /** What stands for a rune that cannot be seen: its number in capital digits, four of them or as many as it needs. */
  lemma EscapedForm(unseen: char -> bool, r: char)
    requires !Clear(unseen, r)
    ensures exists digits: string ::
              EscapeRune(unseen, r) == "<U+" + digits + ">" && IsHexNumber(digits, r as int)
              && |digits| >= 4 && (|digits| > 4 ==> digits[0] != '0')
  {
    var digits := if r == '<' then "003C" else HexDigits(r as int, 4);
    HexRoundTrip(r as int, 4);
    HexLeads(r as int, 4);
    if r == '<' {
      LessSign();
    }
    assert EscapeRune(unseen, r) == "<U+" + digits + ">";
  }

  predicate IsHexNumber(digits: string, n: int) {
    (forall i :: 0 <= i < |digits| ==> IsUpperHex(digits[i])) && HexNumber(digits) == n
  }

  lemma LessSign()
    ensures IsHexNumber("003C", '<' as int)
  {
    assert "003C"[..3] == "003" && "003"[..2] == "00" && "00"[..1] == "0" && "0"[..0] == "";
  }

  /** A text prints as itself exactly when every rune of it can be seen for what it is; otherwise it grows. */
  lemma {:induction false} ClearPrintsItself(unseen: char -> bool, s: string)
    ensures |Escaped(unseen, s)| >= |s|
    ensures Escaped(unseen, s) == s <==> forall i :: 0 <= i < |s| ==> Clear(unseen, s[i])
    ensures Escaped(unseen, s) == s <==> |Escaped(unseen, s)| == |s|
  {
    hide EscapeRune, Clear;
    if s != "" {
      var n := |s| - 1;
      ClearPrintsItself(unseen, s[..n]);
      RuneLength(unseen, s[n]);
      assert s == s[..n] + [s[n]];
      assert forall i :: 0 <= i < n ==> s[i] == s[..n][i];
    }
  }

  // ---- The decoder ----

  function HexRun(s: string): (n: nat)
    ensures n <= |s| && forall i :: 0 <= i < n ==> IsUpperHex(s[i])
  { if s != "" && IsUpperHex(s[0]) then 1 + HexRun(s[1..]) else 0 }

  predicate IsRune(n: int) { 0 <= n < 0xD800 || 0xE000 <= n < 0x11_0000 }

  /** The rune at the start of an escaped text, and how much of the text it takes. */
  function FirstRune(t: string): (r: (char, nat))
    requires t != ""
    ensures 1 <= r.1 <= |t|
  {
    if t[0] != '<' then (t[0], 1)
    else if |t| < 4 then ('<', 1)
    else
      var n := HexRun(t[3..]);
      if 3 + n < |t| && IsRune(HexNumber(t[3..3 + n])) then (HexNumber(t[3..3 + n]) as char, 4 + n) else ('<', 1)
  }

  function Unescaped(t: string): string {
    if t == "" then "" else [FirstRune(t).0] + Unescaped(t[FirstRune(t).1..])
  }

  lemma {:induction false} HexRunStops(digits: string, rest: string)
    requires forall i :: 0 <= i < |digits| ==> IsUpperHex(digits[i])
    requires rest != "" && !IsUpperHex(rest[0])
    ensures HexRun(digits + rest) == |digits|
  {
    if digits == "" {
      assert digits + rest == rest;
    } else {
      HexRunStops(digits[1..], rest);
      assert (digits + rest)[1..] == digits[1..] + rest;
    }
  }

  lemma FirstOfEscape(r: char, digits: string, rest: string)
    requires digits == HexDigits(r as int, 4)
    ensures FirstRune("<U+" + digits + ">" + rest) == (r, |digits| + 4)
  {
    var t := "<U+" + digits + ">" + rest;
    assert t[3..] == digits + (">" + rest);
    HexRunStops(digits, ">" + rest);
    assert t[3..3 + |digits|] == digits;
    HexRoundTrip(r as int, 4);
  }

  lemma FirstEscaped(unseen: char -> bool, r: char, rest: string)
    ensures FirstRune(EscapeRune(unseen, r) + rest) == (r, |EscapeRune(unseen, r)|)
  {
    hide HexDigits, HexNumber, HexRun;
    if r == '<' {
      LessThanDigits();
      FirstOfEscape('<', "003C", rest);
      assert "<U+" + "003C" + ">" == "<U+003C>";
    } else if r != ' ' && unseen(r) {
      FirstOfEscape(r, HexDigits(r as int, 4), rest);
    }
  }

  lemma LessThanDigits()
    ensures HexDigits('<' as int, 4) == "003C"
  {
    assert HexDigits(0, 1) == "0";
    assert HexDigits(0, 2) == "00";
    assert HexDigits(3, 3) == "003";
  }

  /** The escapes of a longer text, from its front. */
  lemma {:induction false} EscapedFront(unseen: char -> bool, s: string)
    requires s != ""
    ensures Escaped(unseen, s) == EscapeRune(unseen, s[0]) + Escaped(unseen, s[1..])
  {
    if |s| > 1 {
      var n := |s| - 1;
      hide EscapeRune;
      EscapedFront(unseen, s[..n]);
      assert s[..n][1..] == s[1..][..n - 1];
      assert s[1..][n - 1] == s[n] && s[..n][0] == s[0];
    }
  }

  /** Every text comes back from its escaped form. */
  lemma {:induction false} EscapeRoundTrip(unseen: char -> bool, s: string)
    ensures Unescaped(Escaped(unseen, s)) == s
  {
    if s != "" {
      var first, rest := EscapeRune(unseen, s[0]), Escaped(unseen, s[1..]);
      EscapedFront(unseen, s);
      FirstEscaped(unseen, s[0], rest);
      assert (first + rest)[|first|..] == rest;
      EscapeRoundTrip(unseen, s[1..]);
      assert s == [s[0]] + s[1..];
    }
  }

  /** Hence two texts that print the same are the same. */
  lemma EscapeInjective(unseen: char -> bool, s: string, t: string)
    ensures Escaped(unseen, s) == Escaped(unseen, t) <==> s == t
  {
    EscapeRoundTrip(unseen, s);
    EscapeRoundTrip(unseen, t);
  }

  // ---- What a reader sees ----

  /** A '<' of the printed text opens an escape. */
  predicate OpensEscape(t: string, i: nat) {
    && i + 3 <= |t| && t[i..i + 3] == "<U+"
    && exists j :: i + 7 <= j < |t| && t[j] == '>' && forall k :: i + 3 <= k < j ==> IsUpperHex(t[k])
  }

  lemma OneEscapeVisible(unseen: char -> bool, r: char, i: nat)
    requires VisibleAscii(unseen) && i < |EscapeRune(unseen, r)|
    ensures var e := EscapeRune(unseen, r);
            && (e[i] == ' ' || !unseen(e[i]))
            && (e[i] == '<' ==> OpensEscape(e, i))
  {
    var e := EscapeRune(unseen, r);
    if e[0] == '<' {
      var digits := e[3..|e| - 1];
      assert e == "<U+" + digits + ">";
      assert forall k :: 3 <= k < |e| - 1 ==> e[k] == digits[k - 3];
      if i == 0 {
        assert e[|e| - 1] == '>';
      }
    }
  }

  lemma OpensEscapeLater(before: string, e: string, i: nat)
    requires OpensEscape(e, i)
    ensures OpensEscape(before + e, |before| + i)
  {
    var t, n := before + e, |before|;
    var j :| i + 7 <= j < |e| && e[j] == '>' && forall k :: i + 3 <= k < j ==> IsUpperHex(e[k]);
    assert t[n + j] == '>';
    forall k | n + i + 3 <= k < n + j ensures IsUpperHex(t[k]) {
      assert t[k] == e[k - n];
    }
    assert t[n + i..n + i + 3] == e[i..i + 3];
  }

  lemma OpensEscapeWithin(t: string, after: string, i: nat)
    requires OpensEscape(t, i)
    ensures OpensEscape(t + after, i)
  {
    var j :| i + 7 <= j < |t| && t[j] == '>' && forall k :: i + 3 <= k < j ==> IsUpperHex(t[k]);
    assert (t + after)[j] == '>';
    assert (t + after)[i..i + 3] == t[i..i + 3];
  }

  /** The printed text holds nothing unseen but the ASCII space, and every '<' in it opens an escape. */
  lemma {:induction false} PrintsVisibly(unseen: char -> bool, s: string, i: nat)
    requires VisibleAscii(unseen) && i < |Escaped(unseen, s)|
    ensures var t := Escaped(unseen, s);
            && (t[i] == ' ' || !unseen(t[i]))
            && (t[i] == '<' ==> OpensEscape(t, i))
  {
    hide OpensEscape, EscapeRune;
    var before, e := Escaped(unseen, s[..|s| - 1]), EscapeRune(unseen, s[|s| - 1]);
    if i < |before| {
      PrintsVisibly(unseen, s[..|s| - 1], i);
      if before[i] == '<' {
        OpensEscapeWithin(before, e, i);
      }
    } else {
      OneEscapeVisible(unseen, s[|s| - 1], i - |before|);
      if e[i - |before|] == '<' {
        OpensEscapeLater(before, e, i - |before|);
      }
    }
  }
}
