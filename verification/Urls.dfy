/**
 URL resources: the percent-encoding of section 2.1 of RFC 3986 as Go's net/url applies it to hosts
 and paths, canonicalAuthorityURL, and URLResourceIncludes.

 Text is a sequence of bytes, one character per byte. Parse covers URLs with a scheme and an
 authority, the only ones canonicalAuthorityURL keeps; every other URL has no host and is refused.
 */
module Urls {
  import opened Prelude
  import Paths

  // ---- Percent-encoding ----

  datatype Mode = HostMode | PathMode

  predicate IsLetter(c: char) { 'a' <= c <= 'z' || 'A' <= c <= 'Z' }

  predicate Unreserved(c: char) { IsLetter(c) || IsDigit(c) || c in "-_.~" }

  /** The bytes Go writes without escaping them. */
  predicate Plain(mode: Mode, c: char) {
    Unreserved(c) || match mode
                     case HostMode => c in "!$&'()*+,;=:[]<>\""
                     case PathMode => c in "$&+,/:;=@"
  }

  function EscapeByte(mode: Mode, c: char): string {
    if Plain(mode, c) then [c]
    else ['%', UpperHex(c as int / 16 % 16), UpperHex(c as int % 16)]
  }

  function Escape(mode: Mode, s: string): string {
    if s == "" then "" else EscapeByte(mode, s[0]) + Escape(mode, s[1..])
  }

  /**
   Undoes percent-encoding, or refuses. A host may escape only "%" and bytes outside ASCII, and
   may not hold an ASCII byte that would need escaping.
   */
  function Unescape(mode: Mode, s: string): Option<string> {
    if s == "" then Some("")
    else if s[0] == '%' then
      if |s| < 3 || !IsHex(s[1]) || !IsHex(s[2]) then None
      else if mode == HostMode && HexValue(s[1]) < 8 && s[..3] != "%25" then None
      else match Unescape(mode, s[3..])
        case None => None
        case Some(t) => Some([(HexValue(s[1]) * 16 + HexValue(s[2])) as char] + t)
    else if mode == HostMode && s[0] < 128 as char && !Plain(mode, s[0]) then None
    else match Unescape(mode, s[1..])
      case None => None
      case Some(t) => Some([s[0]] + t)
  }

  predicate IsByte(c: char) { c as int < 256 }

  predicate Bytes(s: string) { forall i :: 0 <= i < |s| ==> IsByte(s[i]) }

  /** A byte that can stand in an unescaped text of this mode. */
  predicate Decodable(mode: Mode, c: char) {
    IsByte(c) && (mode == HostMode ==> Plain(mode, c) || c == '%' || c >= 128 as char)
  }

  predicate DecodableText(mode: Mode, s: string) { forall i :: 0 <= i < |s| ==> Decodable(mode, s[i]) }

  lemma HexPair(n: nat)
    requires n < 256
    ensures HexValue(UpperHex(n / 16 % 16)) * 16 + HexValue(UpperHex(n % 16)) == n
  { }

  /** A byte that is not plain comes back from its escape, and only a percent sign escapes as "%25". */
  lemma UnescapeEscaped(mode: Mode, c: char, rest: string)
    requires IsByte(c) && !Plain(mode, c) && (mode == HostMode ==> c == '%' || c >= 128 as char)
    ensures Unescape(mode, EscapeByte(mode, c) + rest) ==
            match Unescape(mode, rest) case None => None case Some(t) => Some([c] + t)
  {
    var n := c as int;
    var x, y := UpperHex(n / 16 % 16), UpperHex(n % 16);
    HexPair(n);
    var s := ['%', x, y] + rest;
    assert s[3..] == rest && s[0] == '%' && s[1] == x && s[2] == y;
    assert mode == HostMode && HexValue(x) < 8 ==> c == '%' && s[..3] == "%25";
  }

  lemma UnescapePlain(mode: Mode, c: char, rest: string)
    requires c != '%' && (mode == HostMode ==> Plain(mode, c) || c >= 128 as char)
    ensures Unescape(mode, [c] + rest) == match Unescape(mode, rest) case None => None case Some(t) => Some([c] + t)
  { assert ([c] + rest)[1..] == rest; }

  lemma {:induction false} UnescapeEscape(mode: Mode, s: string)
    requires DecodableText(mode, s)
    ensures Unescape(mode, Escape(mode, s)) == Some(s)
  {
    hide Unescape;
    if s == "" {
      UnescapeNothing(mode);
    } else {
      UnescapeEscape(mode, s[1..]);
      var rest := Escape(mode, s[1..]);
      assert [s[0]] + s[1..] == s;
      if Plain(mode, s[0]) {
        UnescapePlain(mode, s[0], rest);
      } else {
        UnescapeEscaped(mode, s[0], rest);
      }
    }
  }

  lemma UnescapeNothing(mode: Mode)
    ensures Unescape(mode, "") == Some("")
  { }

  /** A triple the decoder accepts stands for a decodable byte. */
  lemma TripleDecodable(mode: Mode, s: string)
    requires |s| >= 3 && IsHex(s[1]) && IsHex(s[2])
    ensures HexValue(s[1]) * 16 + HexValue(s[2]) < 256
    ensures !(mode == HostMode && HexValue(s[1]) < 8 && s[..3] != "%25")
            ==> Decodable(mode, (HexValue(s[1]) * 16 + HexValue(s[2])) as char)
  {
    if s[..3] == "%25" {
      assert s[1] == s[..3][1] && s[2] == s[..3][2];
    }
  }

  lemma {:induction false} UnescapeDecodable(mode: Mode, s: string)
    requires Bytes(s) && Unescape(mode, s).Some?
    ensures DecodableText(mode, Unescape(mode, s).value)
  {
    hide Plain, HexValue;
    if s == "" {
    } else if s[0] == '%' {
      UnescapeDecodable(mode, s[3..]);
      if IsHex(s[1]) && IsHex(s[2]) {
        TripleDecodable(mode, s);
      }
    } else {
      UnescapeDecodable(mode, s[1..]);
    }
  }

  // ---- Cutting and lower case ----

  datatype Cut = Cut(before: string, after: string, found: bool)

  /** strings.Cut at the first `c`. */
  function CutAt(s: string, c: char): (r: Cut)
    ensures c !in r.before
    ensures r.found ==> s == r.before + [c] + r.after
    ensures !r.found ==> s == r.before && r.after == ""
  {
    if s == "" then Cut("", "", false)
    else if s[0] == c then Cut("", s[1..], true)
    else var r := CutAt(s[1..], c); Cut([s[0]] + r.before, r.after, r.found)
  }

  lemma {:induction false} CutFound(a: string, c: char, b: string)
    requires c !in a
    ensures CutAt(a + [c] + b, c) == Cut(a, b, true)
  {
    var s := a + [c] + b;
    if a == "" {
      assert s[1..] == b;
    } else {
      CutFound(a[1..], c, b);
      assert s[1..] == a[1..] + [c] + b;
    }
  }

  lemma {:induction false} CutMissing(a: string, c: char)
    requires c !in a
    ensures CutAt(a, c) == Cut(a, "", false)
  {
    if a != "" {
      CutMissing(a[1..], c);
    }
  }

  function LowerByte(c: char): char {
    if 'A' <= c <= 'Z' then (c as int + 32) as char else c
  }

  /** strings.ToLower on ASCII letters. */
  function Lower(s: string): (r: string)
    ensures |r| == |s| && forall i :: 0 <= i < |s| ==> r[i] == LowerByte(s[i])
  { seq(|s|, i requires 0 <= i < |s| => LowerByte(s[i])) }

  lemma LowerIdempotent(s: string)
    ensures Lower(Lower(s)) == Lower(s)
  { }

  // ---- Ports ----

  /** At most one colon, with nothing but digits behind it. */
  predicate PortOk(h: string) {
    h == "" || if h[0] == ':' then AllDigits(h[1..]) else PortOk(h[1..])
  }

  lemma {:induction false} DigitsUnescaped(s: string)
    requires AllDigits(s)
    ensures Unescape(HostMode, s) == Some(s) && Escape(HostMode, s) == s && Lower(s) == s
  {
    if s != "" {
      DigitsUnescaped(s[1..]);
      assert [s[0]] + s[1..] == s;
    }
  }

  lemma {:induction false} PortSurvivesUnescape(s: string)
    requires PortOk(s) && Unescape(HostMode, s).Some?
    ensures PortOk(Unescape(HostMode, s).value)
  {
    if s == "" {
    } else if s[0] == '%' {
      assert s[1] != ':' && s[2] != ':' && s[1..][1..] == s[2..] && s[2..][1..] == s[3..];
      assert PortOk(s[1..]) && PortOk(s[2..]);
      PortSurvivesUnescape(s[3..]);
      var t := Unescape(HostMode, s[3..]).value;
      assert Unescape(HostMode, s).value[1..] == t;
    } else if s[0] == ':' {
      DigitsUnescaped(s[1..]);
      assert Unescape(HostMode, s).value[1..] == s[1..];
    } else {
      PortSurvivesUnescape(s[1..]);
      assert Unescape(HostMode, s).value[1..] == Unescape(HostMode, s[1..]).value;
    }
  }

  lemma {:induction false} PortOkJoin(a: string, b: string)
    requires ':' !in a && PortOk(b)
    ensures PortOk(a + b)
  {
    if a == "" {
      assert a + b == b;
    } else {
      PortOkJoin(a[1..], b);
      assert (a + b)[1..] == a[1..] + b;
    }
  }

  lemma {:induction false} PortSurvivesLowerEscape(s: string)
    requires PortOk(s)
    ensures PortOk(Escape(HostMode, Lower(s)))
  {
    if s == "" {
    } else {
      assert Lower(s)[1..] == Lower(s[1..]);
      var e, rest := EscapeByte(HostMode, Lower(s)[0]), Escape(HostMode, Lower(s[1..]));
      if s[0] == ':' {
        DigitsUnescaped(s[1..]);
        assert (e + rest)[1..] == s[1..];
      } else {
        PortSurvivesLowerEscape(s[1..]);
        PortOkJoin(e, rest);
      }
    }
  }

  // ---- Parsing and printing ----

  /** `keptRawPath` is url.URL's RawPath being non-empty: the path text is not the canonical escape of `path`. */
  datatype Url = Url(scheme: string, host: string, path: string, keptRawPath: bool, forceQuery: bool, query: string)

  predicate IsControl(c: char) { c < ' ' || c == 127 as char }

  /** A byte that neither cuts off a fragment nor is a control byte. */
  predicate Clear(c: char) { IsByte(c) && c != '#' && !IsControl(c) }

  predicate ClearText(s: string) { forall i :: 0 <= i < |s| ==> Clear(s[i]) }

  predicate SchemeText(s: string) {
    s != "" && IsLetter(s[0]) && forall i :: 0 <= i < |s| ==> IsLetter(s[i]) || IsDigit(s[i]) || s[i] in "+-."
  }

  /** Whether every percent sign starts a well-formed triple, the only demand on a fragment. */
  predicate PercentOk(s: string) { Unescape(PathMode, s).Some? }

  /** parseHost without IP literals: a colon only before a decimal port, then unescaping. */
  function ParseHost(text: string): Option<string> {
    if '[' in text || !PortOk(text) then None else Unescape(HostMode, text)
  }

  /** The authority and the path, after the "//". */
  function ParseHierarchy(scheme: string, hier: string, forceQuery: bool, query: string): Option<Url> {
    var cut := CutAt(hier, '/');
    var pathText := if cut.found then "/" + cut.after else "";
    var host, path := ParseHost(cut.before), Unescape(PathMode, pathText);
    if '@' in cut.before || host.None? || host.value == "" || path.None? then None
    else Some(Url(scheme, host.value, path.value, Escape(PathMode, path.value) != pathText, forceQuery, query))
  }

  /** The query and the hierarchy, after the scheme's colon. */
  function ParseRest(scheme: string, rest: string): Option<Url> {
    var mark := CutAt(rest, '?');
    if !("//" <= mark.before) then None
    else ParseHierarchy(scheme, mark.before[2..], mark.found && mark.after == "", mark.after)
  }

  /** The text before the fragment. */
  function ParseBody(text: string): Option<Url> {
    var colon := CutAt(text, ':');
    if !ClearText(text) || !colon.found || !SchemeText(colon.before) then None
    else ParseRest(Lower(colon.before), colon.after)
  }

  /** url.Parse on the URLs that have a scheme, a host and no user. */
  function Parse(raw: string): Option<Url> {
    var body := CutAt(raw, '#');
    if !Bytes(raw) || !PercentOk(body.after) then None else ParseBody(body.before)
  }

  /** The parts of a URL's text, with what stands between them. */
  datatype Parts = Parts(scheme: string, authority: string, path: string, query: Option<string>,
      fragment: Option<string>)

  function TextOf(p: Parts): string {
    p.scheme + ":" + ("//" + (p.authority + p.path) + After('?', p.query)) + After('#', p.fragment)
  }

  function After(mark: char, part: Option<string>): string { if part.None? then "" else [mark] + part.value }

  /** None of these parts could be cut differently, and there is no user and no bracket before the path. */
  predicate PartsApart(p: Parts) {
    && SchemeText(p.scheme)
    && '/' !in p.authority && '?' !in p.authority && '@' !in p.authority && '[' !in p.authority
    && (p.path == "" || p.path[0] == '/') && '?' !in p.path
    && ClearText(p.authority + p.path + After('?', p.query))
  }

  /** What the parts say: scheme in lower case, host and path decoded, the query as it is. */
  predicate Says(p: Parts, u: Url) {
    && u.scheme == Lower(p.scheme) && u.host != "" && PortOk(p.authority)
    && Unescape(HostMode, p.authority) == Some(u.host) && Unescape(PathMode, p.path) == Some(u.path)
    && u.keptRawPath == (Escape(PathMode, u.path) != p.path)
    && u.query == (if p.query.None? then "" else p.query.value) && u.forceQuery == (p.query == Some(""))
  }

  /** A text parses to a URL exactly when it is made of such parts that say so. */
  lemma ParseExactly(raw: string, u: Url)
    ensures Parse(raw) == Some(u) <==>
            exists p: Parts :: raw == TextOf(p) && Bytes(raw) && PartsApart(p) && Says(p, u)
                               && (p.fragment.Some? ==> PercentOk(p.fragment.value))
  {
    hide Unescape, Escape, Clear, PortOk, IsByte;
    if Parse(raw) == Some(u) {
      var p := PartsOf(raw);
      ParsedParts(raw, u);
    }
    if p: Parts :| raw == TextOf(p) && Bytes(raw) && PartsApart(p) && Says(p, u)
                   && (p.fragment.Some? ==> PercentOk(p.fragment.value)) {
      PartsParse(raw, p, u);
    }
  }

  /** The cuts the parser makes. */
  function PartsOf(raw: string): Parts {
    var body := CutAt(raw, '#');
    var colon := CutAt(body.before, ':');
    var mark := CutAt(colon.after, '?');
    var hier := CutAt(if "//" <= mark.before then mark.before[2..] else "", '/');
    Parts(colon.before, hier.before, if hier.found then "/" + hier.after else "",
          if mark.found then Some(mark.after) else None, if body.found then Some(body.after) else None)
  }

  lemma ParsedParts(raw: string, u: Url)
    requires Parse(raw) == Some(u)
    ensures var p := PartsOf(raw);
            raw == TextOf(p) && Bytes(raw) && PartsApart(p) && Says(p, u)
            && (p.fragment.Some? ==> PercentOk(p.fragment.value))
  {
    hide Unescape, Escape, Clear, PortOk, IsByte, PartsApart, TextOf;
    CutTogether(raw);
    CutApart(raw);
  }

  /** What the cuts of an accepted text leave. */
  predicate CutsWell(raw: string) {
    var body := CutAt(raw, '#');
    var colon := CutAt(body.before, ':');
    var mark := CutAt(colon.after, '?');
    && ClearText(body.before) && colon.found && SchemeText(colon.before) && "//" <= mark.before
    && '@' !in PartsOf(raw).authority && '[' !in PartsOf(raw).authority
  }

  function Behind(r: Cut): Option<string> { if r.found then Some(r.after) else None }

  lemma CutIs(s: string, c: char)
    ensures s == CutAt(s, c).before + After(c, Behind(CutAt(s, c)))
  { hide CutAt; }

  lemma CutsAre(raw: string)
    requires CutsWell(raw)
    ensures var p, body := PartsOf(raw), CutAt(raw, '#').before;
            && raw == body + After('#', p.fragment)
            && body == p.scheme + ":" + ("//" + (p.authority + p.path) + After('?', p.query))
            && ClearText(body) && '?' !in "//" + (p.authority + p.path) && '/' !in p.authority
            && (p.path == "" || p.path[0] == '/')
  {
    hide CutAt, ClearText, SchemeText, After;
    var body := CutAt(raw, '#');
    var colon := CutAt(body.before, ':');
    var mark := CutAt(colon.after, '?');
    var front := mark.before[2..];
    CutIs(raw, '#');
    CutIs(colon.after, '?');
    assert mark.before == "//" + front;
    assert front == PartsOf(raw).authority + PartsOf(raw).path;
  }

  lemma CutTogether(raw: string)
    requires CutsWell(raw)
    ensures raw == TextOf(PartsOf(raw))
  {
    hide CutsWell, PartsOf, CutAt, ClearText, After;
    CutsAre(raw);
  }

  lemma CutApart(raw: string)
    requires CutsWell(raw)
    ensures PartsApart(PartsOf(raw))
  {
    CutsAre(raw);
    SchemeOf(raw);
    hide CutsWell, PartsOf, CutAt, After, Clear, SchemeText;
    var p, body := PartsOf(raw), CutAt(raw, '#').before;
    BehindScheme(p.scheme, p.authority, p.path, After('?', p.query));
    ClearTail(body, |p.scheme| + 3);
    NotInside('?', p.authority, p.path);
  }

  lemma BehindScheme(scheme: string, a: string, b: string, c: string)
    ensures (scheme + ":" + ("//" + (a + b) + c))[|scheme| + 3..] == a + b + c
  { }

  lemma NotInside(c: char, a: string, b: string)
    ensures c !in "//" + (a + b) ==> c !in a && c !in b
  {
    var s := "//" + (a + b);
    assert forall i :: 0 <= i < |a| ==> a[i] == s[i + 2];
    assert forall i :: 0 <= i < |b| ==> b[i] == s[i + 2 + |a|];
  }

  lemma SchemeOf(raw: string)
    requires CutsWell(raw)
    ensures SchemeText(PartsOf(raw).scheme) && '@' !in PartsOf(raw).authority && '[' !in PartsOf(raw).authority
  { hide CutAt, SchemeText, ClearText; }

  lemma ClearTail(s: string, n: nat)
    requires ClearText(s) && n <= |s|
    ensures ClearText(s[n..])
  { }

  lemma PartsParse(raw: string, p: Parts, u: Url)
    requires raw == TextOf(p) && Bytes(raw) && PartsApart(p) && Says(p, u)
    requires p.fragment.Some? ==> PercentOk(p.fragment.value)
    ensures Parse(raw) == Some(u)
  {
    hide Unescape, Escape, Clear, PortOk, IsByte, CutAt, Says, ParseHierarchy, PartsApart, ParseRest;
    var rest := "//" + (p.authority + p.path) + After('?', p.query);
    BodyIsClear(p);
    CutPart(p.scheme + ":" + rest, '#', p.fragment);
    ApartScheme(p);
    CutFound(p.scheme, ':', rest);
    RestParses(p, u);
    EmptyIsOk();
  }

  lemma ApartScheme(p: Parts)
    requires PartsApart(p)
    ensures SchemeText(p.scheme) && ':' !in p.scheme
  { SchemeHasNoColon(p.scheme); }

  lemma RestParses(p: Parts, u: Url)
    requires PartsApart(p) && Says(p, u)
    ensures ParseRest(Lower(p.scheme), "//" + (p.authority + p.path) + After('?', p.query)) == Some(u)
  {
    hide Unescape, Escape, ClearText, PortOk, SchemeText, CutAt, After, ParseHierarchy, Says;
    var hier := p.authority + p.path;
    CutPart("//" + hier, '?', p.query);
    assert ("//" + hier)[2..] == hier && "//" <= "//" + hier;
    HierarchyParses(p, u);
  }

  lemma HierarchyParses(p: Parts, u: Url)
    requires PartsApart(p) && Says(p, u)
    ensures ParseHierarchy(Lower(p.scheme), p.authority + p.path, p.query.Some? && p.query.value == "",
                           if p.query.None? then "" else p.query.value) == Some(u)
  {
    hide Unescape, Escape, ClearText, PortOk, SchemeText, CutAt, After;
    var hier := p.authority + p.path;
    if p.path == "" {
      assert hier == p.authority;
      CutMissing(p.authority, '/');
    } else {
      assert p.path == ['/'] + p.path[1..] && hier == p.authority + ['/'] + p.path[1..];
      CutFound(p.authority, '/', p.path[1..]);
      assert "/" + p.path[1..] == p.path;
    }
  }

  lemma EmptyIsOk()
    ensures PercentOk("")
  { }

  lemma SchemeHasNoColon(s: string)
    requires SchemeText(s)
    ensures ':' !in s && ClearText(s)
  { SchemeIsClear(s); }

  lemma BodyIsClear(p: Parts)
    requires PartsApart(p)
    ensures var body := p.scheme + ":" + ("//" + (p.authority + p.path) + After('?', p.query));
            ClearText(body) && '#' !in body
  {
    SchemeIsClear(p.scheme);
    var tail := p.authority + p.path + After('?', p.query);
    var body := p.scheme + ":" + ("//" + (p.authority + p.path) + After('?', p.query));
    assert body == p.scheme + "://" + tail;
    assert Clear(':') && Clear('/');
  }

  /** Cutting at a mark that the front does not hold. */
  lemma CutPart(front: string, mark: char, part: Option<string>)
    requires mark !in front
    ensures CutAt(front + After(mark, part), mark) ==
            Cut(front, if part.None? then "" else part.value, part.Some?)
  {
    if part.None? {
      assert front + "" == front;
      CutMissing(front, mark);
    } else {
      assert front + After(mark, part) == front + [mark] + part.value;
      CutFound(front, mark, part.value);
    }
  }

  /** url.URL.String for a URL with a host, a rooted path and no fragment. */
  function Print(u: Url): string {
    u.scheme + ":" + ("//" + HierarchyText(u) + QueryText(u))
  }

  function TrimRoot(path: string): string { if "/" <= path then path[1..] else path }

  /**
   canonicalAuthorityURL: refuses what does not parse, a path whose encoding is not canonical, and a
   path that is not already clean up to one trailing slash.
   */
  function Canonical(raw: string): Option<string> {
    match CanonicalParts(raw)
    case None => None
    case Some(u) => Some(Print(u))
  }

  function CanonicalParts(raw: string): Option<Url> {
    match Parse(raw)
    case None => None
    case Some(u) =>
      var written := "/" + TrimRoot(u.path);
      var cleaned := Paths.Clean(written);
      if u.keptRawPath || (written != cleaned && written != cleaned + "/") then None
      else Some(u.(scheme := Lower(u.scheme), host := Lower(u.host), path := cleaned))
  }

  // ---- The canonical form is a fixed point ----

  /** What a canonical URL looks like: every part prints to text that reads back as itself. */
  ghost predicate IsCanonical(u: Url) {
    && SchemeText(u.scheme) && Lower(u.scheme) == u.scheme
    && u.host != "" && Lower(u.host) == u.host && DecodableText(HostMode, u.host) && '[' !in u.host
    && PortOk(Escape(HostMode, u.host))
    && Bytes(u.path) && Paths.IsRooted(u.path) && Paths.Clean(u.path) == u.path && !u.keptRawPath
    && ClearText(u.query)
    && (u.forceQuery ==> u.query == "")
  }

  lemma {:induction false} HostTextHasNoBracket(s: string)
    requires Unescape(HostMode, s).Some? && '[' !in s
    ensures '[' !in Unescape(HostMode, s).value
  {
    if s == "" {
    } else if s[0] == '%' {
      HostTextHasNoBracket(s[3..]);
      assert HexValue(s[1]) * 16 + HexValue(s[2]) != '[' as int;
    } else {
      HostTextHasNoBracket(s[1..]);
    }
  }

  lemma LowerKeeps(s: string)
    requires DecodableText(HostMode, s) && '[' !in s
    ensures DecodableText(HostMode, Lower(s)) && '[' !in Lower(s)
  {
    forall i | 0 <= i < |s| ensures Decodable(HostMode, Lower(s)[i]) && Lower(s)[i] != '[' {
      assert Decodable(HostMode, s[i]);
    }
  }

  lemma {:induction false} CleanBytes(segs: Paths.Segments, stack: Paths.Segments)
    requires Paths.CleanSegments(stack) && (forall i :: 0 <= i < |segs| ==> '/' !in segs[i])
    requires forall i :: 0 <= i < |segs| ==> Bytes(segs[i])
    requires forall i :: 0 <= i < |stack| ==> Bytes(stack[i])
    ensures forall i :: 0 <= i < |Paths.Resolve(segs, stack)| ==> Bytes(Paths.Resolve(segs, stack)[i])
  {
    if segs == [] {
    } else if segs[0] == "" || segs[0] == "." {
      CleanBytes(segs[1..], stack);
    } else if segs[0] == ".." {
      CleanBytes(segs[1..], if stack == [] then [] else stack[..|stack| - 1]);
    } else {
      CleanBytes(segs[1..], stack + [segs[0]]);
    }
  }

  lemma {:induction false} SplitBytes(s: string)
    requires Bytes(s)
    ensures forall i :: 0 <= i < |Paths.Split(s)| ==> Bytes(Paths.Split(s)[i])
  {
    if s != "" {
      SplitBytes(s[1..]);
      assert Bytes(Paths.Split(s[1..])[0]);
      assert Bytes([s[0]] + Paths.Split(s[1..])[0]);
    }
  }

  lemma {:induction false} BodyBytes(segs: Paths.Segments)
    requires forall i :: 0 <= i < |segs| ==> Bytes(segs[i])
    ensures Bytes(Paths.Body(segs))
  {
    if segs != [] {
      BodyBytes(segs[1..]);
      assert Bytes(segs[0]);
    }
  }

  lemma CleanKeepsBytes(p: string)
    requires Bytes(p)
    ensures Bytes(Paths.Clean(p)) && Paths.IsRooted(Paths.Clean(p))
  {
    SplitBytes(p);
    CleanBytes(Paths.Split(p), []);
    BodyBytes(Paths.SegmentsOf(p));
  }

  lemma HostIsCanonical(text: string)
    requires Bytes(text) && ParseHost(text).Some?
    ensures var h := Lower(ParseHost(text).value);
            Lower(h) == h && DecodableText(HostMode, h) && '[' !in h && PortOk(Escape(HostMode, h))
  {
    var host := Unescape(HostMode, text).value;
    UnescapeDecodable(HostMode, text);
    HostTextHasNoBracket(text);
    LowerKeeps(host);
    LowerIdempotent(host);
    PortSurvivesUnescape(text);
    PortSurvivesLowerEscape(host);
  }

  lemma PathIsCanonical(text: string)
    requires Bytes(text) && Unescape(PathMode, text).Some?
    ensures var p := Paths.Clean("/" + TrimRoot(Unescape(PathMode, text).value));
            Bytes(p) && Paths.IsRooted(p) && Paths.Clean(p) == p
  {
    UnescapeDecodable(PathMode, text);
    var path := Unescape(PathMode, text).value;
    assert forall i :: 0 <= i < |path| ==> Decodable(PathMode, path[i]);
    assert Bytes("/" + TrimRoot(path));
    CleanKeepsBytes("/" + TrimRoot(path));
    Paths.CleanIdempotent("/" + TrimRoot(path));
  }

  lemma ClearPieces(s: string, c: char)
    requires ClearText(s)
    ensures ClearText(CutAt(s, c).before) && ClearText(CutAt(s, c).after)
  {
    var r := CutAt(s, c);
    forall i | 0 <= i < |r.before| ensures Clear(r.before[i]) { assert s[i] == r.before[i]; }
    forall i | 0 <= i < |r.after| ensures Clear(r.after[i]) { assert s[|r.before| + 1 + i] == r.after[i]; }
  }

  lemma CanonicalPartsAreCanonical(raw: string)
    requires CanonicalParts(raw).Some?
    ensures IsCanonical(CanonicalParts(raw).value)
  {
    hide Clear, Unescape, Escape, Lower, SchemeText, Decodable, PortOk, Paths.Clean;
    var body := CutAt(raw, '#');
    var colon := CutAt(body.before, ':');
    var mark := CutAt(colon.after, '?');
    var hier := mark.before[2..];
    var cut := CutAt(hier, '/');
    var pathText := if cut.found then "/" + cut.after else "";
    ClearPieces(body.before, ':');
    ClearPieces(colon.after, '?');
    assert ClearText(hier);
    ClearPieces(hier, '/');
    ClearIsBytes(cut.before);
    ClearIsBytes(cut.after);
    assert Bytes(pathText);
    HostIsCanonical(cut.before);
    PathIsCanonical(pathText);
    LowerIdempotent(colon.before);
    SchemeStays(colon.before);
  }

  lemma ClearIsBytes(s: string)
    requires ClearText(s)
    ensures Bytes(s)
  { }

  lemma PathDecodable(s: string)
    requires Bytes(s)
    ensures DecodableText(PathMode, s)
  { }

  lemma SchemeStays(s: string)
    requires SchemeText(s)
    ensures SchemeText(Lower(s))
  { }

  function QueryText(u: Url): string {
    if u.forceQuery || u.query != "" then "?" + u.query else ""
  }

  function HierarchyText(u: Url): string { Escape(HostMode, u.host) + Escape(PathMode, u.path) }

  lemma ParsePrintedRest(u: Url)
    requires IsCanonical(u)
    ensures ParseRest(u.scheme, "//" + HierarchyText(u) + QueryText(u)) == Some(u)
  {
    var hier, tail := "//" + HierarchyText(u), QueryText(u);
    EscapedTextIsClear(HostMode, u.host);
    EscapedTextIsClear(PathMode, u.path);
    assert '?' !in hier;
    if tail == "" {
      assert hier + tail == hier;
      CutMissing(hier, '?');
    } else {
      assert hier + tail == hier + ['?'] + u.query;
      CutFound(hier, '?', u.query);
    }
    assert hier[2..] == HierarchyText(u);
    ParsePrintedHierarchy(u);
  }

  lemma PrintedTextIsClear(u: Url)
    requires IsCanonical(u)
    ensures ClearText(Print(u)) && Bytes(Print(u)) && '#' !in Print(u)
  {
    EscapedTextIsClear(HostMode, u.host);
    EscapedTextIsClear(PathMode, u.path);
    SchemeIsClear(u.scheme);
    assert ClearText("//" + HierarchyText(u));
    assert ClearText(QueryText(u));
  }

  lemma ParsePrintedBody(u: Url)
    requires IsCanonical(u)
    ensures ParseBody(Print(u)) == Some(u)
  {
    var rest := "//" + HierarchyText(u) + QueryText(u);
    PrintedTextIsClear(u);
    SchemeIsClear(u.scheme);
    assert Print(u) == u.scheme + [':'] + rest;
    CutFound(u.scheme, ':', rest);
    ParsePrintedRest(u);
  }

  /** A canonical URL's text parses back to its own parts. */
  lemma ParsePrint(u: Url)
    requires IsCanonical(u)
    ensures Parse(Print(u)) == Some(u)
  {
    PrintedTextIsClear(u);
    CutMissing(Print(u), '#');
    ParsePrintedBody(u);
  }

  lemma ParsePrintedHierarchy(u: Url)
    requires IsCanonical(u)
    ensures ParseHierarchy(u.scheme, Escape(HostMode, u.host) + Escape(PathMode, u.path), u.forceQuery, u.query) ==
            Some(u)
  {
    hide Clear, Escape, Unescape, Decodable, PortOk;
    var h, p := Escape(HostMode, u.host), Escape(PathMode, u.path);
    EscapedTextIsClear(HostMode, u.host);
    EscapedRoot(u.path);
    assert h + p == h + ['/'] + p[1..];
    CutFound(h, '/', p[1..]);
    assert p == "/" + p[1..];
    PathDecodable(u.path);
    UnescapeEscape(HostMode, u.host);
    UnescapeEscape(PathMode, u.path);
    EscapeNoBracket(u.host);
  }

  lemma {:induction false} EscapeNoBracket(s: string)
    requires '[' !in s
    ensures '[' !in Escape(HostMode, s)
  {
    if s != "" {
      EscapeNoBracket(s[1..]);
    }
  }

  lemma EscapedRoot(path: string)
    requires Paths.IsRooted(path)
    ensures Escape(PathMode, path) != "" && Escape(PathMode, path)[0] == '/'
  { }

  lemma SchemeIsClear(s: string)
    requires SchemeText(s)
    ensures ClearText(s) && ':' !in s
  { }

  /** Escaped text is clear, has no question mark, and in a host no slash and no at sign. */
  lemma {:induction false} EscapedTextIsClear(mode: Mode, s: string)
    ensures var e := Escape(mode, s);
            ClearText(e) && '?' !in e && (mode == HostMode ==> '/' !in e && '@' !in e) && (s != "" ==> e != "")
  {
    hide EscapeByte, Clear;
    if s != "" {
      EscapedByteIsClear(mode, s[0]);
      EscapedTextIsClear(mode, s[1..]);
    }
  }

  lemma EscapedByteIsClear(mode: Mode, c: char)
    ensures var e := EscapeByte(mode, c);
            ClearText(e) && '?' !in e && (mode == HostMode ==> '/' !in e && '@' !in e) && e != ""
  { }

  /** The canonical form is a fixed point: canonicalizing it changes nothing and keeps its parts. */
  lemma CanonicalFixedPoint(raw: string)
    requires Canonical(raw).Some?
    ensures Canonical(Canonical(raw).value) == Canonical(raw)
    ensures Parse(Canonical(raw).value) == CanonicalParts(raw)
  {
    CanonicalPartsAreCanonical(raw);
    var u := CanonicalParts(raw).value;
    ParsePrint(u);
    assert "/" + TrimRoot(u.path) == u.path;
  }

  // ---- The matcher ----

  /** strings.EqualFold on hosts: Unicode simple folding, of which only that it is an equivalence is used. */
  type Fold = (string, string) -> bool

  ghost predicate Equivalence(fold: Fold) {
    && (forall a :: fold(a, a))
    && (forall a, b :: fold(a, b) ==> fold(b, a))
    && (forall a, b, c :: fold(a, b) && fold(b, c) ==> fold(a, c))
  }

  /** URLResourceIncludes: both sides canonical, then scheme, host, query and path boundary. */
  predicate UrlIncludes(fold: Fold, parent: string, child: string) {
    var pText, cText := Canonical(parent), Canonical(child);
    pText.Some? && cText.Some? &&
    var p, c := Parse(pText.value), Parse(cText.value);
    p.Some? && c.Some? &&
    Lower(p.value.scheme) == Lower(c.value.scheme) && fold(p.value.host, c.value.host) &&
    (p.value.query == "" || p.value.query == c.value.query) &&
    var base := Paths.TrimTrailingSlash(p.value.path);
    c.value.path == base || base + "/" <= c.value.path
  }

  /** The schemes agree, the hosts fold together, the query is open or the same, the path's segments come first. */
  ghost predicate PartsInclude(fold: Fold, p: Url, c: Url) {
    && p.scheme == c.scheme && fold(p.host, c.host)
    && (p.query == "" || p.query == c.query)
    && Paths.SegmentsOf(p.path) <= Paths.SegmentsOf(c.path)
  }

  /** The matcher holds exactly when both canonical forms exist and the parts nest. */
  lemma UrlIncludesExact(fold: Fold, parent: string, child: string)
    ensures UrlIncludes(fold, parent, child) <==>
            CanonicalParts(parent).Some? && CanonicalParts(child).Some? &&
            PartsInclude(fold, CanonicalParts(parent).value, CanonicalParts(child).value)
  {
    if CanonicalParts(parent).Some? && CanonicalParts(child).Some? {
      CanonicalFixedPoint(parent);
      CanonicalFixedPoint(child);
      CanonicalPartsAreCanonical(parent);
      CanonicalPartsAreCanonical(child);
      var p, c := CanonicalParts(parent).value, CanonicalParts(child).value;
      Paths.BoundaryTest(Paths.SegmentsOf(p.path), Paths.SegmentsOf(c.path));
    }
  }

  /** A URL contains itself exactly when it has a canonical form. */
  lemma UrlIncludesReflexive(fold: Fold, u: string)
    requires Equivalence(fold)
    ensures UrlIncludes(fold, u, u) <==> Canonical(u).Some?
  { UrlIncludesExact(fold, u, u); }

  lemma UrlIncludesTransitive(fold: Fold, a: string, b: string, c: string)
    requires Equivalence(fold) && UrlIncludes(fold, a, b) && UrlIncludes(fold, b, c)
    ensures UrlIncludes(fold, a, c)
  {
    hide *;
    UrlIncludesExact(fold, a, b);
    UrlIncludesExact(fold, b, c);
    UrlIncludesExact(fold, a, c);
    PartsIncludeTransitive(fold, CanonicalParts(a).value, CanonicalParts(b).value, CanonicalParts(c).value);
  }

  lemma PartsIncludeTransitive(fold: Fold, p: Url, q: Url, r: Url)
    requires Equivalence(fold) && PartsInclude(fold, p, q) && PartsInclude(fold, q, r)
    ensures PartsInclude(fold, p, r)
  { hide Paths.SegmentsOf; }

  // ---- A host that folds without being lowered ----

  /** The bytes of "\u017F.example", whose first letter folds to "s" and is its own lower case. */
  const LONG_S_HOST: string := [0xC5 as char, 0xBF as char] + PLAIN_HOST[1..]
  const PLAIN_HOST: string := "s.example"

  function RootOf(host: string): Url { Url("https", host, "/", false, false, "") }

  lemma RootIsCanonical(host: string)
    requires host != "" && Lower(host) == host && DecodableText(HostMode, host) && '[' !in host
    requires PortOk(Escape(HostMode, host))
    ensures IsCanonical(RootOf(host))
  {
    assert Lower("https") == "https";
    assert Paths.Clean("/") == "/" by {
      assert Paths.Split("/") == ["", ""];
    }
  }

  /** A host of small letters, dots and bytes outside ASCII is a canonical host. */
  predicate Simple(c: char) { 'a' <= c <= 'z' || c == '.' || 128 <= c as int < 256 }

  lemma SimpleHost(host: string)
    requires host != "" && forall i :: 0 <= i < |host| ==> Simple(host[i])
    ensures IsCanonical(RootOf(host))
  {
    hide PortOk, Escape;
    assert Lower(host) == host;
    SimplePort(host);
    PortSurvivesLowerEscape(host);
    RootIsCanonical(host);
  }

  lemma {:induction false} SimplePort(host: string)
    requires forall i :: 0 <= i < |host| ==> Simple(host[i])
    ensures PortOk(host)
  {
    if host != "" {
      SimplePort(host[1..]);
    }
  }

  lemma WitnessHosts()
    ensures IsCanonical(RootOf(PLAIN_HOST)) && IsCanonical(RootOf(LONG_S_HOST)) && PLAIN_HOST != LONG_S_HOST
  {
    hide IsCanonical;
    SimpleHost(PLAIN_HOST);
    SimpleHost(LONG_S_HOST);
    assert PLAIN_HOST[0] != LONG_S_HOST[0];
  }

  /** The input on which "scheme and host agree" is false of the program: canonical hosts differ, inclusion holds. */
  lemma FoldedHostIncluded(fold: Fold)
    requires fold(PLAIN_HOST, LONG_S_HOST)
    ensures var parent, child := Print(RootOf(PLAIN_HOST)), Print(RootOf(LONG_S_HOST));
            && UrlIncludes(fold, parent, child)
            && Canonical(parent) == Some(parent) && Canonical(child) == Some(child)
            && CanonicalParts(parent).value.host != CanonicalParts(child).value.host
  {
    hide IsCanonical, Print, Parse, PortOk;
    WitnessHosts();
    RootIsItsForm(PLAIN_HOST);
    RootIsItsForm(LONG_S_HOST);
    UrlIncludesExact(fold, Print(RootOf(PLAIN_HOST)), Print(RootOf(LONG_S_HOST)));
  }

  lemma RootIsItsForm(host: string)
    requires IsCanonical(RootOf(host))
    ensures CanonicalParts(Print(RootOf(host))) == Some(RootOf(host))
  {
    hide Print, Parse, PortOk;
    ParsePrint(RootOf(host));
    assert "/" + TrimRoot("/") == "/";
  }
}
