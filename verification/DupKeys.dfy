/**
 rejectDuplicateJSONKeys: the scanner that walks a JSON text token by token, judges every key, and
 refuses a repeated key at any depth, a document nested deeper than 8, and anything malformed.

 `NextToken` and `More` are the token stream of encoding/json's Decoder: the state says which
 separators and tokens may come next.
 */
module DupKeys {
  import opened Prelude
  import opened Json
  import opened Canonical

  // ---- The token stream of the decoder ----

  datatype Place = TopValue | ArrayStart | ArrayValue | ArrayComma | ObjectStart | ObjectKey | ObjectColon |
      ObjectValue | ObjectComma

  datatype Decoder = Decoder(at: Place, stack: seq<Place>, tokens: seq<Token>)

  predicate ValueAllowed(e: Place) { e == TopValue || e == ArrayStart || e == ArrayValue || e == ObjectValue }

  function ValueEnd(e: Place): Place {
    if e == ArrayStart || e == ArrayValue then ArrayComma else if e == ObjectValue then ObjectComma else e
  }

  /** Dec.Token: separators are consumed on the way and never returned. */
  function NextToken(d: Decoder): (r: Option<(Token, Decoder)>)
    ensures r.Some? ==> |r.value.1.tokens| < |d.tokens|
    decreases |d.tokens|
  {
    if d.tokens == [] then None
    else
      var rest := d.tokens[1..];
      match d.tokens[0]
      case LeftBracket =>
        if !ValueAllowed(d.at) then None else Some((LeftBracket, Decoder(ArrayStart, d.stack + [d.at], rest)))
      case LeftBrace =>
        if !ValueAllowed(d.at) then None else Some((LeftBrace, Decoder(ObjectStart, d.stack + [d.at], rest)))
      case RightBracket =>
        if !(d.at == ArrayStart || d.at == ArrayComma) || d.stack == [] then None
        else Some((RightBracket, Decoder(ValueEnd(d.stack[|d.stack| - 1]), d.stack[..|d.stack| - 1], rest)))
      case RightBrace =>
        if !(d.at == ObjectStart || d.at == ObjectComma) || d.stack == [] then None
        else Some((RightBrace, Decoder(ValueEnd(d.stack[|d.stack| - 1]), d.stack[..|d.stack| - 1], rest)))
      case Colon =>
        if d.at == ObjectColon then NextToken(Decoder(ObjectValue, d.stack, rest)) else None
      case Comma =>
        if d.at == ArrayComma then NextToken(Decoder(ArrayValue, d.stack, rest))
        else if d.at == ObjectComma then NextToken(Decoder(ObjectKey, d.stack, rest))
        else None
      case Str(text) =>
        if d.at == ObjectStart || d.at == ObjectKey then Some((Str(text), Decoder(ObjectColon, d.stack, rest)))
        else if ValueAllowed(d.at) then Some((Str(text), Decoder(ValueEnd(d.at), d.stack, rest)))
        else None
      case scalar =>
        if ValueAllowed(d.at) then Some((scalar, Decoder(ValueEnd(d.at), d.stack, rest))) else None
  }

  /** Dec.More: something comes before the closing bracket or brace. */
  predicate More(d: Decoder) { d.tokens != [] && d.tokens[0] != RightBracket && d.tokens[0] != RightBrace }

  // ---- What the scanner is to find ----

  const MAX_DEPTH: nat := 8

  /** No object in the tree has a key twice. */
  predicate UniqueKeys(t: Tree) {
    match t
    case ArrTree(items) => forall i :: 0 <= i < |items| ==> UniqueKeys(items[i])
    case ObjTree(ms) =>
      (forall i, j :: 0 <= i < j < |ms| ==> ms[i].key != ms[j].key) && forall i :: 0 <= i < |ms| ==>
          UniqueKeys(ms[i].value)
    case _ => true
  }

  /** No more than `room` containers inside each other. */
  predicate Fits(t: Tree, room: int) {
    match t
    case ArrTree(items) => room >= 1 && forall i :: 0 <= i < |items| ==> Fits(items[i], room - 1)
    case ObjTree(ms) => room >= 1 && forall i :: 0 <= i < |ms| ==> Fits(ms[i].value, room - 1)
    case _ => true
  }

  datatype Verdict = Accept | Duplicate(key: string) | Malformed

  /** The verdict a parse deserves; of a document both too deep and with a repeated key, either refusal. */
  predicate Deserves(p: Parsed<Tree>, room: int, v: Verdict) {
    match p
    case NoParse => !v.Accept?
    case Done(t, _) =>
      && (v.Accept? <==> UniqueKeys(t) && Fits(t, room))
      && (v.Duplicate? ==> !UniqueKeys(t))
      && (v.Malformed? ==> !Fits(t, room))
  }

  /** What is left for a value once its separator is taken. */
  function Lead(d: Decoder): Option<seq<Token>> {
    if d.at == ArrayComma then (if d.tokens != [] && d.tokens[0] == Comma then Some(d.tokens[1..]) else None)
    else if d.at == ObjectColon then (if d.tokens != [] && d.tokens[0] == Colon then Some(d.tokens[1..]) else None)
    else Some(d.tokens)
  }

  function ParseNext(d: Decoder): (r: Parsed<Tree>)
    ensures |RestOf(r)| <= |d.tokens| && (r.Done? ==> |r.rest| < |d.tokens|)
  {
    match Lead(d)
    case None => NoParse
    case Some(ts) => ParseValue(ts)
  }

  function RestOf(p: Parsed<Tree>): seq<Token> { if p.Done? then p.rest else [] }

  /** A value may start here. */
  predicate AtValue(d: Decoder) {
    d.at == TopValue || d.at == ObjectColon || ((d.at == ArrayStart || d.at == ArrayComma) && More(d))
  }

  /** Where the decoder stands once that value is read. */
  function AfterValue(d: Decoder, rest: seq<Token>): Decoder {
    Decoder(if d.at == TopValue then TopValue else if d.at == ObjectColon then ObjectComma else ArrayComma, d.stack,
        rest)
  }

  /** The first token of a value: a scalar is the whole value, a container opens a level. */
  lemma FirstOfValue(d: Decoder)
    requires AtValue(d)
    ensures var r := NextToken(d);
            match r
            case None => ParseNext(d) == NoParse
            case Some((LeftBracket, e)) =>
              && Lead(d) == Some([LeftBracket] + e.tokens) && e.at == ArrayStart
              && |e.stack| == |d.stack| + 1 && e.stack[..|d.stack|] == d.stack &&
                 ValueEnd(e.stack[|d.stack|]) == AfterValue(d, []).at
            case Some((LeftBrace, e)) =>
              && Lead(d) == Some([LeftBrace] + e.tokens) && e.at == ObjectStart
              && |e.stack| == |d.stack| + 1 && e.stack[..|d.stack|] == d.stack &&
                 ValueEnd(e.stack[|d.stack|]) == AfterValue(d, []).at
            case Some((_, e)) =>
              && ParseNext(d).Done? && !ParseNext(d).value.ArrTree? && !ParseNext(d).value.ObjTree?
              && e == AfterValue(d, ParseNext(d).rest)
  {
    hide ParseValue, ValueAllowed;
    LeadTaken(d);
    if Lead(d).Some? {
      FirstOfBare(Bare(d));
    }
  }

  /** The decoder once the separator before its value is taken. */
  function Bare(d: Decoder): Decoder {
    Decoder(if d.at == ArrayComma then ArrayValue else if d.at == ObjectColon then ObjectValue else d.at, d.stack,
            if Lead(d).Some? then Lead(d).value else [])
  }

  lemma LeadTaken(d: Decoder)
    requires AtValue(d)
    ensures if Lead(d).None? then NextToken(d) == None else NextToken(d) == NextToken(Bare(d))
    ensures ValueAllowed(Bare(d).at) && (d.at == ArrayStart ==> More(d))
  { }

  lemma FirstOfBare(d: Decoder)
    requires ValueAllowed(d.at) && (d.at == ArrayStart ==> More(d))
    ensures match NextToken(d)
            case None => ParseValue(d.tokens) == NoParse
            case Some((LeftBracket, e)) => d.tokens == [LeftBracket] + e.tokens && e.at == ArrayStart &&
              e.stack == d.stack + [d.at]
            case Some((LeftBrace, e)) => d.tokens == [LeftBrace] + e.tokens && e.at == ObjectStart &&
              e.stack == d.stack + [d.at]
            case Some((_, e)) =>
              var p := ParseValue(d.tokens);
              p.Done? && !p.value.ArrTree? && !p.value.ObjTree? && e == Decoder(ValueEnd(d.at), d.stack, p.rest)
  {
    hide ParseItems, ParseMembers;
    if d.tokens != [] {
      assert d.tokens == [d.tokens[0]] + d.tokens[1..];
    }
  }

  /** What an array's loop has still to read. */
  function RestItems(d: Decoder): Parsed<seq<Tree>> {
    if d.tokens == [] then NoParse
    else if d.tokens[0] == RightBracket then Done([], d.tokens[1..])
    else if d.at == ArrayStart then ParseItems(d.tokens)
    else if d.tokens[0] == Comma then ParseItems(d.tokens[1..])
    else NoParse
  }

  /** What an object's loop has still to read. */
  function RestMembers(d: Decoder): Parsed<seq<Member>> {
    if d.tokens == [] then NoParse
    else if d.tokens[0] == RightBrace then Done([], d.tokens[1..])
    else if d.at == ObjectStart then ParseMembers(d.tokens)
    else if d.tokens[0] == Comma then ParseMembers(d.tokens[1..])
    else NoParse
  }

  function Prepend<T>(done: seq<T>, p: Parsed<seq<T>>): Parsed<seq<T>> {
    match p
    case NoParse => NoParse
    case Done(more, rest) => Done(done + more, rest)
  }

  /** One turn of the array's loop. */
  lemma ItemTurn(d: Decoder)
    requires (d.at == ArrayStart || d.at == ArrayComma) && More(d)
    ensures match ParseNext(d)
            case NoParse => RestItems(d) == NoParse
            case Done(t, rest) => RestItems(d) == Prepend([t], RestItems(AfterValue(d, rest)))
  {
    if ParseNext(d).Done? {
      assert [ParseNext(d).value] + [] == [ParseNext(d).value];
    }
  }

  /** One turn of the object's loop: the key token, then the value behind its colon. */
  lemma MemberTurn(d: Decoder)
    requires (d.at == ObjectStart || d.at == ObjectComma) && More(d)
    ensures match NextToken(d)
            case None => RestMembers(d) == NoParse
            case Some((Str(key), e)) =>
              && e.at == ObjectColon && e.stack == d.stack
              && (match ParseNext(e)
                  case NoParse => RestMembers(d) == NoParse
                  case Done(t, rest) => RestMembers(d) == Prepend([Member(key, t)], RestMembers(AfterValue(e, rest))))
            case Some(_) => false
  {
    if d.at == ObjectComma && d.tokens[0] == Comma {
      assert NextToken(d) == NextToken(Decoder(ObjectKey, d.stack, d.tokens[1..]));
    }
    var ts := if d.at == ObjectStart then d.tokens else d.tokens[1..];
    if |ts| >= 2 && ts[0].Str? && ts[1] == Colon && ParseValue(ts[2..]).Done? {
      assert ts[1..][1..] == ts[2..];
      var m := Member(ts[0].text, ParseValue(ts[2..]).value);
      assert [m] + [] == [m];
    }
  }

  /** The end of a loop: the closing token, or nothing a container could end with. */
  lemma ArrayEnd(d: Decoder)
    requires (d.at == ArrayStart || d.at == ArrayComma) && !More(d) && d.stack != []
    ensures match NextToken(d)
            case None => RestItems(d) == NoParse
            case Some((_, e)) => RestItems(d) == Done([], e.tokens) && e.stack == d.stack[..|d.stack| - 1]
                                 && e.at == ValueEnd(d.stack[|d.stack| - 1])
  {
    if d.tokens != [] && d.tokens[0] == RightBrace {
      assert ParseValue(d.tokens) == NoParse;
    }
  }

  lemma ObjectEnd(d: Decoder)
    requires (d.at == ObjectStart || d.at == ObjectComma) && !More(d) && d.stack != []
    ensures match NextToken(d)
            case None => RestMembers(d) == NoParse
            case Some((_, e)) => RestMembers(d) == Done([], e.tokens) && e.stack == d.stack[..|d.stack| - 1]
                                 && e.at == ValueEnd(d.stack[|d.stack| - 1])
  { }

  function AsArray(p: Parsed<seq<Tree>>): Parsed<Tree> {
    match p
    case NoParse => NoParse
    case Done(items, rest) => Done(ArrTree(items), rest)
  }

  function AsObject(p: Parsed<seq<Member>>): Parsed<Tree> {
    match p
    case NoParse => NoParse
    case Done(ms, rest) => Done(ObjTree(ms), rest)
  }

  /** A container is its loop's result. */
  lemma ContainerParses(d: Decoder, e: Decoder, open: Token)
    requires Lead(d) == Some([open] + e.tokens)
    ensures open == LeftBracket && e.at == ArrayStart ==> ParseNext(d) == AsArray(RestItems(e))
    ensures open == LeftBrace && e.at == ObjectStart ==> ParseNext(d) == AsObject(RestMembers(e))
  {
    var ts := [open] + e.tokens;
    assert ts[1..] == e.tokens;
    if e.tokens != [] {
      assert ts[2..] == e.tokens[1..];
    } else {
      assert ParseValue([]) == NoParse;
    }
  }

  /** A refused item refuses the array, with what came before it and whatever comes after. */
  lemma ItemRefused(done: seq<Tree>, item: Parsed<Tree>, after: Parsed<seq<Tree>>, room: int, v: Verdict)
    requires Deserves(item, room, v) && !v.Accept?
    ensures Deserves(AsArray(Prepend(done, if item.NoParse? then NoParse else Prepend([item.value], after))),
            room + 1, v)
  {
    if item.Done? && after.Done? {
      var all := done + ([item.value] + after.value);
      assert all[|done|] == item.value;
    }
  }

  lemma MemberRefused(done: seq<Member>, key: string, value: Parsed<Tree>, after: Parsed<seq<Member>>, room: int,
    v: Verdict)
    requires Deserves(value, room, v) && !v.Accept?
    ensures Deserves(AsObject(Prepend(done, if value.NoParse? then NoParse
            else Prepend([Member(key, value.value)], after))), room + 1, v)
  {
    if value.Done? && after.Done? {
      var all := done + ([Member(key, value.value)] + after.value);
      assert all[|done|] == Member(key, value.value);
    }
  }

  lemma KeyRepeated(done: seq<Member>, key: string, value: Parsed<Tree>, after: Parsed<seq<Member>>, room: int)
    requires exists m :: m in done && m.key == key
    ensures Deserves(AsObject(Prepend(done, if value.NoParse? then NoParse
            else Prepend([Member(key, value.value)], after))), room, Duplicate(key))
  {
    if value.Done? && after.Done? {
      var all := done + ([Member(key, value.value)] + after.value);
      var i :| 0 <= i < |done| && done[i].key == key;
      assert all[i].key == all[|done|].key;
    }
  }

  /** Past the last level no container fits. */
  lemma TooDeep(p: Parsed<Tree>, room: int)
    requires p.Done? ==> p.value.ArrTree? || p.value.ObjTree?
    ensures room <= 0 ==> Deserves(p, room, Malformed)
  { }

  /** A scalar is always accepted. */
  lemma ScalarAccepted(p: Parsed<Tree>, room: int)
    requires p.Done? && !p.value.ArrTree? && !p.value.ObjTree?
    ensures Deserves(p, room, Accept)
  { }

  predicate AllGood(items: seq<Tree>, room: int) {
    forall i :: 0 <= i < |items| ==> UniqueKeys(items[i]) && Fits(items[i], room)
  }

  predicate MembersGood(ms: seq<Member>, room: int) {
    && (forall i :: 0 <= i < |ms| ==> UniqueKeys(ms[i].value) && Fits(ms[i].value, room))
    && (forall i, j :: 0 <= i < j < |ms| ==> ms[i].key != ms[j].key)
  }

  function Keys(ms: seq<Member>): (r: set<string>)
    ensures forall k :: k in r <==> exists m :: m in ms && m.key == k
  { set m | m in ms :: m.key }

  lemma PrependMore<T>(done: seq<T>, x: T, p: Parsed<seq<T>>)
    ensures Prepend(done, Prepend([x], p)) == Prepend(done + [x], p)
    ensures Prepend([], p) == p
  {
    if p.Done? {
      assert done + ([x] + p.value) == done + [x] + p.value;
      assert [] + p.value == p.value;
    }
  }

  // ---- The scanner ----

  class Scanner {
    var dec: Decoder
    var depth: nat

    constructor (tokens: seq<Token>)
      ensures dec == Decoder(TopValue, [], tokens) && depth == 0
    {
      dec := Decoder(TopValue, [], tokens);
      depth := 0;
    }

    /** One value: accepted exactly when it parses, has no repeated key and is not nested too deep. */
    method Walk() returns (v: Verdict)
      requires AtValue(dec)
      modifies this
      ensures Deserves(ParseNext(old(dec)), MAX_DEPTH - old(depth), v)
      ensures v.Accept? ==> dec == AfterValue(old(dec), ParseNext(old(dec)).rest) && depth == old(depth)
      ensures depth >= old(depth)
      decreases |dec.tokens|, 0
    {
      hide ParseValue, Lead, AtValue, NextToken, RestItems, RestMembers, ParseNext, UniqueKeys, Fits, Bare;
      ghost var d := dec;
      FirstOfValue(dec);
      var next := NextToken(dec);
      if next.None? {
        return Malformed;
      }
      var (token, e) := next.value;
      dec := e;
      if token != LeftBracket && token != LeftBrace {
        ScalarAccepted(ParseNext(d), MAX_DEPTH - depth);
        return Accept;
      }
      ContainerParses(d, e, token);
      depth := depth + 1;
      TooDeep(ParseNext(d), MAX_DEPTH + 1 - depth);
      if depth > MAX_DEPTH {
        return Malformed;
      }
      if token == LeftBracket {
        v := WalkArray();
      } else {
        v := WalkObject();
      }
      depth := depth - 1;
    }

    method WalkArray() returns (v: Verdict)
      requires dec.at == ArrayStart && dec.stack != [] && 1 <= depth <= MAX_DEPTH
      modifies this
      ensures Deserves(AsArray(RestItems(old(dec))), MAX_DEPTH + 1 - old(depth), v)
      ensures depth >= old(depth) && (v.Accept? ==> depth == old(depth))
      ensures v.Accept? ==> dec == Decoder(ValueEnd(old(dec).stack[|old(dec).stack| - 1]),
              old(dec).stack[..|old(dec).stack| - 1],
                                           RestItems(old(dec)).rest)
      decreases |dec.tokens|, 1
    {
      hide ParseValue, ParseItems, ParseNext, RestItems, NextToken;
      ghost var done: seq<Tree> := [];
      ghost var room := MAX_DEPTH - depth;
      PrependMore(done, NullTree, RestItems(dec));
      while More(dec)
        invariant (dec.at == ArrayStart || dec.at == ArrayComma) && dec.stack == old(dec.stack) && depth == old(depth)
        invariant |dec.tokens| <= |old(dec.tokens)|
        invariant RestItems(old(dec)) == Prepend(done, RestItems(dec)) && AllGood(done, room)
        decreases |dec.tokens|
      {
        ghost var d := dec;
        ItemTurn(dec);
        v := Walk();
        if !v.Accept? {
          ItemRefused(done, ParseNext(d), RestItems(AfterValue(d, RestOf(ParseNext(d)))), room, v);
          return;
        }
        PrependMore(done, ParseNext(d).value, RestItems(dec));
        done := done + [ParseNext(d).value];
      }
      ArrayEnd(dec);
      var next := NextToken(dec);
      if next.None? {
        return Malformed;
      }
      dec := next.value.1;
      v := Accept;
    }

    method WalkObject() returns (v: Verdict)
      requires dec.at == ObjectStart && dec.stack != [] && 1 <= depth <= MAX_DEPTH
      modifies this
      ensures Deserves(AsObject(RestMembers(old(dec))), MAX_DEPTH + 1 - old(depth), v)
      ensures depth >= old(depth) && (v.Accept? ==> depth == old(depth))
      ensures v.Accept? ==> dec == Decoder(ValueEnd(old(dec).stack[|old(dec).stack| - 1]),
              old(dec).stack[..|old(dec).stack| - 1],
                                           RestMembers(old(dec)).rest)
      decreases |dec.tokens|, 1
    {
      hide ParseValue, ParseMembers, ParseNext, RestMembers, NextToken;
      var seen: set<string> := {};
      ghost var done: seq<Member> := [];
      ghost var room := MAX_DEPTH - depth;
      PrependMore(done, Member("", NullTree), RestMembers(dec));
      while More(dec)
        invariant (dec.at == ObjectStart || dec.at == ObjectComma) && dec.stack == old(dec.stack) && depth == old(depth)
        invariant |dec.tokens| <= |old(dec.tokens)|
        invariant RestMembers(old(dec)) == Prepend(done, RestMembers(dec)) && MembersGood(done, room)
        invariant seen == Keys(done)
        decreases |dec.tokens|
      {
        MemberTurn(dec);
        var next := NextToken(dec);
        if next.None? {
          return Malformed;
        }
        var key := next.value.0.text;
        dec := next.value.1;
        ghost var e := dec;
        if key in seen {
          KeyRepeated(done, key, ParseNext(e), RestMembers(AfterValue(e, RestOf(ParseNext(e)))), room + 1);
          return Duplicate(key);
        }
        seen := seen + {key};
        v := Walk();
        if !v.Accept? {
          MemberRefused(done, key, ParseNext(e), RestMembers(AfterValue(e, RestOf(ParseNext(e)))), room, v);
          return;
        }
        PrependMore(done, Member(key, ParseNext(e).value), RestMembers(dec));
        done := done + [Member(key, ParseNext(e).value)];
      }
      ObjectEnd(dec);
      var next := NextToken(dec);
      if next.None? {
        return Malformed;
      }
      dec := next.value.1;
      v := Accept;
    }
  }

  /** RejectDuplicateJSONKeys: judges the first value of a text, and says nothing of what follows it. */
  method RejectDuplicateJSONKeys(raw: string) returns (v: Verdict)
    ensures Deserves(ParseValue(Lex(raw).tokens), MAX_DEPTH, v)
  {
    var scanner := new Scanner(Lex(raw).tokens);
    v := scanner.Walk();
  }
}
