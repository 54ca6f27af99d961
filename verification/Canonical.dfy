/**
 CanonicalParams: parsing token streams, the value a parse decodes to (keys sorted, the last of
 equal keys wins), and the canonical text.
 */
module Canonical {
  import opened Prelude
  import opened Json

  // ---- Parsing ----

  datatype Parsed<+T> = NoParse | Done(value: T, rest: seq<Token>)

  /** One value at the start of the tokens. */
  function ParseValue(ts: seq<Token>): (r: Parsed<Tree>)
    ensures r.Done? ==> |r.rest| < |ts|
    decreases |ts|, 0
  {
    if ts == [] then NoParse
    else match ts[0]
      case Null => Done(NullTree, ts[1..])
      case True => Done(BoolTree(true), ts[1..])
      case False => Done(BoolTree(false), ts[1..])
      case Num(literal) => Done(NumTree(literal), ts[1..])
      case Str(text) => Done(StrTree(text), ts[1..])
      case LeftBracket =>
        if |ts| > 1 && ts[1] == RightBracket then Done(ArrTree([]), ts[2..])
        else (match ParseItems(ts[1..])
              case NoParse => NoParse
              case Done(items, rest) => Done(ArrTree(items), rest))
      case LeftBrace =>
        if |ts| > 1 && ts[1] == RightBrace then Done(ObjTree([]), ts[2..])
        else (match ParseMembers(ts[1..])
              case NoParse => NoParse
              case Done(members, rest) => Done(ObjTree(members), rest))
      case _ => NoParse
  }

  /** One or more items and the closing bracket. */
  function ParseItems(ts: seq<Token>): (r: Parsed<seq<Tree>>)
    ensures r.Done? ==> |r.rest| < |ts|
    decreases |ts|, 1
  {
    match ParseValue(ts)
    case NoParse => NoParse
    case Done(item, rest) =>
      if rest == [] then NoParse
      else if rest[0] == RightBracket then Done([item], rest[1..])
      else if rest[0] == Comma then
        (match ParseItems(rest[1..])
         case NoParse => NoParse
         case Done(items, more) => Done([item] + items, more))
      else NoParse
  }

  /** One or more members and the closing brace. */
  function ParseMembers(ts: seq<Token>): (r: Parsed<seq<Member>>)
    ensures r.Done? ==> |r.rest| < |ts|
    decreases |ts|, 1
  {
    if |ts| < 2 || !ts[0].Str? || ts[1] != Colon then NoParse
    else match ParseValue(ts[2..])
      case NoParse => NoParse
      case Done(value, rest) =>
        var member := Member(ts[0].text, value);
        if rest == [] then NoParse
        else if rest[0] == RightBrace then Done([member], rest[1..])
        else if rest[0] == Comma then
          (match ParseMembers(rest[1..])
           case NoParse => NoParse
           case Done(members, more) => Done([member] + members, more))
        else NoParse
  }

  /** Exactly one JSON value with nothing but whitespace around it. */
  function Decode(raw: string): Option<Tree> {
    var l := Lex(raw);
    match ParseValue(l.tokens)
    case NoParse => None
    case Done(tree, rest) => if rest == [] && l.rest == "" then Some(tree) else None
  }

  // ---- The tokens of a tree ----

  function Tokens(t: Tree): (r: seq<Token>)
    ensures r != []
  {
    match t
    case NullTree => [Null]
    case BoolTree(v) => [if v then True else False]
    case NumTree(literal) => [Num(literal)]
    case StrTree(text) => [Str(text)]
    case ArrTree(items) => [LeftBracket] + ItemTokens(items) + [RightBracket]
    case ObjTree(members) => [LeftBrace] + MemberTokens(members) + [RightBrace]
  }

  function ItemTokens(items: seq<Tree>): seq<Token> {
    if items == [] then []
    else Tokens(items[0]) + (if |items| == 1 then [] else [Comma] + ItemTokens(items[1..]))
  }

  function MemberTokens(members: seq<Member>): seq<Token> {
    if members == [] then []
    else [Str(members[0].key), Colon] + Tokens(members[0].value)
         + (if |members| == 1 then [] else [Comma] + MemberTokens(members[1..]))
  }

  /** A tree's first token never closes anything, so an opening bracket tells empty from non-empty. */
  lemma FirstToken(t: Tree)
    ensures Tokens(t)[0] != RightBracket && Tokens(t)[0] != RightBrace && Tokens(t)[0] != Comma
  { }

  lemma ParseArray(body: seq<Token>, items: seq<Tree>, rest: seq<Token>)
    requires body != [] && body[0] != RightBracket && ParseItems(body) == Done(items, rest)
    ensures ParseValue([LeftBracket] + body) == Done(ArrTree(items), rest)
  { assert ([LeftBracket] + body)[1..] == body; }

  lemma ParseObject(body: seq<Token>, members: seq<Member>, rest: seq<Token>)
    requires body != [] && body[0] != RightBrace && ParseMembers(body) == Done(members, rest)
    ensures ParseValue([LeftBrace] + body) == Done(ObjTree(members), rest)
  { assert ([LeftBrace] + body)[1..] == body; }

  lemma ParseEmpty(rest: seq<Token>)
    ensures ParseValue([LeftBracket, RightBracket] + rest) == Done(ArrTree([]), rest)
    ensures ParseValue([LeftBrace, RightBrace] + rest) == Done(ObjTree([]), rest)
  {
    assert ([LeftBracket, RightBracket] + rest)[2..] == rest;
    assert ([LeftBrace, RightBrace] + rest)[2..] == rest;
  }

  lemma ParseScalar(t: Tree, rest: seq<Token>)
    requires !t.ArrTree? && !t.ObjTree?
    ensures ParseValue(Tokens(t) + rest) == Done(t, rest)
  { assert (Tokens(t) + rest)[1..] == rest; }

  lemma {:induction false} ParseTokens(t: Tree, rest: seq<Token>)
    ensures ParseValue(Tokens(t) + rest) == Done(t, rest)
    decreases t, 0
  {
    hide ParseValue, ParseItems, ParseMembers;
    match t
    case ArrTree(items) =>
      if items == [] {
        ParseEmpty(rest);
        assert Tokens(t) == [LeftBracket, RightBracket];
      } else {
        var body := ItemTokens(items) + [RightBracket] + rest;
        ParseItemTokens(items, rest);
        FirstToken(items[0]);
        assert body[0] == Tokens(items[0])[0];
        ParseArray(body, items, rest);
        assert Tokens(t) + rest == [LeftBracket] + body;
      }
    case ObjTree(members) =>
      if members == [] {
        ParseEmpty(rest);
        assert Tokens(t) == [LeftBrace, RightBrace];
      } else {
        var body := MemberTokens(members) + [RightBrace] + rest;
        ParseMemberTokens(members, rest);
        assert body[0] == Str(members[0].key);
        ParseObject(body, members, rest);
        assert Tokens(t) + rest == [LeftBrace] + body;
      }
    case _ => ParseScalar(t, rest);
  }

  lemma {:induction false} ParseItemTokens(items: seq<Tree>, rest: seq<Token>)
    requires items != []
    ensures ParseItems(ItemTokens(items) + [RightBracket] + rest) == Done(items, rest)
    decreases items, 1
  {
    var ts, head := ItemTokens(items) + [RightBracket] + rest, Tokens(items[0]);
    if |items| == 1 {
      var after := [RightBracket] + rest;
      assert ts == head + after;
      ParseTokens(items[0], after);
      assert after[1..] == rest && [items[0]] == items;
    } else {
      var tail := ItemTokens(items[1..]) + [RightBracket] + rest;
      var after := [Comma] + tail;
      assert ts == head + after;
      ParseTokens(items[0], after);
      ParseItemTokens(items[1..], rest);
      assert after[1..] == tail;
      assert [items[0]] + items[1..] == items;
    }
  }

  lemma ParseLastMember(m: Member, value: seq<Token>, after: seq<Token>)
    requires ParseValue(value) == Done(m.value, after) && after != [] && after[0] == RightBrace
    ensures ParseMembers([Str(m.key), Colon] + value) == Done([m], after[1..])
  {
    var ts := [Str(m.key), Colon] + value;
    assert ts[2..] == value && Member(m.key, m.value) == m;
  }

  lemma ParseOneMoreMember(m: Member, value: seq<Token>, after: seq<Token>, members: seq<Member>, rest: seq<Token>)
    requires ParseValue(value) == Done(m.value, after) && after != [] && after[0] == Comma
    requires ParseMembers(after[1..]) == Done(members, rest)
    ensures ParseMembers([Str(m.key), Colon] + value) == Done([m] + members, rest)
  {
    var ts := [Str(m.key), Colon] + value;
    assert ts[2..] == value && Member(m.key, m.value) == m;
  }

  /** What follows a member's value: the closing brace, or a comma and the other members. */
  function AfterMember(members: seq<Member>, rest: seq<Token>): seq<Token>
    requires members != []
  {
    if |members| == 1 then [RightBrace] + rest else [Comma] + (MemberTokens(members[1..]) + [RightBrace] + rest)
  }

  lemma MemberTokensSplit(members: seq<Member>, rest: seq<Token>)
    requires members != []
    ensures MemberTokens(members) + [RightBrace] + rest ==
            [Str(members[0].key), Colon] + (Tokens(members[0].value) + AfterMember(members, rest))
  { }

  lemma {:induction false} ParseMemberTokens(members: seq<Member>, rest: seq<Token>)
    requires members != []
    ensures ParseMembers(MemberTokens(members) + [RightBrace] + rest) == Done(members, rest)
    decreases members, 1
  {
    hide ParseValue, ParseItems, ParseMembers, Tokens;
    var m, after := members[0], AfterMember(members, rest);
    var value := Tokens(m.value) + after;
    MemberTokensSplit(members, rest);
    ParseTokens(m.value, after);
    if |members| == 1 {
      ParseLastMember(m, value, after);
      assert after[1..] == rest && [m] == members;
    } else {
      ParseMemberTokens(members[1..], rest);
      assert after[1..] == MemberTokens(members[1..]) + [RightBrace] + rest;
      ParseOneMoreMember(m, value, after, members[1..], rest);
      assert [m] + members[1..] == members;
    }
  }

  // ---- Well-formed trees ----

  /** Every number literal meets the grammar; true of everything a text decodes to. */
  predicate WellFormed(t: Tree) {
    match t
    case NumTree(literal) => NumberOk(literal)
    case ArrTree(items) => ItemsWellFormed(items)
    case ObjTree(members) => MembersWellFormed(members)
    case _ => true
  }

  predicate ItemsWellFormed(items: seq<Tree>) {
    items == [] || (WellFormed(items[0]) && ItemsWellFormed(items[1..]))
  }

  predicate MembersWellFormed(members: seq<Member>) {
    members == [] || (WellFormed(members[0].value) && MembersWellFormed(members[1..]))
  }

  lemma {:induction false} ParseWellFormed(ts: seq<Token>)
    requires TokensOk(ts)
    ensures ParseValue(ts).Done? ==> WellFormed(ParseValue(ts).value) && TokensOk(ParseValue(ts).rest)
    decreases |ts|, 0
  {
    if ts != [] && ts[0] == LeftBracket && !(|ts| > 1 && ts[1] == RightBracket) {
      ItemsParseWellFormed(ts[1..]);
    } else if ts != [] && ts[0] == LeftBrace && !(|ts| > 1 && ts[1] == RightBrace) {
      MembersParseWellFormed(ts[1..]);
    }
  }

  lemma {:induction false} ItemsParseWellFormed(ts: seq<Token>)
    requires TokensOk(ts)
    ensures ParseItems(ts).Done? ==> ItemsWellFormed(ParseItems(ts).value) && TokensOk(ParseItems(ts).rest)
    decreases |ts|, 1
  {
    ParseWellFormed(ts);
    if ParseValue(ts).Done? {
      var item, rest := ParseValue(ts).value, ParseValue(ts).rest;
      assert [item][1..] == [];
      if rest != [] && rest[0] == Comma {
        ItemsParseWellFormed(rest[1..]);
        if ParseItems(rest[1..]).Done? {
          assert ([item] + ParseItems(rest[1..]).value)[1..] == ParseItems(rest[1..]).value;
        }
      }
    }
  }

  lemma {:induction false} MembersParseWellFormed(ts: seq<Token>)
    requires TokensOk(ts)
    ensures ParseMembers(ts).Done? ==> MembersWellFormed(ParseMembers(ts).value) && TokensOk(ParseMembers(ts).rest)
    decreases |ts|, 1
  {
    if |ts| >= 2 && ts[0].Str? && ts[1] == Colon {
      ParseWellFormed(ts[2..]);
      if ParseValue(ts[2..]).Done? {
        var member, rest := Member(ts[0].text, ParseValue(ts[2..]).value), ParseValue(ts[2..]).rest;
        assert [member][1..] == [];
        if rest != [] && rest[0] == Comma {
          MembersParseWellFormed(rest[1..]);
          if ParseMembers(rest[1..]).Done? {
            assert ([member] + ParseMembers(rest[1..]).value)[1..] == ParseMembers(rest[1..]).value;
          }
        }
      }
    }
  }

  lemma DecodeWellFormed(raw: string)
    ensures Decode(raw).Some? ==> WellFormed(Decode(raw).value)
  {
    LexTokensOk(raw);
    ParseWellFormed(Lex(raw).tokens);
  }

  // ---- Printing ----

  function NoGaps(n: nat): seq<string> { seq(n, i => "") }

  /** The compact text: the tokens with nothing between them. */
  function Print(t: Tree): string { SpacedText(Tokens(t), NoGaps(|Tokens(t)| + 1)) }

  /** Scalars of a tree's tokens are never neighbours. */
  predicate NumbersApart(ts: seq<Token>) {
    forall i :: 0 < i < |ts| ==> !(ts[i - 1].Num? && ts[i].Num?)
  }

  lemma {:induction false} TokensFit(t: Tree)
    requires WellFormed(t)
    ensures TokensOk(Tokens(t)) && NumbersApart(Tokens(t))
    decreases t, 0
  {
    match t
    case ArrTree(items) => ItemTokensFit(items);
    case ObjTree(members) => MemberTokensFit(members);
    case _ =>
  }

  lemma {:induction false} ItemTokensFit(items: seq<Tree>)
    requires ItemsWellFormed(items)
    ensures TokensOk(ItemTokens(items)) && NumbersApart(ItemTokens(items))
    decreases items, 1
  {
    if items != [] {
      TokensFit(items[0]);
      ItemTokensFit(items[1..]);
    }
  }

  lemma {:induction false} MemberTokensFit(members: seq<Member>)
    requires MembersWellFormed(members)
    ensures TokensOk(MemberTokens(members)) && NumbersApart(MemberTokens(members))
    decreases members, 1
  {
    if members != [] {
      TokensFit(members[0].value);
      MemberTokensFit(members[1..]);
    }
  }

  /** Any text that spells a tree's tokens, with whitespace wherever one likes, decodes to the tree. */
  lemma DecodeSpaced(t: Tree, gaps: seq<string>)
    requires WellFormed(t) && |gaps| == |Tokens(t)| + 1 && forall i :: 0 <= i < |gaps| ==> AllSpace(gaps[i])
    ensures Decode(SpacedText(Tokens(t), gaps)) == Some(t)
  {
    TokensFit(t);
    LexSpacedText(Tokens(t), gaps);
    ParseTokens(t, []);
    assert Tokens(t) + [] == Tokens(t);
  }

  lemma DecodePrint(t: Tree)
    requires WellFormed(t)
    ensures Decode(Print(t)) == Some(t)
  { DecodeSpaced(t, NoGaps(|Tokens(t)| + 1)); }

  // ---- The decoded value: sorted keys, last binding wins ----

  /** The position of the last member with this key, or -1. */
  function LastIndex(members: seq<Member>, key: string): (i: int)
    ensures -1 <= i < |members| && (i >= 0 ==> members[i].key == key)
    ensures forall j :: i < j < |members| ==> members[j].key != key
  {
    if members == [] then -1
    else var i := LastIndex(members[1..], key);
         if i >= 0 then i + 1 else if members[0].key == key then 0 else -1
  }

  predicate HasKey(members: seq<Member>, key: string) { LastIndex(members, key) >= 0 }

  /** What a Go map holds under the key after decoding the members in order. */
  function Binding(members: seq<Member>, key: string): Tree
    requires HasKey(members, key)
  { members[LastIndex(members, key)].value }

  /** Adds a member unless its key is there already. */
  function Insert(members: seq<Member>, m: Member): seq<Member> {
    if members == [] then [m]
    else if members[0].key == m.key then members
    else if Less(m.key, members[0].key) then [m] + members
    else [members[0]] + Insert(members[1..], m)
  }

  /** The decoded value as a tree: what json.Marshal prints after a decode into `any`. */
  function Norm(t: Tree): Tree {
    match t
    case ArrTree(items) => ArrTree(NormItems(items))
    case ObjTree(members) => ObjTree(NormMembers(members))
    case _ => t
  }

  function NormItems(items: seq<Tree>): (r: seq<Tree>)
    ensures |r| == |items|
  {
    if items == [] then [] else [Norm(items[0])] + NormItems(items[1..])
  }

  function NormMembers(members: seq<Member>): seq<Member> {
    if members == [] then []
    else Insert(NormMembers(members[1..]), Member(members[0].key, Norm(members[0].value)))
  }

  ghost predicate Sorted(members: seq<Member>) {
    forall i, j :: 0 <= i < j < |members| ==> Less(members[i].key, members[j].key)
  }

  lemma {:induction false} InsertKeys(members: seq<Member>, m: Member)
    ensures forall x :: x in Insert(members, m) ==> x in members || x == m
    ensures forall x :: x in members ==> x in Insert(members, m)
    ensures exists x :: x in Insert(members, m) && x.key == m.key
    ensures (exists x :: x in members && x.key == m.key) || m in Insert(members, m)
  {
    if members == [] {
      assert m in [m];
    } else if members[0].key == m.key {
      assert members[0] in members;
    } else if Less(m.key, members[0].key) {
      assert ([m] + members)[0] == m;
    } else {
      InsertKeys(members[1..], m);
    }
  }

  lemma {:induction false} InsertSorted(members: seq<Member>, m: Member)
    requires Sorted(members)
    ensures Sorted(Insert(members, m))
  {
    if members == [] || members[0].key == m.key {
    } else if Less(m.key, members[0].key) {
      forall j | 0 <= j < |members| ensures Less(m.key, members[j].key) {
        if j > 0 { LessTransitive(m.key, members[0].key, members[j].key); }
      }
    } else {
      LessTotal(m.key, members[0].key);
      InsertSorted(members[1..], m);
      InsertKeys(members[1..], m);
      var tail := Insert(members[1..], m);
      forall j | 0 <= j < |tail| ensures Less(members[0].key, tail[j].key) {
        assert tail[j] in tail;
      }
    }
  }

  /** In a sorted list, being a member decides the binding. */
  lemma SortedBinding(members: seq<Member>, m: Member)
    requires Sorted(members) && m in members
    ensures HasKey(members, m.key) && Binding(members, m.key) == m.value
  {
    var i :| 0 <= i < |members| && members[i] == m;
    var j := LastIndex(members, m.key);
    assert i <= j;
    if i < j {
      LessTotal(m.key, m.key);
    }
  }

  lemma BindingMember(members: seq<Member>, key: string)
    requires HasKey(members, key)
    ensures Member(key, Binding(members, key)) in members
  {
    var m := members[LastIndex(members, key)];
    assert m == Member(key, m.value);
  }

  /** The normal form is sorted and binds every key to the normal form of its last binding. */
  lemma {:induction false} NormMembersBinds(members: seq<Member>)
    ensures Sorted(NormMembers(members))
    ensures forall k :: HasKey(NormMembers(members), k) <==> HasKey(members, k)
    ensures forall k :: HasKey(members, k) ==> Binding(NormMembers(members), k) == Norm(Binding(members, k))
  {
    if members == [] {
    } else {
      var rest, m := NormMembers(members[1..]), Member(members[0].key, Norm(members[0].value));
      NormMembersBinds(members[1..]);
      InsertSorted(rest, m);
      InsertKeys(rest, m);
      var n := Insert(rest, m);
      forall k
        ensures HasKey(n, k) <==> HasKey(members, k)
        ensures HasKey(members, k) ==> Binding(n, k) == Norm(Binding(members, k))
      {
        InsertBinds(rest, m, k);
      }
    }
  }

  lemma InsertBinds(rest: seq<Member>, m: Member, k: string)
    requires Sorted(rest) && Sorted(Insert(rest, m))
    ensures HasKey(Insert(rest, m), k) <==> HasKey(rest, k) || k == m.key
    ensures HasKey(Insert(rest, m), k) ==>
              Binding(Insert(rest, m), k) == if HasKey(rest, k) then Binding(rest, k) else m.value
  {
    var n := Insert(rest, m);
    InsertKeys(rest, m);
    if HasKey(rest, k) {
      BindingMember(rest, k);
      SortedBinding(n, Member(k, Binding(rest, k)));
    } else if HasKey(n, k) {
      BindingMember(n, k);
    }
    if k == m.key {
      if exists x :: x in rest && x.key == m.key {
        var x :| x in rest && x.key == m.key;
        SortedBinding(rest, x);
      } else {
        SortedBinding(n, m);
      }
    }
  }

  /** Two sorted lists with the same bindings are the same list. */
  lemma {:induction false} SortedExtensional(a: seq<Member>, b: seq<Member>)
    requires Sorted(a) && Sorted(b)
    requires forall k :: HasKey(a, k) <==> HasKey(b, k)
    requires forall k :: HasKey(a, k) ==> Binding(a, k) == Binding(b, k)
    ensures a == b
  {
    if a == [] || b == [] {
      if a != [] {
        SortedBinding(a, a[0]);
      }
      if b != [] {
        SortedBinding(b, b[0]);
      }
    } else {
      SortedHead(a, b);
      SortedHead(b, a);
      LessTotal(a[0].key, b[0].key);
      SortedBinding(a, a[0]);
      SortedBinding(b, b[0]);
      assert a[0] == b[0];
      forall k
        ensures HasKey(a[1..], k) <==> HasKey(b[1..], k)
        ensures HasKey(a[1..], k) ==> Binding(a[1..], k) == Binding(b[1..], k)
      {
        TailBinds(a, k);
        TailBinds(b, k);
      }
      SortedExtensional(a[1..], b[1..]);
    }
  }

  /** The first key of one list is not below the first key of another that binds the same keys. */
  lemma SortedHead(a: seq<Member>, b: seq<Member>)
    requires Sorted(a) && Sorted(b) && a != [] && b != []
    requires forall k :: HasKey(a, k) ==> HasKey(b, k)
    ensures !Less(a[0].key, b[0].key)
  {
    SortedBinding(a, a[0]);
    var j := LastIndex(b, a[0].key);
    LessTotal(a[0].key, b[0].key);
  }

  lemma TailBinds(a: seq<Member>, k: string)
    requires Sorted(a) && a != []
    ensures HasKey(a[1..], k) <==> HasKey(a, k) && k != a[0].key
    ensures HasKey(a[1..], k) ==> Binding(a[1..], k) == Binding(a, k)
  {
    LessTotal(k, k);
    if HasKey(a[1..], k) {
      assert a[1..][LastIndex(a[1..], k)] == a[LastIndex(a[1..], k) + 1];
    }
  }

  // ---- CanonicalParams ----

  /** CanonicalParams: one JSON value is decoded and printed again; anything else stays as it is. */
  function CanonicalParams(raw: string): string {
    match Decode(raw)
    case None => raw
    case Some(t) => Print(Norm(t))
  }

  lemma {:induction false} NormWellFormed(t: Tree)
    requires WellFormed(t)
    ensures WellFormed(Norm(t))
    decreases t, 0
  {
    match t
    case ArrTree(items) => NormItemsWellFormed(items);
    case ObjTree(members) => NormMembersWellFormed(members);
    case _ =>
  }

  lemma {:induction false} NormItemsWellFormed(items: seq<Tree>)
    requires ItemsWellFormed(items)
    ensures ItemsWellFormed(NormItems(items))
    decreases items, 1
  {
    if items != [] {
      NormWellFormed(items[0]);
      NormItemsWellFormed(items[1..]);
    }
  }

  lemma {:induction false} NormMembersWellFormed(members: seq<Member>)
    requires MembersWellFormed(members)
    ensures MembersWellFormed(NormMembers(members))
    decreases members, 1
  {
    if members != [] {
      NormWellFormed(members[0].value);
      NormMembersWellFormed(members[1..]);
      InsertWellFormed(NormMembers(members[1..]), Member(members[0].key, Norm(members[0].value)));
    }
  }

  lemma {:induction false} InsertWellFormed(members: seq<Member>, m: Member)
    requires MembersWellFormed(members) && WellFormed(m.value)
    ensures MembersWellFormed(Insert(members, m))
  {
    if members == [] {
      assert [m][1..] == [];
    } else if members[0].key != m.key {
      if Less(m.key, members[0].key) {
        assert ([m] + members)[1..] == members;
      } else {
        InsertWellFormed(members[1..], m);
        assert Insert(members, m)[1..] == Insert(members[1..], m);
      }
    }
  }

  // ---- Which texts share a canonical form ----

  /**
   The same decoded value, said without normal forms: equal scalars, arrays equal place by place,
   and objects whose last bindings agree key by key, at every depth.
   */
  ghost predicate Same(a: Tree, b: Tree)
    decreases a
  {
    match (a, b)
    case (ArrTree(xs), ArrTree(ys)) => |xs| == |ys| && forall i :: 0 <= i < |xs| ==> Same(xs[i], ys[i])
    case (ObjTree(ms), ObjTree(ns)) => forall k :: SameAt(ms, ns, k)
    case (_, _) => a == b && !a.ArrTree? && !a.ObjTree?
  }

  /** Both lists bind the key, to the same value, or neither does. */
  ghost predicate SameAt(ms: seq<Member>, ns: seq<Member>, k: string)
    decreases ms
  {
    && (HasKey(ms, k) <==> HasKey(ns, k))
    && (HasKey(ms, k) ==> Same(ms[LastIndex(ms, k)].value, Binding(ns, k)))
  }

  lemma {:induction false} NormItemsAt(items: seq<Tree>, i: nat)
    requires i < |items|
    ensures NormItems(items)[i] == Norm(items[i])
  {
    if i > 0 {
      NormItemsAt(items[1..], i - 1);
    }
  }

  /** Normal forms are equal exactly when the decoded values are the same. */
  lemma {:induction false} NormDecidesSame(a: Tree, b: Tree)
    ensures Norm(a) == Norm(b) <==> Same(a, b)
    decreases a
  {
    match (a, b)
    case (ArrTree(xs), ArrTree(ys)) =>
      if |xs| == |ys| {
        forall i | 0 <= i < |xs|
          ensures (NormItems(xs)[i] == NormItems(ys)[i]) <==> Same(xs[i], ys[i])
        {
          NormItemsAt(xs, i);
          NormItemsAt(ys, i);
          NormDecidesSame(xs[i], ys[i]);
        }
      }
    case (ObjTree(ms), ObjTree(ns)) =>
      NormMembersBinds(ms);
      NormMembersBinds(ns);
      forall k | HasKey(ms, k) && HasKey(ns, k)
        ensures Norm(Binding(ms, k)) == Norm(Binding(ns, k)) <==> SameAt(ms, ns, k)
      {
        NormDecidesSame(ms[LastIndex(ms, k)].value, Binding(ns, k));
      }
      if Same(a, b) {
        forall k
          ensures HasKey(NormMembers(ms), k) <==> HasKey(NormMembers(ns), k)
          ensures HasKey(NormMembers(ms), k) ==> Binding(NormMembers(ms), k) == Binding(NormMembers(ns), k)
        {
          assert SameAt(ms, ns, k);
        }
        SortedExtensional(NormMembers(ms), NormMembers(ns));
      }
      if Norm(a) == Norm(b) {
        forall k ensures SameAt(ms, ns, k) {
          assert HasKey(NormMembers(ms), k) <==> HasKey(ms, k);
        }
      }
    case (_, _) =>
  }

  /** A decoded value decodes to itself: its normal form is the same value. */
  lemma {:induction false} SameAsNorm(t: Tree)
    ensures Same(Norm(t), t)
    decreases t
  {
    match t
    case ArrTree(items) =>
      forall i | 0 <= i < |items| ensures Same(NormItems(items)[i], items[i]) {
        NormItemsAt(items, i);
        SameAsNorm(items[i]);
      }
    case ObjTree(members) =>
      NormMembersBinds(members);
      forall k ensures SameAt(NormMembers(members), members, k) {
        if HasKey(members, k) {
          SameAsNorm(members[LastIndex(members, k)].value);
        }
      }
    case _ =>
  }

  lemma NormIdempotent(t: Tree)
    ensures Norm(Norm(t)) == Norm(t)
  {
    SameAsNorm(t);
    NormDecidesSame(Norm(t), t);
  }

  /** The canonical form of a JSON text decodes to the normal form of its value. */
  lemma CanonicalDecodes(raw: string)
    requires Decode(raw).Some?
    ensures Decode(CanonicalParams(raw)) == Some(Norm(Decode(raw).value))
  {
    DecodeWellFormed(raw);
    NormWellFormed(Decode(raw).value);
    DecodePrint(Norm(Decode(raw).value));
  }

  /** Canonicalizing twice is canonicalizing once, on every input. */
  lemma CanonicalIdempotent(raw: string)
    ensures CanonicalParams(CanonicalParams(raw)) == CanonicalParams(raw)
  {
    if Decode(raw).Some? {
      CanonicalDecodes(raw);
      NormIdempotent(Decode(raw).value);
    }
  }

  /**
   Two inputs share a canonical form exactly when both are JSON texts of the same decoded value, or
   neither is a JSON text and they are equal.
   */
  lemma CanonicalAgreesExactly(r1: string, r2: string)
    ensures CanonicalParams(r1) == CanonicalParams(r2) <==>
            if Decode(r1).Some? && Decode(r2).Some? then Same(Decode(r1).value, Decode(r2).value)
            else Decode(r1).None? && Decode(r2).None? && r1 == r2
  {
    if Decode(r1).Some? {
      CanonicalDecodes(r1);
    }
    if Decode(r2).Some? {
      CanonicalDecodes(r2);
    }
    if Decode(r1).Some? && Decode(r2).Some? {
      NormDecidesSame(Decode(r1).value, Decode(r2).value);
    }
  }

  /** Texts that differ only in the whitespace between their tokens share a canonical form. */
  lemma WhitespaceDoesNotMatter(t: Tree, gaps1: seq<string>, gaps2: seq<string>)
    requires WellFormed(t) && |gaps1| == |gaps2| == |Tokens(t)| + 1
    requires forall i :: 0 <= i < |gaps1| ==> AllSpace(gaps1[i]) && AllSpace(gaps2[i])
    ensures CanonicalParams(SpacedText(Tokens(t), gaps1)) == CanonicalParams(SpacedText(Tokens(t), gaps2)) ==
            Print(Norm(t))
  {
    DecodeSpaced(t, gaps1);
    DecodeSpaced(t, gaps2);
  }

  /** A member whose key comes again later is overridden: dropping it keeps the value. */
  lemma OverriddenDoesNotMatter(before: seq<Member>, m: Member, after: seq<Member>)
    requires HasKey(after, m.key)
    ensures Same(ObjTree(before + [m] + after), ObjTree(before + after))
  {
    var xs, ys := before + [m] + after, before + after;
    var b, a := |before|, LastIndex(after, m.key);
    assert xs[b + 1 + a] == after[a];
    forall k ensures SameAt(xs, ys, k) {
      var i := LastIndex(xs, k);
      if i >= 0 {
        var j := if i <= b then i else i - 1;
        assert xs[i] == ys[j];
        forall l | j < l < |ys| ensures ys[l].key != k {
          assert ys[l] == if l < b then xs[l] else xs[l + 1];
        }
        LastIs(ys, k, j);
        NormDecidesSame(xs[i].value, xs[i].value);
      } else {
        assert forall l :: 0 <= l < |ys| ==> ys[l] == if l < b then xs[l] else xs[l + 1];
        NeverLast(xs, ys, k);
      }
    }
  }

  lemma LastIs(ms: seq<Member>, k: string, i: int)
    requires 0 <= i < |ms| && ms[i].key == k && forall j :: i < j < |ms| ==> ms[j].key != k
    ensures LastIndex(ms, k) == i
  { }

  lemma NeverLast(xs: seq<Member>, ys: seq<Member>, k: string)
    requires LastIndex(xs, k) == -1 && forall y :: y in ys ==> y in xs
    ensures LastIndex(ys, k) == -1
  {
    forall j | 0 <= j < |ys| ensures ys[j].key != k {
      assert ys[j] in xs;
    }
  }
}
