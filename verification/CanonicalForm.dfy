/** What the canonical form looks like: the order of its keys at every depth, its blanks and its characters. */
module CanonicalForm {
  import opened Prelude
  import opened Json
  import opened Canonical

  // ---- The order of the keys ----

  /** In every object of the value each key precedes the next, code point by code point. */
  ghost predicate OrderedKeys(t: Tree) {
    match t
    case ArrTree(items) => forall i :: 0 <= i < |items| ==> OrderedKeys(items[i])
    case ObjTree(ms) =>
      && (forall i, j :: 0 <= i < j < |ms| ==> Precedes(ms[i].key, ms[j].key))
      && (forall i :: 0 <= i < |ms| ==> OrderedKeys(ms[i].value))
    case _ => true
  }

  lemma {:induction false} NormOrdered(t: Tree)
    ensures OrderedKeys(Norm(t))
    decreases t, 0
  {
    match t
    case ArrTree(items) => NormItemsOrdered(items);
    case ObjTree(ms) =>
      NormMembersOrdered(ms);
      NormMembersBinds(ms);
      var ns := NormMembers(ms);
      forall i, j | 0 <= i < j < |ns| ensures Precedes(ns[i].key, ns[j].key) {
        LessExact(ns[i].key, ns[j].key);
      }
    case _ =>
  }

  lemma {:induction false} NormItemsOrdered(items: seq<Tree>)
    ensures forall i :: 0 <= i < |items| ==> OrderedKeys(NormItems(items)[i])
    decreases items, 1
  {
    if items != [] {
      NormOrdered(items[0]);
      NormItemsOrdered(items[1..]);
    }
  }

  lemma {:induction false} NormMembersOrdered(ms: seq<Member>)
    ensures forall m :: m in NormMembers(ms) ==> OrderedKeys(m.value)
    decreases ms, 1
  {
    if ms != [] {
      NormOrdered(ms[0].value);
      NormMembersOrdered(ms[1..]);
      InsertKeys(NormMembers(ms[1..]), Member(ms[0].key, Norm(ms[0].value)));
    }
  }

  /** The canonical form of a JSON text has the keys of every object, at every depth, in order and once. */
  lemma CanonicalOrdered(raw: string)
    requires Decode(raw).Some?
    ensures Decode(CanonicalParams(raw)).Some? && OrderedKeys(Decode(CanonicalParams(raw)).value)
  {
    CanonicalDecodes(raw);
    NormOrdered(Decode(raw).value);
  }

  // ---- No blanks ----

  function GapLength(gaps: seq<string>): nat {
    if gaps == [] then 0 else |gaps[0]| + GapLength(gaps[1..])
  }

  function TextLength(ts: seq<Token>): nat {
    if ts == [] then 0 else |TokenText(ts[0])| + TextLength(ts[1..])
  }

  lemma {:induction false} SpacedLength(ts: seq<Token>, gaps: seq<string>)
    requires |gaps| == |ts| + 1
    ensures |SpacedText(ts, gaps)| == TextLength(ts) + GapLength(gaps)
  {
    hide TokenText;
    if ts == [] {
      assert gaps[1..] == [];
    } else {
      SpacedLength(ts[1..], gaps[1..]);
    }
  }

  lemma {:induction false} NoGapLength(gaps: seq<string>)
    ensures GapLength(gaps) == 0 <==> forall i :: 0 <= i < |gaps| ==> gaps[i] == ""
    ensures GapLength(gaps) == 0 <==> gaps == NoGaps(|gaps|)
  {
    if gaps != [] {
      NoGapLength(gaps[1..]);
      assert gaps == [gaps[0]] + gaps[1..];
      assert NoGaps(|gaps|)[1..] == NoGaps(|gaps| - 1);
    }
  }

  /** A spaced text is a compact print exactly when it spells the same tree without a blank. */
  lemma SpacedIsPrint(t: Tree, u: Tree, gaps: seq<string>)
    requires WellFormed(t) && WellFormed(u)
    requires |gaps| == |Tokens(t)| + 1 && forall i :: 0 <= i < |gaps| ==> AllSpace(gaps[i])
    ensures SpacedText(Tokens(t), gaps) == Print(u) <==> t == u && forall i :: 0 <= i < |gaps| ==> gaps[i] == ""
  {
    hide WellFormed, Tokens, SpacedText, Decode, AllSpace, GapLength;
    DecodeSpaced(t, gaps);
    DecodePrint(u);
    if t == u {
      NoGapLength(gaps);
      SpacedLength(Tokens(t), gaps);
      SpacedLength(Tokens(t), NoGaps(|Tokens(t)| + 1));
      NoGapLength(NoGaps(|Tokens(t)| + 1));
    }
  }

  /** No spelling of the canonical form's value, whatever its blanks, is shorter, and only without blanks as short. */
  lemma CanonicalCompact(raw: string, gaps: seq<string>)
    requires Decode(raw).Some?
    requires var u := Norm(Decode(raw).value); |gaps| == |Tokens(u)| + 1
    ensures var text := SpacedText(Tokens(Norm(Decode(raw).value)), gaps);
            && |CanonicalParams(raw)| <= |text|
            && (|CanonicalParams(raw)| == |text| <==> forall i :: 0 <= i < |gaps| ==> gaps[i] == "")
  {
    hide Tokens, SpacedText, Norm, Decode, GapLength;
    var ts := Tokens(Norm(Decode(raw).value));
    SpacedLength(ts, gaps);
    SpacedLength(ts, NoGaps(|ts| + 1));
    NoGapLength(gaps);
    NoGapLength(NoGaps(|ts| + 1));
  }

  // ---- The characters ----

  /** Neither a control character, nor one that means something to HTML or JavaScript. */
  predicate Harmless(c: char) { c >= ' ' && c !in "<>&" && c != 0x2028 as char && c != 0x2029 as char }

  predicate AllHarmless(s: string) { forall i :: 0 <= i < |s| ==> Harmless(s[i]) }

  lemma HexHarmless(n: nat)
    requires n < 0x10000
    ensures AllHarmless("\\u" + HexText(n))
  { }

  lemma EscapeHarmless(c: char)
    ensures AllHarmless(EscapeOne(c))
    ensures EscapeOne(c) == [c] <==> Harmless(c) && c != '"' && c != '\\'
  {
    if c as int < 0x10000 {
      HexHarmless(c as int);
    }
  }

  lemma {:induction false} EscapedHarmless(s: string)
    ensures AllHarmless(EscapeAll(s))
    ensures EscapeAll(s) == s <==> AllHarmless(s) && '"' !in s && '\\' !in s
  {
    if s != "" {
      EscapeHarmless(s[0]);
      EscapedHarmless(s[1..]);
      EscapedLonger(s[1..]);
      assert s == [s[0]] + s[1..];
    }
  }

  lemma {:induction false} EscapedLonger(s: string)
    ensures |EscapeAll(s)| >= |s|
  {
    if s != "" {
      EscapedLonger(s[1..]);
    }
  }

  lemma {:induction false} SpacedHarmless(ts: seq<Token>)
    requires TokensOk(ts)
    ensures AllHarmless(SpacedText(ts, NoGaps(|ts| + 1)))
  {
    if ts != [] {
      TokenHarmless(ts[0]);
      SpacedHarmless(ts[1..]);
      assert NoGaps(|ts| + 1)[1..] == NoGaps(|ts|);
    }
  }

  lemma TokenHarmless(t: Token)
    requires TokenOk(t)
    ensures AllHarmless(TokenText(t))
  {
    hide EscapeAll, NumberOk;
    if t.Str? {
      EscapedHarmless(t.text);
    } else if t.Num? {
      NumberHarmless(t.literal);
    }
  }

  lemma NumberHarmless(literal: string)
    requires NumberOk(literal)
    ensures AllHarmless(literal)
  { hide FractionOk, DigitRun; }

  /** The canonical form of a JSON text shows harmless characters only; what it escapes is in EscapedHarmless. */
  lemma CanonicalHarmless(raw: string)
    requires Decode(raw).Some?
    ensures AllHarmless(CanonicalParams(raw))
  {
    DecodeWellFormed(raw);
    NormWellFormed(Decode(raw).value);
    TokensFit(Norm(Decode(raw).value));
    SpacedHarmless(Tokens(Norm(Decode(raw).value)));
  }
}
