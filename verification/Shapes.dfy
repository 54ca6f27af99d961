/**
 Replies that are a tool call printed as text: the shape that is recognised, the rescue of a call to a
 registered tool, and the arguments a call hands to its tool.

 A number of a printed call goes through a 64-bit float; what its literal becomes is a parameter.
 */
module Shapes {
  import opened Prelude
  import opened Json
  import opened Canonical

  /** A tool call as the model asks for it; the arguments are an object's members. */
  datatype Call = Call(id: string, name: string, arguments: seq<Member>)

  // ---- Lines and the noise around a body ----

  /** unicode.IsSpace. */
  predicate IsBlank(c: char) {
    || 9 <= c as int <= 13 || c == ' ' || c as int in {0x85, 0xA0, 0x1680, 0x2028, 0x2029, 0x202F, 0x205F, 0x3000}
    || 0x2000 <= c as int <= 0x200A
  }

  function TrimLeft(s: string): string { if s != "" && IsBlank(s[0]) then TrimLeft(s[1..]) else s }

  function TrimRight(s: string): string { if s != "" && IsBlank(s[|s| - 1]) then TrimRight(s[..|s| - 1]) else s }

  function TrimSpace(s: string): string { TrimRight(TrimLeft(s)) }

  predicate IsAlnum(c: char) { IsDigit(c) || 'a' <= c <= 'z' || 'A' <= c <= 'Z' }

  function Backticks(s: string): (n: nat)
    ensures n <= |s|
  { if s != "" && s[0] == '`' then 1 + Backticks(s[1..]) else 0 }

  /** A code fence with at most a bare language tag. */
  predicate IsFence(line: string) {
    var n := Backticks(line);
    n >= 3 && forall i :: n <= i < |line| ==> IsAlnum(line[i])
  }

  /** A blank line or a pure code fence; the trailing carriage return is a blank. */
  predicate IsNoise(raw: string) { var line := TrimSpace(raw); line == "" || IsFence(line) }

  /** Three backticks or more, and behind them letters and digits only. */
  lemma {:induction false} FenceExactly(line: string)
    ensures IsFence(line) <==> exists n: nat :: 3 <= n <= |line| && FenceAt(line, n)
  {
    BackticksAre(line);
    if IsFence(line) {
      assert FenceAt(line, Backticks(line));
    }
    if n: nat :| 3 <= n <= |line| && FenceAt(line, n) {
      BackticksStop(line, n);
    }
  }

  predicate FenceAt(line: string, n: nat)
    requires n <= |line|
  { (forall i :: 0 <= i < n ==> line[i] == '`') && forall i :: n <= i < |line| ==> IsAlnum(line[i]) }

  lemma {:induction false} BackticksAre(s: string)
    ensures forall i :: 0 <= i < Backticks(s) ==> s[i] == '`'
    ensures Backticks(s) < |s| ==> s[Backticks(s)] != '`'
  {
    if s != "" && s[0] == '`' {
      BackticksAre(s[1..]);
    }
  }

  lemma {:induction false} BackticksStop(s: string, n: nat)
    requires n <= |s| && (forall i :: 0 <= i < n ==> s[i] == '`') && (n < |s| ==> s[n] != '`')
    ensures Backticks(s) == n
  {
    if n > 0 {
      BackticksStop(s[1..], n - 1);
    }
  }

  function Lines(s: string): (r: seq<string>)
    ensures |r| >= 1
  {
    if s == "" then [""]
    else
      var rest := Lines(s[1..]);
      if s[0] == '\n' then [""] + rest else [[s[0]] + rest[0]] + rest[1..]
  }

  function Join(lines: seq<string>): string {
    if lines == [] then "" else if |lines| == 1 then lines[0] else lines[0] + "\n" + Join(lines[1..])
  }

  /** The lines from the first to the last that are not noise. */
  function Stripped(lines: seq<string>): seq<string> { StripBack(StripFront(lines)) }

  function StripFront(lines: seq<string>): seq<string> {
    if lines != [] && IsNoise(lines[0]) then StripFront(lines[1..]) else lines
  }

  function StripBack(lines: seq<string>): seq<string> {
    if lines != [] && IsNoise(lines[|lines| - 1]) then StripBack(lines[..|lines| - 1]) else lines
  }

  function BodyOf(content: string): string { TrimSpace(Join(Stripped(Lines(content)))) }

  // ---- Numbers ----

  /** The literal of a number after decoding to a float and printing it; None when it is out of range. */
  type Floats = string -> Option<string>

  /** The value json.Unmarshal leaves in an empty interface. */
  function Refloat(floats: Floats, t: Tree): Option<Tree> {
    match t
    case NumTree(literal) =>
      (match floats(literal)
       case None => None
       case Some(l) => Some(NumTree(l)))
    case ArrTree(items) =>
      (match RefloatItems(floats, items)
       case None => None
       case Some(xs) => Some(ArrTree(xs)))
    case ObjTree(ms) =>
      (match RefloatMembers(floats, ms)
       case None => None
       case Some(xs) => Some(ObjTree(xs)))
    case _ => Some(t)
  }

  function RefloatItems(floats: Floats, items: seq<Tree>): Option<seq<Tree>> {
    if items == [] then Some([])
    else
      var first, rest := Refloat(floats, items[0]), RefloatItems(floats, items[1..]);
      if first.None? || rest.None? then None else Some([first.value] + rest.value)
  }

  function RefloatMembers(floats: Floats, ms: seq<Member>): Option<seq<Member>> {
    if ms == [] then Some([])
    else
      var first, rest := Refloat(floats, ms[0].value), RefloatMembers(floats, ms[1..]);
      if first.None? || rest.None? then None else Some([Member(ms[0].key, first.value)] + rest.value)
  }

  /** Every number is its own float's literal. */
  predicate Stable(floats: Floats, t: Tree) {
    match t
    case NumTree(literal) => floats(literal) == Some(literal)
    case ArrTree(items) => forall i :: 0 <= i < |items| ==> Stable(floats, items[i])
    case ObjTree(ms) => forall i :: 0 <= i < |ms| ==> Stable(floats, ms[i].value)
    case _ => true
  }

  /** A value comes through unchanged exactly when each of its numbers does. */
  lemma {:induction false} RefloatExact(floats: Floats, t: Tree)
    ensures Refloat(floats, t) == Some(t) <==> Stable(floats, t)
    decreases t, 0
  {
    match t
    case ArrTree(items) => RefloatItemsExact(floats, items);
    case ObjTree(ms) => RefloatMembersExact(floats, ms);
    case _ =>
  }

  lemma {:induction false} RefloatItemsExact(floats: Floats, items: seq<Tree>)
    ensures RefloatItems(floats, items) == Some(items) <==> forall i :: 0 <= i < |items| ==> Stable(floats, items[i])
    decreases items, 1
  {
    if items != [] {
      RefloatExact(floats, items[0]);
      RefloatItemsExact(floats, items[1..]);
      assert items == [items[0]] + items[1..];
      if forall i :: 0 <= i < |items| ==> Stable(floats, items[i]) {
        assert forall i :: 0 <= i < |items[1..]| ==> items[1..][i] == items[i + 1];
      }
      if RefloatItems(floats, items) == Some(items) {
        FirstAndRest(Refloat(floats, items[0]).value, RefloatItems(floats, items[1..]).value, items);
      }
    }
  }

  lemma FirstAndRest<T>(x: T, rest: seq<T>, all: seq<T>)
    requires [x] + rest == all
    ensures x == all[0] && rest == all[1..]
  { }

  lemma {:induction false} RefloatMembersExact(floats: Floats, ms: seq<Member>)
    ensures RefloatMembers(floats, ms) == Some(ms) <==> forall i :: 0 <= i < |ms| ==> Stable(floats, ms[i].value)
    decreases ms, 1
  {
    if ms != [] {
      RefloatExact(floats, ms[0].value);
      RefloatMembersExact(floats, ms[1..]);
      assert ms == [Member(ms[0].key, ms[0].value)] + ms[1..];
      if forall i :: 0 <= i < |ms| ==> Stable(floats, ms[i].value) {
        assert forall i :: 0 <= i < |ms[1..]| ==> ms[1..][i] == ms[i + 1];
      }
      if RefloatMembers(floats, ms) == Some(ms) {
        FirstAndRest(Member(ms[0].key, Refloat(floats, ms[0].value).value), RefloatMembers(floats, ms[1..]).value, ms);
      }
    }
  }

  // ---- The shape ----

  datatype Shape = NoShape | Shaped(name: string, members: seq<Member>)

  const ARGUMENT_KEYS := ["arguments", "parameters", "args"]

  predicate NamesArguments(ms: seq<Member>) { exists i :: 0 <= i < |ARGUMENT_KEYS| && HasKey(ms, ARGUMENT_KEYS[i]) }

  function UnmarshalAny(floats: Floats, body: string): Option<Tree> {
    if Decode(body).None? then None else Refloat(floats, Decode(body).value)
  }

  /** One JSON object with a string "name" and one of the argument keys. */
  function ShapeOfBody(floats: Floats, body: string): Shape {
    if body == "" || body[0] != '{' || body[|body| - 1] != '}' then NoShape
    else match UnmarshalAny(floats, body)
      case Some(ObjTree(ms)) =>
        if HasKey(ms, "name") && Binding(ms, "name").StrTree? && NamesArguments(ms)
        then Shaped(Binding(ms, "name").text, ms) else NoShape
      case _ => NoShape
  }

  function ShapeOf(floats: Floats, content: string): Shape { ShapeOfBody(floats, BodyOf(content)) }

  /** ToolCallShape: strips the noise at both edges, then judges the whole body. */
  method ToolCallShape(floats: Floats, content: string) returns (shape: Shape)
    ensures shape == ShapeOf(floats, content)
  {
    hide IsNoise, TrimSpace, ShapeOfBody, Lines, Join;
    var lines := Lines(content);
    var start, end := 0, |lines|;
    while start < end && IsNoise(lines[start])
      invariant 0 <= start <= end && StripFront(lines) == StripFront(lines[start..])
    {
      assert lines[start..][1..] == lines[start + 1..];
      start := start + 1;
    }
    assert StripFront(lines) == lines[start..] == lines[start..end];
    while end > start && IsNoise(lines[end - 1])
      invariant start <= end <= |lines| && StripBack(lines[start..]) == StripBack(lines[start..end])
    {
      assert lines[start..end][..end - start - 1] == lines[start..end - 1];
      end := end - 1;
    }
    assert Stripped(lines) == lines[start..end];
    var body := TrimSpace(Join(lines[start..end]));
    shape := ShapeOfBody(floats, body);
  }

  lemma {:induction false} LinesSplit(s: string, t: string)
    requires '\n' !in s
    ensures Lines(s + "\n" + t) == [s] + Lines(t)
  {
    if s == "" {
      assert "" + "\n" + t == "\n" + t && ("\n" + t)[1..] == t;
    } else {
      LinesSplit(s[1..], t);
      assert (s + "\n" + t)[1..] == s[1..] + "\n" + t;
      assert [s[0]] + s[1..] == s;
    }
  }

  function Grown(c: char, lines: seq<string>): seq<string>
    requires |lines| >= 1
  { if c == '\n' then [""] + lines else [[c] + lines[0]] + lines[1..] }

  lemma GrownAppend(c: char, lines: seq<string>, t: string)
    requires |lines| >= 1
    ensures Grown(c, lines + [t]) == Grown(c, lines) + [t]
  { assert (lines + [t])[1..] == lines[1..] + [t]; }

  lemma {:induction false} LinesAppend(s: string, t: string)
    requires '\n' !in t
    ensures Lines(s + "\n" + t) == Lines(s) + [t]
  {
    if s == "" {
      LinesSplit("", t);
      OneLine(t);
      assert "" + "\n" + t == "\n" + t;
    } else {
      hide IsNoise;
      LinesAppend(s[1..], t);
      GrownAppend(s[0], Lines(s[1..]), t);
      var whole := s + "\n" + t;
      assert whole[1..] == s[1..] + "\n" + t && whole[0] == s[0];
      assert Lines(whole) == Grown(whole[0], Lines(whole[1..]));
    }
  }

  lemma {:induction false} OneLine(t: string)
    requires '\n' !in t
    ensures Lines(t) == [t]
  {
    if t != "" {
      OneLine(t[1..]);
      assert [t[0]] + t[1..] == t;
    }
  }

  lemma {:induction false} StripFrontLast(lines: seq<string>, last: string)
    requires IsNoise(last)
    ensures StripFront(lines + [last]) == if StripFront(lines) == [] then [] else StripFront(lines) + [last]
  {
    if lines == [] {
      assert [] + [last] == [last] && [last][1..] == [];
    } else if IsNoise(lines[0]) {
      StripFrontLast(lines[1..], last);
      assert (lines + [last])[1..] == lines[1..] + [last];
    }
  }

  /** Noise lines around a reply do not change its shape: a fence hides nothing from the guard. */
  lemma NoiseDoesNotMatter(floats: Floats, before: string, content: string, after: string)
    requires IsNoise(before) && IsNoise(after) && '\n' !in before && '\n' !in after
    ensures ShapeOf(floats, before + "\n" + content + "\n" + after) == ShapeOf(floats, content)
  {
    hide IsNoise, ShapeOfBody, TrimSpace;
    var lines := Lines(content);
    LinesAppend(before + "\n" + content, after);
    LinesSplit(before, content);
    assert ([before] + lines + [after])[1..] == lines + [after];
    StripFrontLast(lines, after);
    var front := StripFront(lines);
    if front != [] {
      assert (front + [after])[..|front + [after]| - 1] == front;
    }
  }

  // ---- The rescue ----

  /** The first argument key present decides: an object as it is, a string as the one argument, else none. */
  function RescuedArguments(ms: seq<Member>, i: nat): Option<seq<Member>>
    requires i <= |ARGUMENT_KEYS|
    decreases |ARGUMENT_KEYS| - i
  {
    if i == |ARGUMENT_KEYS| then None
    else if !HasKey(ms, ARGUMENT_KEYS[i]) then RescuedArguments(ms, i + 1)
    else match Binding(ms, ARGUMENT_KEYS[i])
      case ObjTree(members) => Some(members)
      case StrTree(text) => Some([Member("args", StrTree(text))])
      case _ => Some([])
  }

  function Rescue(floats: Floats, registered: set<string>, content: string): Option<Call> {
    match ShapeOf(floats, content)
    case NoShape => None
    case Shaped(name, ms) =>
      if name !in registered then None
      else match RescuedArguments(ms, 0)
        case None => None
        case Some(arguments) => Some(Call("", name, arguments))
  }

  lemma {:induction false} ArgumentsFound(ms: seq<Member>, i: nat)
    requires i <= |ARGUMENT_KEYS| && exists j :: i <= j < |ARGUMENT_KEYS| && HasKey(ms, ARGUMENT_KEYS[j])
    ensures RescuedArguments(ms, i).Some?
    decreases |ARGUMENT_KEYS| - i
  {
    if i < |ARGUMENT_KEYS| && !HasKey(ms, ARGUMENT_KEYS[i]) {
      ArgumentsFound(ms, i + 1);
    }
  }

  /** A reply is rescued exactly when it has the shape and names a registered tool: nothing is left that could run. */
  lemma RescueExact(floats: Floats, registered: set<string>, content: string)
    ensures var rescued, shape := Rescue(floats, registered, content), ShapeOf(floats, content);
            && (rescued.Some? <==> shape.Shaped? && shape.name in registered)
            && (rescued.Some? ==> rescued.value.name == shape.name)
  {
    if ShapeOf(floats, content).Shaped? {
      ArgumentsFound(ShapeOf(floats, content).members, 0);
    }
  }

  // ---- Arguments ----

  /** NativeArgs: the string argument when there is one, else the whole object as JSON. */
  function NativeArgs(call: Call): string {
    if HasKey(call.arguments, "args") && Binding(call.arguments, "args").StrTree? then
        Binding(call.arguments, "args").text
    else if call.arguments == [] then ""
    else Print(Norm(ObjTree(call.arguments)))
  }

  /**
   What a rescued call hands to its tool: the first of "arguments", "parameters" and "args" that is there decides. A
   string reaches the tool as it is, an object as JSON of the same value unless it holds the one string argument
   itself, and anything else as nothing.
   */
  lemma RescuedReach(floats: Floats, registered: set<string>, content: string)
    requires Rescue(floats, registered, content).Some?
    ensures var call, ms := Rescue(floats, registered, content).value, ShapeOf(floats, content).members;
            var key := if HasKey(ms, "arguments") then "arguments"
                       else if HasKey(ms, "parameters") then "parameters" else "args";
            && call.id == "" && HasKey(ms, key)
            && match Binding(ms, key)
               case StrTree(text) => NativeArgs(call) == text
               case ObjTree(members) => call.arguments == members
               case _ => NativeArgs(call) == ""
  {
    hide ShapeOf;
    var ms := ShapeOf(floats, content).members;
    assert ARGUMENT_KEYS == ["arguments", "parameters", "args"];
    RescuedIs(ms);
    var call := Rescue(floats, registered, content).value;
    if |call.arguments| == 1 {
      OneBinding(call.arguments);
    }
  }

  lemma RescuedIs(ms: seq<Member>)
    ensures RescuedArguments(ms, 0) ==
            if HasKey(ms, "arguments") then Some(ArgumentsOf(Binding(ms, "arguments")))
            else if HasKey(ms, "parameters") then Some(ArgumentsOf(Binding(ms, "parameters")))
            else if HasKey(ms, "args") then Some(ArgumentsOf(Binding(ms, "args"))) else None
  {
    assert RescuedArguments(ms, 3) == None;
    assert RescuedArguments(ms, 2) == if HasKey(ms, "args") then Some(ArgumentsOf(Binding(ms, "args"))) else None;
    assert RescuedArguments(ms, 1) == if HasKey(ms, "parameters") then Some(ArgumentsOf(Binding(ms, "parameters")))
                                      else RescuedArguments(ms, 2);
  }

  function ArgumentsOf(t: Tree): seq<Member> {
    match t
    case ObjTree(members) => members
    case StrTree(text) => [Member("args", StrTree(text))]
    case _ => []
  }

  lemma OneBinding(ms: seq<Member>)
    requires |ms| == 1
    ensures HasKey(ms, ms[0].key) && Binding(ms, ms[0].key) == ms[0].value
  { LastIs(ms, ms[0].key, 0); }

  /**
   What is not the one string argument reaches the tool as JSON text that decodes to the call's arguments;
   and a printed call's arguments are the printed value, number for number, exactly where its numbers are
   the literals of their floats.
   */
  lemma ArgumentsSurvive(floats: Floats, call: Call, printed: Tree)
    requires WellFormed(ObjTree(call.arguments)) && call.arguments != []
    requires !(HasKey(call.arguments, "args") && Binding(call.arguments, "args").StrTree?)
    requires Refloat(floats, printed) == Some(ObjTree(call.arguments))
    ensures Decode(NativeArgs(call)) == Some(Norm(ObjTree(call.arguments)))
    ensures Same(Norm(ObjTree(call.arguments)), ObjTree(call.arguments))
    ensures ObjTree(call.arguments) == printed <==> Stable(floats, printed)
  {
    var t := ObjTree(call.arguments);
    NormWellFormed(t);
    DecodePrint(Norm(t));
    SameAsNorm(t);
    RefloatExact(floats, printed);
  }
}
