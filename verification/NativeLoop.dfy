/**
 The agent's native tool-calling loop: what one run adds to the conversation, when it ends and how,
 and how long it may take under the ceiling derived for its brain.

 The model, the tools, the gate and the clock are functions of the iteration and of what was said so
 far. A run is one loop: the fall back to the text lane and retries inside a model call are outside.
 */
module NativeLoop {
  import opened Prelude
  import opened Shapes
  import Ceiling

  // ---- Messages ----

  datatype Role = System | User | Assistant | ToolResult | OtherRole

  datatype Message = Message(role: Role, content: string, calls: seq<Call>, toolName: string, toolCallId: string)

  const EMPTY_RESULT := "(the tool returned an empty result)"
  const MAX_CALLS: nat := Ceiling.MAX_CALLS_PER_TURN

  /** ValidateRequest: what every adapter demands of a message before it sends anything. */
  predicate ValidMessage(m: Message) {
    && (match m.role
        case System => m.calls == [] && m.toolName == ""
        case User => m.calls == [] && m.toolName == ""
        case Assistant => m.toolName == ""
        case ToolResult => m.toolName != "" && m.calls == []
        case OtherRole => false)
    && (m.content != "" || (m.role == Assistant && m.calls != []))
  }

  predicate ValidMessages(ms: seq<Message>) { ms != [] && forall i :: 0 <= i < |ms| ==> ValidMessage(ms[i]) }

  // ---- The world around one run ----

  datatype Reply = Unsupported | Failed | Replied(content: string, calls: seq<Call>)

  datatype World = World(
    maxIterations: nat,
    registered: set<string>,
    floats: Floats,
    /** The gate's allow list, when governance is mounted. */
    allowed: Option<set<string>>,
    contextDone: nat -> bool,
    model: (nat, seq<Message>) -> Reply,
    /** The tool's own argument form, when it declares one. */
    argumentsFor: Call -> Result<string, string>,
    run: (nat, nat, string, string) -> string,
    modelTime: nat -> nat,
    toolTime: (nat, nat, string) -> nat)

  // ---- What one turn is to be ----

  /** The calls a reply asks for: its own, or the one it printed as text. */
  function CallsOf(w: World, r: Reply): seq<Call> {
    if !r.Replied? then []
    else if r.calls != [] then r.calls
    else match Rescue(w.floats, w.registered, r.content)
      case None => []
      case Some(call) => [call]
  }

  function Kept(calls: seq<Call>): seq<Call> { if |calls| > MAX_CALLS then calls[..MAX_CALLS] else calls }

  predicate Gated(w: World, name: string) { w.allowed.Some? && name !in w.allowed.value }

  /** What the model hears of one call: the gate rules before its arguments are read. */
  function Heard(w: World, k: nat, i: nat, call: Call): (r: string)
    ensures r != ""
  {
    var text := if Gated(w, call.name) then w.run(k, i, call.name, NativeArgs(call))
                else match w.argumentsFor(call)
                  case Err(cause) => "tool " + call.name + " failed: " + cause
                  case Ok(args) => w.run(k, i, call.name, args);
    if text == "" then EMPTY_RESULT else text
  }

  function Notice(discarded: nat): string {
    IntText(discarded) + " tool call(s) skipped: per-turn tool budget exceeded ("
    + IntText(MAX_CALLS) + " calls max per reply)"
  }

  /** One turn: the model's own message with the calls it keeps, one answer to each in order, one notice. */
  ghost predicate TurnOk(w: World, k: nat, r: Reply, turn: seq<Message>) {
    var calls := CallsOf(w, r);
    var kept := Kept(calls);
    && r.Replied? && calls != []
    && |turn| == 1 + |kept| + (if |calls| > MAX_CALLS then 1 else 0)
    && turn[0] == Message(Assistant, if r.calls == [] then "" else r.content, kept, "", "")
    && (forall i :: 0 <= i < |kept| ==> Answers(w, k, i, kept[i], turn[1 + i]))
    && (|calls| > MAX_CALLS ==> turn[|turn| - 1] == Message(ToolResult, Notice(|calls| - MAX_CALLS), [], "budget", ""))
  }

  predicate Answers(w: World, k: nat, i: nat, call: Call, m: Message) {
    m.role == ToolResult && m.calls == [] && m.toolName == call.name && m.toolCallId == call.id &&
        m.content == Heard(w, k, i, call)
  }

  function Flat(turns: seq<seq<Message>>): seq<Message> {
    if turns == [] then [] else Flat(turns[..|turns| - 1]) + turns[|turns| - 1]
  }

  function ReplyAt(w: World, seeds: seq<Message>, turns: seq<seq<Message>>, k: nat): Reply
    requires k <= |turns|
  { w.model(k, seeds + Flat(turns[..k])) }

  datatype End = Answered(content: string) | Degraded | ContextDone | ModelFailed | EmptyReply | CapReached

  /** Why the run ended after these turns. */
  function EndAfter(w: World, k: nat, r: Reply): Option<End> {
    if k >= w.maxIterations then Some(CapReached)
    else if w.contextDone(k) then Some(ContextDone)
    else match r
      case Unsupported => Some(Degraded)
      case Failed => Some(ModelFailed)
      case Replied(content, calls) =>
        if CallsOf(w, r) != [] then None
        else if content == "" then Some(EmptyReply)
        else Some(Answered(content))
  }

  /** A run told turn by turn: each turn answers the model's reply to everything before it. */
  ghost predicate Tells(w: World, seeds: seq<Message>, turns: seq<seq<Message>>) {
    |turns| <= w.maxIterations && forall k :: 0 <= k < |turns| ==> Told(w, seeds, turns, k)
  }

  ghost predicate Told(w: World, seeds: seq<Message>, turns: seq<seq<Message>>, k: nat)
    requires k < |turns|
  {
    var r := ReplyAt(w, seeds, turns, k);
    EndAfter(w, k, r) == None && TurnOk(w, k, r, turns[k])
  }

  lemma ToldSame(w: World, seeds: seq<Message>, a: seq<seq<Message>>, b: seq<seq<Message>>, k: nat)
    requires k < |a| && k < |b| && a[..k + 1] == b[..k + 1]
    ensures Told(w, seeds, a, k) <==> Told(w, seeds, b, k)
  {
    hide TurnOk, EndAfter;
    assert a[..k] == a[..k + 1][..k] == b[..k + 1][..k] == b[..k];
    assert a[k] == a[..k + 1][k] == b[k];
  }

  // ---- Time ----

  function ToolsTime(w: World, k: nat, calls: seq<Call>): nat {
    if calls == [] then 0 else ToolsTime(w, k, calls[..|calls| - 1]) + w.toolTime(k, |calls| - 1,
        calls[|calls| - 1].name)
  }

  /** Every model call keeps its window, every listed tool its bound, and a name nobody listed costs nothing. */
  ghost predicate Punctual(w: World, window: int, tools: seq<string>) {
    && (forall k :: w.modelTime(k) <= window)
    && (forall k, i, name :: w.toolTime(k, i, name) <= if name in tools then Ceiling.ToolBound(name) else 0)
  }

  lemma {:induction false} ToolsTimeBound(w: World, k: nat, calls: seq<Call>, window: int, tools: seq<string>,
    worst: int)
    requires Punctual(w, window, tools) && worst >= 0
    requires forall i :: 0 <= i < |tools| ==> Ceiling.ToolBound(tools[i]) <= worst
    ensures ToolsTime(w, k, calls) <= |calls| * worst
  {
    if calls != [] {
      var n := |calls| - 1;
      ToolsTimeBound(w, k, calls[..n], window, tools, worst);
      assert w.toolTime(k, n, calls[n].name) <= worst;
      assert |calls| * worst == n * worst + worst;
    }
  }

  /** One turn's tools keep the budget of an iteration. */
  lemma TurnTimeBound(w: World, k: nat, calls: seq<Call>, window: int, tools: seq<string>, budget: int)
    requires Punctual(w, window, tools) && Ceiling.IsToolBudget(tools, budget) && |calls| <= MAX_CALLS
    ensures ToolsTime(w, k, calls) <= budget
  {
    var bounds := seq(|tools|, i requires 0 <= i < |tools| => Ceiling.ToolBound(tools[i]));
    var worst :| budget == Ceiling.MAX_CALLS_PER_TURN * worst && Ceiling.IsMax(worst, bounds);
    if tools != [] {
      assert bounds[0] <= worst;
    }
    forall i | 0 <= i < |tools| ensures Ceiling.ToolBound(tools[i]) <= worst {
      assert bounds[i] <= worst;
    }
    ToolsTimeBound(w, k, calls, window, tools, worst);
    assert |calls| * worst <= MAX_CALLS * worst;
  }

  /** The time of whole turns. */
  function TurnsTime(w: World, turns: seq<seq<Message>>): nat {
    if turns == [] then 0
    else
      var n := |turns| - 1;
      TurnsTime(w, turns[..n]) + w.modelTime(n) + if turns[n] == [] then 0 else ToolsTime(w, n, turns[n][0].calls)
  }

  /** The last model call, if the run ended on one. */
  function LastCallTime(w: World, k: nat, end: End): nat {
    if end.CapReached? || end.ContextDone? then 0 else w.modelTime(k)
  }

  // ---- The loop ----

  /** One turn: the kept calls run in order, each heard by the model. */
  method TakeTurn(w: World, k: nat, reply: Reply) returns (turn: seq<Message>, spent: nat)
    requires reply.Replied? && CallsOf(w, reply) != []
    ensures TurnOk(w, k, reply, turn) && spent == ToolsTime(w, k, turn[0].calls)
  {
    hide Rescue, Heard, TurnOk, Answers, ToolsTime;
    var content, calls := reply.content, reply.calls;
    if calls == [] {
      calls := [Rescue(w.floats, w.registered, content).value];
      content := "";
    }
    ghost var asked := calls;
    var discarded := 0;
    if |calls| > MAX_CALLS {
      discarded := |calls| - MAX_CALLS;
      calls := calls[..MAX_CALLS];
    }
    turn := [Message(Assistant, content, calls, "", "")];
    spent := 0;
    NoToolsYet(w, k, calls);
    for i := 0 to |calls|
      invariant |turn| == 1 + i && turn[0] == Message(Assistant, content, calls, "", "")
      invariant forall j :: 0 <= j < i ==> Answers(w, k, j, calls[j], turn[1 + j])
      invariant spent == ToolsTime(w, k, calls[..i])
    {
      var call := calls[i];
      var observation := Observe(w, k, i, call);
      AnswerOk(w, k, i, call, Message(ToolResult, observation, [], call.name, call.id));
      OneMoreTool(w, k, calls, i);
      spent := spent + w.toolTime(k, i, call.name);
      turn := turn + [Message(ToolResult, observation, [], call.name, call.id)];
    }
    assert calls[..|calls|] == calls;
    if discarded > 0 {
      turn := turn + [Message(ToolResult, Notice(discarded), [], "budget", "")];
    }
    TurnComplete(w, k, reply, asked, turn);
  }

  lemma NoToolsYet(w: World, k: nat, calls: seq<Call>)
    ensures ToolsTime(w, k, calls[..0]) == 0
  { }

  lemma OneMoreTool(w: World, k: nat, calls: seq<Call>, i: nat)
    requires i < |calls|
    ensures ToolsTime(w, k, calls[..i + 1]) == ToolsTime(w, k, calls[..i]) + w.toolTime(k, i, calls[i].name)
  { assert calls[..i + 1][..i] == calls[..i]; }

  lemma AnswerOk(w: World, k: nat, i: nat, call: Call, m: Message)
    requires m == Message(ToolResult, Heard(w, k, i, call), [], call.name, call.id)
    ensures Answers(w, k, i, call, m)
  { }

  lemma TurnComplete(w: World, k: nat, r: Reply, calls: seq<Call>, turn: seq<Message>)
    requires r.Replied? && calls == CallsOf(w, r) != []
    requires |turn| == 1 + |Kept(calls)| + (if |calls| > MAX_CALLS then 1 else 0)
    requires turn[0] == Message(Assistant, if r.calls == [] then "" else r.content, Kept(calls), "", "")
    requires forall i :: 0 <= i < |Kept(calls)| ==> Answers(w, k, i, Kept(calls)[i], turn[1 + i])
    requires |calls| > MAX_CALLS ==>
               turn[|turn| - 1] == Message(ToolResult, Notice(|calls| - MAX_CALLS), [], "budget", "")
    ensures TurnOk(w, k, r, turn)
  { hide Rescue, Answers; }

  function KeptCount(w: World, r: Reply): nat { if |CallsOf(w, r)| < 8 then |CallsOf(w, r)| else 8 }

  /** The model hears of this call under its own name and id. */
  predicate Hears(m: Message, call: Call) {
    m.role == ToolResult && m.toolName == call.name && m.toolCallId == call.id && m.content != ""
  }

  /**
   What a turn says: the first eight calls are kept, in their order; each is answered under its own name and id; a
   call that was printed as text is no content of the message, any other content stays; and the rest get one notice.
   */
  lemma TurnSays(w: World, k: nat, r: Reply, turn: seq<Message>)
    requires TurnOk(w, k, r, turn)
    ensures |turn| == 1 + KeptCount(w, r) + (if |CallsOf(w, r)| > 8 then 1 else 0)
    ensures turn[0].role == Assistant && turn[0].calls == CallsOf(w, r)[..KeptCount(w, r)]
    ensures turn[0].content == if r.calls == [] then "" else r.content
    ensures forall i :: 0 <= i < KeptCount(w, r) ==> Hears(turn[1 + i], CallsOf(w, r)[i])
  {
    hide Rescue, Heard, CallsOf;
    var calls := CallsOf(w, r);
    assert Kept(calls) == calls[..KeptCount(w, r)];
    forall i | 0 <= i < KeptCount(w, r) ensures Hears(turn[1 + i], calls[i]) {
      assert Answers(w, k, i, Kept(calls)[i], turn[1 + i]);
    }
  }

  /**
   The gate comes first: a name outside its list is put to it without asking the tool for its arguments, and any
   other call runs on the arguments its tool makes of it, or not at all when it makes none.
   */
  lemma GateFirst(w: World, other: World, k: nat, i: nat, call: Call)
    requires other == w.(argumentsFor := other.argumentsFor)
    ensures w.allowed.Some? && call.name !in w.allowed.value ==> Heard(w, k, i, call) == Heard(other, k, i, call)
    ensures (w.allowed.None? || call.name in w.allowed.value) && w.argumentsFor(call).Err? ==>
              forall run :: Heard(w.(run := run), k, i, call) == Heard(w, k, i, call)
    ensures (w.allowed.None? || call.name in w.allowed.value) && w.argumentsFor(call).Ok? &&
            w.run(k, i, call.name, w.argumentsFor(call).value) != "" ==>
              Heard(w, k, i, call) == w.run(k, i, call.name, w.argumentsFor(call).value)
  { hide NativeArgs; }

  method Observe(w: World, k: nat, i: nat, call: Call) returns (observation: string)
    ensures observation == Heard(w, k, i, call) && observation != ""
  {
    if w.allowed.Some? && call.name !in w.allowed.value {
      observation := w.run(k, i, call.name, NativeArgs(call));
    } else {
      match w.argumentsFor(call) {
        case Err(cause) => observation := "tool " + call.name + " failed: " + cause;
        case Ok(args) => observation := w.run(k, i, call.name, args);
      }
    }
    if observation == "" {
      observation := EMPTY_RESULT;
    }
  }

  lemma OneMoreTurn(w: World, seeds: seq<Message>, turns: seq<seq<Message>>, turn: seq<Message>)
    requires Tells(w, seeds, turns) && |turns| < w.maxIterations
    requires var r := ReplyAt(w, seeds, turns, |turns|);
             EndAfter(w, |turns|, r) == None && TurnOk(w, |turns|, r, turn)
    ensures Tells(w, seeds, turns + [turn])
    ensures Flat(turns + [turn]) == Flat(turns) + turn
    ensures turn != [] ==>
              TurnsTime(w, turns + [turn]) == TurnsTime(w, turns) + w.modelTime(|turns|) + ToolsTime(w, |turns|,
                  turn[0].calls)
  {
    hide TurnOk, EndAfter, ToolsTime;
    var more := turns + [turn];
    assert more[..|turns|] == turns;
    forall k | 0 <= k < |turns| ensures Told(w, seeds, more, k) {
      assert more[..k + 1] == turns[..k + 1];
      ToldSame(w, seeds, turns, more, k);
    }
    assert ReplyAt(w, seeds, turns, |turns|) == ReplyAt(w, seeds, more, |turns|) by {
      assert turns[..|turns|] == turns;
    }
    assert Told(w, seeds, more, |turns|);
  }

  /** RunLoopNative: grows the conversation turn by turn until it has a reason to end. */
  method RunLoopNative(w: World, seeds: seq<Message>)
    returns (end: End, messages: seq<Message>, elapsed: nat, turns: seq<seq<Message>>)
    ensures Tells(w, seeds, turns) && messages == seeds + Flat(turns)
    ensures EndAfter(w, |turns|, ReplyAt(w, seeds, turns, |turns|)) == Some(end)
    ensures elapsed == TurnsTime(w, turns) + LastCallTime(w, |turns|, end)
  {
    hide TurnOk, Rescue, ToolsTime;
    messages, elapsed, turns := seeds, 0, [];
    for iter := 0 to w.maxIterations
      invariant iter == |turns| && Tells(w, seeds, turns) && messages == seeds + Flat(turns)
      invariant elapsed == TurnsTime(w, turns)
    {
      assert turns[..iter] == turns;
      if w.contextDone(iter) {
        end := ContextDone;
        return;
      }
      var reply := w.model(iter, messages);
      elapsed := elapsed + w.modelTime(iter);
      if reply.Unsupported? {
        end := Degraded;
        return;
      }
      if reply.Failed? {
        end := ModelFailed;
        return;
      }
      if CallsOf(w, reply) == [] {
        end := if reply.content == "" then EmptyReply else Answered(reply.content);
        return;
      }
      var turn, spent := TakeTurn(w, iter, reply);
      OneMoreTurn(w, seeds, turns, turn);
      TurnStarts(w, iter, reply, turn);
      messages := messages + turn;
      elapsed := elapsed + spent;
      turns := turns + [turn];
    }
    assert turns[..|turns|] == turns;
    end := CapReached;
  }

  // ---- What every run keeps ----

  lemma TurnStarts(w: World, k: nat, r: Reply, turn: seq<Message>)
    requires TurnOk(w, k, r, turn)
    ensures turn != [] && |turn| <= 2 + MAX_CALLS && |turn[0].calls| <= MAX_CALLS &&
            turn[0].calls == Kept(CallsOf(w, r))
  { hide Rescue; }

  /** A reply decides its turn. */
  lemma TurnUnique(w: World, k: nat, r: Reply, a: seq<Message>, b: seq<Message>)
    requires TurnOk(w, k, r, a) && TurnOk(w, k, r, b)
    ensures a == b
  {
    hide Rescue, Heard;
    var kept := Kept(CallsOf(w, r));
    forall j | 0 <= j < |a| ensures a[j] == b[j] {
      if 1 <= j <= |kept| {
        assert Answers(w, k, j - 1, kept[j - 1], a[1 + (j - 1)]) && Answers(w, k, j - 1, kept[j - 1], b[1 + (j - 1)]);
      }
    }
  }

  lemma {:induction false} SamePrefix(w: World, seeds: seq<Message>, a: seq<seq<Message>>, b: seq<seq<Message>>, k: nat)
    requires Tells(w, seeds, a) && Tells(w, seeds, b) && k <= |a| && k <= |b|
    ensures a[..k] == b[..k]
  {
    hide TurnOk, EndAfter;
    if k > 0 {
      SamePrefix(w, seeds, a, b, k - 1);
      assert Told(w, seeds, a, k - 1) && Told(w, seeds, b, k - 1);
      TurnUnique(w, k - 1, ReplyAt(w, seeds, a, k - 1), a[k - 1], b[k - 1]);
      assert a[..k] == a[..k - 1] + [a[k - 1]] && b[..k] == b[..k - 1] + [b[k - 1]];
    }
  }

  /** The world decides the run: its contract leaves one conversation and one end. */
  lemma RunUnique(w: World, seeds: seq<Message>, a: seq<seq<Message>>, b: seq<seq<Message>>)
    requires Tells(w, seeds, a) && Tells(w, seeds, b)
    requires EndAfter(w, |a|, ReplyAt(w, seeds, a, |a|)).Some? && EndAfter(w, |b|, ReplyAt(w, seeds, b, |b|)).Some?
    ensures a == b
  {
    hide TurnOk, EndAfter;
    NoLaterEnd(w, seeds, a, b);
    NoLaterEnd(w, seeds, b, a);
    SamePrefix(w, seeds, a, b, |a|);
    assert a[..|a|] == a && b[..|b|] == b;
  }

  lemma NoLaterEnd(w: World, seeds: seq<Message>, a: seq<seq<Message>>, b: seq<seq<Message>>)
    requires Tells(w, seeds, a) && Tells(w, seeds, b) && EndAfter(w, |a|, ReplyAt(w, seeds, a, |a|)).Some?
    ensures |b| <= |a|
  {
    hide TurnOk, EndAfter;
    if |a| < |b| {
      assert Told(w, seeds, b, |a|);
      SamePrefix(w, seeds, a, b, |a|);
    }
  }

  /** At most ten messages a turn: the model's own, eight answers and a notice. */
  lemma {:induction false} MessagesBounded(w: World, seeds: seq<Message>, turns: seq<seq<Message>>)
    requires Tells(w, seeds, turns)
    ensures |Flat(turns)| <= 10 * |turns| <= 10 * w.maxIterations
  {
    hide TurnOk, EndAfter;
    if turns != [] {
      var n := |turns| - 1;
      TellsFront(w, seeds, turns);
      MessagesBounded(w, seeds, turns[..n]);
      TurnStarts(w, n, ReplyAt(w, seeds, turns, n), turns[n]);
    }
  }

  lemma TellsFront(w: World, seeds: seq<Message>, turns: seq<seq<Message>>)
    requires Tells(w, seeds, turns) && turns != []
    ensures Tells(w, seeds, turns[..|turns| - 1]) && Told(w, seeds, turns, |turns| - 1)
  {
    hide TurnOk, EndAfter;
    var front := turns[..|turns| - 1];
    forall k | 0 <= k < |front| ensures Told(w, seeds, front, k) {
      assert front[..k + 1] == turns[..k + 1];
      ToldSame(w, seeds, turns, front, k);
    }
    assert Told(w, seeds, turns, |turns| - 1);
  }

  // ---- The conversation as a request ----

  ghost predicate Named(turn: seq<Message>) {
    turn != [] && forall i :: 0 <= i < |turn[0].calls| ==> turn[0].calls[i].name != ""
  }

  /** A turn is fit to be sent back exactly when every call it keeps has a name. */
  lemma TurnValidExactly(w: World, k: nat, r: Reply, turn: seq<Message>)
    requires TurnOk(w, k, r, turn)
    ensures (forall j :: 0 <= j < |turn| ==> ValidMessage(turn[j])) <==> Named(turn)
  {
    hide Rescue, Heard;
    var kept := Kept(CallsOf(w, r));
    forall i | 0 <= i < |kept| ensures ValidMessage(turn[1 + i]) <==> kept[i].name != "" {
      assert Answers(w, k, i, kept[i], turn[1 + i]);
    }
    forall j | 0 <= j < |turn| && (j == 0 || j > |kept|) ensures ValidMessage(turn[j]) {
    }
    if Named(turn) {
      forall j | 0 <= j < |turn| ensures ValidMessage(turn[j]) {
        if 1 <= j <= |kept| {
          assert kept[j - 1].name != "" && turn[1 + (j - 1)] == turn[j];
        }
      }
    }
  }

  /**
   Adapters refuse a whole request for one bad message. The conversation after any number of turns is
   accepted exactly when the seeds were and no kept call had an empty name: an empty tool result does
   not spoil it, an empty call name does.
   */
  lemma {:induction false} ConversationValidExactly(w: World, seeds: seq<Message>, turns: seq<seq<Message>>)
    requires Tells(w, seeds, turns) && seeds != []
    ensures ValidMessages(seeds + Flat(turns)) <==> ValidMessages(seeds) && forall k :: 0 <= k < |turns| ==>
            Named(turns[k])
  {
    hide TurnOk, EndAfter, ValidMessage, Named;
    if turns == [] {
      assert seeds + Flat(turns) == seeds;
    } else {
      var n := |turns| - 1;
      TellsFront(w, seeds, turns);
      ConversationValidExactly(w, seeds, turns[..n]);
      TurnValidExactly(w, n, ReplyAt(w, seeds, turns, n), turns[n]);
      var before := seeds + Flat(turns[..n]);
      assert seeds + Flat(turns) == before + turns[n];
      ValidSplit(before, turns[n]);
      assert forall k :: 0 <= k < n ==> turns[..n][k] == turns[k];
    }
  }

  lemma ValidSplit(a: seq<Message>, b: seq<Message>)
    requires a != []
    ensures ValidMessages(a + b) <==> ValidMessages(a) && forall j :: 0 <= j < |b| ==> ValidMessage(b[j])
  {
    hide ValidMessage;
    var both := a + b;
    forall i | 0 <= i < |a| ensures both[i] == a[i] { }
    forall j | 0 <= j < |b| ensures both[|a| + j] == b[j] { }
    if ValidMessages(both) {
      forall i | 0 <= i < |a| ensures ValidMessage(a[i]) { assert ValidMessage(both[i]); }
      forall j | 0 <= j < |b| ensures ValidMessage(b[j]) { assert ValidMessage(both[|a| + j]); }
    }
    if ValidMessages(a) && forall j :: 0 <= j < |b| ==> ValidMessage(b[j]) {
      forall i | 0 <= i < |both| ensures ValidMessage(both[i]) {
        assert i >= |a| ==> both[i] == b[i - |a|];
      }
    }
  }

  /** A world whose model asks once for a call without a name. */
  function NamelessWorld(): World {
    World(1, {}, l => Some(l), None, k => false, (k, ms) => Replied("", [Call("1", "", [])]), call => Ok(""),
        (k, i, name, args) => "done",
          k => 1, (k, i, name) => 0)
  }

  /** The failing input: one valid user message, one nameless call, and the next request is refused. */
  lemma NamelessCallSpoils()
    ensures var w, seeds := NamelessWorld(), [Message(User, "hello", [], "", "")];
            exists turns :: Tells(w, seeds, turns) && |turns| == 1
                            && ValidMessages(seeds) && !ValidMessages(seeds + Flat(turns))
  {
    var w, seeds := NamelessWorld(), [Message(User, "hello", [], "", "")];
    var call := Call("1", "", []);
    var turn := [Message(Assistant, "", [call], "", ""), Message(ToolResult, "done", [], "", "1")];
    assert NativeArgs(call) == "";
    assert Heard(w, 0, 0, call) == "done";
    assert Answers(w, 0, 0, call, turn[1]);
    assert Kept([call]) == [call];
    assert TurnOk(w, 0, Replied("", [call]), turn);
    assert Told(w, seeds, [turn], 0);
    assert Tells(w, seeds, [turn]);
    assert turn[0].calls[0].name == "";
    ConversationValidExactly(w, seeds, [turn]);
  }

  // ---- The run under its ceiling ----

  lemma {:induction false} TurnsTimeBound(w: World, seeds: seq<Message>, turns: seq<seq<Message>>, window: int,
    tools: seq<string>, budget: int)
    requires Tells(w, seeds, turns) && Punctual(w, window, tools) && Ceiling.IsToolBudget(tools, budget)
    ensures TurnsTime(w, turns) <= |turns| * (window + budget)
  {
    hide TurnOk, EndAfter, Ceiling.IsToolBudget;
    if turns != [] {
      var n := |turns| - 1;
      TellsFront(w, seeds, turns);
      TurnsTimeBound(w, seeds, turns[..n], window, tools, budget);
      TurnStarts(w, n, ReplyAt(w, seeds, turns, n), turns[n]);
      TurnTimeBound(w, n, turns[n][0].calls, window, tools, budget);
      assert w.modelTime(n) <= window;
      assert |turns| * (window + budget) == n * (window + budget) + (window + budget);
    }
  }

  lemma BudgetNotNegative(tools: seq<string>, budget: int)
    requires Ceiling.IsToolBudget(tools, budget)
    ensures budget >= 0
  {
    var bounds := seq(|tools|, i requires 0 <= i < |tools| => Ceiling.ToolBound(tools[i]));
    var worst :| budget == Ceiling.MAX_CALLS_PER_TURN * worst && Ceiling.IsMax(worst, bounds);
    assert tools != [] ==> bounds[0] <= worst;
  }

  lemma NoLonger(w: World, seeds: seq<Message>, turns: seq<seq<Message>>)
    requires Tells(w, seeds, turns)
    ensures |turns| <= w.maxIterations
  { }

  /** One run takes no longer than the cap times a window and a full turn of tools. */
  lemma RunTimeBound(w: World, seeds: seq<Message>, turns: seq<seq<Message>>, end: End, window: int,
    tools: seq<string>, budget: int)
    requires Tells(w, seeds, turns) && EndAfter(w, |turns|, ReplyAt(w, seeds, turns, |turns|)) == Some(end)
    requires Punctual(w, window, tools) && Ceiling.IsToolBudget(tools, budget) && window >= 0
    ensures TurnsTime(w, turns) + LastCallTime(w, |turns|, end) <= w.maxIterations * (window + budget)
  {
    hide TurnOk, Tells, Ceiling.IsToolBudget, TurnsTime, ReplyAt;
    TurnsTimeBound(w, seeds, turns, window, tools, budget);
    BudgetNotNegative(tools, budget);
    assert |turns| <= w.maxIterations by {
      assert Tells(w, seeds, turns);
      NoLonger(w, seeds, turns);
    }
    assert end.CapReached? || |turns| < w.maxIterations;
    assert w.modelTime(|turns|) <= window;
    Steps(|turns|, w.maxIterations, window + budget);
  }

  lemma {:induction false} Steps(n: nat, cap: nat, step: int)
    requires n <= cap && step >= 0
    ensures n * step <= cap * step
    ensures n < cap ==> n * step + step <= cap * step
  {
    if n < cap {
      Steps(n, cap - 1, step);
      assert cap * step == (cap - 1) * step + step;
    }
  }

  /**
   A run of an agent brain fits the router's ceiling, however the router got it, with the margin to
   spare: if exactly the model the agent runs on is eligible, each call keeps that model's window and
   each listed tool its bound.
   */
  lemma RunFitsRouterCeiling(w: World, seeds: seq<Message>, turns: seq<seq<Message>>, end: End,
                             cfg: Ceiling.Config, i: nat, m: Ceiling.Model, ceilings: seq<int>, router: int)
    requires i < |cfg.brains| == |ceilings| && Ceiling.IsBrainCeiling(cfg, cfg.brains[i], ceilings[i]) &&
             ceilings[i] <= router
    requires cfg.brains[i].agent.Some? && w.maxIterations == Ceiling.Iterations(cfg.brains[i].agent.value)
    requires m in cfg.brains[i].models && forall x :: x in cfg.brains[i].models ==>
             (Ceiling.Eligible(cfg.brains[i], x) <==> x == m)
    requires Punctual(w, Ceiling.Window(cfg, m), cfg.brains[i].agent.value.tools)
    requires Tells(w, seeds, turns) && EndAfter(w, |turns|, ReplyAt(w, seeds, turns, |turns|)) == Some(end)
    ensures TurnsTime(w, turns) + LastCallTime(w, |turns|, end) <= router - Ceiling.MARGIN
  {
    hide Tells, Punctual, EndAfter, Ceiling.IsToolBudget;
    var b := cfg.brains[i];
    var x, budget :| Ceiling.AgentParts(cfg, b, b.agent.value, x, budget)
                     && ceilings[i] == Ceiling.Iterations(b.agent.value) * (Ceiling.AgentWindow(cfg, b,
                        x) + budget) + Ceiling.MARGIN;
    assert Ceiling.Eligible(b, m);
    Ceiling.OneEligible(b, m, x);
    RunTimeBound(w, seeds, turns, end, Ceiling.Window(cfg, m), b.agent.value.tools, budget);
  }

  // ---- The channel's exit ----

  datatype Exit = Fallback | LeakBlocked | Sent(text: string)

  /** Handle after its lane: only a real answer is sent and remembered. */
  function ExitOf(w: World, end: End): Exit {
    match end
    case Answered(text) => if ShapeOf(w.floats, text).Shaped? then LeakBlocked else Sent(text)
    case _ => Fallback
  }

  /**
   What the guard is for: an answer of the native loop is blocked exactly when it is a tool call
   printed as text, and such a call then names no registered tool, for those were rescued.
   */
  lemma GuardExact(w: World, seeds: seq<Message>, turns: seq<seq<Message>>, text: string)
    requires Tells(w, seeds, turns) && EndAfter(w, |turns|, ReplyAt(w, seeds, turns, |turns|)) == Some(Answered(text))
    ensures text != ""
    ensures ExitOf(w, Answered(text)) == LeakBlocked <==> ShapeOf(w.floats, text).Shaped?
    ensures ShapeOf(w.floats, text).Shaped? ==> ShapeOf(w.floats, text).name !in w.registered
    ensures ReplyAt(w, seeds, turns, |turns|) == Replied(text, [])
  {
    hide TurnOk, ShapeOf;
    RescueExact(w.floats, w.registered, text);
  }
}
