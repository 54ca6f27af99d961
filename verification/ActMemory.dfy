/**
 What the registry's memory holds over a run: the profiles of all the acts it was ever told of, the handles
 of the acts it still remembers, and the receipt a waiter hears.
 */
module ActMemory {
  import opened Prelude
  import opened ActRegistry
  import opened ActProtocol
  import opened ActSteps
  import opened ActRuns

  // ---- The receipt a waiter hears ----

  lemma StepKeepsReceipt(s: System, step: Step, act: Act)
    requires Inv(s) && Enabled(s, step) && act in s.memory.receipts && act in Next(s, step).memory.receipts
    ensures Next(s, step).memory.receipts[act] == s.memory.receipts[act]
  {
    hide Inv, Next, Enabled;
    if step.LeaveAct? {
      LeaveKeepsReceipt(s, step.t, act);
    } else {
      OtherKeepsReceipts(s, step);
    }
  }

  lemma OtherKeepsReceipts(s: System, step: Step)
    requires Enabled(s, step) && !step.LeaveAct?
    ensures Next(s, step).memory.receipts == s.memory.receipts
    ensures Next(s, step).memory.closedHandles == s.memory.closedHandles
  {
    hide HasRow, IsClosed, IsAuthorized, EnterStep;
    if step.EnterAct? {
      EnterKeepsClosed(s, step.t, step.act, step.via, step.applied);
    }
  }

  lemma EnterKeepsClosed(s: System, t: Settler, act: Act, via: Option<Recorder>, applied: bool)
    ensures var n := EnterStep(s, t, act, via, applied);
            n.memory.receipts == s.memory.receipts && n.memory.closedHandles == s.memory.closedHandles
  { hide ChooseCloser, HomeFor, Get; }

  lemma LeaveKeepsReceipt(s: System, t: Settler, act: Act)
    requires Inv(s) && Enabled(s, LeaveAct(t)) && act in s.memory.receipts
    requires act in Next(s, LeaveAct(t)).memory.receipts
    ensures Next(s, LeaveAct(t)).memory.receipts[act] == s.memory.receipts[act]
  {
    hide OneHome, ClosingServed, WaitersServed, TrueMemory, InFlightKnown, OwnTickets, Leave;
    var p := PhaseOf(s, t);
    assert PhaseOk(s.books, s.memory.closing, s.released, s.nextTicket, p);
    LeaveMemory(s.memory, p.act, p.ok, p.receipt);
  }

  /** A remembered receipt stays the same as long as the act is not evicted. */
  lemma {:induction false} RememberedStays(states: seq<System>, i: nat, j: nat, act: Act)
    requires Run(states) && i <= j < |states|
    requires forall k :: i <= k <= j ==> act in states[k].memory.receipts
    ensures states[j].memory.receipts[act] == states[i].memory.receipts[act]
    decreases j
  {
    hide Inv, Next, Enabled;
    if i < j {
      RememberedStays(states, i, j - 1, act);
      RunKeepsInv(states, j - 1);
      assert Follows(states, j);
      var step :| Leads(states[j - 1], step, states[j]);
      StepKeepsReceipt(states[j - 1], step, act);
    }
  }

  /**
   What the wait is for: if a close landed with a receipt and the act was not evicted since, a waiter that
   wakes answers the very receipt the closer answers, the empty one included. A waiter that comes too late
   answers none.
   */
  lemma WaiterHearsCloser(states: seq<System>, i: nat, j: nat, closer: Settler, waiter: Settler)
    requires Run(states) && 0 < i <= j && j + 1 < |states|
    requires Leads(states[i - 1], LeaveAct(closer), states[i])
    requires PhaseOf(states[i - 1], closer).Leaving? && PhaseOf(states[i - 1], closer).ok
    requires Leads(states[j], AnswerWoken(waiter), states[j + 1])
    requires PhaseOf(states[j], waiter).act == PhaseOf(states[i - 1], closer).act
    ensures var p := PhaseOf(states[i - 1], closer);
            && PhaseOf(states[i], closer) == Releasing(p.act, p.ticket, p.receipt)
            && ((forall k :: i <= k <= j ==> p.act in states[k].memory.receipts) ==>
                  states[j + 1].answers == states[j].answers + {Answer(p.act, p.receipt)})
            && (p.act !in states[j].memory.receipts ==>
                  states[j + 1].answers == states[j].answers + {Answer(p.act, "")})
  {
    hide Inv, Next, Enabled, Run;
    var p := PhaseOf(states[i - 1], closer);
    RunKeepsInv(states, i - 1);
    LeaveRemembers(states[i - 1], closer);
    AnswerIs(states[j], waiter);
    if forall k :: i <= k <= j ==> p.act in states[k].memory.receipts {
      RememberedStays(states, i, j, p.act);
    }
  }

  lemma AnswerIs(s: System, t: Settler)
    requires Enabled(s, AnswerWoken(t))
    ensures var act := PhaseOf(s, t).act;
            Next(s, AnswerWoken(t)).answers == s.answers + {Answer(act, Get(s.memory.receipts, act))}
  { }

  lemma LeaveRemembers(s: System, t: Settler)
    requires Inv(s) && Enabled(s, LeaveAct(t)) && PhaseOf(s, t).ok
    ensures var p, n := PhaseOf(s, t), Next(s, LeaveAct(t));
            && p.act in n.memory.receipts && n.memory.receipts[p.act] == p.receipt
            && PhaseOf(n, t) == Releasing(p.act, p.ticket, p.receipt)
  {
    var p := PhaseOf(s, t);
    assert PhaseOk(s.books, s.memory.closing, s.released, s.nextTicket, p);
    LeaveKeepsBounded(s.memory, p.act, p.ok, p.receipt);
  }

  // ---- The handles of closed acts ----

  /** No act has two handles, open or closed. */
  ghost predicate OneHandle(m: Memory) {
    && (forall h, k :: h in m.handles && k in m.handles && m.handles[h] == m.handles[k] ==> h == k)
    && (forall h, k :: h in m.closedHandles && k in m.closedHandles && m.closedHandles[h] == m.closedHandles[k] ==>
          h == k)
    && (forall h, k :: h in m.handles && k in m.closedHandles ==> m.handles[h] != m.closedHandles[k])
  }

  /** A handle is bound to an act that has none. */
  predicate BindsFirst(m: Memory, act: Act) {
    (forall h :: h in m.handles ==> m.handles[h] != act) && forall h :: h in m.closedHandles ==>
        m.closedHandles[h] != act
  }

  predicate FirstBinding(s: System, step: Step) { step.BindHandle? ==> BindsFirst(s.memory, step.act) }

  ghost predicate FirstStep(s: System, next: System) { exists step :: Leads(s, step, next) && FirstBinding(s, step) }

  ghost predicate FirstAt(states: seq<System>, i: int)
    requires 0 < i < |states|
  { FirstStep(states[i - 1], states[i]) }

  /** A run in which every act is bound to one handle, as the callers do. */
  ghost predicate OneHandleRun(states: seq<System>) {
    Run(states) && forall i :: 0 < i < |states| ==> FirstAt(states, i)
  }

  lemma LeaveKeepsOneHandle(m: Memory, act: Act, receipt: Receipt)
    requires Bounded(m) && OneHandle(m) && act in m.closing
    ensures OneHandle(Leave(m, act, true, receipt))
  {
    hide Leave;
    LeaveHandles(m, act, receipt);
    assert forall h :: h in m.closedHandles ==> m.closedHandles[h] != act;
    hide Bounded;
    MoveKeepsOneHandle(m, Leave(m, act, true, receipt), act);
  }

  lemma MoveKeepsOneHandle(m: Memory, n: Memory, act: Act)
    requires OneHandle(m) && n.handles == Without(m.handles, act)
    requires forall h :: h in m.closedHandles ==> m.closedHandles[h] != act
    requires var all := m.closedHandles + BoundTo(m.handles, act);
             n.closedHandles == map h | h in all && all[h] in n.receipts :: all[h]
    ensures OneHandle(n)
  {
    forall h | h in n.closedHandles
      ensures (h in m.closedHandles && n.closedHandles[h] == m.closedHandles[h])
              || (h in m.handles && m.handles[h] == act == n.closedHandles[h]) {
      assert h in BoundTo(m.handles, act) ==> m.handles[h] == act;
    }
  }

  lemma StepKeepsOneHandle(s: System, step: Step)
    requires Inv(s) && OneHandle(s.memory) && Enabled(s, step) && FirstBinding(s, step)
    ensures OneHandle(Next(s, step).memory)
  {
    hide OneHome, ClosingServed, WaitersServed, TrueMemory, InFlightKnown, OwnTickets, Bounded;
    if step.LeaveAct? {
      var p := PhaseOf(s, step.t);
      assert PhaseOk(s.books, s.memory.closing, s.released, s.nextTicket, p);
      if p.ok {
        LeaveKeepsOneHandle(s.memory, p.act, p.receipt);
      }
    }
  }

  lemma {:induction false} OneHandleKept(states: seq<System>, i: nat)
    requires OneHandleRun(states) && i < |states|
    ensures OneHandle(states[i].memory)
  {
    hide Inv, Next, Enabled, FirstBinding;
    if i > 0 {
      OneHandleKept(states, i - 1);
      RunKeepsInv(states, i - 1);
      assert FirstAt(states, i);
      var step :| Leads(states[i - 1], step, states[i]) && FirstBinding(states[i - 1], step);
      StepKeepsOneHandle(states[i - 1], step);
    }
  }

  lemma {:induction false} InjectiveSize(m: map<Handle, Act>, acts: set<Act>)
    requires forall h :: h in m ==> m[h] in acts
    requires forall h, k :: h in m && k in m && m[h] == m[k] ==> h == k
    ensures |m| <= |acts|
    decreases |m|
  {
    if m != map[] {
      var h :| h in m;
      var rest := m - {h};
      assert |rest| == |m| - 1;
      assert forall k :: k in rest ==> rest[k] == m[k] && m[k] != m[h];
      InjectiveSize(rest, acts - {m[h]});
    }
  }

  lemma {:induction false} ElementsSize(order: seq<Act>, acts: set<Act>)
    requires forall a :: a in acts ==> a in order
    ensures |acts| <= |order|
  {
    if order == [] {
      assert acts == {};
    } else {
      var n := |order| - 1;
      ElementsSize(order[..n], acts - {order[n]});
      assert |acts| <= |acts - {order[n]}| + 1;
    }
  }

  /** With one handle to an act, the closed handles stay within the retention like the acts themselves. */
  lemma ClosedHandlesBounded(states: seq<System>, i: nat)
    requires OneHandleRun(states) && i < |states|
    ensures |states[i].memory.closedHandles| <= |states[i].memory.receipts| <= CLOSED_RETENTION
  {
    OneHandleKept(states, i);
    RunKeepsInv(states, i);
    var m := states[i].memory;
    InjectiveSize(m.closedHandles, m.receipts.Keys);
    ElementsSize(m.closedOrder, m.receipts.Keys);
  }

  // ---- The closed handles, exactly ----

  /** The settler leaves the close of an act that landed. */
  ghost predicate LandsBy(s: System, next: System, t: Settler) {
    PhaseOf(s, t).Leaving? && PhaseOf(s, t).ok && Leads(s, LeaveAct(t), next)
  }

  /** The step is a close that landed, and the handle was bound to its act. */
  ghost predicate Moves(s: System, next: System, h: Handle, act: Act) {
    exists t :: LandsBy(s, next, t) && PhaseOf(s, t).act == act && h in s.memory.handles && s.memory.handles[h] == act
  }

  ghost predicate MovedAt(states: seq<System>, j: nat, h: Handle, act: Act) {
    j + 1 < |states| && Moves(states[j], states[j + 1], h, act)
  }

  predicate ClosedTo(m: Memory, h: Handle, act: Act) { h in m.closedHandles && m.closedHandles[h] == act }

  /** A close at `j` moved the handle, no later one moved it again, and its act was remembered ever since. */
  ghost predicate KeptSince(states: seq<System>, j: nat, i: nat, h: Handle, act: Act)
    requires i < |states|
  {
    && j < i && MovedAt(states, j, h, act)
    && (forall l: nat, b :: j < l < i ==> !MovedAt(states, l, h, b))
    && (forall k: nat :: j < k <= i ==> act in states[k].memory.receipts)
  }

  lemma OneLeaver(s: System, next: System, t: Settler, u: Settler)
    requires LandsBy(s, next, t) && LandsBy(s, next, u)
    ensures t == u
  {
    hide Leave;
    assert PhaseOf(next, u).Releasing?;
    assert t != u ==> PhaseOf(next, u) == PhaseOf(s, u);
  }

  lemma LandingHandles(s: System, next: System, t: Settler, h: Handle, act: Act)
    requires Inv(s) && LandsBy(s, next, t)
    ensures ClosedTo(next.memory, h, act) <==>
            if h in s.memory.handles && s.memory.handles[h] == PhaseOf(s, t).act then act == PhaseOf(s, t).act
            else ClosedTo(s.memory, h, act) && act in next.memory.receipts
    ensures PhaseOf(s, t).act in next.memory.receipts
  {
    hide OneHome, ClosingServed, WaitersServed, TrueMemory, InFlightKnown, OwnTickets, Leave, Bounded;
    var p := PhaseOf(s, t);
    assert PhaseOk(s.books, s.memory.closing, s.released, s.nextTicket, p);
    LeaveHandles(s.memory, p.act, p.receipt);
  }

  lemma OtherClosedHandles(s: System, step: Step)
    requires Enabled(s, step) && !(step.LeaveAct? && PhaseOf(s, step.t).ok)
    ensures Next(s, step).memory.closedHandles == s.memory.closedHandles
    ensures Next(s, step).memory.receipts == s.memory.receipts
  {
    hide HasRow, IsClosed, IsAuthorized, EnterStep;
    if !step.LeaveAct? {
      OtherKeepsReceipts(s, step);
    }
  }

  /** What one step does to the closed handles. */
  lemma StepMovesHandle(s: System, step: Step, h: Handle, act: Act)
    requires Inv(s) && Enabled(s, step)
    ensures ClosedTo(Next(s, step).memory, h, act) <==>
            Moves(s, Next(s, step), h, act)
            || ((forall b :: !Moves(s, Next(s, step), h, b)) && ClosedTo(s.memory, h, act)
                && act in Next(s, step).memory.receipts)
    ensures Moves(s, Next(s, step), h, act) ==> act in Next(s, step).memory.receipts
  {
    hide Inv, Next, Enabled;
    var n := Next(s, step);
    if t :| LandsBy(s, n, t) {
      LandingHandles(s, n, t, h, act);
      forall u | LandsBy(s, n, u) ensures u == t {
        OneLeaver(s, n, t, u);
      }
      var b := PhaseOf(s, t).act;
      assert h in s.memory.handles && s.memory.handles[h] == b ==> Moves(s, n, h, b);
    } else {
      LeaverLeaves(s, step);
      OtherClosedHandles(s, step);
      ClosedIndexed(s, h, act);
    }
  }

  lemma LeaverLeaves(s: System, step: Step)
    requires Enabled(s, step)
    ensures step.LeaveAct? && PhaseOf(s, step.t).ok ==> LandsBy(s, Next(s, step), step.t)
  { hide Leave; }

  lemma ClosedIndexed(s: System, h: Handle, act: Act)
    requires Inv(s)
    ensures ClosedTo(s.memory, h, act) ==> act in s.memory.receipts
  { }

  /**
   The closed handles are the handles that a close moved, each with the act of its last move, as long as that
   act has been remembered.
   */
  lemma {:induction false} ClosedHandlesExactly(states: seq<System>, i: nat, h: Handle, act: Act)
    requires Run(states) && i < |states|
    ensures ClosedTo(states[i].memory, h, act) <==> exists j: nat :: KeptSince(states, j, i, h, act)
  {
    hide Inv, Next, Enabled, Moves, ClosedTo;
    if i == 0 {
      NoneClosed(h, act);
    } else {
      ClosedHandlesExactly(states, i - 1, h, act);
      RunKeepsInv(states, i - 1);
      assert Follows(states, i);
      var step :| Leads(states[i - 1], step, states[i]);
      StepMovesHandle(states[i - 1], step, h, act);
      KeptAfter(states, i - 1, i, h, act);
    }
  }

  lemma NoneClosed(h: Handle, act: Act)
    ensures !ClosedTo(START.memory, h, act)
  { }

  lemma KeptAfter(states: seq<System>, q: nat, i: nat, h: Handle, act: Act)
    requires q + 1 == i < |states|
    requires Moves(states[q], states[i], h, act) ==> act in states[i].memory.receipts
    ensures (exists j: nat :: KeptSince(states, j, i, h, act)) <==>
            Moves(states[q], states[i], h, act)
            || ((forall b :: !Moves(states[q], states[i], h, b)) && act in states[i].memory.receipts
                && exists j: nat :: KeptSince(states, j, q, h, act))
  {
    hide Moves;
    assert forall b :: MovedAt(states, q, h, b) <==> Moves(states[q], states[i], h, b);
    if Moves(states[q], states[i], h, act) {
      assert KeptSince(states, q, i, h, act);
    }
    if j: nat :| KeptSince(states, j, i, h, act) {
      if j < q {
        assert KeptSince(states, j, q, h, act);
      }
    }
    if (forall b :: !Moves(states[q], states[i], h, b)) && act in states[i].memory.receipts {
      if j: nat :| KeptSince(states, j, q, h, act) {
        assert KeptSince(states, j, i, h, act);
      }
    }
  }

  ghost predicate HandleOfClosed(states: seq<System>, i: nat, h: Handle)
    requires i < |states|
  { exists j: nat, act :: KeptSince(states, j, i, h, act) }

  /** So they stay within a bound exactly when the handles moved and remembered do. */
  lemma ClosedHandlesBoundedExactly(states: seq<System>, i: nat, bound: nat)
    requires Run(states) && i < |states|
    ensures |states[i].memory.closedHandles| <= bound <==>
            forall hs: set<Handle> :: (forall h :: h in hs ==> HandleOfClosed(states, i, h)) ==> |hs| <= bound
  {
    hide Run, KeptSince;
    var m := states[i].memory;
    forall h ensures h in m.closedHandles <==> HandleOfClosed(states, i, h) {
      if h in m.closedHandles {
        ClosedHandlesExactly(states, i, h, m.closedHandles[h]);
      }
      if j: nat, act :| KeptSince(states, j, i, h, act) {
        ClosedHandlesExactly(states, i, h, act);
      }
    }
    var keys := m.closedHandles.Keys;
    if |keys| <= bound {
      forall hs: set<Handle> | forall h :: h in hs ==> HandleOfClosed(states, i, h) ensures |hs| <= bound {
        assert forall h :: h in hs ==> h in keys;
        SubsetSize(hs, keys);
      }
    }
  }

  function Last(states: seq<System>): System
    requires states != []
  { states[|states| - 1] }

  lemma Push(states: seq<System>, step: Step) returns (more: seq<System>)
    requires Run(states) && Enabled(Last(states), step)
    ensures Run(more) && Last(more) == Next(Last(states), step)
  {
    more := states + [Next(Last(states), step)];
    forall i | 0 < i < |more| ensures Follows(more, i) {
      if i < |states| {
        assert Follows(states, i);
      } else {
        assert Leads(more[i - 1], step, more[i]);
      }
    }
  }

  /** Nothing in flight, nobody settling, and every act known to some book closed. */
  ghost predicate Quiet(s: System) {
    && s.unsaved == map[] && s.memory.homes == map[] && s.memory.closing == map[] && PhaseOf(s, 0) == Idle
  }

  ghost predicate NewAct(books: Books, act: Act) {
    act != "" && forall l :: HasRow(books, l, act) ==> false
  }

  /** `more` holds the rows of `books` and rows of one act. */
  ghost predicate OnlyRowsOf(books: Books, more: Books, act: Act) {
    forall l, a :: HasRow(more, l, a) ==> HasRow(books, l, a) || a == act
  }

  /** The same closed acts and the same handles. */
  predicate ClosedAlike(m: Memory, n: Memory) {
    && n.receipts == m.receipts && n.closedOrder == m.closedOrder
    && n.handles == m.handles && n.closedHandles == m.closedHandles
  }

  /** Seals an act, tells the registry, and lets settler 0 into its close. */
  lemma OpenOneAct(states: seq<System>, act: Act) returns (more: seq<System>)
    requires Run(states) && Quiet(Last(states)) && NewAct(Last(states).books, act)
    ensures Run(more) && OnlyRowsOf(Last(states).books, Last(more).books, act)
    ensures var s, n := Last(states), Last(more);
            && n.memory.profiles.Keys == s.memory.profiles.Keys + {act}
            && n.unsaved == map[] && n.memory.homes.Keys == {act} && n.memory.closing.Keys == {act}
            && PhaseOf(n, 0).Closing? && PhaseOf(n, 0).act == act
            && IsAuthorized(n.books, PhaseOf(n, 0).ledger, act)
            && ClosedAlike(s.memory, n.memory)
  {
    var s, l := Last(states), "ledger";
    NeverClosed(states, act);
    assert forall k :: k in s.books ==> !HasRow(s.books, k, act);
    more := Push(states, Seal(act, l));
    assert OnlyRowsOf(s.books, Last(more).books, act);
    more := Push(more, Save(act, ""));
    var s2 := Last(more);
    assert s2.memory.homes == map[act := l] && s2.unsaved == map[];
    assert s2.memory.receipts == s.memory.receipts && s2.memory.closing == map[];
    EntersClose(s2, act, l);
    more := Push(more, EnterAct(0, act, None, true));
  }

  lemma EntersClose(s: System, act: Act, ledger: Ledger)
    requires PhaseOf(s, 0).Idle? && act != "" && s.memory.homes == map[act := ledger] && ledger != ""
    requires act !in s.memory.receipts && s.memory.closing == map[]
    ensures var n := Next(s, EnterAct(0, act, None, true));
            && PhaseOf(n, 0).Closing? && PhaseOf(n, 0).act == act && PhaseOf(n, 0).ledger == ledger
            && n.books == s.books && n.unsaved == s.unsaved &&
               n.memory == s.memory.(closing := map[act := s.nextTicket])
  { }

  /** The one act settler 0 is closing lands in its ledger, and its receipt is read. */
  lemma LandOneAct(states: seq<System>) returns (more: seq<System>)
    requires Run(states) && PhaseOf(Last(states), 0).Closing?
    requires IsAuthorized(Last(states).books, PhaseOf(Last(states), 0).ledger, PhaseOf(Last(states), 0).act)
    ensures Run(more) && OnlyRowsOf(Last(states).books, Last(more).books, PhaseOf(Last(states), 0).act)
    ensures var s, n, p := Last(states), Last(more), PhaseOf(Last(states), 0);
            n.memory == s.memory && n.unsaved == s.unsaved && PhaseOf(n, 0) == Leaving(p.act, p.ticket, true, "receipt")
  {
    more := Push(states, FinishLands(0, "receipt", false));
    more := Push(more, ReceiptRead(0));
  }

  /** Settler 0 leaves the close of the only open act and releases its waiters. */
  lemma LeaveOneAct(states: seq<System>) returns (more: seq<System>)
    requires Run(states) && PhaseOf(Last(states), 0).Leaving? && PhaseOf(Last(states), 0).ok
    requires var s, act := Last(states), PhaseOf(Last(states), 0).act;
             s.unsaved == map[] && s.memory.homes.Keys == {act} && s.memory.closing.Keys == {act}
    ensures Run(more) && Quiet(Last(more)) && Last(more).books == Last(states).books
    ensures Last(more).memory.profiles == Last(states).memory.profiles
  {
    var m, p := Last(states).memory, PhaseOf(Last(states), 0);
    MemoryBounded(states, |states| - 1);
    LeaveMemory(m, p.act, true, p.receipt);
    ProfilesUnchanged(m, p.act, true, p.receipt);
    more := Push(states, LeaveAct(0));
    var left := Leave(m, p.act, true, p.receipt);
    assert left.homes == map[] && left.closing == map[];
    more := Push(more, Release(0));
  }

  lemma NeverClosed(states: seq<System>, act: Act)
    requires Run(states) && NewAct(Last(states).books, act)
    ensures act !in Last(states).memory.receipts
  {
    RunKeepsInv(states, |states| - 1);
  }

  function ActNamed(n: nat): Act { seq(n, i => 'a') }

  /**
   The map from acts to profiles has no bound: for every n some run ends with no act in flight and n
   profiles remembered, because no close and no eviction ever removes one.
   */
  lemma {:induction false} ProfilesUnbounded(n: nat) returns (states: seq<System>)
    ensures Run(states) && Quiet(Last(states)) && |Last(states).memory.profiles| == n
    ensures ActsUpTo(Last(states), n)
  {
    if n == 0 {
      states := [START];
    } else {
      var before := ProfilesUnbounded(n - 1);
      var act := ActNamed(n);
      states := OpenOneAct(before, act);
      states := LandOneAct(states);
      states := LeaveOneAct(states);
      var p, q := Last(before).memory.profiles, Last(states).memory.profiles;
      assert act !in p;
      assert |q.Keys| == |p.Keys| + 1;
    }
  }

  ghost predicate ActsUpTo(s: System, n: nat) {
    && (forall l, a :: HasRow(s.books, l, a) ==> 0 < |a| <= n)
    && (forall a :: a in s.memory.profiles ==> 0 < |a| <= n)
  }

  // ---- The map of profiles, exactly ----

  ghost predicate RowSomewhere(books: Books, act: Act) { exists l :: HasRow(books, l, act) }

  /** The registry was told of the act: it was sealed, and its seal was followed by the telling. */
  ghost predicate Told(s: System, act: Act) { RowSomewhere(s.books, act) && act !in s.unsaved }

  ghost predicate ProfilesAreTold(s: System) { forall a :: a in s.memory.profiles <==> Told(s, a) }

  lemma SameRows(books: Books, more: Books)
    requires forall l, a :: HasRow(more, l, a) <==> HasRow(books, l, a)
    ensures forall a :: RowSomewhere(more, a) <==> RowSomewhere(books, a)
  {
    forall a ensures RowSomewhere(more, a) <==> RowSomewhere(books, a) {
      if l :| HasRow(books, l, a) {
        assert HasRow(more, l, a);
      }
      if l :| HasRow(more, l, a) {
        assert HasRow(books, l, a);
      }
    }
  }

  lemma SealKeepsTold(s: System, act: Act, ledger: Ledger)
    requires Enabled(s, Seal(act, ledger)) && ProfilesAreTold(s)
    ensures ProfilesAreTold(Next(s, Seal(act, ledger)))
  {
    var n := Next(s, Seal(act, ledger));
    SealRows(s, act, ledger);
    assert !RowSomewhere(s.books, act);
    forall a ensures RowSomewhere(n.books, a) <==> RowSomewhere(s.books, a) || a == act {
      if l :| HasRow(s.books, l, a) {
        assert HasRow(n.books, l, a);
      }
      assert HasRow(n.books, ledger, act);
    }
  }

  lemma StepKeepsTold(s: System, step: Step)
    requires Inv(s) && Enabled(s, step) && ProfilesAreTold(s)
    ensures ProfilesAreTold(Next(s, step))
  {
    hide OneHome, ClosingServed, WaitersServed, TrueMemory, InFlightKnown, OwnTickets, Bounded, RowSomewhere, HasRow;
    if step.Seal? {
      SealKeepsTold(s, step.act, step.ledger);
    } else if step.LeaveAct? {
      LeaveKeepsTold(s, step.t);
    } else if step.Save? {
      SaveKeepsTold(s, step.act, step.profile);
    } else {
      OtherMemory(s, step);
      OtherRows(s, step);
      SameRows(s.books, Next(s, step).books);
    }
  }

  lemma LeaveKeepsTold(s: System, t: Settler)
    requires Inv(s) && Enabled(s, LeaveAct(t)) && ProfilesAreTold(s)
    ensures ProfilesAreTold(Next(s, LeaveAct(t)))
  {
    hide OneHome, ClosingServed, WaitersServed, TrueMemory, InFlightKnown, OwnTickets, Bounded, Leave, RowSomewhere;
    var p := PhaseOf(s, t);
    assert PhaseOk(s.books, s.memory.closing, s.released, s.nextTicket, p);
    ProfilesUnchanged(s.memory, p.act, p.ok, p.receipt);
  }

  lemma SaveKeepsTold(s: System, act: Act, profile: Profile)
    requires Inv(s) && Enabled(s, Save(act, profile)) && ProfilesAreTold(s)
    ensures ProfilesAreTold(Next(s, Save(act, profile)))
  {
    hide ClosingServed, WaitersServed, TrueMemory, InFlightKnown, OwnTickets, Bounded, PhasesOk;
    assert HasRow(s.books, s.unsaved[act], act);
  }

  lemma OtherMemory(s: System, step: Step)
    requires Enabled(s, step) && !step.Seal? && !step.Save? && !step.LeaveAct?
    ensures Next(s, step).memory.profiles == s.memory.profiles && Next(s, step).unsaved == s.unsaved
  {
    hide HasRow, IsClosed, IsAuthorized, EnterStep;
    if step.EnterAct? {
      EnterMemory(s, step.t, step.act, step.via, step.applied);
    }
  }

  lemma EnterMemory(s: System, t: Settler, act: Act, via: Option<Recorder>, applied: bool)
    ensures var n := EnterStep(s, t, act, via, applied);
            n.memory.profiles == s.memory.profiles && n.unsaved == s.unsaved
  { hide ChooseCloser, HomeFor, Get; }

  lemma OtherRows(s: System, step: Step)
    requires Enabled(s, step) && !step.Seal? && !step.Save? && !step.LeaveAct?
    ensures forall l, a :: HasRow(Next(s, step).books, l, a) <==> HasRow(s.books, l, a)
  {
    hide HasRow;
    match step
    case OtherHandCloses(ledger, act, outcome, receipt, mark) => CloseRowRows(s, ledger, act, outcome, receipt, mark);
    case FinishLands(t, receipt, _) =>
      var p := PhaseOf(s, t);
      CloseRowRows(s, p.ledger, p.act, OutcomeOf(p), receipt, MarkOf(p));
    case _ => OtherBooks(s, step);
  }

  lemma OtherBooks(s: System, step: Step)
    requires Enabled(s, step) && !step.Seal? && !step.OtherHandCloses? && !step.FinishLands?
    ensures Next(s, step).books == s.books
  { hide HasRow, IsClosed, IsAuthorized, ChooseCloser, HomeFor, Get; }

  lemma CloseRowRows(s: System, ledger: Ledger, act: Act, outcome: Outcome, receipt: Receipt,
    mark: Profile)
    requires IsAuthorized(s.books, ledger, act)
    ensures forall l, a :: HasRow(CloseRow(s, ledger, act, outcome, receipt, mark).books, l, a) <==>
            HasRow(s.books, l, a)
  { }

  /** The map holds a profile for exactly the acts the registry was ever told of, open, closed and evicted alike. */
  lemma {:induction false} ProfilesExactly(states: seq<System>, i: nat)
    requires Run(states) && i < |states|
    ensures ProfilesAreTold(states[i])
  {
    hide Inv, Next, Enabled, Told;
    if i > 0 {
      ProfilesExactly(states, i - 1);
      RunKeepsInv(states, i - 1);
      assert Follows(states, i);
      var step :| Leads(states[i - 1], step, states[i]);
      StepKeepsTold(states[i - 1], step);
    } else {
      NobodyTold();
    }
  }

  lemma NobodyTold()
    ensures ProfilesAreTold(START)
  { assert forall a :: !RowSomewhere(START.books, a); }

  /** So it stays within a bound exactly when the acts told of do, and retention plays no part in it. */
  lemma ProfilesBoundedExactly(states: seq<System>, i: nat, bound: nat)
    requires Run(states) && i < |states|
    ensures |states[i].memory.profiles| <= bound <==>
            forall acts: set<Act> :: (forall a :: a in acts ==> Told(states[i], a)) ==> |acts| <= bound
  {
    hide Told, Run;
    ProfilesExactly(states, i);
    var keys := states[i].memory.profiles.Keys;
    if |keys| <= bound {
      forall acts: set<Act> | forall a :: a in acts ==> Told(states[i], a) ensures |acts| <= bound {
        assert forall a :: a in acts ==> a in keys;
        SubsetSize(acts, keys);
      }
    }
  }

  lemma {:induction false} SubsetSize(a: set<Act>, b: set<Act>)
    requires forall x :: x in a ==> x in b
    ensures |a| <= |b|
    decreases |a|
  {
    if a != {} {
      var x :| x in a;
      SubsetSize(a - {x}, b - {x});
    }
  }

  // ---- Many handles of one act ----

  /** Binds `n` more handles to the act, on top of those already bound. */
  lemma {:induction false} BindMany(states: seq<System>, act: Act, n: nat) returns (more: seq<System>)
    requires Run(states)
    ensures Run(more)
    ensures var s, e := Last(states), Last(more);
            && e == s.(memory := s.memory.(handles := e.memory.handles))
            && e.memory.handles == s.memory.handles + Named(act, n)
  {
    hide Run, ActNamed;
    if n == 0 {
      more := states;
    } else {
      more := BindMany(states, act, n - 1);
      more := Push(more, BindHandle(act, ActNamed(n)));
    }
  }

  function Named(act: Act, n: nat): map<Handle, Act> {
    if n == 0 then map[] else Named(act, n - 1)[ActNamed(n) := act]
  }

  lemma {:induction false} NamedSize(act: Act, n: nat)
    ensures |Named(act, n)| == n
    ensures forall h :: h in Named(act, n) ==> |h| <= n && Named(act, n)[h] == act
  {
    if n > 0 {
      NamedSize(act, n - 1);
      assert ActNamed(n) !in Named(act, n - 1);
    }
  }

  /** The registry itself does not ask for that: one closed act can leave any number of closed handles behind. */
  lemma HandlesUnbounded(n: nat) returns (states: seq<System>)
    ensures Run(states) && |Last(states).memory.closedHandles| == n && |Last(states).memory.receipts| == 1
  {
    hide Run, Next, Enabled, Leave;
    var act := ActNamed(1);
    Beginning();
    states := OpenOneAct([START], act);
    states := BindMany(states, act, n);
    NamedSize(act, n);
    assert map[] + Named(act, n) == Named(act, n);
    states := LandOneAct(states);
    var m := Last(states).memory;
    LeavingIs(Last(states), act);
    states := Push(states, LeaveAct(0));
    LeaveAlone(m, act, "receipt", n);
  }

  lemma Beginning()
    ensures Run([START]) && Quiet(START) && NewAct(START.books, ActNamed(1)) && Last([START]) == START
  { }

  lemma LeavingIs(s: System, act: Act)
    requires PhaseOf(s, 0).Leaving? && PhaseOf(s, 0).act == act && PhaseOf(s, 0).ok &&
             PhaseOf(s, 0).receipt == "receipt"
    ensures Enabled(s, LeaveAct(0)) && Next(s, LeaveAct(0)).memory == Leave(s.memory, act, true, "receipt")
  { }

  lemma LeaveAlone(m: Memory, act: Act, receipt: Receipt, n: nat)
    requires act in m.closing && m.receipts == map[] && m.closedOrder == [] && m.closedHandles == map[]
    requires |m.handles| == n && forall h :: h in m.handles ==> m.handles[h] == act
    ensures |Leave(m, act, true, receipt).closedHandles| == n && |Leave(m, act, true, receipt).receipts| == 1
  {
    assert BoundTo(m.handles, act) == m.handles;
    assert m.receipts[act := receipt] == map[act := receipt];
  }
}
