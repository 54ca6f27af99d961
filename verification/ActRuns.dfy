/**
 What the close-once protocol guarantees on every run: one closer, one receipt, no lost waiter, a bounded
 memory of closed acts.
 */
module ActRuns {
  import opened ActRegistry
  import opened ActProtocol
  import opened ActSteps

  // ---- Safety over every run ----

  /** At most one settler is inside the close of an act, and no act is both closing and remembered closed. */
  lemma OneCloser(states: seq<System>, i: nat, t: Settler, u: Settler)
    requires Run(states) && i < |states|
    ensures var s := states[i];
            && (InClose(PhaseOf(s, t)) && InClose(PhaseOf(s, u)) && PhaseOf(s, t).act == PhaseOf(s, u).act ==> t == u)
            && (InClose(PhaseOf(s, t)) ==> PhaseOf(s, t).act !in s.memory.receipts)
  {
    RunKeepsInv(states, i);
    var s := states[i];
    if InClose(PhaseOf(s, t)) {
      assert PhaseOk(s.books, s.memory.closing, s.released, s.nextTicket, s.phases[t]);
    }
    if InClose(PhaseOf(s, u)) {
      assert PhaseOk(s.books, s.memory.closing, s.released, s.nextTicket, s.phases[u]);
    }
  }

  /** All non-empty receipts ever answered for an act are equal: failed closes, evictions and retries included. */
  lemma OneReceipt(states: seq<System>, i: nat, j: nat, a: Answer, b: Answer)
    requires Run(states) && i < |states| && j < |states|
    requires a in states[i].answers && b in states[j].answers && a.act == b.act
    requires a.receipt != "" && b.receipt != ""
    ensures a.receipt == b.receipt
  {
    var n := |states| - 1;
    RunGrows(states, i, n);
    RunGrows(states, j, n);
    RunKeepsInv(states, n);
    var s := states[n];
    assert TrueReceipt(s.books, a.act, a.receipt) && TrueReceipt(s.books, b.act, b.receipt);
    var l :| IsClosed(s.books, l, a.act) && s.books[l][a.act].receipt == a.receipt;
    var k :| IsClosed(s.books, k, b.act) && s.books[k][b.act].receipt == b.receipt;
    assert HasRow(s.books, l, a.act) && HasRow(s.books, k, a.act);
  }

  lemma StepGrows(s: System, step: Step)
    requires Inv(s) && Enabled(s, step)
    ensures Extends(s.books, Next(s, step).books) && s.answers <= Next(s, step).answers
    ensures s.memory.profiles.Keys <= Next(s, step).memory.profiles.Keys
  {
    hide Inv, Next, Enabled, Extends;
    if step.LeaveAct? {
      LeaveGrows(s, step.t);
    } else {
      OtherStepGrows(s, step);
    }
  }

  lemma LeaveGrows(s: System, t: Settler)
    requires Inv(s) && Enabled(s, LeaveAct(t))
    ensures var n := Next(s, LeaveAct(t));
            Extends(s.books, n.books) && s.answers <= n.answers && s.memory.profiles.Keys <= n.memory.profiles.Keys
  {
    hide OneHome, ClosingServed, WaitersServed, TrueMemory, InFlightKnown, OwnTickets, Bounded, Leave;
    var p := PhaseOf(s, t);
    assert PhaseOk(s.books, s.memory.closing, s.released, s.nextTicket, p);
    ProfilesUnchanged(s.memory, p.act, p.ok, p.receipt);
  }

  lemma OtherStepGrows(s: System, step: Step)
    requires Enabled(s, step) && !step.LeaveAct?
    ensures Extends(s.books, Next(s, step).books) && s.answers <= Next(s, step).answers
    ensures s.memory.profiles.Keys <= Next(s, step).memory.profiles.Keys
  { }

  /** The ledger keeps the outcome and the receipt of whichever close landed first. */
  lemma {:induction false} RunGrows(states: seq<System>, i: nat, j: nat)
    requires Run(states) && i <= j < |states|
    ensures Extends(states[i].books, states[j].books) && states[i].answers <= states[j].answers
    ensures states[i].memory.profiles.Keys <= states[j].memory.profiles.Keys
    decreases j - i
  {
    hide Inv, Next, Enabled, Extends;
    if i < j {
      RunGrows(states, i, j - 1);
      RunKeepsInv(states, j - 1);
      assert Follows(states, j);
      var step :| Leads(states[j - 1], step, states[j]);
      StepGrows(states[j - 1], step);
      ExtendsTransitive(states[i].books, states[j - 1].books, states[j].books);
    } else {
      ExtendsItself(states[i].books);
    }
  }

  lemma ExtendsItself(books: Books)
    ensures Extends(books, books)
  { }

  lemma ExtendsTransitive(a: Books, b: Books, c: Books)
    requires Extends(a, b) && Extends(b, c)
    ensures Extends(a, c)
  { assert forall l, act :: HasRow(a, l, act) ==> HasRow(b, l, act); }

  /** A boot's recovery that spares InFlightIn never closes an act this process was told of. */
  lemma InFlightSpared(states: seq<System>, i: nat, ledger: Ledger, act: Act)
    requires Run(states) && i < |states|
    requires IsAuthorized(states[i].books, ledger, act) && act !in states[i].unsaved
    ensures act in InFlightIn(states[i].memory, ledger)
  { RunKeepsInv(states, i); }

  /** Whenever the mutex is free the memory of closed acts is indexed, duplicate-free and bounded. */
  lemma MemoryBounded(states: seq<System>, i: nat)
    requires Run(states) && i < |states|
    ensures Bounded(states[i].memory)
  { RunKeepsInv(states, i); }

  /** Every waiter is served: its channel is closed already, or some settler is still due to close it. */
  lemma NoLostWaiter(states: seq<System>, i: nat, t: Settler)
    requires Run(states) && i < |states| && PhaseOf(states[i], t).Waiting?
    ensures var s, k := states[i], PhaseOf(states[i], t).ticket;
            k in s.released || exists u :: HoldsTicket(PhaseOf(s, u)) && PhaseOf(s, u).ticket == k
  {
    RunKeepsInv(states, i);
    var s, k := states[i], PhaseOf(states[i], t).ticket;
    if k !in s.released {
      assert Held(s.phases, k);
      var u :| u in s.phases && HoldsTicket(s.phases[u]) && s.phases[u].ticket == k;
      assert HoldsTicket(PhaseOf(s, u)) && PhaseOf(s, u).ticket == k;
    }
  }
}
