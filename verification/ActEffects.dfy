/**
 What a close does when nobody gets in between: how each way a ledger can answer ends for the settler, the row
 and the registry, from every state of a run.
 */
module ActEffects {
  import opened Prelude
  import opened ActRegistry
  import opened ActProtocol
  import opened ActSteps
  import opened ActRuns

  /** The steps can be taken one after the other and end in this state. */
  ghost predicate Walks(s: System, steps: seq<Step>, end: System)
    decreases |steps|
  {
    if steps == [] then end == s else Enabled(s, steps[0]) && Walks(Next(s, steps[0]), steps[1..], end)
  }

  lemma Walk(s: System, step: Step, steps: seq<Step>, end: System)
    requires Enabled(s, step) && Walks(Next(s, step), steps, end)
    ensures Walks(s, [step] + steps, end)
  { assert ([step] + steps)[1..] == steps; }

  lemma Stand(s: System)
    ensures Walks(s, [], s)
  { }

  /** The settler has answered and its waiters are released; the act is no longer being closed. */
  ghost predicate Settled(s: System, end: System, t: Settler, p: Phase, receipt: Receipt)
    requires HoldsTicket(p)
  {
    && PhaseOf(end, t) == Idle && p.act !in end.memory.closing
    && end.released == s.released + {p.ticket}
    && end.answers == s.answers + {Answer(p.act, receipt)}
  }

  /** The act is remembered closed with the receipt, and no longer open. */
  predicate Remembered(m: Memory, act: Act, receipt: Receipt) {
    act in m.receipts && m.receipts[act] == receipt && act !in m.homes && act !in m.founders
    && forall h :: h in m.handles ==> m.handles[h] != act
  }

  /** The last two steps, once it is decided whether the close landed. */
  lemma LeaveWalks(s: System, t: Settler) returns (end: System)
    requires Inv(s) && PhaseOf(s, t).Leaving?
    ensures Walks(s, [LeaveAct(t), Release(t)], end) && end.books == s.books
    ensures var p := PhaseOf(s, t);
            && Settled(s, end, t, p, p.receipt)
            && (p.ok ==> Remembered(end.memory, p.act, p.receipt))
            && (!p.ok ==> end.memory == s.memory.(closing := s.memory.closing - {p.act}))
  {
    var p := PhaseOf(s, t);
    LeftOpenOrClosed(s, t);
    var left := Next(s, LeaveAct(t));
    end := Next(left, Release(t));
    hide Inv, Leave, Walks;
    Stand(end);
    Walk(left, Release(t), [], end);
    Walk(s, LeaveAct(t), [Release(t)], end);
    assert [Release(t)] + [] == [Release(t)] && [LeaveAct(t)] + [Release(t)] == [LeaveAct(t), Release(t)];
  }

  lemma LeftOpenOrClosed(s: System, t: Settler)
    requires Inv(s) && PhaseOf(s, t).Leaving?
    ensures var p, m := PhaseOf(s, t), Leave(s.memory, PhaseOf(s, t).act, PhaseOf(s, t).ok, PhaseOf(s, t).receipt);
            && p.act !in m.closing
            && (p.ok ==> Remembered(m, p.act, p.receipt))
            && (!p.ok ==> m == s.memory.(closing := s.memory.closing - {p.act}))
  {
    hide OneHome, ClosingServed, WaitersServed, TrueMemory, InFlightKnown, OwnTickets;
    var p := PhaseOf(s, t);
    assert PhaseOk(s.books, s.memory.closing, s.released, s.nextTicket, p);
    LeaveMemory(s.memory, p.act, p.ok, p.receipt);
    if p.ok {
      LeaveKeepsBounded(s.memory, p.act, p.ok, p.receipt);
      LeaveHandles(s.memory, p.act, p.receipt);
      LeaveFounders(s.memory, p.act, p.receipt);
    }
  }

  lemma LeaveFounders(m: Memory, act: Act, receipt: Receipt)
    requires Bounded(m) && act in m.closing
    ensures Leave(m, act, true, receipt).founders == m.founders - {act}
  {
    var r := RecordClose(m.(closing := m.closing - {act}), act, receipt);
    assert Indexed(r) by {
      RecordedIsIndexed(m, act, receipt);
    }
    ForgetBounds(r);
  }

  /** A settler that has found the row terminal. */
  lemma ReadWalks(s: System, t: Settler) returns (end: System)
    requires Inv(s) && PhaseOf(s, t).ReadingReceipt?
    ensures IsClosed(s.books, PhaseOf(s, t).ledger, PhaseOf(s, t).act)
    ensures Walks(s, [ReceiptRead(t), LeaveAct(t), Release(t)], end) && end.books == s.books
    ensures var p := PhaseOf(s, t); var receipt := s.books[p.ledger][p.act].receipt;
            Settled(s, end, t, p, receipt) && Remembered(end.memory, p.act, receipt)
  {
    var p := PhaseOf(s, t);
    ReadingIsClosed(s, t);
    InvKept(s, ReceiptRead(t));
    var read := Next(s, ReceiptRead(t));
    end := LeaveWalks(read, t);
    hide Inv, Walks;
    Walk(s, ReceiptRead(t), [LeaveAct(t), Release(t)], end);
    assert [ReceiptRead(t)] + [LeaveAct(t), Release(t)] == [ReceiptRead(t), LeaveAct(t), Release(t)];
  }

  lemma ReadingIsClosed(s: System, t: Settler)
    requires Inv(s) && PhaseOf(s, t).ReadingReceipt?
    ensures IsClosed(s.books, PhaseOf(s, t).ledger, PhaseOf(s, t).act)
  { assert PhaseOk(s.books, s.memory.closing, s.released, s.nextTicket, PhaseOf(s, t)); }

  /** Same memory, same answers and same released tickets: what the steps inside a close leave alone. */
  predicate Inside(s: System, n: System) {
    n.memory == s.memory && n.answers == s.answers && n.released == s.released
  }

  lemma SettledInside(s: System, n: System, end: System, t: Settler, p: Phase, q: Phase, receipt: Receipt)
    requires Inside(s, n) && HoldsTicket(p) && HoldsTicket(q) && p.act == q.act && p.ticket == q.ticket
    ensures Settled(s, end, t, p, receipt) <==> Settled(n, end, t, q, receipt)
  { }

  lemma FinishIs(s: System, t: Settler, receipt: Receipt, reportsError: bool)
    requires Inv(s) && Enabled(s, FinishLands(t, receipt, reportsError))
    ensures var p, n := PhaseOf(s, t), Next(s, FinishLands(t, receipt, reportsError));
            && Inside(s, n) && IsClosed(n.books, p.ledger, p.act) && n.books[p.ledger][p.act].receipt == receipt
            && PhaseOf(n, t) == (if reportsError then Rereading(p.act, p.ticket, p.ledger)
                                 else ReadingReceipt(p.act, p.ticket, p.ledger))
  { hide Inv; }

  lemma FailIs(s: System, t: Settler)
    requires PhaseOf(s, t).Closing?
    ensures var p, n := PhaseOf(s, t), Next(s, FinishFails(t));
            Enabled(s, FinishFails(t)) && Inside(s, n) && n.books == s.books
            && PhaseOf(n, t) == Rereading(p.act, p.ticket, p.ledger)
  { }

  lemma RereadIs(s: System, t: Settler)
    requires PhaseOf(s, t).Rereading?
    ensures var p := PhaseOf(s, t);
            if IsClosed(s.books, p.ledger, p.act)
            then Enabled(s, RereadTerminal(t)) && var n := Next(s, RereadTerminal(t));
                   Inside(s, n) && n.books == s.books && PhaseOf(n, t) == ReadingReceipt(p.act, p.ticket, p.ledger)
            else Enabled(s, RereadOpen(t)) && var n := Next(s, RereadOpen(t));
                   Inside(s, n) && n.books == s.books && PhaseOf(n, t) == Leaving(p.act, p.ticket, false, "")
  { }

  /** A settler that looks again: the row's receipt when it is closed, none when it is not. */
  lemma RereadWalks(s: System, t: Settler) returns (end: System)
    requires Inv(s) && PhaseOf(s, t).Rereading?
    ensures end.books == s.books
    ensures var p := PhaseOf(s, t);
            if IsClosed(s.books, p.ledger, p.act)
            then Walks(s, [RereadTerminal(t), ReceiptRead(t), LeaveAct(t), Release(t)], end)
                 && Settled(s, end, t, p, s.books[p.ledger][p.act].receipt)
                 && Remembered(end.memory, p.act, s.books[p.ledger][p.act].receipt)
            else Walks(s, [RereadOpen(t), LeaveAct(t), Release(t)], end) && Settled(s, end, t, p, "")
                 && end.memory == s.memory.(closing := s.memory.closing - {p.act})
  {
    hide Inv, Walks, Next, Enabled, Remembered;
    var p := PhaseOf(s, t);
    RereadIs(s, t);
    if IsClosed(s.books, p.ledger, p.act) {
      InvKept(s, RereadTerminal(t));
      end := ReadWalks(Next(s, RereadTerminal(t)), t);
      var rest := [ReceiptRead(t), LeaveAct(t), Release(t)];
      Walk(s, RereadTerminal(t), rest, end);
      assert [RereadTerminal(t)] + rest == [RereadTerminal(t), ReceiptRead(t), LeaveAct(t), Release(t)];
    } else {
      InvKept(s, RereadOpen(t));
      end := LeaveWalks(Next(s, RereadOpen(t)), t);
      Walk(s, RereadOpen(t), [LeaveAct(t), Release(t)], end);
      assert [RereadOpen(t)] + [LeaveAct(t), Release(t)] == [RereadOpen(t), LeaveAct(t), Release(t)];
    }
  }

  /** The steps of a settler behind a close that landed. */
  function Behind(t: Settler, reportsError: bool): seq<Step> {
    (if reportsError then [RereadTerminal(t)] else []) + [ReceiptRead(t), LeaveAct(t), Release(t)]
  }

  /** The ledger closes the row, reporting an error or not: the settler answers its receipt and remembers it. */
  lemma LandedCloseSettles(states: seq<System>, t: Settler, receipt: Receipt, reportsError: bool) returns (end: System)
    requires Run(states) && Enabled(states[|states| - 1], FinishLands(t, receipt, reportsError))
    ensures var s := states[|states| - 1]; var p := PhaseOf(s, t);
            && p.Closing?
            && Walks(s, [FinishLands(t, receipt, reportsError)] + Behind(t, reportsError), end)
            && Settled(s, end, t, p, receipt) && Remembered(end.memory, p.act, receipt)
            && IsClosed(end.books, p.ledger, p.act) && end.books[p.ledger][p.act].receipt == receipt
  {
    var s := states[|states| - 1];
    hide *;
    RunKeepsInv(states, |states| - 1);
    LandingIs(s, t, receipt, reportsError);
    end := LandWalks(s, t, receipt, reportsError);
  }

  lemma LandingIs(s: System, t: Settler, receipt: Receipt, reportsError: bool)
    requires Enabled(s, FinishLands(t, receipt, reportsError))
    ensures PhaseOf(s, t).Closing? && HoldsTicket(PhaseOf(s, t))
  { }

  lemma LandWalks(s: System, t: Settler, receipt: Receipt, reportsError: bool) returns (end: System)
    requires Inv(s) && Enabled(s, FinishLands(t, receipt, reportsError))
    ensures var p := PhaseOf(s, t);
            && p.Closing?
            && Walks(s, [FinishLands(t, receipt, reportsError)] + Behind(t, reportsError), end)
            && Settled(s, end, t, p, receipt) && Remembered(end.memory, p.act, receipt)
            && IsClosed(end.books, p.ledger, p.act) && end.books[p.ledger][p.act].receipt == receipt
  {
    hide *;
    var finish := FinishLands(t, receipt, reportsError);
    LandingIs(s, t, receipt, reportsError);
    FinishIs(s, t, receipt, reportsError);
    var p, landed := PhaseOf(s, t), Next(s, finish);
    HoldsInside(PhaseOf(landed, t));
    InvKept(s, finish);
    BehindIs(t, reportsError);
    if reportsError {
      end := RereadWalks(landed, t);
    } else {
      end := ReadWalks(landed, t);
    }
    SettledInside(s, landed, end, t, p, PhaseOf(landed, t), receipt);
    Walk(s, finish, Behind(t, reportsError), end);
  }

  lemma BehindIs(t: Settler, reportsError: bool)
    ensures Behind(t, reportsError) == if reportsError then [RereadTerminal(t), ReceiptRead(t), LeaveAct(t), Release(t)]
                                       else [ReceiptRead(t), LeaveAct(t), Release(t)]
  { }

  /**
   The ledger refuses the close. If another hand has closed the row, that close counts and its receipt is answered;
   if the row is still open, the act is too: the settler answers no receipt, and the next one becomes the closer.
   */
  lemma RefusedCloseSettles(states: seq<System>, t: Settler) returns (end: System)
    requires Run(states) && PhaseOf(states[|states| - 1], t).Closing?
    ensures end.books == states[|states| - 1].books
    ensures var s := states[|states| - 1]; var p := PhaseOf(s, t);
            if IsClosed(s.books, p.ledger, p.act)
            then Walks(s, [FinishFails(t), RereadTerminal(t), ReceiptRead(t), LeaveAct(t), Release(t)], end)
                 && Settled(s, end, t, p, s.books[p.ledger][p.act].receipt)
                 && Remembered(end.memory, p.act, s.books[p.ledger][p.act].receipt)
            else Walks(s, [FinishFails(t), RereadOpen(t), LeaveAct(t), Release(t)], end)
                 && Settled(s, end, t, p, "")
                 && end.memory == s.memory.(closing := s.memory.closing - {p.act})
                 && forall via :: EntryFor(end.memory, p.act, via).Owner?
  {
    hide Inv, Walks, Settled, Remembered, EntryFor, IsClosed;
    var s := states[|states| - 1];
    RunKeepsInv(states, |states| - 1);
    OneCloser(states, |states| - 1, t, t);
    OpenEntry(s.memory, PhaseOf(s, t).act);
    end := FailWalks(s, t);
  }

  lemma ReceiptIs(s: System, p: Phase)
    requires p.Closing? && IsClosed(s.books, p.ledger, p.act)
    ensures ReceiptIn(s, p) == s.books[p.ledger][p.act].receipt
  { }

  lemma HoldsInside(p: Phase)
    ensures p.Closing? || p.Rereading? || p.ReadingReceipt? || p.Leaving? ==> HoldsTicket(p)
  { }

  function ReceiptIn(s: System, p: Phase): Receipt
    requires p.Closing? && IsClosed(s.books, p.ledger, p.act)
  { s.books[p.ledger][p.act].receipt }

  lemma OpenEntry(m: Memory, act: Act)
    ensures act !in m.receipts ==> forall via :: EntryFor(m.(closing := m.closing - {act}), act, via).Owner?
  { }

  lemma FailWalks(s: System, t: Settler) returns (end: System)
    requires Inv(s) && PhaseOf(s, t).Closing?
    ensures end.books == s.books
    ensures var p := PhaseOf(s, t);
            if IsClosed(s.books, p.ledger, p.act)
            then Walks(s, [FinishFails(t), RereadTerminal(t), ReceiptRead(t), LeaveAct(t), Release(t)], end)
                 && Settled(s, end, t, p, s.books[p.ledger][p.act].receipt)
                 && Remembered(end.memory, p.act, s.books[p.ledger][p.act].receipt)
            else Walks(s, [FinishFails(t), RereadOpen(t), LeaveAct(t), Release(t)], end)
                 && Settled(s, end, t, p, "")
                 && end.memory == s.memory.(closing := s.memory.closing - {p.act})
  {
    hide *;
    FailIs(s, t);
    var p, failed := PhaseOf(s, t), Next(s, FinishFails(t));
    HoldsInside(p);
    HoldsInside(PhaseOf(failed, t));
    InvKept(s, FinishFails(t));
    end := RereadWalks(failed, t);
    SettledInside(s, failed, end, t, p, PhaseOf(failed, t), "");
    if IsClosed(s.books, p.ledger, p.act) {
      SettledInside(s, failed, end, t, p, PhaseOf(failed, t), ReceiptIn(s, p));
      ReceiptIs(s, p);
    }
    if IsClosed(s.books, p.ledger, p.act) {
      var rest := [RereadTerminal(t), ReceiptRead(t), LeaveAct(t), Release(t)];
      Walk(s, FinishFails(t), rest, end);
      assert [FinishFails(t)] + rest == [FinishFails(t), RereadTerminal(t), ReceiptRead(t), LeaveAct(t), Release(t)];
    } else {
      var rest := [RereadOpen(t), LeaveAct(t), Release(t)];
      Walk(s, FinishFails(t), rest, end);
      assert [FinishFails(t)] + rest == [FinishFails(t), RereadOpen(t), LeaveAct(t), Release(t)];
    }
  }
}
