/** Every step of the close-once protocol keeps its invariant. */
module ActSteps {
  import opened Prelude
  import opened ActRegistry
  import opened ActProtocol

  /** Rows are never removed and a closed row never changes. */
  ghost predicate Extends(books: Books, more: Books) {
    forall l, a :: HasRow(books, l, a) ==>
                     HasRow(more, l, a) && (IsClosed(books, l, a) ==> more[l][a] == books[l][a])
  }

  lemma ExtendsTrue(books: Books, more: Books, act: Act, receipt: Receipt)
    requires Extends(books, more)
    ensures ClosedSomewhere(books, act) ==> ClosedSomewhere(more, act)
    ensures TrueReceipt(books, act, receipt) ==> TrueReceipt(more, act, receipt)
  {
    if ClosedSomewhere(books, act) {
      var l :| IsClosed(books, l, act);
      assert IsClosed(more, l, act);
    }
    if receipt != "" && TrueReceipt(books, act, receipt) {
      var l :| IsClosed(books, l, act) && books[l][act].receipt == receipt;
      assert IsClosed(more, l, act);
    }
  }

  /** Growing books keep what the memory, the answers and the phases say of receipts. */
  lemma GrowingBooks(s: System, more: Books)
    requires Inv(s) && Extends(s.books, more)
    ensures PhasesOk(s.(books := more)) && TrueMemory(s.(books := more))
  {
    forall a, r ensures ClosedSomewhere(s.books, a) ==> ClosedSomewhere(more, a)
            ensures TrueReceipt(s.books, a, r) ==> TrueReceipt(more, a, r) {
      ExtendsTrue(s.books, more, a, r);
    }
    forall t | t in s.phases ensures PhaseOk(more, s.memory.closing, s.released, s.nextTicket, s.phases[t]) {
      assert PhaseOk(s.books, s.memory.closing, s.released, s.nextTicket, s.phases[t]);
      var p := s.phases[t];
      if p.ReadingReceipt? { assert IsClosed(more, p.ledger, p.act); }
    }
  }

  lemma SealKeepsInv(s: System, act: Act, ledger: Ledger)
    requires Inv(s) && Enabled(s, Seal(act, ledger))
    ensures Inv(Next(s, Seal(act, ledger)))
  {
    hide Bounded, TrueReceipt, OwnTickets;
    var n := Next(s, Seal(act, ledger));
    SealRows(s, act, ledger);
    GrowingBooks(s, n.books);
    SealHome(s, act, ledger);
    forall l, a | IsAuthorized(n.books, l, a) && a !in n.unsaved ensures a in InFlightIn(n.memory, l) {
      assert IsAuthorized(s.books, l, a);
    }
  }

  /** A seal adds its own row and no other. */
  lemma SealRows(s: System, act: Act, ledger: Ledger)
    requires Enabled(s, Seal(act, ledger))
    ensures var n := Next(s, Seal(act, ledger));
            && (forall l, a :: HasRow(n.books, l, a) <==> HasRow(s.books, l, a) || (l == ledger && a == act))
            && Extends(s.books, n.books)
  {
    var n := Next(s, Seal(act, ledger));
    forall l, a ensures HasRow(n.books, l, a) <==> HasRow(s.books, l, a) || (l == ledger && a == act) { }
  }

  lemma SealHome(s: System, act: Act, ledger: Ledger)
    requires OneHome(s.books, s.unsaved, s.memory.homes) && Enabled(s, Seal(act, ledger))
    ensures var n := Next(s, Seal(act, ledger)); OneHome(n.books, n.unsaved, n.memory.homes)
  {
    SealRows(s, act, ledger);
    assert forall a :: a in s.unsaved ==> HasRow(s.books, s.unsaved[a], a);
    assert forall a :: a in s.memory.homes ==> HasRow(s.books, s.memory.homes[a], a);
  }

  lemma SaveKeepsInv(s: System, act: Act, profile: Profile)
    requires Inv(s) && Enabled(s, Save(act, profile))
    ensures Inv(Next(s, Save(act, profile)))
  {
    var n := Next(s, Save(act, profile));
    forall l, a | IsAuthorized(n.books, l, a) && a !in n.unsaved ensures a in InFlightIn(n.memory, l) {
      if a == act {
        assert HasRow(s.books, s.unsaved[act], act);
      } else {
        assert a in InFlightIn(s.memory, l);
      }
    }
  }

  /** Founders, handles, the serving recorder and the dead marks carry no part of the invariant. */
  lemma RegistryUpdateKeepsInv(s: System, m: Memory)
    requires Inv(s)
    requires s.memory == m.(founders := s.memory.founders, handles := s.memory.handles,
                            current := s.memory.current, dead := s.memory.dead)
    ensures Inv(s.(memory := m))
  {
    var n := s.(memory := m);
    forall l, a | IsAuthorized(n.books, l, a) && a !in n.unsaved ensures a in InFlightIn(n.memory, l) {
      assert a in InFlightIn(s.memory, l);
    }
  }

  lemma CloseRowKeepsInv(s: System, ledger: Ledger, act: Act, outcome: Outcome, receipt: Receipt, mark: Profile)
    requires Inv(s) && IsAuthorized(s.books, ledger, act)
    ensures Inv(CloseRow(s, ledger, act, outcome, receipt, mark))
    ensures Extends(s.books, CloseRow(s, ledger, act, outcome, receipt, mark).books)
  {
    var n := CloseRow(s, ledger, act, outcome, receipt, mark);
    forall l, a ensures HasRow(n.books, l, a) <==> HasRow(s.books, l, a) { }
    assert Extends(s.books, n.books);
    GrowingBooks(s, n.books);
    forall l, a | IsAuthorized(n.books, l, a) && a !in n.unsaved ensures a in InFlightIn(n.memory, l) {
      assert IsAuthorized(s.books, l, a);
      assert a in InFlightIn(s.memory, l);
    }
  }

  /** Moving one settler keeps every other settler's claims. */
  lemma OthersKept(phases: map<Settler, Phase>, t: Settler, p: Phase)
    requires t in phases && InClose(phases[t]) ==> InClose(p) && p.act == phases[t].act
    requires t in phases && HoldsTicket(phases[t]) ==> HoldsTicket(p) && p.ticket == phases[t].ticket
    ensures forall a :: HasCloser(phases, a) ==> HasCloser(phases[t := p], a)
    ensures forall k :: Held(phases, k) ==> Held(phases[t := p], k)
  {
    var n := phases[t := p];
    forall a | HasCloser(phases, a) ensures HasCloser(n, a) {
      var u :| u in phases && InClose(phases[u]) && phases[u].act == a;
      assert u in n && InClose(n[u]) && n[u].act == a;
    }
    forall k | Held(phases, k) ensures Held(n, k) {
      var u :| u in phases && HoldsTicket(phases[u]) && phases[u].ticket == k;
      assert u in n && HoldsTicket(n[u]) && n[u].ticket == k;
    }
  }

  /** Moving one settler inside the close it already owns. */
  lemma AdvanceKeepsInv(s: System, t: Settler, p: Phase)
    requires Inv(s) && InClose(PhaseOf(s, t)) && InClose(p)
    requires p.act == PhaseOf(s, t).act && p.ticket == PhaseOf(s, t).ticket
    requires PhaseOk(s.books, s.memory.closing, s.released, s.nextTicket, p)
    ensures Inv(At(s, t, p))
  {
    var n := At(s, t, p);
    OthersKept(s.phases, t, p);
  }

  /** Moving a settler that holds no ticket among the phases outside the close. */
  lemma OutsideKeepsInv(s: System, t: Settler, p: Phase, answers: set<Answer>)
    requires Inv(s) && !HoldsTicket(PhaseOf(s, t)) && !HoldsTicket(p)
    requires p.Waiting? ==> p.ticket in s.released || Held(s.phases, p.ticket)
    requires forall a :: a in answers ==> TrueReceipt(s.books, a.act, a.receipt)
    ensures Inv(At(s, t, p).(answers := answers))
  {
    var n := At(s, t, p).(answers := answers);
    OthersKept(s.phases, t, p);
  }

  lemma EnterKeepsInv(s: System, t: Settler, act: Act, via: Option<Recorder>, applied: bool)
    requires Inv(s) && Enabled(s, EnterAct(t, act, via, applied))
    ensures Inv(Next(s, EnterAct(t, act, via, applied)))
  {
    hide OneHome, InFlightKnown, TrueReceipt, WaitersServed;
    EmptyIsTrue(s.books, act);
    var m, n := s.memory, Next(s, EnterAct(t, act, via, applied));
    match EntryFor(m, act, via)
    case AlreadyClosed(receipt) =>
      OutsideKeepsInv(s, t, Idle, s.answers + {Answer(act, receipt)});
    case InProgress(ticket) =>
      assert HasCloser(s.phases, act);
      var u :| u in s.phases && InClose(s.phases[u]) && s.phases[u].act == act;
      assert PhaseOk(s.books, m.closing, s.released, s.nextTicket, s.phases[u]);
      assert Held(s.phases, ticket);
      OutsideKeepsInv(s, t, Waiting(act, ticket), s.answers);
    case Owner(home, founder, closer) =>
      TakeCloseKeepsInv(s, t, Closing(act, s.nextTicket, LedgerOf(closer, home), applied, closer, founder));
  }

  lemma TakeCloseKeepsInv(s: System, t: Settler, p: Phase)
    requires Inv(s) && PhaseOf(s, t).Idle? && p.Closing? && p.ticket == s.nextTicket
    requires p.act !in s.memory.receipts && p.act !in s.memory.closing
    ensures Inv(At(s, t, p).(memory := Enter(s.memory, p.act, s.nextTicket), nextTicket := s.nextTicket + 1))
  {
    var act := p.act;
    var n := At(s, t, p).(memory := Enter(s.memory, act, s.nextTicket), nextTicket := s.nextTicket + 1);
    EnterKeepsBounded(s.memory, act, s.nextTicket);
    TakeClosePhases(s, t, p);
    OthersKept(s.phases, t, p);
    assert HasCloser(n.phases, act) by { assert n.phases[t] == p; }
    assert n.memory == s.memory.(closing := n.memory.closing);
    InFlightUnmoved(s, n);
  }

  lemma TakeClosePhases(s: System, t: Settler, p: Phase)
    requires Inv(s) && PhaseOf(s, t).Idle? && p.Closing? && p.ticket == s.nextTicket
    requires p.act !in s.memory.receipts && p.act !in s.memory.closing
    ensures var n := At(s, t, p).(memory := Enter(s.memory, p.act, p.ticket), nextTicket := s.nextTicket + 1);
            PhasesOk(n) && OwnTickets(n.phases)
  {
    var n := At(s, t, p).(memory := Enter(s.memory, p.act, p.ticket), nextTicket := s.nextTicket + 1);
    forall u | u in n.phases && u != t
      ensures PhaseOk(n.books, n.memory.closing, n.released, n.nextTicket, n.phases[u])
      ensures HoldsTicket(n.phases[u]) ==> n.phases[u].ticket < s.nextTicket
    {
      assert PhaseOk(s.books, s.memory.closing, s.released, s.nextTicket, s.phases[u]);
    }
    assert PhaseOk(n.books, n.memory.closing, n.released, n.nextTicket, n.phases[t]);
  }

  lemma InFlightUnmoved(s: System, n: System)
    requires InFlightKnown(s) && n.books == s.books && n.unsaved == s.unsaved && n.memory.homes == s.memory.homes
    ensures InFlightKnown(n)
  {
    forall l, a | IsAuthorized(n.books, l, a) && a !in n.unsaved ensures a in InFlightIn(n.memory, l) {
      assert a in InFlightIn(s.memory, l);
    }
  }

  lemma LeaveKeepsInv(s: System, t: Settler)
    requires Inv(s) && Enabled(s, LeaveAct(t))
    ensures Inv(Next(s, LeaveAct(t)))
  {
    var p, n := PhaseOf(s, t), Next(s, LeaveAct(t));
    assert PhaseOk(s.books, s.memory.closing, s.released, s.nextTicket, p);
    LeaveKeepsBounded(s.memory, p.act, p.ok, p.receipt);
    LeaveMemory(s.memory, p.act, p.ok, p.receipt);
    LeavePhases(s, n, t);
    LeaveInFlight(s, n, p);
  }

  /** What LeaveAct does to the phases, and to nothing the phases speak of but the closing map. */
  ghost predicate Left(s: System, n: System, t: Settler) {
    var p := PhaseOf(s, t);
    && p.Leaving?
    && n.books == s.books && n.released == s.released && n.nextTicket == s.nextTicket
    && n.phases == s.phases[t := Releasing(p.act, p.ticket, p.receipt)]
    && n.memory.closing == s.memory.closing - {p.act}
  }

  lemma LeavePhases(s: System, n: System, t: Settler)
    requires Inv(s) && Left(s, n, t)
    ensures PhasesOk(n) && OwnTickets(n.phases) && ClosingServed(n) && WaitersServed(n)
  {
    hide PhasesOk, OwnTickets, ClosingServed, WaitersServed, OneHome, TrueMemory, InFlightKnown;
    LeavePhasesOk(s, n, t);
    LeaveServed(s, n, t);
    LeaveTickets(s, n, t);
  }

  lemma LeaveTickets(s: System, n: System, t: Settler)
    requires OwnTickets(s.phases) && Left(s, n, t)
    ensures OwnTickets(n.phases)
  { }

  lemma LeavePhasesOk(s: System, n: System, t: Settler)
    requires PhasesOk(s) && OwnTickets(s.phases) && Left(s, n, t)
    ensures PhasesOk(n)
  {
    hide TrueReceipt, ClosedSomewhere;
    var p := PhaseOf(s, t);
    assert PhaseOk(s.books, s.memory.closing, s.released, s.nextTicket, p);
    forall u | u in n.phases ensures PhaseOk(n.books, n.memory.closing, n.released, n.nextTicket, n.phases[u]) {
      if u != t {
        assert PhaseOk(s.books, s.memory.closing, s.released, s.nextTicket, s.phases[u]);
        assert HoldsTicket(s.phases[u]) ==> s.phases[u].ticket != p.ticket;
      }
    }
  }

  lemma LeaveServed(s: System, n: System, t: Settler)
    requires ClosingServed(s) && WaitersServed(s) && Left(s, n, t)
    ensures ClosingServed(n) && WaitersServed(n)
  {
    forall a | a in n.memory.closing ensures HasCloser(n.phases, a) {
      assert HasCloser(s.phases, a);
      var u :| u in s.phases && InClose(s.phases[u]) && s.phases[u].act == a;
      assert u in n.phases && InClose(n.phases[u]) && n.phases[u].act == a;
    }
    forall k | Held(s.phases, k) ensures Held(n.phases, k) {
      var u :| u in s.phases && HoldsTicket(s.phases[u]) && s.phases[u].ticket == k;
      assert u in n.phases && HoldsTicket(n.phases[u]) && n.phases[u].ticket == k;
    }
  }

  lemma LeaveInFlight(s: System, n: System, p: Phase)
    requires Inv(s) && p.Leaving? && (p.ok ==> ClosedSomewhere(s.books, p.act))
    requires n.books == s.books && n.unsaved == s.unsaved
    requires forall a :: a in n.memory.homes <==> a in s.memory.homes && !(p.ok && a == p.act)
    requires forall a :: a in n.memory.homes ==> n.memory.homes[a] == s.memory.homes[a]
    ensures InFlightKnown(n)
  {
    forall l, a | IsAuthorized(n.books, l, a) && a !in n.unsaved ensures a in InFlightIn(n.memory, l) {
      assert a in InFlightIn(s.memory, l);
    }
  }

  /** What leaving changes of the memory, part by part. */
  lemma LeaveMemory(m: Memory, act: Act, ok: bool, receipt: Receipt)
    requires Bounded(m) && act in m.closing
    ensures var n := Leave(m, act, ok, receipt);
            && n.closing == m.closing - {act}
            && (forall a :: a in n.homes <==> a in m.homes && !(ok && a == act))
            && (forall a :: a in n.homes ==> n.homes[a] == m.homes[a])
            && (forall a :: a in n.receipts ==> if ok && a == act then n.receipts[a] == receipt
                                                else a in m.receipts && n.receipts[a] == m.receipts[a])
  {
    if ok {
      hide Forget, Bounded, Indexed;
      RecordedIsIndexed(m, act, receipt);
      ForgetBounds(RecordClose(m.(closing := m.closing - {act}), act, receipt));
      RecordedEntries(m.(closing := m.closing - {act}), act, receipt);
    }
  }

  lemma RecordedIsIndexed(m: Memory, act: Act, receipt: Receipt)
    requires Bounded(m) && act in m.closing
    ensures Indexed(RecordClose(m.(closing := m.closing - {act}), act, receipt))
  { assert Distinct(RecordClose(m.(closing := m.closing - {act}), act, receipt).closedOrder); }

  lemma RecordedEntries(m: Memory, act: Act, receipt: Receipt)
    ensures var r := RecordClose(m, act, receipt);
            && r.closing == m.closing && r.homes == m.homes - {act} && r.receipts == m.receipts[act := receipt]
  { }

  lemma ReleaseKeepsInv(s: System, t: Settler)
    requires Inv(s) && Enabled(s, Release(t))
    ensures Inv(Next(s, Release(t)))
  {
    hide Bounded, OneHome, TrueReceipt, PhasesOk, WaitersServed, ClosingServed;
    SettlerOk(s, t);
    ReleasePhasesOk(s, t);
    ReleaseServed(s, t);
  }

  lemma SettlerOk(s: System, t: Settler)
    requires PhasesOk(s)
    ensures PhaseOk(s.books, s.memory.closing, s.released, s.nextTicket, PhaseOf(s, t))
  { }

  lemma ReleasePhasesOk(s: System, t: Settler)
    requires PhasesOk(s) && OwnTickets(s.phases) && Enabled(s, Release(t))
    ensures PhasesOk(Next(s, Release(t)))
  {
    hide TrueReceipt, ClosedSomewhere;
    var p, n := PhaseOf(s, t), Next(s, Release(t));
    forall u | u in n.phases ensures PhaseOk(n.books, n.memory.closing, n.released, n.nextTicket, n.phases[u]) {
      if u != t {
        assert PhaseOk(s.books, s.memory.closing, s.released, s.nextTicket, s.phases[u]);
      }
    }
  }

  lemma ReleaseServed(s: System, t: Settler)
    requires ClosingServed(s) && WaitersServed(s) && Enabled(s, Release(t))
    ensures ClosingServed(Next(s, Release(t))) && WaitersServed(Next(s, Release(t)))
  {
    var p, n := PhaseOf(s, t), Next(s, Release(t));
    forall a | HasCloser(s.phases, a) ensures HasCloser(n.phases, a) {
      var u :| u in s.phases && InClose(s.phases[u]) && s.phases[u].act == a;
      assert u in n.phases && InClose(n.phases[u]) && n.phases[u].act == a;
    }
    forall k | Held(s.phases, k) && k != p.ticket ensures Held(n.phases, k) {
      var u :| u in s.phases && HoldsTicket(s.phases[u]) && s.phases[u].ticket == k;
      assert u in n.phases && HoldsTicket(n.phases[u]) && n.phases[u].ticket == k;
    }
  }

  lemma CloseStepKeepsInv(s: System, step: Step)
    requires Inv(s) && Enabled(s, step)
    requires step.FinishLands? || step.FinishFails? || step.OpenFails? || step.RereadTerminal?
             || step.RereadOpen? || step.ReceiptRead? || step.ReceiptLost?
    ensures Inv(Next(s, step))
  {
    hide Bounded, OneHome, OwnTickets, ClosingServed, WaitersServed, InFlightKnown, TrueMemory;
    var p := PhaseOf(s, step.t);
    assert PhaseOk(s.books, s.memory.closing, s.released, s.nextTicket, p);
    match step
    case FinishLands(t, receipt, reportsError) =>
      CloseRowKeepsInv(s, p.ledger, p.act, OutcomeOf(p), receipt, MarkOf(p));
      AdvanceKeepsInv(CloseRow(s, p.ledger, p.act, OutcomeOf(p), receipt, MarkOf(p)), t,
                      if reportsError then Rereading(p.act, p.ticket, p.ledger)
                          else ReadingReceipt(p.act, p.ticket, p.ledger));
    case FinishFails(t) => AdvanceKeepsInv(s, t, Rereading(p.act, p.ticket, p.ledger));
    case OpenFails(t) => AdvanceKeepsInv(s, t, Leaving(p.act, p.ticket, false, ""));
    case RereadTerminal(t) => AdvanceKeepsInv(s, t, ReadingReceipt(p.act, p.ticket, p.ledger));
    case RereadOpen(t) => AdvanceKeepsInv(s, t, Leaving(p.act, p.ticket, false, ""));
    case ReceiptRead(t) => AdvanceKeepsInv(s, t, Leaving(p.act, p.ticket, true, s.books[p.ledger][p.act].receipt));
    case ReceiptLost(t) => AdvanceKeepsInv(s, t, Leaving(p.act, p.ticket, true, ""));
  }

  lemma InvKept(s: System, step: Step)
    requires Inv(s) && Enabled(s, step)
    ensures Inv(Next(s, step))
  {
    hide Inv, Next;
    match step
    case Seal(act, ledger) => SealKeepsInv(s, act, ledger);
    case Save(act, profile) => SaveKeepsInv(s, act, profile);
    case OtherHandCloses(_, _, _, _, _) => OtherHandKeepsInv(s, step);
    case EnterAct(t, act, via, applied) => EnterKeepsInv(s, t, act, via, applied);
    case LeaveAct(t) => LeaveKeepsInv(s, t);
    case Release(t) => ReleaseKeepsInv(s, t);
    case Wake(t) => WaiterKeepsInv(s, step);
    case AnswerWoken(t) => WaiterKeepsInv(s, step);
    case GiveUpWaiting(t) => WaiterKeepsInv(s, step);
    case SetFounder(_, _) => UpdateKeepsInv(s, step);
    case BindHandle(_, _) => UpdateKeepsInv(s, step);
    case AttachRecorder(_) => UpdateKeepsInv(s, step);
    case KillRecorder(_) => UpdateKeepsInv(s, step);
    case UnseatRecorder(_) => UpdateKeepsInv(s, step);
    case _ => CloseStepKeepsInv(s, step);
  }

  lemma OtherHandKeepsInv(s: System, step: Step)
    requires Inv(s) && Enabled(s, step) && step.OtherHandCloses?
    ensures Inv(Next(s, step))
  {
    hide Inv;
    CloseRowKeepsInv(s, step.ledger, step.act, step.outcome, step.receipt, step.mark);
  }

  predicate Updates(step: Step) {
    step.SetFounder? || step.BindHandle? || step.AttachRecorder? || step.KillRecorder? || step.UnseatRecorder?
  }

  lemma UpdateKeepsInv(s: System, step: Step)
    requires Inv(s) && Enabled(s, step) && Updates(step)
    ensures Inv(Next(s, step))
  {
    hide Inv, Next, Updates;
    UpdateShape(s, step);
    RegistryUpdateKeepsInv(s, Next(s, step).memory);
  }

  lemma UpdateShape(s: System, step: Step)
    requires Enabled(s, step) && Updates(step)
    ensures var n := Next(s, step);
            && n == s.(memory := n.memory)
            && s.memory == n.memory.(founders := s.memory.founders, handles := s.memory.handles,
                                     current := s.memory.current, dead := s.memory.dead)
  { }

  lemma WaiterKeepsInv(s: System, step: Step)
    requires Inv(s) && Enabled(s, step) && (step.Wake? || step.AnswerWoken? || step.GiveUpWaiting?)
    ensures Inv(Next(s, step))
  {
    hide Bounded, OneHome, PhasesOk, OwnTickets, ClosingServed, WaitersServed, InFlightKnown, TrueReceipt;
    EmptyIsTrue(s.books, PhaseOf(s, step.t).act);
    match step
    case Wake(t) => OutsideKeepsInv(s, t, Woken(PhaseOf(s, t).act), s.answers);
    case AnswerWoken(t) =>
      var act := PhaseOf(s, t).act;
      OutsideKeepsInv(s, t, Idle, s.answers + {Answer(act, Get(s.memory.receipts, act))});
    case GiveUpWaiting(t) => OutsideKeepsInv(s, t, Idle, s.answers + {Answer(PhaseOf(s, t).act, "")});
  }

  lemma EmptyIsTrue(books: Books, act: Act)
    ensures TrueReceipt(books, act, "")
  { }

  lemma {:induction false} RunKeepsInv(states: seq<System>, i: nat)
    requires Run(states) && i < |states|
    ensures Inv(states[i])
  {
    if i > 0 {
      RunKeepsInv(states, i - 1);
      assert Follows(states, i);
      var step :| Leads(states[i - 1], step, states[i]);
      InvKept(states[i - 1], step);
    }
  }
}
