/**
 The close-once protocol of operator acts: any number of settlers, the ledgers they close in, and any
 other hand that closes a row (a boot's recovery, another process). Every step below is one critical
 section of the registry, one transaction of a ledger, or one read.

 A ledger is abstract: a row is authorized or closed, a closed row never changes, and closing it
 births its one receipt. A close may fail without landing, land and still report an error, or land
 and fail to read its receipt back.
 */
module ActProtocol {
  import opened Prelude
  import opened ActRegistry

  datatype Outcome = Succeeded | Failed | Unknown

  /** A closed row's receipt is marked with the profile whose founding it was, if any. */
  datatype Row = Authorized | Closed(outcome: Outcome, receipt: Receipt, mark: Profile)

  type Settler = nat

  type Books = map<Ledger, map<Act, Row>>

  /** Where a settler stands inside settle and finishThrough. */
  datatype Phase =
    | Idle
    | Closing(act: Act, ticket: Ticket, ledger: Ledger, applied: bool, closer: Closer, founder: Profile)
                                                                         // before the ledger's Finish
    | Rereading(act: Act, ticket: Ticket, ledger: Ledger)                // Finish reported an error
    | ReadingReceipt(act: Act, ticket: Ticket, ledger: Ledger)           // the row is terminal
    | Leaving(act: Act, ticket: Ticket, ok: bool, receipt: Receipt)      // before the last critical section
    | Releasing(act: Act, ticket: Ticket, receipt: Receipt)              // before closing the wait channel
    | Waiting(act: Act, ticket: Ticket)
    | Woken(act: Act)

  datatype Answer = Answer(act: Act, receipt: Receipt)

  /** `unsaved` holds the acts sealed in a ledger that the registry has not been told of yet. */
  datatype System = System(
    memory: Memory, books: Books, unsaved: map<Act, Ledger>,
    phases: map<Settler, Phase>, nextTicket: Ticket, released: set<Ticket>, answers: set<Answer>)

  function PhaseOf(s: System, t: Settler): Phase { if t in s.phases then s.phases[t] else Idle }

  predicate HasRow(books: Books, ledger: Ledger, act: Act) { ledger in books && act in books[ledger] }

  predicate IsClosed(books: Books, ledger: Ledger, act: Act) {
    HasRow(books, ledger, act) && books[ledger][act].Closed?
  }

  predicate IsAuthorized(books: Books, ledger: Ledger, act: Act) {
    HasRow(books, ledger, act) && books[ledger][act] == Authorized
  }

  // ---- Steps ----

  datatype Step =
    | Seal(act: Act, ledger: Ledger)
    | Save(act: Act, profile: Profile)
    | SetFounder(act: Act, profile: Profile)
    | BindHandle(act: Act, handle: Handle)
    | AttachRecorder(recorder: Recorder)
    | KillRecorder(recorder: Recorder)
    | UnseatRecorder(recorder: Recorder)
    | OtherHandCloses(ledger: Ledger, act: Act, outcome: Outcome, receipt: Receipt, mark: Profile)
    | EnterAct(t: Settler, act: Act, via: Option<Recorder>, applied: bool)
    | FinishLands(t: Settler, receipt: Receipt, reportsError: bool)
    | FinishFails(t: Settler)
    | OpenFails(t: Settler)
    | RereadTerminal(t: Settler)
    | RereadOpen(t: Settler)
    | ReceiptRead(t: Settler)
    | ReceiptLost(t: Settler)
    | LeaveAct(t: Settler)
    | Release(t: Settler)
    | Wake(t: Settler)
    | AnswerWoken(t: Settler)
    | GiveUpWaiting(t: Settler)

  function At(s: System, t: Settler, p: Phase): System { s.(phases := s.phases[t := p]) }

  function Reply(s: System, t: Settler, act: Act, receipt: Receipt): System {
    s.(phases := s.phases[t := Idle], answers := s.answers + {Answer(act, receipt)})
  }

  function CloseRow(s: System, ledger: Ledger, act: Act, outcome: Outcome, receipt: Receipt, mark: Profile): System
    requires HasRow(s.books, ledger, act)
  {
    s.(books := s.books[ledger := s.books[ledger][act := Closed(outcome, receipt, mark)]])
  }

  predicate Enabled(s: System, step: Step) {
    match step
    case Seal(act, ledger) => act != "" && ledger != "" && forall l :: l in s.books ==> act !in s.books[l]
    case Save(act, _) => act in s.unsaved
    case OtherHandCloses(ledger, act, _, receipt, _) =>
      IsAuthorized(s.books, ledger, act) && receipt != ""
    case EnterAct(t, act, _, _) => PhaseOf(s, t).Idle? && act != ""
    case FinishLands(t, receipt, _) =>
      PhaseOf(s, t).Closing? && receipt != "" && IsAuthorized(s.books, PhaseOf(s, t).ledger, PhaseOf(s, t).act)
    case FinishFails(t) => PhaseOf(s, t).Closing?
    case OpenFails(t) => PhaseOf(s, t).Closing? && PhaseOf(s, t).closer.Transient?
    case RereadTerminal(t) => PhaseOf(s, t).Rereading? && IsClosed(s.books, PhaseOf(s, t).ledger, PhaseOf(s, t).act)
    case RereadOpen(t) => PhaseOf(s, t).Rereading?
    case ReceiptRead(t) => PhaseOf(s, t).ReadingReceipt? && IsClosed(s.books, PhaseOf(s, t).ledger, PhaseOf(s, t).act)
    case ReceiptLost(t) => PhaseOf(s, t).ReadingReceipt?
    case LeaveAct(t) => PhaseOf(s, t).Leaving?
    case Release(t) => PhaseOf(s, t).Releasing?
    case Wake(t) => PhaseOf(s, t).Waiting? && PhaseOf(s, t).ticket in s.released
    case AnswerWoken(t) => PhaseOf(s, t).Woken?
    case GiveUpWaiting(t) => PhaseOf(s, t).Waiting?
    case _ => true
  }

  /** The ledger a close goes to: the recorder's own, or the one opened for it. */
  function LedgerOf(closer: Closer, home: Ledger): Ledger {
    match closer
    case Through(recorder) => recorder.ledger
    case Transient => home
  }

  function OutcomeOf(p: Phase): Outcome
    requires p.Closing?
  { if p.applied then Succeeded else Failed }

  /** finishThrough: an applied founding is marked, a failed one closes plain. */
  function MarkOf(p: Phase): Profile
    requires p.Closing?
  { if p.applied then p.founder else "" }

  /** One step of settle: the entry decides between an answer, a wait and the close itself. */
  function EnterStep(s: System, t: Settler, act: Act, via: Option<Recorder>, applied: bool): System {
    var m := s.memory;
    match EntryFor(m, act, via)
    case AlreadyClosed(receipt) => Reply(s, t, act, receipt)
    case InProgress(ticket) => At(s, t, Waiting(act, ticket))
    case Owner(home, founder, closer) =>
      At(s, t, Closing(act, s.nextTicket, LedgerOf(closer, home), applied, closer, founder))
      .(memory := Enter(m, act, s.nextTicket), nextTicket := s.nextTicket + 1)
  }

  function Next(s: System, step: Step): System
    requires Enabled(s, step)
  {
    match step
    case Seal(act, ledger) =>
      s.(books := s.books[ledger := (if ledger in s.books then s.books[ledger] else map[])[act := Authorized]],
         unsaved := s.unsaved[act := ledger])
    case Save(act, profile) =>
      s.(memory := Remember(s.memory, act, s.unsaved[act], profile), unsaved := s.unsaved - {act})
    case SetFounder(act, profile) => s.(memory := s.memory.(founders := s.memory.founders[act := profile]))
    case BindHandle(act, handle) => s.(memory := s.memory.(handles := s.memory.handles[handle := act]))
    case AttachRecorder(recorder) => s.(memory := s.memory.(current := Some(recorder)))
    case KillRecorder(recorder) => s.(memory := MarkDead(s.memory, recorder))
    case UnseatRecorder(recorder) => s.(memory := Unseat(s.memory, recorder))
    case OtherHandCloses(ledger, act, outcome, receipt, mark) => CloseRow(s, ledger, act, outcome, receipt, mark)
    case EnterAct(t, act, via, applied) => EnterStep(s, t, act, via, applied)
    case FinishLands(t, receipt, reportsError) =>
      var p := PhaseOf(s, t);
      At(CloseRow(s, p.ledger, p.act, OutcomeOf(p), receipt, MarkOf(p)), t,
         if reportsError then Rereading(p.act, p.ticket, p.ledger) else ReadingReceipt(p.act, p.ticket, p.ledger))
    case FinishFails(t) => var p := PhaseOf(s, t); At(s, t, Rereading(p.act, p.ticket, p.ledger))
    case OpenFails(t) => var p := PhaseOf(s, t); At(s, t, Leaving(p.act, p.ticket, false, ""))
    case RereadTerminal(t) => var p := PhaseOf(s, t); At(s, t, ReadingReceipt(p.act, p.ticket, p.ledger))
    case RereadOpen(t) => var p := PhaseOf(s, t); At(s, t, Leaving(p.act, p.ticket, false, ""))
    case ReceiptRead(t) =>
      var p := PhaseOf(s, t); At(s, t, Leaving(p.act, p.ticket, true, s.books[p.ledger][p.act].receipt))
    case ReceiptLost(t) => var p := PhaseOf(s, t); At(s, t, Leaving(p.act, p.ticket, true, ""))
    case LeaveAct(t) =>
      var p := PhaseOf(s, t);
      At(s, t, Releasing(p.act, p.ticket, p.receipt)).(memory := Leave(s.memory, p.act, p.ok, p.receipt))
    case Release(t) =>
      var p := PhaseOf(s, t); Reply(s, t, p.act, p.receipt).(released := s.released + {p.ticket})
    case Wake(t) => At(s, t, Woken(PhaseOf(s, t).act))
    case AnswerWoken(t) => var p := PhaseOf(s, t); Reply(s, t, p.act, Get(s.memory.receipts, p.act))
    case GiveUpWaiting(t) => Reply(s, t, PhaseOf(s, t).act, "")
  }

  const START := System(EMPTY_MEMORY, map[], map[], map[], 0, {}, {})

  /** A run: the states passed through, one step at a time. */
  ghost predicate Run(states: seq<System>) {
    |states| > 0 && states[0] == START && forall i :: 0 < i < |states| ==> Follows(states, i)
  }

  ghost predicate Follows(states: seq<System>, i: int)
    requires 0 < i < |states|
  { CanStep(states[i - 1], states[i]) }

  ghost predicate CanStep(s: System, next: System) { exists step :: Leads(s, step, next) }

  ghost predicate Leads(s: System, step: Step, next: System) { Enabled(s, step) && Next(s, step) == next }

  // ---- The invariant ----

  /** Inside the close of an act: the registry's entry for it is this settler's. */
  predicate InClose(p: Phase) { p.Closing? || p.Rereading? || p.ReadingReceipt? || p.Leaving? }

  /** A settler that still has to close its wait channel. */
  predicate HoldsTicket(p: Phase) { InClose(p) || p.Releasing? }

  /** Every act has one row in one ledger, and the registry and the unsaved acts name where. */
  ghost predicate OneHome(books: Books, unsaved: map<Act, Ledger>, homes: map<Act, Ledger>) {
    && (forall l, k, a :: HasRow(books, l, a) && HasRow(books, k, a) ==> l == k)
    && (forall a :: a in unsaved ==> HasRow(books, unsaved[a], a))
    && (forall a :: a in homes ==> HasRow(books, homes[a], a))
    && "" !in books
  }

  ghost predicate ClosedSomewhere(books: Books, act: Act) { exists l :: IsClosed(books, l, act) }

  /** A receipt somebody holds for an act is empty or the one in the act's row. */
  ghost predicate TrueReceipt(books: Books, act: Act, receipt: Receipt) {
    receipt == "" || exists l :: IsClosed(books, l, act) && books[l][act].receipt == receipt
  }

  /** What a settler's own phase promises. */
  ghost predicate PhaseOk(books: Books, closing: map<Act, Ticket>, released: set<Ticket>, nextTicket: Ticket,
    p: Phase) {
    && (HoldsTicket(p) ==> p.ticket < nextTicket && p.ticket !in released)
    && (InClose(p) ==> p.act in closing && closing[p.act] == p.ticket)
    && (p.ReadingReceipt? ==> IsClosed(books, p.ledger, p.act))
    && (p.Leaving? ==> TrueReceipt(books, p.act, p.receipt) && (p.ok ==> ClosedSomewhere(books, p.act)))
    && (p.Releasing? ==> TrueReceipt(books, p.act, p.receipt))
  }

  ghost predicate PhasesOk(s: System) {
    forall t :: t in s.phases ==> PhaseOk(s.books, s.memory.closing, s.released, s.nextTicket, s.phases[t])
  }

  /** No two settlers hold the same ticket. */
  ghost predicate OwnTickets(phases: map<Settler, Phase>) {
    forall t, u :: t in phases && u in phases && t != u && HoldsTicket(phases[t]) && HoldsTicket(phases[u]) ==>
                     phases[t].ticket != phases[u].ticket
  }

  /** Some settler is inside the close of this act. */
  ghost predicate HasCloser(phases: map<Settler, Phase>, act: Act) {
    exists t :: t in phases && InClose(phases[t]) && phases[t].act == act
  }

  /** Some settler still has to release this ticket. */
  ghost predicate Held(phases: map<Settler, Phase>, ticket: Ticket) {
    exists t :: t in phases && HoldsTicket(phases[t]) && phases[t].ticket == ticket
  }

  /** An act marked as being closed has a settler inside its close. */
  ghost predicate ClosingServed(s: System) {
    forall a :: a in s.memory.closing ==> HasCloser(s.phases, a)
  }

  /** Nobody waits on a channel that no one will close. */
  ghost predicate WaitersServed(s: System) {
    forall t :: t in s.phases && s.phases[t].Waiting? ==>
                  s.phases[t].ticket in s.released || Held(s.phases, s.phases[t].ticket)
  }

  ghost predicate TrueMemory(s: System) {
    && (forall a :: a in s.memory.receipts ==>
                      ClosedSomewhere(s.books, a) && TrueReceipt(s.books, a, s.memory.receipts[a]))
    && (forall a :: a in s.answers ==> TrueReceipt(s.books, a.act, a.receipt))
  }

  /** An act the registry was told of, its row still authorized, is in flight in its own ledger. */
  ghost predicate InFlightKnown(s: System) {
    forall l, a :: IsAuthorized(s.books, l, a) && a !in s.unsaved ==> a in InFlightIn(s.memory, l)
  }

  ghost predicate Inv(s: System) {
    && Bounded(s.memory) && OneHome(s.books, s.unsaved, s.memory.homes)
    && PhasesOk(s) && OwnTickets(s.phases) && ClosingServed(s) && WaitersServed(s)
    && TrueMemory(s) && InFlightKnown(s)
    && (forall k :: k in s.released ==> k < s.nextTicket)
  }
}
