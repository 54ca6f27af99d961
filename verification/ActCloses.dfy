/**
 Whose report a closed row carries, and through which recorder a close goes.

 A recorder is marked dead before it leaves the seat of the serving app, and only the settler's own recorder is asked
 for its mark: between the two a close can go through a dead recorder, and at no other time.
 */
module ActCloses {
  import opened Prelude
  import opened ActRegistry
  import opened ActProtocol
  import opened ActSteps
  import opened ActRuns
  import opened ActMemory

  /** The settler entered the close at `j` with this report and has been at it up to `i`. */
  ghost predicate Reported(states: seq<System>, j: nat, i: nat, t: Settler, act: Act, via: Option<Recorder>,
    applied: bool) {
    && j < i < |states|
    && Leads(states[j], EnterAct(t, act, via, applied), states[j + 1])
    && PhaseOf(states[i], t).Closing?
    && forall k :: j < k <= i ==> PhaseOf(states[k], t) == PhaseOf(states[i], t)
  }

  lemma StepToClosing(s: System, step: Step, t: Settler)
    requires Enabled(s, step) && PhaseOf(Next(s, step), t).Closing? && PhaseOf(Next(s, step), t) != PhaseOf(s, t)
    ensures step.EnterAct? && step.t == t && step.act == PhaseOf(Next(s, step), t).act
  { hide Leave; }

  lemma {:induction false} CloseHasEntry(states: seq<System>, i: nat, t: Settler)
    requires Run(states) && i < |states| && PhaseOf(states[i], t).Closing?
    ensures exists j: nat, via, applied :: Reported(states, j, i, t, PhaseOf(states[i], t).act, via, applied)
  {
    hide Next, Enabled;
    if i == 0 {
      NobodyStarts(t);
    } else {
      assert Follows(states, i);
      var step :| Leads(states[i - 1], step, states[i]);
      if PhaseOf(states[i - 1], t) == PhaseOf(states[i], t) {
        CloseHasEntry(states, i - 1, t);
        var j: nat, via, applied :| Reported(states, j, i - 1, t, PhaseOf(states[i], t).act, via, applied);
        assert Reported(states, j, i, t, PhaseOf(states[i], t).act, via, applied);
      } else {
        StepToClosing(states[i - 1], step, t);
        assert Reported(states, i - 1, i, t, step.act, step.via, step.applied);
      }
    }
  }

  lemma NobodyStarts(t: Settler)
    ensures PhaseOf(START, t).Idle?
  { }

  /** The settler has a recorder of its own that is alive over the ledger. */
  predicate OwnAlive(m: Memory, ledger: Ledger, via: Option<Recorder>) {
    via.Some? && via.value.id !in m.dead && via.value.ledger == ledger
  }

  /** The serving app's seat is held by a recorder over the ledger. */
  predicate SeatOver(m: Memory, ledger: Ledger) { m.current.Some? && m.current.value.ledger == ledger }

  /**
   Where the close of an act of this ledger goes: never over another ledger, and through a dead recorder exactly
   when one still holds the seat and the settler has no live one of its own.
   */
  predicate Fits(m: Memory, ledger: Ledger, via: Option<Recorder>, closer: Closer) {
    && (closer.Through? ==> closer.recorder.ledger == ledger)
    && (closer.Through? && closer.recorder.id in m.dead <==>
        !OwnAlive(m, ledger, via) && SeatOver(m, ledger) && m.current.value.id in m.dead)
    && (closer.Transient? <==> !OwnAlive(m, ledger, via) && !SeatOver(m, ledger))
    && (OwnAlive(m, ledger, via) ==> closer == Through(via.value))
  }

  /** The ledger the registry was told of, whatever recorder the settler brings; the recorder's for an unknown act. */
  predicate HomeIs(m: Memory, act: Act, via: Option<Recorder>, ledger: Ledger) {
    && (act in m.homes && m.homes[act] != "" ==> ledger == m.homes[act])
    && (act !in m.homes || m.homes[act] == "" ==> ledger == if via.Some? then via.value.ledger else "")
  }

  lemma EntryFacts(s: System, n: System, t: Settler, act: Act, via: Option<Recorder>, applied: bool)
    requires Leads(s, EnterAct(t, act, via, applied), n) && PhaseOf(n, t).Closing?
    ensures var p := PhaseOf(n, t);
            && p.act == act && p.applied == applied && HomeIs(s.memory, act, via, p.ledger)
            && p.founder == Get(s.memory.founders, act) && Fits(s.memory, p.ledger, via, p.closer)
  { }

  ghost predicate OtherHandAt(states: seq<System>, i: nat, ledger: Ledger, act: Act) {
    0 < i < |states| && exists outcome, receipt, mark ::
      Leads(states[i - 1], OtherHandCloses(ledger, act, outcome, receipt, mark), states[i])
  }

  /** The row is closed by this settler, as it reported when it entered the close. */
  ghost predicate ClosedBy(states: seq<System>, i: nat, row: Row, ledger: Ledger, act: Act, t: Settler, j: nat,
    via: Option<Recorder>, applied: bool) {
    && 0 < i < |states| && row.Closed? && Reported(states, j, i - 1, t, act, via, applied)
    && (exists reportsError :: Leads(states[i - 1], FinishLands(t, row.receipt, reportsError), states[i]))
    && (row.outcome == Succeeded <==> applied) && (row.outcome == Failed <==> !applied)
    && row.mark == (if applied then Get(states[j].memory.founders, act) else "")
    && HomeIs(states[j].memory, act, via, ledger)
    && Fits(states[j].memory, ledger, via, PhaseOf(states[i - 1], t).closer)
  }

  lemma CloserIs(s: System, step: Step, ledger: Ledger, act: Act)
    requires Inv(s) && Enabled(s, step) && IsAuthorized(s.books, ledger, act)
    requires IsClosed(Next(s, step).books, ledger, act)
    ensures var row := Next(s, step).books[ledger][act];
            || (step.OtherHandCloses? && step.ledger == ledger && step.act == act)
            || (step.FinishLands? && PhaseOf(s, step.t).Closing? && PhaseOf(s, step.t).act == act
                && PhaseOf(s, step.t).ledger == ledger && row.receipt == step.receipt
                && (row.outcome == Succeeded <==> PhaseOf(s, step.t).applied)
                && (row.outcome == Failed <==> !PhaseOf(s, step.t).applied)
                && row.mark == (if PhaseOf(s, step.t).applied then PhaseOf(s, step.t).founder else ""))
  {
    hide Inv;
    if !step.Seal? && !step.OtherHandCloses? && !step.FinishLands? {
      OtherBooks(s, step);
    }
  }

  /**
   Every close in every run: a row that closes was closed by another hand, or by a settler inside its close. Then it
   says what that settler reported when it entered, succeeded exactly when applied; its receipt is marked exactly
   for an applied founding; it is in the act's home; and the close went where Fits says.
   */
  lemma ClosedAsReported(states: seq<System>, i: nat, ledger: Ledger, act: Act)
    requires Run(states) && 0 < i < |states|
    requires IsAuthorized(states[i - 1].books, ledger, act) && IsClosed(states[i].books, ledger, act)
    ensures OtherHandAt(states, i, ledger, act)
            || exists t, j: nat, via, applied ::
                 ClosedBy(states, i, states[i].books[ledger][act], ledger, act, t, j, via, applied)
  {
    hide Inv, Next, Enabled, Fits;
    RunKeepsInv(states, i - 1);
    assert Follows(states, i);
    var step :| Leads(states[i - 1], step, states[i]);
    CloserIs(states[i - 1], step, ledger, act);
    if step.OtherHandCloses? {
      assert Leads(states[i - 1], OtherHandCloses(ledger, act, step.outcome, step.receipt, step.mark), states[i]);
    } else {
      var t := step.t;
      CloseHasEntry(states, i - 1, t);
      var j: nat, via, applied :| Reported(states, j, i - 1, t, act, via, applied);
      EntryFacts(states[j], states[j + 1], t, act, via, applied);
      assert Leads(states[i - 1], FinishLands(t, step.receipt, step.reportsError), states[i]);
      assert ClosedBy(states, i, states[i].books[ledger][act], ledger, act, t, j, via, applied);
    }
  }

  /** The witness: a recorder marked dead but still in its seat is used to close. */
  lemma DeadRecorderCloses() returns (states: seq<System>)
    ensures Run(states)
    ensures var s, rec := Last(states), Recorder(0, "ledger");
            PhaseOf(s, 0).Closing? && PhaseOf(s, 0).closer == Through(rec) && rec.id in s.memory.dead
  {
    var rec := Recorder(0, "ledger");
    Beginning();
    states := Push([START], AttachRecorder(rec));
    states := Push(states, Seal("act", "ledger"));
    states := Push(states, Save("act", ""));
    states := Push(states, KillRecorder(rec));
    states := Push(states, EnterAct(0, "act", None, true));
  }
}
