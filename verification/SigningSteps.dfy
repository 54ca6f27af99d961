/** Every step of boot and rotation, and every crash, keeps the key protocol's invariant. */
module SigningSteps {
  import opened Prelude
  import opened SigningKeys

  lemma RegistryKept(s: State, step: Step)
    requires Inv(s) && Enabled(s, step)
    ensures RegistryOk(Next(s, step))
  { hide SealedOk, MadeOk, LockOk, HeirOk, ProcessesOk; }

  lemma MadeKept(s: State, step: Step)
    requires Inv(s) && Enabled(s, step)
    ensures MadeOk(Next(s, step))
  { hide SealedOk, LockOk, HeirOk, RegistryOk, ProcessesOk; }

  lemma LockKept(s: State, step: Step)
    requires Inv(s) && Enabled(s, step)
    ensures LockOk(Next(s, step))
  {
    hide RegistryOk, MadeOk, ProcessesOk, HeirOk, SealedOk;
  }

  lemma HeirKept(s: State, step: Step)
    requires Inv(s) && Enabled(s, step)
    ensures HeirOk(Next(s, step))
  { hide SealedOk; }

  lemma SealedKept(s: State, step: Step)
    requires Inv(s) && Enabled(s, step)
    ensures SealedOk(Next(s, step))
  { hide MadeOk, LockOk, HeirOk, ProcessesOk; }

  /** The process that takes the step. */
  predicate Acts(step: Step, p: Pid) { !step.Recover? && step.pid == p }

  lemma PrivateKept(s: State, step: Step, p: Pid)
    requires Inv(s) && Enabled(s, step) && p in Next(s, step).processes
    ensures Private(Next(s, step), p)
  {
    hide SealedOk, LockOk, HeirOk, RegistryOk, RotatorOk, ServerOk, Next, MadeOk, Private;
    PrivateOnDisk(s, step, p);
    forall q | q in Next(s, step).processes && q != p && Next(s, step).processes[p].phase.Writing?
      ensures KeyIn(Next(s, step).processes[q].phase) != Some(Next(s, step).processes[p].phase.key) {
      PrivateFrom(s, step, p, q);
    }
    PrivateIs(Next(s, step), p);
  }

  lemma PrivateIs(s: State, p: Pid)
    requires p in s.processes && HiddenKey(s, p)
    requires forall q :: q in s.processes && q != p && s.processes[p].phase.Writing? ==>
                           KeyIn(s.processes[q].phase) != Some(s.processes[p].phase.key)
    ensures Private(s, p)
  { }

  /** Not registered, not in a file. */
  predicate HiddenKey(s: State, p: Pid)
    requires p in s.processes
  {
    var ph := s.processes[p].phase;
    ph.Writing? ==> ph.key !in s.active + s.retired && s.file != Some(Seed(ph.key)) && s.staged != Some(Seed(ph.key))
  }

  lemma PrivateOnDisk(s: State, step: Step, p: Pid)
    requires Inv(s) && Enabled(s, step) && p in Next(s, step).processes
    ensures HiddenKey(Next(s, step), p)
  {
    hide SealedOk, LockOk, HeirOk, RegistryOk, RotatorOk, ServerOk;
    assert p in s.processes ==> Private(s, p);
  }

  lemma PrivateFrom(s: State, step: Step, p: Pid, q: Pid)
    requires Inv(s) && Enabled(s, step) && p in Next(s, step).processes && q in Next(s, step).processes && p != q
    requires Next(s, step).processes[p].phase.Writing?
    ensures KeyIn(Next(s, step).processes[q].phase) != Some(Next(s, step).processes[p].phase.key)
  {
    hide SealedOk, LockOk, HeirOk, RegistryOk, RotatorOk, ServerOk;
    assert p in s.processes ==> Private(s, p);
  }

  /** What the step's own process reaches. */
  lemma ActorKept(s: State, step: Step, p: Pid)
    requires Inv(s) && Enabled(s, step) && p in Next(s, step).processes && Acts(step, p)
    ensures Next(s, step).processes[p].kind.Rotator? ==> RotatorOk(Next(s, step), p)
    ensures Next(s, step).processes[p].kind == Server(true) ==> ServerOk(Next(s, step), p)
  {
    hide SealedOk, LockOk;
    assert p in s.processes ==> ProcessOk(s, p);
  }

  predicate RotatorStep(step: Step) {
    step.Stage? || step.StageWritten? || step.Rotate? || step.RotateFails? || step.Unstage? || step.Swap? ||
        step.SwapFails?
  }

  /** Beside a lock holder no rotation moves. */
  lemma OneHolder(s: State, step: Step, p: Pid)
    requires Inv(s) && Enabled(s, step) && p in s.processes && Locks(s.processes[p].kind) && RotatorStep(step)
    ensures Acts(step, p)
  { hide SealedOk, HeirOk, ProcessesOk, MadeOk, RegistryOk; }

  /** Without a rotation's step nothing is retired, and no retired key gets into the file. */
  lemma QuietStep(s: State, step: Step)
    requires Inv(s) && Enabled(s, step) && !RotatorStep(step)
    ensures var n := Next(s, step);
            && n.retired == s.retired && (s.active != {} ==> n.active == s.active)
            && (FileRetired(n) ==> n.file == s.file)
            && (n.staged == s.staged || (FileRetired(s) && n.staged == None))
  {
    hide SealedOk, LockOk, RotatorOk, ServerOk;
    if !step.Recover? && step.pid in s.processes {
      assert Private(s, step.pid);
    }
  }

  lemma BystanderKept(s: State, step: Step, p: Pid)
    requires Inv(s) && Enabled(s, step) && p in s.processes && !Acts(step, p)
    requires p in Next(s, step).processes && Next(s, step).processes[p] == s.processes[p]
    ensures s.processes[p].kind.Rotator? ==> RotatorOk(Next(s, step), p)
    ensures s.processes[p].kind == Server(true) ==> ServerOk(Next(s, step), p)
  {
    hide SealedOk, HeirOk, Private, Next, MadeOk, LockOk;
    assert ProcessOk(s, p);
    if Locks(s.processes[p].kind) {
      if RotatorStep(step) {
        OneHolder(s, step, p);
      } else {
        QuietStep(s, step);
      }
    }
  }

  lemma BystanderStays(s: State, step: Step, p: Pid)
    requires Enabled(s, step) && p in Next(s, step).processes && !Acts(step, p)
    ensures p in s.processes && Next(s, step).processes[p] == s.processes[p]
  { }

  lemma ProcessesKept(s: State, step: Step)
    requires Inv(s) && Enabled(s, step)
    ensures ProcessesOk(Next(s, step))
  {
    hide Inv, Next, Private, RotatorOk, ServerOk;
    var n := Next(s, step);
    forall p | p in n.processes ensures ProcessOk(n, p) {
      PrivateKept(s, step, p);
      if Acts(step, p) {
        ActorKept(s, step, p);
      } else {
        BystanderStays(s, step, p);
        BystanderKept(s, step, p);
      }
    }
  }

  lemma InvKept(s: State, step: Step)
    requires Inv(s) && Enabled(s, step)
    ensures Inv(Next(s, step))
  {
    hide Next, RegistryOk, MadeOk, LockOk, ProcessesOk, HeirOk, SealedOk;
    RegistryKept(s, step);
    MadeKept(s, step);
    LockKept(s, step);
    HeirKept(s, step);
    SealedKept(s, step);
    ProcessesKept(s, step);
  }

  lemma {:induction false} RunKeepsInv(states: seq<State>, i: nat)
    requires Run(states) && i < |states|
    ensures Inv(states[i])
  {
    hide Inv, Next;
    if i > 0 {
      RunKeepsInv(states, i - 1);
      assert Follows(states, i);
      var step :| Leads(states[i - 1], step, states[i]);
      InvKept(states[i - 1], step);
    } else {
      StartOk();
    }
  }

  lemma StartOk()
    ensures Inv(START)
  { }
}
