/** What the key protocol guarantees on every run, and where the active seed is. */
module SigningRuns {
  import opened Prelude
  import opened SigningKeys
  import opened SigningSteps

  /** At most one key is active, and a key that works for a registering server or a rotation is that one. */
  lemma OneActiveKey(states: seq<State>, i: nat, k: Key, l: Key)
    requires Run(states) && i < |states| && k in states[i].active && l in states[i].active
    ensures k == l && k !in states[i].retired
  { RunKeepsInv(states, i); }

  /** A server that registered its key, or a rotation past its swap, holds the active key as long as it lives. */
  lemma HeldKeyIsActive(states: seq<State>, i: nat, p: Pid)
    requires Run(states) && i < |states| && p in states[i].processes
    requires var q := states[i].processes[p];
             (q.kind == Server(true) && q.phase.Ready?) || q.phase.Swapping? || q.phase.Rotated?
    ensures states[i].lock == Some(p) && states[i].active == {states[i].processes[p].phase.key}
  {
    hide Private;
    RunKeepsInv(states, i);
    assert ProcessOk(states[i], p);
  }

  lemma StepRetires(s: State, step: Step)
    requires Inv(s) && Enabled(s, step)
    ensures s.retired <= Next(s, step).retired && s.sealed <= Next(s, step).sealed
  { hide Inv; }

  lemma {:induction false} RetiredGrows(states: seq<State>, i: nat, j: nat)
    requires Run(states) && i <= j < |states|
    ensures states[i].retired <= states[j].retired && states[i].sealed <= states[j].sealed
    decreases j
  {
    hide Inv, Next;
    if i < j {
      RetiredGrows(states, i, j - 1);
      RunKeepsInv(states, j - 1);
      assert Follows(states, j);
      var step :| Leads(states[j - 1], step, states[j]);
      StepRetires(states[j - 1], step);
    }
  }

  /** A retired key is never active again, through every later crash, boot and rotation. */
  lemma RetiredForever(states: seq<State>, i: nat, j: nat, k: Key)
    requires Run(states) && i <= j < |states| && k in states[i].retired
    ensures k in states[j].retired && k !in states[j].active
  {
    RetiredGrows(states, i, j);
    RunKeepsInv(states, j);
  }

  /** The keys seal in consecutive windows. */
  lemma SealsInWindows(states: seq<State>, i: nat)
    requires Run(states) && i < |states|
    ensures Windows(states[i].sealed)
  {
    hide RegistryOk, MadeOk, LockOk, ProcessesOk, HeirOk;
    RunKeepsInv(states, i);
  }

  /** The crash window of a rotation: a retired key in the file has the active seed staged beside it. */
  lemma RetiredFileHasHeir(states: seq<State>, i: nat)
    requires Run(states) && i < |states| && FileRetired(states[i])
    ensures exists k: Key :: states[i].staged == Some(Seed(k)) && states[i].active == {k}
  {
    hide MadeOk, LockOk, ProcessesOk, SealedOk, RegistryOk;
    RunKeepsInv(states, i);
    assert states[i].staged == Some(Seed(states[i].staged.value.key));
  }

  function Then(s: State, step: Step): State { if Enabled(s, step) then Next(s, step) else s }

  /** The steps of a boot of this kind, up to the key it works with. */
  function Boot(s: State, p: Pid, kind: Kind): State { Then(Then(Then(Then(s, Begin(p, kind)), Look(p)), Check(p)),
    Ask(p)) }

  /**
   In that window a boot that registers its key is refused, whether it locks or not, and touches nothing.
   A server on an unreadable ledger does not ask the registry: it comes up with the retired key, and no
   receipt of its is accepted. Moving the staged seed into place makes every kind of boot work on the
   active key. Each is a fact of a few steps.
   */
  lemma RecoveryBoots(s: State, p: Pid, kind: Kind)
    requires Inv(s) && FileRetired(s) && p !in s.processes && (Locks(kind) ==> s.lock.None?)
    ensures Registers(kind) ==> Boot(s, p, kind) == s
    ensures !Registers(kind) ==>
              var up := Boot(s, p, kind);
              && p in up.processes && up.processes[p].phase == Ready(s.file.value.key)
              && up == s.(processes := up.processes, lock := up.lock)
              && Enabled(up, Seal(p)) && Next(up, Seal(p)) == up
    ensures Enabled(s, Recover)
    ensures var booted := Boot(Next(s, Recover), p, kind);
            && p in booted.processes && booted.processes[p].phase.Ready?
            && s.active == booted.active == {booted.processes[p].phase.key}
            && !FileRetired(booted) && booted.file == s.staged && booted.staged == None
  {
    hide MadeOk, ProcessesOk, SealedOk;
    BootMeets(s, p, kind, s.file.value.key);
    BootMeets(Next(s, Recover), p, kind, s.staged.value.key);
  }

  /** A boot that finds a registered key in the file. */
  lemma BootMeets(s: State, p: Pid, kind: Kind, k: Key)
    requires s.file == Some(Seed(k)) && p !in s.processes && (Locks(kind) ==> s.lock.None?)
    requires (k in s.retired || k in s.active) && s.lock != Some(p)
    ensures var up := Boot(s, p, kind);
            if Registers(kind) && k in s.retired then up == s
            else p in up.processes && up.processes[p].phase == Ready(k)
                 && up == s.(processes := up.processes, lock := up.lock)
  {
    var begun := Next(s, Begin(p, kind));
    var seen := Next(begun, Look(p));
    assert seen.processes[p] == Process(kind, if Registers(kind) then Checking(k) else Ready(k));
    if Registers(kind) && k in s.retired {
      assert Dead(seen, p).processes == s.processes;
    }
  }

  // ---- Where the active seed is ----

  ghost predicate SeedOnDisk(s: State) {
    s.active == {} || exists k: Key :: s.active == {k} && (s.file == Some(Seed(k)) || s.staged == Some(Seed(k)))
  }

  predicate HoldsActive(s: State, content: Option<Content>) {
    content.Some? && content.value.Seed? && content.value.key in s.active
  }

  /**
   What a step destroys: a write to the key file while the active seed is not staged, a write to the staged
   file while the key file does not hold it, and the registration of a key that is in neither file.
   */
  predicate Loses(s: State, step: Step) {
    match step
    case Create(_, _) | Write(_) => s.active != {} && !HoldsActive(s, s.staged)
    case Stage(_, _) | StageWritten(_) | Unstage(_) => s.active != {} && !HoldsActive(s, s.file)
    case Put(p) =>
      p in s.processes && s.processes[p].phase.Putting? &&
      var k := s.processes[p].phase.key;
      s.active == {} && k !in s.retired && s.file != Some(Seed(k)) && s.staged != Some(Seed(k))
    case _ => false
  }

  /** One step, from a state that has the active seed on the disk, loses it exactly in those cases. */
  lemma StepLosesExactly(s: State, step: Step)
    requires Inv(s) && SeedOnDisk(s) && Enabled(s, step)
    ensures !SeedOnDisk(Next(s, step)) <==> Loses(s, step)
  { }

  /** A run keeps the active seed on the disk throughout exactly when none of its steps is such a loss. */
  lemma SeedKeptExactly(states: seq<State>)
    requires Run(states)
    ensures (forall i :: 0 <= i < |states| ==> SeedOnDisk(states[i])) <==>
            forall i: nat, step :: i + 1 < |states| && Leads(states[i], step, states[i + 1]) ==> !Loses(states[i], step)
  {
    hide Inv, Next, Enabled, Loses, SeedOnDisk;
    if forall i :: 0 <= i < |states| ==> SeedOnDisk(states[i]) {
      forall i: nat, step | i + 1 < |states| && Leads(states[i], step, states[i + 1]) ensures !Loses(states[i], step) {
        RunKeepsInv(states, i);
        StepLosesExactly(states[i], step);
      }
    }
    if forall i: nat, step :: i + 1 < |states| && Leads(states[i], step, states[i + 1]) ==> !Loses(states[i], step) {
      forall i | 0 <= i < |states| ensures SeedOnDisk(states[i]) {
        NoLossKeeps(states, i);
      }
    }
  }

  lemma {:induction false} NoLossKeeps(states: seq<State>, i: nat)
    requires Run(states) && i < |states|
    requires forall j: nat, step :: j + 1 < |states| && Leads(states[j], step, states[j + 1]) ==>
             !Loses(states[j], step)
    ensures SeedOnDisk(states[i])
  {
    hide Inv, Next, Enabled, Loses;
    if i > 0 {
      NoLossKeeps(states, i - 1);
      RunKeepsInv(states, i - 1);
      assert Follows(states, i);
      var step :| Leads(states[i - 1], step, states[i]);
      StepLosesExactly(states[i - 1], step);
    }
  }

  /** The key file is created under the lock only: what a step is when no unlocked act finds it missing. */
  predicate LockedCreate(s: State, step: Step) {
    step.Create? ==> step.pid in s.processes && Locks(s.processes[step.pid].kind)
  }

  ghost predicate OrderlyStep(s: State, next: State) {
    exists step :: Leads(s, step, next) && LockedCreate(s, step)
  }

  ghost predicate OrderlyAt(states: seq<State>, i: int)
    requires 0 < i < |states|
  { OrderlyStep(states[i - 1], states[i]) }

  ghost predicate OrderlyRun(states: seq<State>) {
    Run(states) && forall i :: 0 < i < |states| ==> OrderlyAt(states, i)
  }

  predicate Registering(ph: Phase) { ph.Checking? || ph.Asking? || ph.Putting? }

  predicate OrderOf(s: State, q: Process) {
    && (s.active == {} && Registering(q.phase) ==> s.file == Some(Seed(q.phase.key)))
    && (Locks(q.kind) && q.phase.Creating? ==> s.file == None)
    && (q.phase.Writing? ==> Locks(q.kind) && s.file == Some(Torn))
  }

  predicate Orderly(s: State) {
    && (s.active != {} ==> s.file.Some? && s.file.value.Seed? && s.file.value.key in s.active + s.retired)
    && (forall p :: p in s.processes ==> OrderOf(s, s.processes[p]))
  }

  lemma FileStaysRegistered(s: State, step: Step)
    requires Inv(s) && Orderly(s) && Enabled(s, step) && LockedCreate(s, step)
    ensures var n := Next(s, step);
            n.active != {} ==> n.file.Some? && n.file.value.Seed? && n.file.value.key in n.active + n.retired
  {
    hide MadeOk, SealedOk, Private, ServerOk;
    if !step.Recover? && step.pid in s.processes {
      assert OrderOf(s, s.processes[step.pid]) && ProcessOk(s, step.pid);
    }
  }

  lemma OrderKept(s: State, step: Step, p: Pid)
    requires Inv(s) && Orderly(s) && Enabled(s, step) && LockedCreate(s, step) && p in Next(s, step).processes
    ensures OrderOf(Next(s, step), Next(s, step).processes[p])
  {
    hide MadeOk, SealedOk, Private, ServerOk;
    assert p in s.processes ==> OrderOf(s, s.processes[p]);
    if !step.Recover? && step.pid in s.processes {
      assert OrderOf(s, s.processes[step.pid]) && ProcessOk(s, step.pid);
    }
  }

  lemma {:induction false} OrderlyRunKeeps(states: seq<State>, i: nat)
    requires OrderlyRun(states) && i < |states|
    ensures Orderly(states[i])
  {
    hide Inv, Next, OrderOf;
    if i > 0 {
      OrderlyRunKeeps(states, i - 1);
      RunKeepsInv(states, i - 1);
      assert OrderlyAt(states, i);
      var step :| Leads(states[i - 1], step, states[i]) && LockedCreate(states[i - 1], step);
      FileStaysRegistered(states[i - 1], step);
      forall p | p in states[i].processes ensures OrderOf(states[i], states[i].processes[p]) {
        OrderKept(states[i - 1], step, p);
      }
    }
  }

  /** In particular, if the key file is only ever created under the lock, the active seed is never lost. */
  lemma ActiveSeedKept(states: seq<State>, i: nat)
    requires OrderlyRun(states) && i < |states|
    ensures SeedOnDisk(states[i])
  {
    hide MadeOk, LockOk, ProcessesOk, SealedOk;
    RunKeepsInv(states, i);
    OrderlyRunKeeps(states, i);
    var s := states[i];
    if s.active != {} {
      var k := s.file.value.key;
      if k in s.active {
        assert s.active == {k};
      } else {
        assert s.staged == Some(Seed(s.staged.value.key));
      }
    }
  }

  lemma Push(states: seq<State>, step: Step) returns (more: seq<State>)
    requires Run(states) && Enabled(states[|states| - 1], step)
    ensures Run(more) && more == states + [Next(states[|states| - 1], step)]
  {
    more := states + [Next(states[|states| - 1], step)];
    forall i | 0 < i < |more| ensures Follows(more, i) {
      if i < |states| {
        assert Follows(states, i);
      } else {
        assert Leads(more[i - 1], step, more[i]);
      }
    }
  }

  /**
   Without that it can be: two unlocked acts on a fresh profile both find no key file; the second
   overwrites the seed that the first registers, and is then refused. The active key's seed is nowhere.
   */
  lemma RacingCreatorsLoseSeed() returns (states: seq<State>)
    ensures Run(states)
    ensures var s := states[|states| - 1];
            s.active == {0} && s.file == Some(Seed(1)) && s.staged == None && s.processes == map[]
    ensures !SeedOnDisk(states[|states| - 1])
  {
    states := [START];
    states := Push(states, Begin(0, Operator));
    states := Push(states, Begin(1, Operator));
    states := Push(states, Look(0));
    states := Push(states, Look(1));
    states := Push(states, Create(0, 0));
    states := Push(states, Write(0));
    states := Push(states, Check(0));
    states := Push(states, Ask(0));
    states := Push(states, Put(0));
    states := Push(states, Create(1, 1));
    states := Push(states, Write(1));
    states := Push(states, Die(0));
    states := Push(states, Die(1));
    assert 0 in states[|states| - 1].active;
  }
}
