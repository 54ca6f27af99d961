/**
 What a rotation and a boot do when no other process gets in between: the whole state they leave, in every run
 so far.
 */
module SigningEffects {
  import opened Prelude
  import opened SigningKeys
  import opened SigningSteps

  /** The steps can be taken one after the other and end in this state. */
  ghost predicate Walks(s: State, steps: seq<Step>, end: State)
    decreases |steps|
  {
    if steps == [] then end == s else Enabled(s, steps[0]) && Walks(Next(s, steps[0]), steps[1..], end)
  }

  lemma Walk(s: State, step: Step, steps: seq<Step>, end: State)
    requires Enabled(s, step) && Walks(Next(s, step), steps, end)
    ensures Walks(s, [step] + steps, end)
  { assert ([step] + steps)[1..] == steps; }

  lemma Stand(s: State)
    ensures Walks(s, [], s)
  { }

  /** A rotator that works with the key and a key that was never made. */
  predicate MayRotate(s: State, p: Pid, k: Key, n: Key) {
    p in s.processes && s.processes[p] == Process(Rotator, Ready(k)) && n !in s.made
  }

  function Turned(s: State, p: Pid, k: Key, n: Key, file: Option<Content>, staged: Option<Content>): State {
    s.(active := {n}, retired := s.retired + {k}, made := s.made + {n}, file := file, staged := staged,
       processes := s.processes[p := Process(Rotator, Rotated(n))])
  }

  /** Staged and written, before the registry's transaction. */
  function Staged(s: State, p: Pid, k: Key, n: Key): State {
    s.(made := s.made + {n}, staged := Some(Seed(n)),
       processes := s.processes[p := Process(Rotator, Rotating(k, n))])
  }

  lemma StageWalks(s: State, p: Pid, k: Key, n: Key, rest: seq<Step>, end: State)
    requires Inv(s) && MayRotate(s, p, k, n) && Walks(Staged(s, p, k, n), rest, end)
    ensures Walks(s, [Stage(p, n), StageWritten(p)] + rest, end)
  {
    hide Inv;
    var torn := Next(s, Stage(p, n));
    assert Next(torn, StageWritten(p)) == Staged(s, p, k, n);
    Walk(torn, StageWritten(p), rest, end);
    Walk(s, Stage(p, n), [StageWritten(p)] + rest, end);
    assert [Stage(p, n)] + ([StageWritten(p)] + rest) == [Stage(p, n), StageWritten(p)] + rest;
  }

  lemma RotatorFacts(s: State, p: Pid, k: Key, n: Key)
    requires Inv(s) && MayRotate(s, p, k, n)
    ensures s.active == {k} && n !in s.active + s.retired && !FileRetired(s) && s.lock == Some(p)
  {
    hide SealedOk;
    assert ProcessOk(s, p);
  }

  /**
   A rotation rotates: from every state of a run with a rotator at work, its steps retire the old key, make the new
   one the active one and put its seed in the file. When the swap fails the registry has turned all the same and
   the seed is left staged; when the registry refuses, nothing but the staged file was touched.
   */
  lemma RotationRotates(states: seq<State>, p: Pid, k: Key, n: Key)
    requires Run(states) && MayRotate(states[|states| - 1], p, k, n)
    ensures var s := states[|states| - 1];
            && Walks(s, [Stage(p, n), StageWritten(p), Rotate(p), Swap(p)],
                     Turned(s, p, k, n, Some(Seed(n)), None))
            && Walks(s, [Stage(p, n), StageWritten(p), Rotate(p), SwapFails(p)],
                     Turned(s, p, k, n, s.file, Some(Seed(n))))
            && Walks(s, [Stage(p, n), StageWritten(p), RotateFails(p), Unstage(p)],
                     s.(made := s.made + {n}, staged := None, processes := s.processes - {p}, lock := None))
  {
    hide Inv, Walks, Next;
    var s := states[|states| - 1];
    RunKeepsInv(states, |states| - 1);
    TurnWalks(s, p, k, n, Swap(p), Turned(s, p, k, n, Some(Seed(n)), None));
    TurnWalks(s, p, k, n, SwapFails(p), Turned(s, p, k, n, s.file, Some(Seed(n))));
    RefusalWalks(s, p, k, n);
  }

  /** The registry has turned, before the swap. */
  function Swaps(s: State, p: Pid, k: Key, n: Key): State {
    s.(active := {n}, retired := s.retired + {k}, made := s.made + {n}, staged := Some(Seed(n)),
       processes := s.processes[p := Process(Rotator, Swapping(n))])
  }

  lemma TurnWalks(s: State, p: Pid, k: Key, n: Key, last: Step, end: State)
    requires Inv(s) && MayRotate(s, p, k, n) && (last == Swap(p) || last == SwapFails(p))
    requires end == Turned(s, p, k, n, if last.Swap? then Some(Seed(n)) else s.file,
                           if last.Swap? then None else Some(Seed(n)))
    ensures Walks(s, [Stage(p, n), StageWritten(p), Rotate(p), last], end)
  {
    hide Inv, Walks;
    RotatorFacts(s, p, k, n);
    var ready, turned := Staged(s, p, k, n), Swaps(s, p, k, n);
    assert Next(ready, Rotate(p)) == turned;
    assert Next(turned, last) == end;
    Stand(end);
    Walk(turned, last, [], end);
    assert [last] + [] == [last];
    Walk(ready, Rotate(p), [last], end);
    assert [Rotate(p)] + [last] == [Rotate(p), last];
    StageWalks(s, p, k, n, [Rotate(p), last], end);
    assert [Stage(p, n), StageWritten(p)] + [Rotate(p), last] == [Stage(p, n), StageWritten(p), Rotate(p), last];
  }

  lemma RefusalWalks(s: State, p: Pid, k: Key, n: Key)
    requires Inv(s) && MayRotate(s, p, k, n)
    ensures Walks(s, [Stage(p, n), StageWritten(p), RotateFails(p), Unstage(p)],
                  s.(made := s.made + {n}, staged := None, processes := s.processes - {p}, lock := None))
  {
    hide Inv, Walks;
    RotatorFacts(s, p, k, n);
    var ready := Staged(s, p, k, n);
    var refused := Next(ready, RotateFails(p));
    var end := s.(made := s.made + {n}, staged := None, processes := s.processes - {p}, lock := None);
    assert refused.processes - {p} == s.processes - {p};
    assert Next(refused, Unstage(p)) == end;
    Stand(end);
    Walk(refused, Unstage(p), [], end);
    assert [Unstage(p)] + [] == [Unstage(p)];
    Walk(ready, RotateFails(p), [Unstage(p)], end);
    assert [RotateFails(p)] + [Unstage(p)] == [RotateFails(p), Unstage(p)];
    StageWalks(s, p, k, n, [RotateFails(p), Unstage(p)], end);
    assert [Stage(p, n), StageWritten(p)] + [RotateFails(p), Unstage(p)] ==
           [Stage(p, n), StageWritten(p), RotateFails(p), Unstage(p)];
  }

  /** Whoever seals once the registry has turned, the seal is the new key's; the rotator itself can. */
  lemma NextSealIsNew(s: State, p: Pid, k: Key, n: Key, file: Option<Content>, staged: Option<Content>)
    ensures var e := Turned(s, p, k, n, file, staged);
            && Enabled(e, Seal(p)) && Next(e, Seal(p)).sealed == e.sealed + [n]
            && forall q :: Enabled(e, Seal(q)) ==> Next(e, Seal(q)).sealed == e.sealed
                                                   || Next(e, Seal(q)).sealed == e.sealed + [n]
  { }

  // ---- Boots ----

  /** A boot that can start: a new process, and the lock free if it takes it. */
  predicate MayBoot(s: State, p: Pid, kind: Kind) { p !in s.processes && (Locks(kind) ==> s.lock.None?) }

  /** The state with the process up and working with the key. */
  function Up(s: State, p: Pid, kind: Kind, k: Key): State {
    s.(processes := s.processes[p := Process(kind, Ready(k))], lock := if Locks(kind) then Some(p) else s.lock)
  }

  function Down(s: State, p: Pid, kind: Kind): State { s.(lock := if Locks(kind) then None else s.lock) }

  function Looks(s: State, p: Pid, kind: Kind): State {
    s.(processes := s.processes[p := Process(kind, Looking)], lock := if Locks(kind) then Some(p) else s.lock)
  }

  /** At the key, loaded and not asked about yet. */
  function Loads(s: State, p: Pid, kind: Kind, k: Key): State {
    Looks(s, p, kind).(processes := s.processes[p := Process(kind, if Registers(kind) then Checking(k) else Ready(k))])
  }

  /** What the registry makes of the file's key: the steps a boot takes from there. */
  function Asks(s: State, p: Pid, kind: Kind, k: Key): seq<Step> {
    if !Registers(kind) then []
    else if k in s.retired || k in s.active then [Check(p)]
    else if s.active != {} then [Check(p), Ask(p)]
    else [Check(p), Ask(p), Put(p)]
  }

  /** And how it ends: refused for a retired key or for another active one, registered when it is the first. */
  function Ends(s: State, p: Pid, kind: Kind, k: Key): State {
    if !Registers(kind) || k in s.active then Up(s, p, kind, k)
    else if k in s.retired || s.active != {} then Down(s, p, kind)
    else Up(s, p, kind, k).(active := {k})
  }

  lemma AskWalks(s: State, p: Pid, kind: Kind, k: Key)
    requires MayBoot(s, p, kind) && s.active !! s.retired && s.lock != Some(p)
    ensures Walks(Loads(s, p, kind, k), Asks(s, p, kind, k), Ends(s, p, kind, k))
  {
    var loaded, end := Loads(s, p, kind, k), Ends(s, p, kind, k);
    Stand(end);
    if Registers(kind) {
      assert s.processes[p := Process(kind, Checking(k))] - {p} == s.processes;
      var checked := Next(loaded, Check(p));
      if k in s.retired || k in s.active {
        Walk(loaded, Check(p), [], end);
      } else if s.active != {} {
        Walk(checked, Ask(p), [], end);
        Walk(loaded, Check(p), [Ask(p)], end);
        assert [Check(p)] + [Ask(p)] == [Check(p), Ask(p)] && [Ask(p)] + [] == [Ask(p)];
      } else {
        var asked := Next(checked, Ask(p));
        Walk(asked, Put(p), [], end);
        Walk(checked, Ask(p), [Put(p)], end);
        Walk(loaded, Check(p), [Ask(p), Put(p)], end);
        assert [Put(p)] + [] == [Put(p)] && [Ask(p)] + [Put(p)] == [Ask(p), Put(p)];
        assert [Check(p)] + [Ask(p), Put(p)] == [Check(p), Ask(p), Put(p)];
      }
    }
  }

  /**
   A boot by itself, in every state of a run: with a key file it works with that key and no other, asks the registry
   when it registers, and writes nothing; without one it makes a key, writes it and goes on with it; a torn file
   stops it.
   */
  lemma BootBoots(states: seq<State>, p: Pid, kind: Kind, n: Key)
    requires Run(states) && MayBoot(states[|states| - 1], p, kind) && n !in states[|states| - 1].made
    ensures var s := states[|states| - 1];
            match s.file
            case Some(Seed(k)) => Walks(s, [Begin(p, kind), Look(p)] + Asks(s, p, kind, k), Ends(s, p, kind, k))
            case Some(Torn) => Walks(s, [Begin(p, kind), Look(p)], Down(s, p, kind))
            case None =>
              var made := s.(made := s.made + {n}, file := Some(Seed(n)));
              Walks(s, [Begin(p, kind), Look(p), Create(p, n), Write(p)] + Asks(made, p, kind, n),
                  Ends(made, p, kind, n))
  {
    var s := states[|states| - 1];
    RunKeepsInv(states, |states| - 1);
    LockFree(s, p, kind);
    hide Inv, Walks, Next, Asks, Ends;
    match s.file
    case Some(Seed(k)) =>
      AskWalks(s, p, kind, k);
      LookWalks(s, p, kind, Loads(s, p, kind, k), Asks(s, p, kind, k), Ends(s, p, kind, k));
    case Some(Torn) =>
      Stand(Down(s, p, kind));
      LookWalks(s, p, kind, Down(s, p, kind), [], Down(s, p, kind));
      assert [Begin(p, kind), Look(p)] + [] == [Begin(p, kind), Look(p)];
    case None =>
      var made := s.(made := s.made + {n}, file := Some(Seed(n)));
      var rest, end := Asks(made, p, kind, n), Ends(made, p, kind, n);
      AskWalks(made, p, kind, n);
      CreateWalks(s, p, kind, n, rest, end);
      LookWalks(s, p, kind, Go(Looks(s, p, kind), p, Creating), [Create(p, n), Write(p)] + rest, end);
      assert [Begin(p, kind), Look(p)] + ([Create(p, n), Write(p)] + rest) ==
             [Begin(p, kind), Look(p), Create(p, n), Write(p)] + rest;
  }

  lemma LookWalks(s: State, p: Pid, kind: Kind, seen: State, rest: seq<Step>, end: State)
    requires MayBoot(s, p, kind) && s.lock != Some(p) && Walks(seen, rest, end)
    requires match s.file
             case None => seen == Go(Looks(s, p, kind), p, Creating)
             case Some(Torn) => seen == Down(s, p, kind)
             case Some(Seed(k)) => seen == Loads(s, p, kind, k)
    ensures Walks(s, [Begin(p, kind), Look(p)] + rest, end)
  {
    hide Walks;
    var begun := Looks(s, p, kind);
    assert begun.processes - {p} == s.processes;
    assert Next(begun, Look(p)) == seen;
    Walk(begun, Look(p), rest, end);
    Walk(s, Begin(p, kind), [Look(p)] + rest, end);
    TwoThen(Begin(p, kind), Look(p), rest);
  }

  lemma CreateWalks(s: State, p: Pid, kind: Kind, n: Key, rest: seq<Step>, end: State)
    requires MayBoot(s, p, kind) && n !in s.made
    requires Walks(Loads(s.(made := s.made + {n}, file := Some(Seed(n))), p, kind, n), rest, end)
    ensures Walks(Go(Looks(s, p, kind), p, Creating), [Create(p, n), Write(p)] + rest, end)
  {
    hide Walks;
    var creating := Go(Looks(s, p, kind), p, Creating);
    var writing := Next(creating, Create(p, n));
    assert Next(writing, Write(p)) == Loads(s.(made := s.made + {n}, file := Some(Seed(n))), p, kind, n);
    Walk(writing, Write(p), rest, end);
    Walk(creating, Create(p, n), [Write(p)] + rest, end);
    TwoThen(Create(p, n), Write(p), rest);
  }

  lemma TwoThen(a: Step, b: Step, rest: seq<Step>)
    ensures [a] + ([b] + rest) == [a, b] + rest
  { }

  lemma LockFree(s: State, p: Pid, kind: Kind)
    requires Inv(s) && MayBoot(s, p, kind)
    ensures s.lock != Some(p) && s.active !! s.retired
  { }
}
