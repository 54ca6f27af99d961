/**
 The profile's signing key under crashes: the boot that loads or creates the key file and registers it,
 the rotation that stages a seed, rotates the registry and swaps the file, and the profile lock.

 Each step is one effect on the disk or one registry transaction; a process may die between any two.
 Servers and rotations hold the profile lock from start to death, other operator acts do not. Keys are
 numbers, a generated key is a new one, and what a write put on the disk survives a crash. File
 permissions and unreadable files, which only refuse, are processes that die.
 */
module SigningKeys {
  import opened Prelude

  type Key = nat
  type Pid = nat

  /** A file under construction is torn until its write ends; a torn seed does not parse. */
  datatype Content = Torn | Seed(key: Key)

  /** A server on an unreadable ledger does not register its key. */
  datatype Kind = Server(registers: bool) | Rotator | Operator

  datatype Phase =
    | Looking
    | Creating
    | Writing(key: Key)
    | Checking(key: Key)
    | Asking(key: Key)
    | Putting(key: Key)
    | Ready(key: Key)
    | Staging(retiring: Key, key: Key)
    | Rotating(retiring: Key, key: Key)
    | Unstaging
    | Swapping(key: Key)
    | Rotated(key: Key)

  datatype Process = Process(kind: Kind, phase: Phase)

  datatype State = State(
    file: Option<Content>, staged: Option<Content>,
    active: set<Key>, retired: set<Key>,
    made: set<Key>, lock: Option<Pid>, processes: map<Pid, Process>, sealed: seq<Key>)

  const START := State(None, None, {}, {}, {}, None, map[], [])

  datatype Step =
    | Begin(pid: Pid, kind: Kind)
    | Look(pid: Pid)
    | Create(pid: Pid, key: Key)
    | Write(pid: Pid)
    | Check(pid: Pid)
    | Ask(pid: Pid)
    | Put(pid: Pid)
    | Stage(pid: Pid, key: Key)
    | StageWritten(pid: Pid)
    | Rotate(pid: Pid)
    | RotateFails(pid: Pid)
    | Unstage(pid: Pid)
    | Swap(pid: Pid)
    | SwapFails(pid: Pid)
    | Seal(pid: Pid)
    | Die(pid: Pid)
    | Recover

  predicate Locks(kind: Kind) { !kind.Operator? }

  predicate Registers(kind: Kind) { kind.Server? ==> kind.registers }

  predicate Enabled(s: State, step: Step) {
    match step
    case Begin(p, kind) => p !in s.processes && (Locks(kind) ==> s.lock.None?)
    case Look(p) => p in s.processes && s.processes[p].phase.Looking?
    case Create(p, k) => p in s.processes && s.processes[p].phase.Creating? && k !in s.made
    case Write(p) => p in s.processes && s.processes[p].phase.Writing?
    case Check(p) => p in s.processes && s.processes[p].phase.Checking?
    case Ask(p) => p in s.processes && s.processes[p].phase.Asking?
    case Put(p) => p in s.processes && s.processes[p].phase.Putting?
    case Stage(p, k) => p in s.processes && s.processes[p].kind.Rotator? && s.processes[p].phase.Ready? && k !in s.made
    case StageWritten(p) => p in s.processes && s.processes[p].phase.Staging?
    case Rotate(p) => p in s.processes && s.processes[p].phase.Rotating?
    case RotateFails(p) => p in s.processes && s.processes[p].phase.Rotating?
    case Unstage(p) => p in s.processes && s.processes[p].phase.Unstaging?
    case Swap(p) => p in s.processes && s.processes[p].phase.Swapping? && s.staged.Some?
    case SwapFails(p) => p in s.processes && s.processes[p].phase.Swapping?
    case Seal(p) => p in s.processes && (s.processes[p].phase.Ready? || s.processes[p].phase.Rotated?)
    case Die(p) => p in s.processes
    case Recover => s.file.Some? && s.file.value.Seed? && s.file.value.key in s.retired && s.staged.Some?
  }

  function Go(s: State, p: Pid, phase: Phase): State
    requires p in s.processes
  { s.(processes := s.processes[p := s.processes[p].(phase := phase)]) }

  /** A refusal, an end or a crash: the operating system drops the lock. */
  function Dead(s: State, p: Pid): State {
    s.(processes := s.processes - {p}, lock := if s.lock == Some(p) then None else s.lock)
  }

  /** Once the file has been read or written. */
  function Loaded(s: State, p: Pid, k: Key): State
    requires p in s.processes
  { Go(s, p, if Registers(s.processes[p].kind) then Checking(k) else Ready(k)) }

  function Next(s: State, step: Step): State
    requires Enabled(s, step)
  {
    match step
    case Begin(p, kind) =>
      s.(processes := s.processes[p := Process(kind, Looking)], lock := if Locks(kind) then Some(p) else s.lock)
    case Look(p) =>
      (match s.file
       case None => Go(s, p, Creating)
       case Some(Torn) => Dead(s, p)
       case Some(Seed(k)) => Loaded(s, p, k))
    case Create(p, k) => Go(s, p, Writing(k)).(made := s.made + {k}, file := Some(Torn))
    case Write(p) => var k := s.processes[p].phase.key; Loaded(s, p, k).(file := Some(Seed(k)))
    case Check(p) =>
      var k := s.processes[p].phase.key;
      if k in s.retired then Dead(s, p) else Go(s, p, if k in s.active then Ready(k) else Asking(k))
    case Ask(p) => if s.active != {} then Dead(s, p) else Go(s, p, Putting(s.processes[p].phase.key))
    case Put(p) =>
      var k := s.processes[p].phase.key;
      if s.active != {} || k in s.retired then Dead(s, p) else Go(s, p, Ready(k)).(active := {k})
    case Stage(p, n) => Go(s, p, Staging(s.processes[p].phase.key, n)).(made := s.made + {n}, staged := Some(Torn))
    case StageWritten(p) =>
      var ph := s.processes[p].phase; Go(s, p, Rotating(ph.retiring, ph.key)).(staged := Some(Seed(ph.key)))
    case Rotate(p) =>
      var n := s.processes[p].phase.key;
      if s.active == {} || n in s.active + s.retired then Go(s, p, Unstaging)
      else Go(s, p, Swapping(n)).(active := {n}, retired := s.retired + s.active)
    case RotateFails(p) => Go(s, p, Unstaging)
    case Unstage(p) => Dead(s, p).(staged := None)
    case Swap(p) => Go(s, p, Rotated(s.processes[p].phase.key)).(file := s.staged, staged := None)
    case SwapFails(p) => Go(s, p, Rotated(s.processes[p].phase.key))
    case Seal(p) =>
      var k := s.processes[p].phase.key;
      if k in s.active then s.(sealed := s.sealed + [k]) else s
    case Die(p) => Dead(s, p)
    case Recover => s.(file := s.staged, staged := None)
  }

  // ---- Runs ----

  ghost predicate Leads(s: State, step: Step, next: State) { Enabled(s, step) && Next(s, step) == next }

  ghost predicate CanStep(s: State, next: State) { exists step :: Leads(s, step, next) }

  ghost predicate Follows(states: seq<State>, i: int)
    requires 0 < i < |states|
  { CanStep(states[i - 1], states[i]) }

  ghost predicate Run(states: seq<State>) {
    states != [] && states[0] == START && forall i :: 0 < i < |states| ==> Follows(states, i)
  }

  // ---- The invariant ----

  /** The key a phase works with, and the freshly staged one. */
  function KeyIn(ph: Phase): Option<Key> {
    match ph
    case Looking => None
    case Creating => None
    case Unstaging => None
    case Writing(k) => Some(k)
    case Checking(k) => Some(k)
    case Asking(k) => Some(k)
    case Putting(k) => Some(k)
    case Ready(k) => Some(k)
    case Staging(_, k) => Some(k)
    case Rotating(_, k) => Some(k)
    case Swapping(k) => Some(k)
    case Rotated(k) => Some(k)
  }

  predicate FileRetired(s: State) { s.file.Some? && s.file.value.Seed? && s.file.value.key in s.retired }

  predicate RegistryOk(s: State) {
    && (forall k, l :: k in s.active && l in s.active ==> k == l)
    && s.active !! s.retired
    && (s.active == {} ==> s.retired == {})
  }

  predicate MadeOk(s: State) {
    && s.active <= s.made && s.retired <= s.made
    && (s.file.Some? && s.file.value.Seed? ==> s.file.value.key in s.made)
    && (s.staged.Some? && s.staged.value.Seed? ==> s.staged.value.key in s.made)
    && (forall p :: p in s.processes && KeyIn(s.processes[p].phase).Some? ==>
          KeyIn(s.processes[p].phase).value in s.made)
  }

  predicate LockOk(s: State) {
    && (s.lock.Some? ==> s.lock.value in s.processes)
    && (forall p :: p in s.processes && Locks(s.processes[p].kind) ==> s.lock == Some(p))
    && (forall p :: p in s.processes && InRotation(s.processes[p].phase) ==> s.processes[p].kind.Rotator?)
  }

  predicate InRotation(ph: Phase) { ph.Staging? || ph.Rotating? || ph.Unstaging? || ph.Swapping? || ph.Rotated? }

  /** A key between its generation and its first write is known to its writer alone. */
  predicate Private(s: State, p: Pid)
    requires p in s.processes
  {
    var ph := s.processes[p].phase;
    ph.Writing? ==>
      && ph.key !in s.active + s.retired
      && s.file != Some(Seed(ph.key)) && s.staged != Some(Seed(ph.key))
      && forall q :: q in s.processes && q != p ==> KeyIn(s.processes[q].phase) != Some(ph.key)
  }

  /** Where a rotation is in the file's and the registry's terms. */
  predicate RotatorOk(s: State, p: Pid)
    requires p in s.processes
  {
    match s.processes[p].phase
    case Looking => true
    case Creating => !FileRetired(s)
    case Writing(_) => !FileRetired(s)
    case Checking(k) => FileRetired(s) ==> s.file.value.key == k
    case Asking(k) => FileRetired(s) ==> s.file.value.key == k
    case Putting(k) => FileRetired(s) ==> s.file.value.key == k
    case Ready(k) => !FileRetired(s) && s.active == {k}
    case Staging(k, n) => !FileRetired(s) && s.active == {k} && n != k
    case Rotating(k, n) => !FileRetired(s) && s.active == {k} && s.staged == Some(Seed(n))
    case Unstaging => !FileRetired(s)
    case Swapping(n) => s.active == {n} && (s.staged == None || s.staged == Some(Seed(n)))
    case Rotated(n) => s.active == {n}
  }

  predicate ServerOk(s: State, p: Pid)
    requires p in s.processes
  { s.processes[p].phase.Ready? ==> s.active == {s.processes[p].phase.key} }

  /** A registering lock holder works with the active key. */
  predicate ProcessesOk(s: State) {
    forall p :: p in s.processes ==> ProcessOk(s, p)
  }

  predicate ProcessOk(s: State, p: Pid)
    requires p in s.processes
  {
    && Private(s, p)
    && (s.processes[p].kind.Rotator? ==> RotatorOk(s, p))
    && (s.processes[p].kind == Server(true) ==> ServerOk(s, p))
  }

  /** A retired key in the file has its successor's seed staged beside it. */
  predicate HeirOk(s: State) {
    FileRetired(s) ==> s.staged.Some? && s.staged.value.Seed? && s.active == {s.staged.value.key}
  }

  /** No key seals again after another one has. */
  predicate Windows(sealed: seq<Key>) {
    forall i, j, l :: 0 <= i < j < l < |sealed| && sealed[i] == sealed[l] ==> sealed[j] == sealed[i]
  }

  predicate SealedOk(s: State) {
    && Windows(s.sealed)
    && (forall i :: 0 <= i < |s.sealed| ==> s.sealed[i] in s.active + s.retired)
    && (forall i, j :: 0 <= i < j < |s.sealed| && s.sealed[i] != s.sealed[j] ==> s.sealed[i] in s.retired)
  }

  predicate Inv(s: State) {
    RegistryOk(s) && MadeOk(s) && LockOk(s) && ProcessesOk(s) && HeirOk(s) && SealedOk(s)
  }
}
