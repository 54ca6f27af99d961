/**
 ConfigActRegistry: the process-wide memory of operator acts. Each method below is one critical
 section of the registry's mutex; its contract gives the whole new memory as a function of the old
 one, and the protocol in ActProtocol runs those functions as atomic steps.

 The empty string stands for a missing map entry where the source reads a Go map without checking.
 */
module ActRegistry {
  import opened Prelude
  import opened Sorting

  type Act = string
  type Ledger = string
  type Receipt = string
  type Handle = string
  type Profile = string
  type Ticket = nat

  const CLOSED_RETENTION := 512

  /** A recorder of acts over one ledger; `id` is its identity. */
  datatype Recorder = Recorder(id: nat, ledger: Ledger)

  /** What the mutex guards, and the recorders marked dead. */
  datatype Memory = Memory(
    homes: map<Act, Ledger>, handles: map<Handle, Act>, closedHandles: map<Handle, Act>,
    closing: map<Act, Ticket>, receipts: map<Act, Receipt>, closedOrder: seq<Act>,
    founders: map<Act, Profile>, profiles: map<Act, Profile>,
    current: Option<Recorder>, dead: set<nat>)

  const EMPTY_MEMORY := Memory(map[], map[], map[], map[], map[], [], map[], map[], None, {})

  datatype Closer = Through(recorder: Recorder) | Transient

  /** What a settler learns when it enters: the act is closed, another is closing it, or it is the owner. */
  datatype Entry =
    | AlreadyClosed(receipt: Receipt)
    | InProgress(ticket: Ticket)
    | Owner(home: Ledger, founder: Profile, closer: Closer)

  function Get<K>(m: map<K, string>, k: K): string { if k in m then m[k] else "" }

  // ---- The critical sections as functions of the memory ----

  function Remember(m: Memory, act: Act, ledger: Ledger, profile: Profile): Memory {
    m.(homes := m.homes[act := ledger], profiles := m.profiles[act := profile])
  }

  function HomeFor(m: Memory, act: Act, via: Option<Recorder>): Ledger {
    if Get(m.homes, act) == "" && via.Some? then via.value.ledger else Get(m.homes, act)
  }

  /** The settler's own recorder if alive over the act's ledger, else the serving one over it, else nobody. */
  function ChooseCloser(m: Memory, home: Ledger, via: Option<Recorder>): Closer {
    if via.Some? && via.value.id !in m.dead && via.value.ledger == home then Through(via.value)
    else if m.current.Some? && m.current.value.ledger == home then Through(m.current.value)
    else Transient
  }

  function EntryFor(m: Memory, act: Act, via: Option<Recorder>): Entry {
    if act in m.receipts then AlreadyClosed(m.receipts[act])
    else if act in m.closing then InProgress(m.closing[act])
    else var home := HomeFor(m, act, via); Owner(home, Get(m.founders, act), ChooseCloser(m, home, via))
  }

  function Enter(m: Memory, act: Act, ticket: Ticket): Memory {
    if act in m.receipts || act in m.closing then m else m.(closing := m.closing[act := ticket])
  }

  function BoundTo(handles: map<Handle, Act>, act: Act): (r: map<Handle, Act>) {
    map h | h in handles && handles[h] == act :: act
  }

  /** The loop has been to this handle, and it was the act's. */
  predicate Moved(handles: map<Handle, Act>, todo: set<Handle>, act: Act, h: Handle) {
    h in handles && h !in todo && handles[h] == act
  }

  function Without(handles: map<Handle, Act>, act: Act): map<Handle, Act> {
    map h | h in handles && handles[h] != act :: handles[h]
  }

  /** A close that landed: the receipt is remembered and the act's handles become closed handles. */
  function RecordClose(m: Memory, act: Act, receipt: Receipt): Memory {
    m.(receipts := m.receipts[act := receipt], closedOrder := m.closedOrder + [act],
       homes := m.homes - {act}, founders := m.founders - {act},
       closedHandles := m.closedHandles + BoundTo(m.handles, act),
       handles := Without(m.handles, act))
  }

  function ForgetFirst(m: Memory): Memory
    requires m.closedOrder != []
  {
    var act := m.closedOrder[0];
    m.(closedOrder := m.closedOrder[1..], receipts := m.receipts - {act},
       closedHandles := Without(m.closedHandles, act))
  }

  /** Keeps the newest CLOSED_RETENTION closed acts. */
  function Forget(m: Memory): Memory
    decreases |m.closedOrder|
  {
    if |m.closedOrder| > CLOSED_RETENTION then Forget(ForgetFirst(m)) else m
  }

  function Leave(m: Memory, act: Act, ok: bool, receipt: Receipt): Memory {
    var released := m.(closing := m.closing - {act});
    if ok then Forget(RecordClose(released, act, receipt)) else released
  }

  function ActOf(m: Memory, handle: Handle): Act {
    if Get(m.handles, handle) != "" then m.handles[handle] else Get(m.closedHandles, handle)
  }

  /** The acts sealed in a ledger and not closed: what a boot's recovery must spare. */
  function InFlightIn(m: Memory, ledger: Ledger): set<Act> {
    set act | act in m.homes && m.homes[act] == ledger
  }

  function MarkDead(m: Memory, rec: Recorder): Memory { m.(dead := m.dead + {rec.id}) }

  function Unseat(m: Memory, rec: Recorder): Memory {
    if m.current == Some(rec) then m.(current := None) else m
  }

  // ---- The object ----

  class ConfigActRegistry {
    var homes: map<Act, Ledger>
    var handles: map<Handle, Act>
    var closedHandles: map<Handle, Act>
    var closing: map<Act, Ticket>
    var receipts: map<Act, Receipt>
    var closedOrder: seq<Act>
    var founders: map<Act, Profile>
    var profiles: map<Act, Profile>
    var current: Option<Recorder>
    var dead: set<nat>

    function View(): Memory
      reads this
    {
      Memory(homes, handles, closedHandles, closing, receipts, closedOrder, founders, profiles, current, dead)
    }

    constructor ()
      ensures View() == EMPTY_MEMORY
    {
      homes, handles, closedHandles, closing := map[], map[], map[], map[];
      receipts, closedOrder, founders, profiles := map[], [], map[], map[];
      current, dead := None, {};
    }

    method RememberAct(act: Act, ledger: Ledger, profile: Profile)
      modifies this
      ensures View() == Remember(old(View()), act, ledger, profile)
    {
      homes := homes[act := ledger];
      profiles := profiles[act := profile];
    }

    method RememberFounder(act: Act, profile: Profile)
      modifies this
      ensures View() == if profile == "" then old(View())
                        else old(View()).(founders := old(founders)[act := profile])
    {
      if profile != "" {
        founders := founders[act := profile];
      }
    }

    method Bind(act: Act, handle: Handle)
      modifies this
      ensures View() == old(View()).(handles := old(handles)[handle := act])
    {
      handles := handles[handle := act];
    }

    method Attach(rec: Recorder)
      modifies this
      ensures View() == old(View()).(current := Some(rec))
    {
      current := Some(rec);
    }

    method Detach(rec: Recorder)
      modifies this
      ensures View() == Unseat(MarkDead(old(View()), rec), rec)
      ensures rec.id in dead && current != Some(rec) && (old(current) != Some(rec) ==> current == old(current))
    {
      dead := dead + {rec.id};
      if current == Some(rec) {
        current := None;
      }
    }

    /** InFlightIn: the acts in flight in one ledger, found by walking `homes`, once each and in order. */
    method CollectInFlight(ledger: Ledger) returns (out: seq<Act>)
      ensures forall act :: act in out <==> act in InFlightIn(View(), ledger)
      ensures forall i, j :: 0 <= i < j < |out| ==> Precedes(out[i], out[j])
    {
      out := [];
      var todo := homes.Keys;
      while todo != {}
        invariant todo <= homes.Keys && Distinct(out)
        invariant forall act :: act in out <==> act in homes && act !in todo && homes[act] == ledger
        decreases todo
      {
        var act :| act in todo;
        todo := todo - {act};
        if homes[act] == ledger {
          out := out + [act];
        }
      }
      SortKeeps(out, Less);
      LessRanks();
      DistinctNoTies(out);
      SortAscends(out, Less);
      out := SortBy(out, Less);
      forall i, j | 0 <= i < j < |out| ensures Precedes(out[i], out[j]) {
        LessExact(out[i], out[j]);
      }
    }

    /** settleHandle's lookup: an open handle first, then a closed one. */
    method FindAct(handle: Handle) returns (act: Act)
      ensures act == ActOf(View(), handle)
    {
      act := Get(handles, handle);
      if act == "" {
        act := Get(closedHandles, handle);
      }
    }

    /** settle's first critical section. */
    method EnterSettle(act: Act, via: Option<Recorder>, ticket: Ticket) returns (entry: Entry)
      modifies this
      ensures entry == EntryFor(old(View()), act, via)
      ensures View() == Enter(old(View()), act, ticket)
    {
      if act in receipts {
        return AlreadyClosed(receipts[act]);
      }
      if act in closing {
        return InProgress(closing[act]);
      }
      closing := closing[act := ticket];
      var home := Get(homes, act);
      var founder := Get(founders, act);
      if home == "" && via.Some? {
        home := via.value.ledger;
      }
      var closer := Transient;
      if via.Some? && via.value.id !in dead && via.value.ledger == home {
        closer := Through(via.value);
      } else if current.Some? && current.value.ledger == home {
        closer := Through(current.value);
      }
      entry := Owner(home, founder, closer);
    }

    /** settle's last critical section. */
    method LeaveSettle(act: Act, ok: bool, receipt: Receipt)
      modifies this
      ensures View() == Leave(old(View()), act, ok, receipt)
    {
      closing := closing - {act};
      if ok {
        receipts := receipts[act := receipt];
        closedOrder := closedOrder + [act];
        homes := homes - {act};
        founders := founders - {act};
        MoveHandles(act);
        assert View() == RecordClose(old(View()).(closing := old(closing) - {act}), act, receipt);
        ForgetOldestClosed();
      }
    }

    /** Moves every open handle of the act to the closed handles. */
    method MoveHandles(act: Act)
      modifies this`handles, this`closedHandles
      ensures closedHandles == old(closedHandles) + BoundTo(old(handles), act)
      ensures handles == Without(old(handles), act)
    {
      var todo := handles.Keys;
      while todo != {}
        invariant todo <= handles.Keys <= old(handles).Keys
        invariant forall h :: h in old(handles) && h !in todo ==> (h in handles <==> old(handles)[h] != act)
        invariant forall h :: h in handles ==> handles[h] == old(handles)[h]
        invariant forall h :: h in closedHandles <==> h in old(closedHandles) || Moved(old(handles), todo, act, h)
        invariant forall h :: h in closedHandles ==>
                                closedHandles[h] == if Moved(old(handles), todo, act, h) then act
                                    else old(closedHandles)[h]
        decreases todo
      {
        var h :| h in todo;
        todo := todo - {h};
        if handles[h] == act {
          closedHandles := closedHandles[h := act];
          handles := handles - {h};
        }
      }
    }

    /** forgetOldestClosedLocked. */
    method ForgetOldestClosed()
      modifies this`closedOrder, this`receipts, this`closedHandles
      ensures View() == Forget(old(View()))
    {
      while |closedOrder| > CLOSED_RETENTION
        invariant Forget(View()) == Forget(old(View()))
        invariant View() == old(View()).(closedOrder := closedOrder, receipts := receipts,
                  closedHandles := closedHandles)
        decreases |closedOrder|
      {
        var oldest := closedOrder[0];
        ghost var before := View();
        closedOrder := closedOrder[1..];
        receipts := receipts - {oldest};
        DropHandles(oldest);
        assert View() == ForgetFirst(before);
      }
    }

    /** Deletes the closed handles of one act. */
    method DropHandles(act: Act)
      modifies this`closedHandles
      ensures closedHandles == Without(old(closedHandles), act)
    {
      var todo := closedHandles.Keys;
      while todo != {}
        invariant todo <= closedHandles.Keys <= old(closedHandles).Keys
        invariant forall h :: h in old(closedHandles) && h !in todo ==>
                  (h in closedHandles <==> old(closedHandles)[h] != act)
        invariant forall h :: h in closedHandles ==> closedHandles[h] == old(closedHandles)[h]
        decreases todo
      {
        var h :| h in todo;
        todo := todo - {h};
        if closedHandles[h] == act {
          closedHandles := closedHandles - {h};
        }
      }
    }

    /** What a waiter reads once the close it waited for is over. */
    method ReadReceipt(act: Act) returns (receipt: Receipt)
      ensures receipt == Get(View().receipts, act)
    {
      receipt := Get(receipts, act);
    }
  }

  // ---- What every critical section keeps ----

  /** The bounded memory of closed acts, as it stands whenever the mutex is free. */
  ghost predicate Bounded(m: Memory) {
    && Distinct(m.closedOrder)
    && (forall a :: a in m.receipts <==> a in m.closedOrder)
    && |m.closedOrder| <= CLOSED_RETENTION
    && (forall h :: h in m.closedHandles ==> m.closedHandles[h] in m.receipts)
    && m.closing.Keys !! m.receipts.Keys
  }

  /** Bounded without the limit, as it stands inside LeaveSettle. */
  ghost predicate Indexed(m: Memory) {
    && Distinct(m.closedOrder)
    && (forall a :: a in m.receipts <==> a in m.closedOrder)
    && (forall h :: h in m.closedHandles ==> m.closedHandles[h] in m.receipts)
    && m.closing.Keys !! m.receipts.Keys
  }

  lemma ForgetFirstKeepsIndexed(m: Memory)
    requires Indexed(m) && m.closedOrder != []
    ensures Indexed(ForgetFirst(m))
  {
    var act, f := m.closedOrder[0], ForgetFirst(m);
    forall a ensures a in f.receipts <==> a in f.closedOrder {
      if a in f.closedOrder {
        var i :| 0 <= i < |f.closedOrder| && f.closedOrder[i] == a;
        assert m.closedOrder[i + 1] == a;
      }
      if a in f.receipts {
        var i :| 0 <= i < |m.closedOrder| && m.closedOrder[i] == a;
        assert f.closedOrder[i - 1] == a;
      }
    }
  }

  /** Forgetting drops the oldest acts and nothing else: what stays keeps its receipt. */
  lemma {:induction false} ForgetBounds(m: Memory)
    requires Indexed(m)
    ensures Bounded(Forget(m))
    ensures var f := Forget(m); f == m.(closedOrder := f.closedOrder, receipts := f.receipts,
            closedHandles := f.closedHandles)
    ensures forall a :: a in Forget(m).receipts ==> a in m.receipts && Forget(m).receipts[a] == m.receipts[a]
    ensures var drop := if |m.closedOrder| > CLOSED_RETENTION then |m.closedOrder| - CLOSED_RETENTION else 0;
            Forget(m).closedOrder == m.closedOrder[drop..]
    decreases |m.closedOrder|
  {
    if |m.closedOrder| > CLOSED_RETENTION {
      ForgetFirstKeepsIndexed(m);
      ForgetBounds(ForgetFirst(m));
    }
  }

  /** Of the closed handles, forgetting keeps exactly those of acts still remembered. */
  lemma {:induction false} ForgetHandles(m: Memory)
    requires Indexed(m)
    ensures Forget(m).closedHandles ==
            map h | h in m.closedHandles && m.closedHandles[h] in Forget(m).receipts :: m.closedHandles[h]
    decreases |m.closedOrder|
  {
    if |m.closedOrder| > CLOSED_RETENTION {
      hide Indexed, Forget;
      ForgetFirstKeepsIndexed(m);
      ForgetHandles(ForgetFirst(m));
      ForgetStep(m);
      FirstIsForgotten(m);
    } else {
      assert forall h :: h in m.closedHandles ==> m.closedHandles[h] in m.receipts;
    }
  }

  lemma ForgetStep(m: Memory)
    requires |m.closedOrder| > CLOSED_RETENTION
    ensures Forget(m) == Forget(ForgetFirst(m))
  { }

  lemma FirstIsForgotten(m: Memory)
    requires Indexed(m) && |m.closedOrder| > CLOSED_RETENTION
    ensures m.closedOrder[0] !in Forget(ForgetFirst(m)).receipts
  {
    ForgetFirstKeepsIndexed(m);
    ForgetBounds(ForgetFirst(m));
  }

  /** The handles after a close that landed: the act's own moved, the evicted acts' gone, the others as they were. */
  lemma LeaveHandles(m: Memory, act: Act, receipt: Receipt)
    requires Bounded(m) && act in m.closing
    ensures var n, all := Leave(m, act, true, receipt), m.closedHandles + BoundTo(m.handles, act);
            && n.handles == Without(m.handles, act)
            && n.closedHandles == (map h | h in all && all[h] in n.receipts :: all[h])
            && act in n.receipts
  {
    LeaveKeepsBounded(m, act, true, receipt);
    var r := RecordClose(m.(closing := m.closing - {act}), act, receipt);
    assert Distinct(r.closedOrder);
    ForgetBounds(r);
    ForgetHandles(r);
  }

  /**
   What a handle finds across a close: the same act as before, whether its handle moved or not, until
   that act is evicted from the memory of closed acts; then nothing.
   */
  lemma HandleFindsAct(m: Memory, act: Act, ok: bool, receipt: Receipt, handle: Handle)
    requires Bounded(m) && act in m.closing && act != ""
    ensures var n, found := Leave(m, act, ok, receipt), ActOf(m, handle);
            ActOf(n, handle) == if Get(m.handles, handle) != "" || found in n.receipts then found else ""
  {
    if ok {
      hide Leave, Bounded;
      LeaveHandles(m, act, receipt);
      HandleMoves(m, Leave(m, act, true, receipt), act, handle);
    } else {
      assert Get(m.handles, handle) == "" && handle in m.closedHandles ==> m.closedHandles[handle] in m.receipts;
    }
  }

  lemma HandleMoves(m: Memory, n: Memory, act: Act, handle: Handle)
    requires act != "" && act in n.receipts && n.handles == Without(m.handles, act)
    requires var all := m.closedHandles + BoundTo(m.handles, act);
             n.closedHandles == map h | h in all && all[h] in n.receipts :: all[h]
    ensures ActOf(n, handle) == if Get(m.handles, handle) != "" ||
            ActOf(m, handle) in n.receipts then ActOf(m, handle) else ""
  { }

  /** Entering and leaving keep the memory bounded; leaving keeps the newly closed act. */
  lemma EnterKeepsBounded(m: Memory, act: Act, ticket: Ticket)
    requires Bounded(m)
    ensures Bounded(Enter(m, act, ticket))
  { }

  lemma LeaveKeepsBounded(m: Memory, act: Act, ok: bool, receipt: Receipt)
    requires Bounded(m) && act in m.closing
    ensures Bounded(Leave(m, act, ok, receipt))
    ensures ok ==> act in Leave(m, act, ok, receipt).receipts && Leave(m, act, ok, receipt).receipts[act] == receipt
  {
    var released := m.(closing := m.closing - {act});
    if ok {
      var r := RecordClose(released, act, receipt);
      assert act !in m.closedOrder;
      assert Distinct(r.closedOrder);
      ForgetBounds(r);
      var f := Forget(r);
      assert f.closedOrder[|f.closedOrder| - 1] == act;
    }
  }

  /** No close and no eviction touches the profiles. */
  lemma ProfilesUnchanged(m: Memory, act: Act, ok: bool, receipt: Receipt)
    requires Bounded(m) && act in m.closing
    ensures Leave(m, act, ok, receipt).profiles == m.profiles
  {
    if ok {
      var r := RecordClose(m.(closing := m.closing - {act}), act, receipt);
      assert Distinct(r.closedOrder);
      ForgetBounds(r);
    }
  }
}
