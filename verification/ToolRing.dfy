/** The ring of recent tool events behind the /tools report, and its agreement with the full history. */
module ToolRing {

  datatype Entry = Entry(time: int, brain: string, event: int)

  const DEFAULT_SIZE: nat := 64

  /** The last `n` entries, or all of them. */
  function LastN(s: seq<Entry>, n: nat): seq<Entry> { if |s| <= n then s else s[|s| - n..] }

  function ForBrain(s: seq<Entry>, brain: string): seq<Entry> {
    if s == [] then []
    else ForBrain(s[..|s| - 1], brain) + if s[|s| - 1].brain == brain then [s[|s| - 1]] else []
  }

  /** What a ring's buffer holds, oldest first. */
  function View(slots: seq<Entry>, next: nat, full: bool): seq<Entry>
    requires next < |slots|
  { if full then slots[next..] + slots[..next] else slots[..next] }

  predicate Agrees(slots: seq<Entry>, next: nat, full: bool, history: seq<Entry>) {
    next < |slots| && View(slots, next, full) == LastN(history, |slots|) && (!full ==> |history| == next)
  }

  lemma Wrap(k: nat, size: nat)
    requires k < 2 * size
    ensures k % size == if k < size then k else k - size
  {
    if k >= size {
      assert k == size + (k - size);
    }
  }

  /** Writing one slot and stepping on agrees with a history one entry longer. */
  lemma StepAgrees(slots: seq<Entry>, next: nat, full: bool, history: seq<Entry>, e: Entry)
    requires Agrees(slots, next, full, history)
    ensures var n := if next + 1 == |slots| then 0 else next + 1;
            Agrees(slots[next := e], n, full || n == 0, history + [e])
  {
    Slide(history, e, |slots|);
    SlideView(slots, next, full, e);
  }

  lemma SlideView(slots: seq<Entry>, next: nat, full: bool, e: Entry)
    requires next < |slots|
    ensures var n := if next + 1 == |slots| then 0 else next + 1;
            View(slots[next := e], n, full || n == 0) ==
            if full then View(slots, next, full)[1..] + [e] else View(slots, next, full) + [e]
  {
    var after := slots[next := e];
    assert after[..next + 1] == slots[..next] + [e];
    assert after[next + 1..] == slots[next + 1..];
    assert slots[next..][1..] == slots[next + 1..];
    if full {
      assert View(slots, next, full)[1..] == slots[next..][1..] + slots[..next];
      assert slots[next + 1..] + (slots[..next] + [e]) == slots[next + 1..] + slots[..next] + [e];
    }
    if next + 1 == |slots| {
      assert after[..next + 1] == after;
      assert after[0..] + after[..0] == after;
    }
  }

  lemma ViewAt(slots: seq<Entry>, next: nat, full: bool, i: nat)
    requires next < |slots| && i < if full then |slots| else next
    ensures |View(slots, next, full)| == (if full then |slots| else next)
    ensures View(slots, next, full)[i] == slots[((if full then next else 0) + i) % |slots|]
  { Wrap((if full then next else 0) + i, |slots|); }

  class ToolEventRing {
    const buf: array<Entry>
    var next: nat
    var full: bool
    ghost var history: seq<Entry>

    ghost predicate Valid()
      reads this, buf
    { Agrees(buf[..], next, full, history) }

    constructor (size: int)
      ensures Valid() && history == [] && fresh(buf) && buf.Length == if size <= 0 then DEFAULT_SIZE else size
    {
      buf := new Entry[if size <= 0 then DEFAULT_SIZE else size](_ => Entry(0, "", 0));
      next, full, history := 0, false, [];
    }

    /** Record: displaces the oldest entry when the ring is full. */
    method Record(e: Entry)
      requires Valid()
      modifies this`next, this`full, this`history, buf
      ensures Valid() && history == old(history) + [e]
    {
      StepAgrees(buf[..], next, full, history, e);
      ghost var after := buf[..][next := e];
      buf[next] := e;
      assert buf[..] == after;
      Wrap(next + 1, buf.Length);
      next := (next + 1) % buf.Length;
      history := history + [e];
      if next == 0 {
        full := true;
      }
    }

    /** LastFor: the last `k` entries of a brain among the last entries ever recorded, oldest first. */
    method LastFor(brain: string, k: nat) returns (out: seq<Entry>)
      requires Valid()
      ensures out == LastN(ForBrain(LastN(history, buf.Length), brain), k)
    {
      hide LastN, ForBrain, View;
      ghost var view := View(buf[..], next, full);
      var n := if full then buf.Length else next;
      var start := if full then next else 0;
      out := [];
      assert view[..0] == [];
      EmptyAnswer(brain);
      for i := 0 to n
        invariant i <= |view| && out == ForBrain(view[..i], brain)
      {
        var e := buf[(start + i) % buf.Length];
        ViewAt(buf[..], next, full, i);
        AnswerMore(view, i, brain);
        if e.brain == brain {
          out := out + [e];
        }
      }
      ViewLength(buf[..], next, full);
      assert view[..n] == view;
      LastNIs(out, k);
      if |out| > k {
        out := out[|out| - k..];
      }
    }
  }

  lemma ViewLength(slots: seq<Entry>, next: nat, full: bool)
    requires next < |slots|
    ensures |View(slots, next, full)| == if full then |slots| else next
  { }

  lemma EmptyAnswer(brain: string)
    ensures ForBrain([], brain) == []
  { }

  lemma AnswerMore(view: seq<Entry>, i: nat, brain: string)
    requires i < |view|
    ensures ForBrain(view[..i + 1], brain) == ForBrain(view[..i], brain) + if view[i].brain == brain then
            [view[i]] else []
  { assert view[..i + 1][..i] == view[..i]; }

  lemma LastNIs(s: seq<Entry>, k: nat)
    ensures LastN(s, k) == if |s| > k then s[|s| - k..] else s
  { }

  /** The last entries move on by one. */
  lemma Slide(s: seq<Entry>, e: Entry, n: nat)
    requires n >= 1
    ensures LastN(s + [e], n) == if |s| < n then LastN(s, n) + [e] else LastN(s, n)[1..] + [e]
  { }

  /** What the report shows of a brain is in the order of the history, and misses none of its newest entries. */
  lemma {:induction false} ForBrainAppend(s: seq<Entry>, t: seq<Entry>, brain: string)
    ensures ForBrain(s + t, brain) == ForBrain(s, brain) + ForBrain(t, brain)
  {
    if t == [] {
      assert s + t == s;
    } else {
      assert (s + t)[..|s + t| - 1] == s + t[..|t| - 1];
      ForBrainAppend(s, t[..|t| - 1], brain);
    }
  }

  function Times(s: seq<Entry>, e: Entry): nat { multiset(s)[e] }

  /** A brain's entries are all of its own, each as often as it was recorded, and nobody else's. */
  lemma {:induction false} ForBrainExactly(s: seq<Entry>, brain: string, e: Entry)
    ensures Times(ForBrain(s, brain), e) == if e.brain == brain then Times(s, e) else 0
  {
    if s != [] {
      var n := |s| - 1;
      ForBrainExactly(s[..n], brain, e);
      assert s == s[..n] + [s[n]];
    }
  }

  /** The ring loses nothing the report asks for: its answer ends the answer over the whole history. */
  lemma RingAnswersForHistory(history: seq<Entry>, size: nat, brain: string, k: nat)
    ensures var ring := ForBrain(LastN(history, size), brain);
            var all := ForBrain(history, brain);
            && |ring| <= |all| && all[|all| - |ring|..] == ring
            && (k <= |ring| || |history| <= size ==> LastN(ring, k) == LastN(all, k))
  {
    var older := history[..|history| - |LastN(history, size)|];
    assert older + LastN(history, size) == history;
    ForBrainAppend(older, LastN(history, size), brain);
  }
}
