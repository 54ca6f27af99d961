/**
 The ledger verifier: the named checks over one receipt, and the two passes of `ledger check` over a
 partition, sequence continuity first and every link after it.

 The rows of the one partition are listed by sequence.
 */
module LedgerCheck {
  import opened Prelude
  import opened Receipts
  import opened Evidence

  /** A registered key; a public half that does not decode is None, and a key in use has retirement time 0. */
  datatype SigningKey = SigningKey(publicKey: Option<string>, createdAt: int, retiredAt: int)

  datatype Env = Env(
    hash: string -> string, clock: Clock,
    keys: map<string, SigningKey>, verifies: (string, Receipt) -> bool, store: Store)

  ghost predicate Sound(env: Env) { InjectiveHash(env.hash) && Lawful(env.clock) }

  function HashOf(env: Env, r: Receipt): string { ComputeReceiptHash(env.hash, env.clock, r) }

  const ROUNDTRIP := "canonical_roundtrip_broken"
  const HASH := "hash_mismatch"
  const LINK := "chain_link_broken"

  const KEY_UNKNOWN := "key_unknown"
  const SIGNATURE := "signature_invalid"
  const KEY_WINDOW := "key_window_violated"

  // ---- The checks over one receipt ----

  /** The key: registered, readable, its signature good, and the receipt sealed inside its life. */
  function KeyFailures(env: Env, r: Receipt): seq<string> {
    if r.signingKeyId !in env.keys then [KEY_UNKNOWN]
    else
      var key := env.keys[r.signingKeyId];
      (if key.publicKey.None? then [KEY_UNKNOWN]
       else if !env.verifies(key.publicKey.value, r) then [SIGNATURE] else [])
      + (if r.finishedAt < key.createdAt then [KEY_WINDOW] else [])
      + (if key.retiredAt != 0 && r.finishedAt > key.retiredAt then [KEY_WINDOW] else [])
  }

  /** What an empty list of key failures means. */
  predicate WellSealed(env: Env, r: Receipt) {
    && r.signingKeyId in env.keys
    && var key := env.keys[r.signingKeyId];
    && key.publicKey.Some? && env.verifies(key.publicKey.value, r)
    && key.createdAt <= r.finishedAt && (key.retiredAt == 0 || r.finishedAt <= key.retiredAt)
  }

  lemma KeyFailuresExact(env: Env, r: Receipt)
    ensures KeyFailures(env, r) == [] <==> WellSealed(env, r)
  { }

  predicate RoundTrips(env: Env, r: Receipt) {
    match ParseCanonicalReceipt(env.clock, CanonicalReceipt(env.clock, r))
    case Ok(parsed) => HashOf(env, parsed) == HashOf(env, r)
    case Err(_) => false
  }

  /** The first row at a sequence number. */
  function RowAt(rows: seq<Receipt>, chainSeq: int): (r: Option<Receipt>)
    ensures r.Some? ==> r.value in rows && r.value.chainSeq == chainSeq
  {
    if rows == [] then None
    else if rows[0].chainSeq == chainSeq then Some(rows[0])
    else RowAt(rows[1..], chainSeq)
  }

  predicate LinkOk(rows: seq<Receipt>, r: Receipt) {
    if r.chainSeq == 0 then r.previousReceiptHash == GENESIS
    else RowAt(rows, r.chainSeq - 1).Some? && r.previousReceiptHash == RowAt(rows, r.chainSeq - 1).value.receiptHash
  }

  /** The last receipt of an action. */
  function LastOf(rows: seq<Receipt>, actionId: string): Option<Receipt> {
    if rows == [] then None
    else if rows[|rows| - 1].actionId == actionId then Some(rows[|rows| - 1])
    else LastOf(rows[..|rows| - 1], actionId)
  }

  /** lastReceiptOutcome: a listing that fails or is empty counts as the last. */
  predicate IsLast(env: Env, rows: seq<Receipt>, r: Receipt) {
    env.store.lists(r.actionId) ==>
      LastOf(rows, r.actionId).None? || LastOf(rows, r.actionId).value.receiptId == r.receiptId
  }

  /** Every failure found, in the order of the checks. */
  function Failures(env: Env, rows: seq<Receipt>, r: Receipt): seq<string> {
    (if RoundTrips(env, r) then [] else [ROUNDTRIP])
    + (if HashOf(env, r) == r.receiptHash then [] else [HASH])
    + KeyFailures(env, r)
    + (if LinkOk(rows, r) then [] else [LINK])
    + ApprovalFailures(env.store, r)
    + CustodyFailures(env.store, r, IsLast(env, rows, r))
  }

  /** ReceiptAt: the row of a partition at a sequence number. */
  method FindRow(rows: seq<Receipt>, chainSeq: int) returns (found: Option<Receipt>)
    ensures found == RowAt(rows, chainSeq)
  {
    for i := 0 to |rows|
      invariant RowAt(rows, chainSeq) == RowAt(rows[i..], chainSeq)
    {
      if rows[i].chainSeq == chainSeq {
        return Some(rows[i]);
      }
      assert rows[i..][1..] == rows[i + 1..];
    }
    found := None;
  }

  /** The key's part of the ladder. */
  method CheckKey(env: Env, r: Receipt) returns (failures: seq<string>)
    ensures failures == KeyFailures(env, r)
  {
    if r.signingKeyId !in env.keys {
      return [KEY_UNKNOWN];
    }
    var key := env.keys[r.signingKeyId];
    failures := [];
    if key.publicKey.None? {
      failures := failures + [KEY_UNKNOWN];
    } else if !env.verifies(key.publicKey.value, r) {
      failures := failures + [SIGNATURE];
    }
    if r.finishedAt < key.createdAt {
      failures := failures + [KEY_WINDOW];
    }
    if key.retiredAt != 0 && r.finishedAt > key.retiredAt {
      failures := failures + [KEY_WINDOW];
    }
  }

  /** verifyReceiptChecks: appends each failure as its check finds it. */
  method VerifyReceiptChecks(env: Env, rows: seq<Receipt>, r: Receipt) returns (failures: seq<string>, notes: nat)
    ensures failures == Failures(env, rows, r) && notes == Notes(env.store, r)
  {
    hide ParseCanonicalReceipt, CanonicalReceipt, HashOf, KeyFailures, ApprovalFailures, CustodyFailures,
         ApprovalNotes, CustodyNotes, IsLast;
    failures := [];
    var parsed := ParseCanonicalReceipt(env.clock, CanonicalReceipt(env.clock, r));
    if parsed.Err? || HashOf(env, parsed.value) != HashOf(env, r) {
      failures := failures + [ROUNDTRIP];
    }
    if HashOf(env, r) != r.receiptHash {
      failures := failures + [HASH];
    }
    var ofKey := CheckKey(env, r);
    failures := failures + ofKey;
    if r.chainSeq == 0 {
      if r.previousReceiptHash != GENESIS {
        failures := failures + [LINK];
      }
    } else {
      var pred := FindRow(rows, r.chainSeq - 1);
      if pred.None? || r.previousReceiptHash != pred.value.receiptHash {
        failures := failures + [LINK];
      }
    }
    var ofApproval, degraded := CheckApproval(env.store, r);
    var ofAction, pruned := CheckCustody(env.store, r, IsLast(env, rows, r));
    failures := failures + ofApproval + ofAction;
    notes := degraded + pruned;
  }

  // ---- The verdict over a partition ----

  datatype Verdict = Intact(count: nat, noted: nat) | Gap(position: nat) | Duplicate(position: nat) |
      Broken(position: nat, failure: string)

  /** The degraded checks of the first receipts of a walk. */
  function NotedIn(env: Env, rows: seq<Receipt>): nat {
    if rows == [] then 0 else NotedIn(env, rows[..|rows| - 1]) + Notes(env.store, rows[|rows| - 1])
  }

  predicate InSequence(rows: seq<Receipt>, upTo: nat)
    requires upTo <= |rows|
  { forall i :: 0 <= i < upTo ==> rows[i].chainSeq == i }

  predicate Clean(env: Env, rows: seq<Receipt>, upTo: nat)
    requires upTo <= |rows|
  { forall i :: 0 <= i < upTo ==> Failures(env, rows, rows[i]) == [] }

  /** What each verdict means: it names the first thing that is wrong, structure before links. */
  predicate Judges(env: Env, rows: seq<Receipt>, v: Verdict) {
    match v
    case Intact(count, noted) => count == |rows| && noted == NotedIn(env, rows) && InSequence(rows, |rows|) &&
      Clean(env, rows, |rows|)
    case Gap(i) => i < |rows| && InSequence(rows, i) && rows[i].chainSeq > i
    case Duplicate(i) => i < |rows| && InSequence(rows, i) && rows[i].chainSeq < i
    case Broken(i, failure) =>
      i < |rows| && InSequence(rows, |rows|) && Clean(env, rows, i) &&
      Failures(env, rows, rows[i]) != [] && Failures(env, rows, rows[i])[0] == failure
  }

  /** `korvun ledger check`: two passes, each stopping at the first break. */
  method Check(env: Env, rows: seq<Receipt>) returns (v: Verdict)
    ensures Judges(env, rows, v)
  {
    hide Failures;
    for i := 0 to |rows|
      invariant InSequence(rows, i)
    {
      if rows[i].chainSeq > i {
        return Gap(i);
      }
      if rows[i].chainSeq < i {
        return Duplicate(i);
      }
    }
    var noted := 0;
    for i := 0 to |rows|
      invariant Clean(env, rows, i) && noted == NotedIn(env, rows[..i])
    {
      var failures, notes := VerifyReceiptChecks(env, rows, rows[i]);
      if |failures| > 0 {
        return Broken(i, failures[0]);
      }
      noted := noted + notes;
      assert rows[..i + 1][..i] == rows[..i];
    }
    assert rows[..|rows|] == rows;
    v := Intact(|rows|, noted);
  }

  /** A ledger has one verdict. */
  lemma VerdictUnique(env: Env, rows: seq<Receipt>, v: Verdict, w: Verdict)
    requires Judges(env, rows, v) && Judges(env, rows, w)
    ensures v == w
  { hide Failures; }

  ghost predicate Accepted(env: Env, rows: seq<Receipt>) { Judges(env, rows, Intact(|rows|, NotedIn(env, rows))) }

  // ---- What acceptance means ----

  lemma {:induction false} RowAtInSequence(rows: seq<Receipt>, from: nat, k: nat)
    requires from <= k < |rows| && InSequence(rows, |rows|)
    ensures RowAt(rows[from..], k) == Some(rows[k])
    decreases k - from
  {
    if from < k {
      RowAtInSequence(rows, from + 1, k);
      assert rows[from..][1..] == rows[from + 1..];
    }
  }

  /** What the receipt says of its approval and its action is what the store says, or retention took it. */
  predicate EvidenceStands(env: Env, rows: seq<Receipt>, r: Receipt) {
    ApprovalStands(env.store, r) && CustodyStands(env.store, r, IsLast(env, rows, r))
  }

  lemma FailuresExact(env: Env, rows: seq<Receipt>, r: Receipt)
    ensures Failures(env, rows, r) == [] <==>
            RoundTrips(env, r) && HashOf(env, r) == r.receiptHash && WellSealed(env, r) && LinkOk(rows, r)
            && EvidenceStands(env, rows, r)
  {
    hide RoundTrips, HashOf, KeyFailures, WellSealed, ApprovalFailures, CustodyFailures, ApprovalStands, CustodyStands,
         IsLast;
    KeyFailuresExact(env, r);
    EvidenceExact(env.store, r, IsLast(env, rows, r));
  }

  /** Place by place: the stored hash is the content's, and each row names its predecessor's. */
  lemma AcceptedRow(env: Env, rows: seq<Receipt>, i: nat)
    requires Accepted(env, rows) && i < |rows|
    ensures rows[i].chainSeq == i && HashOf(env, rows[i]) == rows[i].receiptHash && RoundTrips(env, rows[i])
    ensures rows[i].previousReceiptHash == if i == 0 then GENESIS else rows[i - 1].receiptHash
    ensures WellSealed(env, rows[i]) && EvidenceStands(env, rows, rows[i])
  {
    hide RoundTrips, HashOf, Failures, WellSealed, EvidenceStands;
    FailuresExact(env, rows, rows[i]);
    assert Failures(env, rows, rows[i]) == [];
    if i > 0 {
      RowAtInSequence(rows, 0, i - 1);
      assert rows[0..] == rows;
    }
  }

  lemma SignableChain(r: Receipt)
    ensures Signable(r).chainSeq == r.chainSeq && Signable(r).previousReceiptHash == r.previousReceiptHash
  { }

  /** Equal hashes at one place carry equal content there and at every earlier place. */
  lemma {:induction false} EqualBackwards(env: Env, a: seq<Receipt>, b: seq<Receipt>, n: nat, i: nat)
    requires Sound(env) && Accepted(env, a) && Accepted(env, b) && i <= n < |a| && n < |b|
    requires a[n].receiptHash == b[n].receiptHash
    ensures Signable(a[i]) == Signable(b[i])
    decreases n
  {
    hide Signable, Judges, HashOf, RoundTrips;
    AcceptedRow(env, a, n);
    AcceptedRow(env, b, n);
    SameHash(env, a[n], b[n]);
    if i < n {
      SignableChain(a[n]);
      SignableChain(b[n]);
      EqualBackwards(env, a, b, n - 1, i);
    }
  }

  lemma SameHash(env: Env, a: Receipt, b: Receipt)
    requires Sound(env) && HashOf(env, a) == HashOf(env, b)
    ensures Signable(a) == Signable(b)
  { HashDecidesSignable(env.hash, env.clock, a, b); }

  /**
   The tip decides the ledger: two accepted ledgers whose last receipts carry the same hash have the
   same length and the same signable content at every position.
   */
  lemma TipDecidesLedger(env: Env, a: seq<Receipt>, b: seq<Receipt>)
    requires Sound(env) && Accepted(env, a) && Accepted(env, b) && a != [] && b != []
    requires a[|a| - 1].receiptHash == b[|b| - 1].receiptHash
    ensures |a| == |b| && forall i :: 0 <= i < |a| ==> Signable(a[i]) == Signable(b[i])
  {
    hide Signable, Judges, HashOf, RoundTrips;
    AcceptedRow(env, a, |a| - 1);
    AcceptedRow(env, b, |b| - 1);
    SameHash(env, a[|a| - 1], b[|b| - 1]);
    SignableChain(a[|a| - 1]);
    SignableChain(b[|b| - 1]);
    forall i | 0 <= i < |a| ensures Signable(a[i]) == Signable(b[i]) {
      EqualBackwards(env, a, b, |a| - 1, i);
    }
  }

  /** Hence editing any signed field of an accepted ledger, its last hash kept, is refused. */
  lemma EditRefused(env: Env, rows: seq<Receipt>, i: nat, edited: Receipt, v: Verdict)
    requires Sound(env) && Accepted(env, rows) && i < |rows|
    requires Signable(edited) != Signable(rows[i]) && (i == |rows| - 1 ==> edited.receiptHash == rows[i].receiptHash)
    requires Judges(env, rows[i := edited], v)
    ensures !v.Intact?
  {
    hide Signable, HashOf, Failures;
    if v.Intact? {
      assert Accepted(env, rows[i := edited]);
      assert rows[i := edited][i] == edited;
      TipDecidesLedger(env, rows, rows[i := edited]);
    }
  }

  /** The action's row, if it is there, is in the state the receipt attests. */
  predicate StateAttested(env: Env, r: Receipt) {
    !OfIntent(r) && env.store.present(r.actionId) == Some(Presence(true, true)) &&
        env.store.record(r.actionId).Found? ==>
      env.store.record(r.actionId).value.state == r.outcome
  }

  /**
   A truncated tail leaves no trace exactly when each receipt that it makes the last of its action attests the
   state of the action's row: the chain alone does not show it.
   */
  lemma PrefixAcceptedExactly(env: Env, rows: seq<Receipt>, k: nat)
    requires Accepted(env, rows) && k <= |rows|
    ensures Accepted(env, rows[..k]) <==>
            forall i :: 0 <= i < k && IsLast(env, rows[..k], rows[i]) ==> StateAttested(env, rows[i])
  {
    hide Failures, NotedIn, IsLast, StateAttested;
    forall i | 0 <= i < k
      ensures Failures(env, rows[..k], rows[..k][i]) == [] <==>
              (IsLast(env, rows[..k], rows[i]) ==> StateAttested(env, rows[i])) {
      PrefixRow(env, rows, k, i);
    }
  }

  lemma PrefixRow(env: Env, rows: seq<Receipt>, k: nat, i: nat)
    requires Accepted(env, rows) && i < k <= |rows|
    ensures Failures(env, rows[..k], rows[i]) == [] <==>
            (IsLast(env, rows[..k], rows[i]) ==> StateAttested(env, rows[i]))
  {
    hide RoundTrips, HashOf, Failures, WellSealed, IsLast, ApprovalStands;
    var p := rows[..k];
    FailuresExact(env, p, rows[i]);
    AcceptedRow(env, rows, i);
    if i > 0 {
      RowAtInSequence(p, 0, i - 1);
      assert p[0..] == p;
    }
  }

  /** Dropping a receipt that is not the last is denounced as a gap at its own position, whatever else is broken. */
  lemma DropIsGap(env: Env, rows: seq<Receipt>, i: nat)
    requires InSequence(rows, |rows|) && i < |rows| - 1
    ensures Judges(env, rows[..i] + rows[i + 1..], Gap(i))
  { hide Failures; }

  /** Putting any receipt with an occupied number behind the one that holds it is denounced right there. */
  lemma CloneIsDuplicate(env: Env, rows: seq<Receipt>, i: nat, clone: Receipt)
    requires InSequence(rows, |rows|) && i < |rows| && clone.chainSeq == i
    ensures Judges(env, rows[..i + 1] + [clone] + rows[i + 1..], Duplicate(i + 1))
  { hide Failures; }

  function Linked(rows: seq<Receipt>, next: Receipt): Receipt {
    if rows == [] then next.(chainSeq := 0, previousReceiptHash := GENESIS) else LinkReceipt(next, rows[|rows| - 1])
  }

  /**
   A receipt that is linked, hashed and sealed, and agrees with the evidence its close leaves, extends an accepted
   ledger. The close may change the evidence of its own action only, and must leave the action's earlier
   receipts standing.
   */
  lemma AppendAccepted(env: Env, before: Store, rows: seq<Receipt>, next: Receipt)
    requires Sound(env) && Accepted(env.(store := before), rows) && next.schemaVersion <= 3
    requires next == Linked(rows, next).(receiptHash := HashOf(env, Linked(rows, next)))
    requires WellSealed(env, next) && EvidenceStands(env, [next], next)
    requires forall i :: 0 <= i < |rows| ==> Unmoved(env, before, rows[i], next)
    ensures Accepted(env, rows + [next])
  {
    hide RoundTrips, HashOf, WellSealed, EvidenceStands, Unmoved, Failures, NotedIn;
    SealKeepsHash(env, Linked(rows, next), next.receiptHash);
    RoundTripsKnown(env, next);
    AppendRow(env, before, rows, next);
  }

  /** An earlier receipt under the evidence that the next one's close leaves. */
  predicate Unmoved(env: Env, before: Store, r: Receipt, next: Receipt) {
    && r.receiptId != next.receiptId
    && (if r.actionId != next.actionId then SameFor(before, env.store, r)
        else ApprovalStands(env.store, r) && CustodyStands(env.store, r, !env.store.lists(r.actionId)))
  }

  lemma EvidenceAppended(env: Env, before: Store, rows: seq<Receipt>, r: Receipt, next: Receipt)
    requires EvidenceStands(env.(store := before), rows, r) && Unmoved(env, before, r, next)
    ensures EvidenceStands(env, rows + [next], r)
  {
    var all := rows + [next];
    assert all[..|all| - 1] == rows;
  }

  lemma AppendRow(env: Env, before: Store, rows: seq<Receipt>, next: Receipt)
    requires Accepted(env.(store := before), rows) && RoundTrips(env, next) && HashOf(env, next) == next.receiptHash
    requires WellSealed(env, next) && EvidenceStands(env, [next], next)
    requires forall i :: 0 <= i < |rows| ==> Unmoved(env, before, rows[i], next)
    requires next.chainSeq == |rows|
    requires next.previousReceiptHash == if rows == [] then GENESIS else rows[|rows| - 1].receiptHash
    ensures Accepted(env, rows + [next])
  {
    hide RoundTrips, HashOf, Failures, WellSealed, EvidenceStands, Unmoved, NotedIn;
    var all, n := rows + [next], |rows|;
    NextStands(env, rows, next);
    forall i | 0 <= i < n + 1 ensures Failures(env, all, all[i]) == [] {
      FailuresExact(env, all, all[i]);
      if i < n {
        AcceptedRow(env.(store := before), rows, i);
        SameButStore(env, before, rows[i]);
        EvidenceAppended(env, before, rows, rows[i], next);
      }
      if i > 0 {
        RowAtInSequence(all, 0, i - 1);
        assert all[0..] == all;
      }
    }
  }

  lemma NextStands(env: Env, rows: seq<Receipt>, next: Receipt)
    requires EvidenceStands(env, [next], next)
    ensures EvidenceStands(env, rows + [next], next)
  { }

  lemma SameButStore(env: Env, other: Store, r: Receipt)
    ensures var e := env.(store := other);
            HashOf(e, r) == HashOf(env, r) && RoundTrips(e, r) == RoundTrips(env, r) &&
            WellSealed(e, r) == WellSealed(env, r)
  { hide ParseCanonicalReceipt, CanonicalReceipt; }

  // ---- Retention and rewritten evidence ----

  /** Retention never breaks a ledger: it is accepted as before, with at least as many degraded checks. */
  lemma RetentionKeepsVerdict(env: Env, rows: seq<Receipt>, ids: set<string>)
    requires Accepted(env, rows)
    ensures var e := env.(store := Pruned(env.store, ids));
            Accepted(e, rows) && NotedIn(e, rows) >= NotedIn(env, rows)
  {
    hide RoundTrips, HashOf, Failures, WellSealed, ApprovalStands, CustodyStands, Pruned, NotedIn, IsLast, Notes;
    var e := env.(store := Pruned(env.store, ids));
    forall i | 0 <= i < |rows|
      ensures Failures(e, rows, rows[i]) == [] && Notes(e.store, rows[i]) >= Notes(env.store, rows[i]) {
      AcceptedRow(env, rows, i);
      FailuresExact(env, rows, rows[i]);
      FailuresExact(e, rows, rows[i]);
      SameButStore(env, e.store, rows[i]);
      LastUnpruned(env, rows, rows[i], ids);
      PruneKeeps(env.store, ids, rows[i], IsLast(env, rows, rows[i]));
      NotesWithin(env.store, rows[i]);
    }
    NotedMore(env, e, rows);
  }

  lemma NotesWithin(store: Store, r: Receipt)
    ensures Notes(store, r) <= (if SealsApproval(r) then 1 else 0) + (if OfIntent(r) then 0 else 1)
  { }

  lemma {:induction false} NotedMore(env: Env, e: Env, rows: seq<Receipt>)
    requires forall i :: 0 <= i < |rows| ==> Notes(e.store, rows[i]) >= Notes(env.store, rows[i])
    ensures NotedIn(e, rows) >= NotedIn(env, rows)
  {
    if rows != [] {
      NotedMore(env, e, rows[..|rows| - 1]);
    }
  }

  lemma LastUnpruned(env: Env, rows: seq<Receipt>, r: Receipt, ids: set<string>)
    ensures IsLast(env.(store := Pruned(env.store, ids)), rows, r) == IsLast(env, rows, r)
  { }

  /** Evidence that no retention leaves refuses the ledger. */
  lemma AlteredRefused(env: Env, rows: seq<Receipt>, i: nat, other: Store, v: Verdict)
    requires Accepted(env, rows) && i < |rows| && other.lists(rows[i].actionId) == env.store.lists(rows[i].actionId)
    requires Altered(env.store, other, rows[i], IsLast(env, rows, rows[i]))
    requires Judges(env.(store := other), rows, v)
    ensures !v.Intact?
  {
    hide RoundTrips, HashOf, Failures, WellSealed, ApprovalStands, CustodyStands, Altered, NotedIn, LastOf;
    var e := env.(store := other);
    AcceptedRow(env, rows, i);
    AlteredFails(env.store, other, rows[i], IsLast(env, rows, rows[i]));
    FailuresExact(e, rows, rows[i]);
  }

  lemma SealKeepsSignable(r: Receipt, h: string)
    ensures Signable(r.(receiptHash := h)) == Signable(r)
  { }

  lemma SealKeepsHash(env: Env, r: Receipt, h: string)
    ensures HashOf(env, r.(receiptHash := h)) == HashOf(env, r)
  {
    hide Signable, CanonicalReceipt;
    SealKeepsSignable(r, h);
    SameFieldsSameBytes(env.clock, r);
    SameFieldsSameBytes(env.clock, r.(receiptHash := h));
  }

  lemma RoundTripsKnown(env: Env, r: Receipt)
    requires Sound(env) && r.schemaVersion <= 3
    ensures RoundTrips(env, r)
  {
    hide Signable, CanonicalReceipt, ParseCanonicalReceipt;
    RoundTrip(env.clock, r);
    SameFieldsSameBytes(env.clock, r);
  }

  // ---- A truncated tail: one that does not show, and one that does ----

  function WitnessEnv(store: Store): Env {
    Env((s: string) => s, NUMERALS, map["key" := SigningKey(Some("public"), 0, 0)], (key: string, r: Receipt) => true,
        store)
  }

  /** The action's rows are all there; the state of `act_1` is given, any other action succeeded. */
  function WitnessStore(state: string): Store {
    Store((id: string) => Some(Presence(true, true)),
          (id: string) => Found(ActionRecord(if id == "act_1" then state else "SUCCEEDED", "sha256:a")),
          (id: string) => Absent, (digest: string) => NoTombstone, (id: string) => true)
  }

  const FAILED_FIRST :=
    Receipt("rcpt_1", 2, "act_1", "", "", "", "", "sha256:a", "", 1, "FAILED", "", "", "", "", "", "", "", "", 1, 2,
            "main", 0, GENESIS, "", "key", "")

  function Hashed(r: Receipt): Receipt { r.(receiptHash := HashOf(WitnessEnv(WitnessStore("")), r)) }

  const FIRST := Hashed(FAILED_FIRST)

  /** A later receipt, of this action, that attests success. */
  function Second(actionId: string): Receipt {
    Hashed(LinkReceipt(FAILED_FIRST.(receiptId := "rcpt_2", actionId := actionId, outcome := "SUCCEEDED"), FIRST))
  }

  lemma WitnessSound(store: Store)
    ensures Sound(WitnessEnv(store))
  { NumeralsLawful(); }

  lemma HashedIs(store: Store, r: Receipt)
    ensures HashOf(WitnessEnv(store), Hashed(r)) == HashOf(WitnessEnv(store), r) == Hashed(r).receiptHash
  { SealKeepsHash(WitnessEnv(store), r, Hashed(r).receiptHash); }

  lemma FirstAccepted()
    ensures Accepted(WitnessEnv(WitnessStore("FAILED")), [FIRST])
  {
    hide HashOf;
    var env := WitnessEnv(WitnessStore("FAILED"));
    WitnessSound(env.store);
    HashedIs(env.store, FAILED_FIRST);
    assert Linked([], FIRST) == FIRST;
    AppendAccepted(env, env.store, [], FIRST);
    assert [] + [FIRST] == [FIRST];
  }

  lemma SecondLinked(store: Store, actionId: string)
    ensures var second := Second(actionId);
            second == Linked([FIRST], second).(receiptHash := HashOf(WitnessEnv(store), Linked([FIRST], second)))
  {
    hide HashOf;
    var r := LinkReceipt(FAILED_FIRST.(receiptId := "rcpt_2", actionId := actionId, outcome := "SUCCEEDED"), FIRST);
    HashedIs(store, r);
    assert Linked([FIRST], Hashed(r)) == Hashed(r);
  }

  /** Two actions: the ledger without its last receipt is accepted like the whole one. */
  lemma TailUnseen()
    ensures var env := WitnessEnv(WitnessStore("FAILED"));
            Accepted(env, [FIRST, Second("act_2")]) && Accepted(env, [FIRST, Second("act_2")][..1])
  {
    hide HashOf, Accepted;
    var env := WitnessEnv(WitnessStore("FAILED"));
    WitnessSound(env.store);
    FirstAccepted();
    SecondLinked(env.store, "act_2");
    AppendAccepted(env, env.store, [FIRST], Second("act_2"));
    assert [FIRST] + [Second("act_2")] == [FIRST, Second("act_2")];
    assert [FIRST, Second("act_2")][..1] == [FIRST];
  }

  /** One action that failed and then succeeded: without its last receipt the ledger is refused. */
  lemma TailSeen()
    ensures var env := WitnessEnv(WitnessStore("SUCCEEDED"));
            Accepted(env, [FIRST, Second("act_1")]) && !Accepted(env, [FIRST, Second("act_1")][..1])
  {
    hide HashOf, Accepted, NotedIn, Failures;
    var before, env := WitnessStore("FAILED"), WitnessEnv(WitnessStore("SUCCEEDED"));
    WitnessSound(env.store);
    FirstAccepted();
    SecondLinked(env.store, "act_1");
    assert env.(store := before) == WitnessEnv(before);
    AppendAccepted(env, before, [FIRST], Second("act_1"));
    assert [FIRST] + [Second("act_1")] == [FIRST, Second("act_1")];
    PrefixAcceptedExactly(env, [FIRST, Second("act_1")], 1);
    assert [FIRST, Second("act_1")][..1] == [FIRST] && [FIRST, Second("act_1")][0] == FIRST;
    FirstDisagrees();
  }

  lemma FirstDisagrees()
    ensures var env := WitnessEnv(WitnessStore("SUCCEEDED")); IsLast(env, [FIRST], FIRST) && !StateAttested(env, FIRST)
  {
    hide HashOf;
    assert FIRST.actionId[0] != LIFECYCLE[0];
    assert FIRST.outcome[0] != "SUCCEEDED"[0];
  }
}
