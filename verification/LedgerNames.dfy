/** Which name the ladder of receipt checks prints for which fault, and which the verdict over a ledger carries. */
module LedgerNames {
  import opened Prelude
  import opened Receipts
  import opened Evidence
  import opened LedgerCheck

  datatype Fault =
    | RoundTripBroken | HashMismatch | KeyUnknown | SignatureInvalid | OutsideKeyWindow | LinkBroken
    | MarkedCorrupt | MarkedUnreadable | MarkUnknown | TombstoneElsewhere | TombstoneCorrupt | TombstoneUnread
    | ApprovalMismatch | ActionIncomplete | CustodyMismatch

  function NameOf(f: Fault): string {
    match f
    case RoundTripBroken => "canonical_roundtrip_broken" case HashMismatch => "hash_mismatch"
    case KeyUnknown => "key_unknown" case SignatureInvalid => "signature_invalid"
    case OutsideKeyWindow => "key_window_violated" case LinkBroken => "chain_link_broken"
    case MarkedCorrupt => "approval_evidence_corrupt" case MarkedUnreadable => "approval_evidence_unreadable"
    case MarkUnknown => "approval_evidence_unknown_mark" case TombstoneElsewhere => "tombstone_action_mismatch"
    case TombstoneCorrupt => "tombstone_corrupt" case TombstoneUnread => "tombstone_read_failed"
    case ApprovalMismatch => "approval_mismatch" case ActionIncomplete => "action_evidence_incomplete"
    case CustodyMismatch => "custody_mismatch"
  }

  /** The order of the ladder. */
  function Place(f: Fault): nat {
    match f
    case RoundTripBroken => 0 case HashMismatch => 1 case KeyUnknown => 2 case SignatureInvalid => 3
    case OutsideKeyWindow => 4 case LinkBroken => 5 case MarkedCorrupt => 6 case MarkedUnreadable => 7
    case MarkUnknown => 8 case TombstoneElsewhere => 9 case TombstoneCorrupt => 10 case TombstoneUnread => 11
    case ApprovalMismatch => 12 case ActionIncomplete => 13 case CustodyMismatch => 14
  }

  /** The receipts of one partition, and one of them. */
  datatype Case = Case(env: Env, rows: seq<Receipt>, r: Receipt)

  /** The approval digest is a digest: neither missing nor one of the sealer's marks. */
  predicate SealsDigest(r: Receipt) { SealsApproval(r) && SealedShape(r.approvalDigest) }

  predicate SealsMark(r: Receipt) { SealsApproval(r) && !SealedShape(r.approvalDigest) }

  const CORRUPT_ROWS := ["corrupt:row_scan", "corrupt:decision_at", "corrupt:decision_principal",
                         "corrupt:decision_verb", "corrupt:approval_missing", "corrupt:status"]

  /** What is wrong with the receipt. */
  ghost predicate Present(f: Fault, c: Case) {
    var Case(env, rows, r) := c;
    match f
    case RoundTripBroken =>
      ParseCanonicalReceipt(env.clock, CanonicalReceipt(env.clock, r)).Err? ||
      HashOf(env, ParseCanonicalReceipt(env.clock, CanonicalReceipt(env.clock, r)).value) != HashOf(env, r)
    case HashMismatch => ComputeReceiptHash(env.hash, env.clock, r) != r.receiptHash
    case KeyUnknown => r.signingKeyId !in env.keys || env.keys[r.signingKeyId].publicKey.None?
    case SignatureInvalid =>
      r.signingKeyId in env.keys && env.keys[r.signingKeyId].publicKey.Some? &&
      !env.verifies(env.keys[r.signingKeyId].publicKey.value, r)
    case OutsideKeyWindow =>
      r.signingKeyId in env.keys && var key := env.keys[r.signingKeyId];
        r.finishedAt < key.createdAt || (key.retiredAt != 0 && key.retiredAt < r.finishedAt)
    case LinkBroken =>
      if r.chainSeq == 0 then r.previousReceiptHash != GENESIS
      else !exists k: nat :: FirstAt(rows, r.chainSeq - 1, k) && rows[k].receiptHash == r.previousReceiptHash
    case MarkedCorrupt => SealsMark(r) && r.approvalDigest in CORRUPT_ROWS
    case MarkedUnreadable => SealsMark(r) && r.approvalDigest == "unreadable:driver"
    case MarkUnknown =>
      SealsMark(r) && r.approvalDigest !in CORRUPT_ROWS && r.approvalDigest != "unreadable:driver"
    case TombstoneElsewhere =>
      SealsDigest(r) && var t := env.store.tombstone(r.approvalDigest); t.Tombstone? && t.actionId != r.actionId
    case TombstoneCorrupt =>
      SealsDigest(r) && var t := env.store.tombstone(r.approvalDigest);
        t.Corrupt? || (t.Tombstone? && t.actionId == r.actionId && t.digest != r.approvalDigest)
    case TombstoneUnread => SealsDigest(r) && env.store.tombstone(r.approvalDigest).ReadFailed?
    case ApprovalMismatch =>
      SealsDigest(r) && env.store.approval(r.actionId) != Found(r.approvalDigest) && !ApprovalGone(env.store, r)
    case ActionIncomplete =>
      !OfIntent(r) && env.store.present(r.actionId).Some? && var p := env.store.present(r.actionId).value;
        p.actionRow != p.decisionRow
    case CustodyMismatch =>
      !OfIntent(r) && !BothGone(env.store, r) && !CustodyStands(env.store, r, IsLast(env, rows, r)) &&
      !(env.store.present(r.actionId).Some? &&
        env.store.present(r.actionId).value.actionRow != env.store.present(r.actionId).value.decisionRow)
  }

  /** The first row at a number. */
  predicate FirstAt(rows: seq<Receipt>, chainSeq: int, k: nat) {
    k < |rows| && rows[k].chainSeq == chainSeq && forall j :: 0 <= j < k ==> rows[j].chainSeq != chainSeq
  }

  /** A list of failures of the faults at some places of the ladder: each named when present, the first one first. */
  ghost predicate Tells(failures: seq<string>, from: nat, upTo: nat, c: Case) {
    && (forall name :: name in failures <==> TellsOf(name, from, upTo, c))
    && (failures != [] ==> exists f: Fault :: NameOf(f) == failures[0] && FirstIn(f, from, upTo, c))
  }

  ghost predicate TellsOf(name: string, from: nat, upTo: nat, c: Case) {
    exists f: Fault :: from <= Place(f) < upTo && NameOf(f) == name && Present(f, c)
  }

  ghost predicate FirstIn(f: Fault, from: nat, upTo: nat, c: Case) {
    from <= Place(f) < upTo && Present(f, c) && forall g: Fault :: from <= Place(g) < Place(f) ==> !Present(g, c)
  }

  lemma TellsInTurn(a: seq<string>, b: seq<string>, from: nat, middle: nat, upTo: nat, c: Case)
    requires Tells(a, from, middle, c) && Tells(b, middle, upTo, c) && from <= middle <= upTo
    ensures Tells(a + b, from, upTo, c)
  {
    hide NameOf, Present;
    forall name ensures name in a + b <==> TellsOf(name, from, upTo, c) {
      if f: Fault :| from <= Place(f) < upTo && NameOf(f) == name && Present(f, c) {
        assert TellsOf(name, from, middle, c) || TellsOf(name, middle, upTo, c);
      }
    }
    forall g: Fault | from <= Place(g) < middle && Present(g, c) ensures NameOf(g) in a {
      assert TellsOf(NameOf(g), from, middle, c);
    }
    if a != [] {
      var f: Fault :| NameOf(f) == a[0] && FirstIn(f, from, middle, c);
      assert FirstIn(f, from, upTo, c);
    } else if b != [] {
      var f: Fault :| NameOf(f) == b[0] && FirstIn(f, middle, upTo, c);
      assert FirstIn(f, from, upTo, c);
    }
  }

  /** A check that has one failure to tell, once or more. */
  lemma OneTells(f: Fault, failures: seq<string>, c: Case)
    requires (failures != [] <==> Present(f, c)) && forall name :: name in failures ==> name == NameOf(f)
    ensures Tells(failures, Place(f), Place(f) + 1, c)
  {
    hide NameOf, Present;
    forall g: Fault | Place(g) == Place(f) ensures g == f {
      PlacesDiffer(f, g);
    }
    assert failures != [] ==> failures[0] in failures;
    forall name ensures name in failures <==> TellsOf(name, Place(f), Place(f) + 1, c) { }
    assert Present(f, c) ==> FirstIn(f, Place(f), Place(f) + 1, c);
  }

  lemma PlacesDiffer(f: Fault, g: Fault)
    ensures Place(f) < 15 && (Place(f) == Place(g) <==> f == g)
  { }

  function Signature(f: Fault): (nat, char) { (|NameOf(f)|, if NameOf(f) == "" then ' ' else NameOf(f)[0]) }

  lemma SignatureOf(f: Fault)
    ensures Signature(f) ==
            match f
            case RoundTripBroken => (26, 'c') case HashMismatch => (13, 'h') case KeyUnknown => (11, 'k')
            case SignatureInvalid => (17, 's') case OutsideKeyWindow => (19, 'k') case LinkBroken => (17, 'c')
            case MarkedCorrupt => (25, 'a') case MarkedUnreadable => (28, 'a') case MarkUnknown => (30, 'a')
            case TombstoneElsewhere => (25, 't') case TombstoneCorrupt => (17, 't') case TombstoneUnread => (21, 't')
            case ApprovalMismatch => (17, 'a') case ActionIncomplete => (26, 'a') case CustodyMismatch => (16, 'c')
  { }

  lemma NamesDiffer(f: Fault, g: Fault)
    requires NameOf(f) == NameOf(g)
    ensures f == g
  {
    assert Signature(f) == Signature(g);
    hide Signature, NameOf;
    SignatureOf(f);
    SignatureOf(g);
  }

  // ---- The ladder, check by check ----

  lemma {:induction false} RowAtIs(rows: seq<Receipt>, chainSeq: int)
    ensures RowAt(rows, chainSeq).Some? ==>
              exists k: nat :: FirstAt(rows, chainSeq, k) && rows[k] == RowAt(rows, chainSeq).value
    ensures forall k: nat :: FirstAt(rows, chainSeq, k) ==> RowAt(rows, chainSeq) == Some(rows[k])
  {
    if rows != [] && rows[0].chainSeq == chainSeq {
      assert FirstAt(rows, chainSeq, 0);
    } else if rows != [] {
      RowAtIs(rows[1..], chainSeq);
      if k: nat :| FirstAt(rows[1..], chainSeq, k) && RowAt(rows[1..], chainSeq) == Some(rows[1..][k]) {
        assert rows[k + 1] == rows[1..][k];
        forall j | 0 <= j < k + 1 ensures rows[j].chainSeq != chainSeq {
          assert j > 0 ==> rows[j] == rows[1..][j - 1];
        }
        assert FirstAt(rows, chainSeq, k + 1);
      }
      forall k: nat | FirstAt(rows, chainSeq, k) ensures RowAt(rows, chainSeq) == Some(rows[k]) {
        forall j | 0 <= j < k - 1 ensures rows[1..][j].chainSeq != chainSeq {
          assert rows[1..][j] == rows[j + 1];
        }
        assert rows[k] == rows[1..][k - 1];
        assert FirstAt(rows[1..], chainSeq, k - 1);
      }
    }
  }

  lemma LinkTells(c: Case)
    ensures Tells(if LinkOk(c.rows, c.r) then [] else [LINK], 5, 6, c)
  {
    RowAtIs(c.rows, c.r.chainSeq - 1);
    assert LinkOk(c.rows, c.r) <==> !Present(LinkBroken, c);
    OneTells(LinkBroken, if LinkOk(c.rows, c.r) then [] else [LINK], c);
  }

  lemma ContentTells(c: Case)
    ensures Tells((if RoundTrips(c.env, c.r) then [] else [ROUNDTRIP])
                  + (if HashOf(c.env, c.r) == c.r.receiptHash then [] else [HASH]), 0, 2, c)
  {
    hide ParseCanonicalReceipt, CanonicalReceipt;
    var a, b := if RoundTrips(c.env, c.r) then [] else [ROUNDTRIP],
                if HashOf(c.env, c.r) == c.r.receiptHash then [] else [HASH];
    OneTells(RoundTripBroken, a, c);
    OneTells(HashMismatch, b, c);
    TellsInTurn(a, b, 0, 1, 2, c);
  }

  function Once(f: Fault, there: bool): seq<string> { if there then [NameOf(f)] else [] }

  lemma KeyTells(c: Case)
    ensures Tells(KeyFailures(c.env, c.r), 2, 5, c)
  {
    var known := c.r.signingKeyId in c.env.keys;
    var unknown := Once(KeyUnknown, !known || c.env.keys[c.r.signingKeyId].publicKey.None?);
    var forged := Once(SignatureInvalid, known && c.env.keys[c.r.signingKeyId].publicKey.Some? &&
                                         !c.env.verifies(c.env.keys[c.r.signingKeyId].publicKey.value, c.r));
    var window := if !known then [] else
      Once(OutsideKeyWindow, c.r.finishedAt < c.env.keys[c.r.signingKeyId].createdAt)
      + Once(OutsideKeyWindow, c.env.keys[c.r.signingKeyId].retiredAt != 0 &&
                               c.r.finishedAt > c.env.keys[c.r.signingKeyId].retiredAt);
    assert KeyFailures(c.env, c.r) == unknown + forged + window;
    OneTells(KeyUnknown, unknown, c);
    OneTells(SignatureInvalid, forged, c);
    OneTells(OutsideKeyWindow, window, c);
    TellsInTurn(unknown, forged, 2, 3, 4, c);
    TellsInTurn(unknown + forged, window, 2, 4, 5, c);
  }

  lemma MarkTells(c: Case)
    ensures Tells(if SealsMark(c.r) then [MarkFailure(c.r.approvalDigest)] else [], 6, 9, c)
  {
    var d := c.r.approvalDigest;
    assert CORRUPT_MARKS == CORRUPT_ROWS && UNREADABLE_MARK == "unreadable:driver";
    UnreadableApart();
    var corrupt := Once(MarkedCorrupt, SealsMark(c.r) && d in CORRUPT_ROWS);
    var unreadable := Once(MarkedUnreadable, SealsMark(c.r) && d == "unreadable:driver");
    var unknown := Once(MarkUnknown, SealsMark(c.r) && d !in CORRUPT_ROWS && d != "unreadable:driver");
    OneTells(MarkedCorrupt, corrupt, c);
    OneTells(MarkedUnreadable, unreadable, c);
    OneTells(MarkUnknown, unknown, c);
    TellsInTurn(corrupt, unreadable, 6, 7, 8, c);
    TellsInTurn(corrupt + unreadable, unknown, 6, 8, 9, c);
    assert corrupt + unreadable + unknown == if SealsMark(c.r) then [MarkFailure(d)] else [];
  }

  lemma UnreadableApart()
    ensures "unreadable:driver" !in CORRUPT_ROWS
  { assert forall i :: 0 <= i < 6 ==> CORRUPT_ROWS[i][0] != "unreadable:driver"[0]; }

  lemma TombstoneTells(c: Case)
    ensures Tells(if SealsDigest(c.r) then TombstoneFailures(c.env.store.tombstone(c.r.approvalDigest), c.r) else [],
                  9, 12, c)
  {
    var t, seals := c.env.store.tombstone(c.r.approvalDigest), SealsDigest(c.r);
    var elsewhere := Once(TombstoneElsewhere, seals && t.Tombstone? && t.actionId != c.r.actionId);
    var corrupt := Once(TombstoneCorrupt, seals && (t.Corrupt? ||
      (t.Tombstone? && t.actionId == c.r.actionId && t.digest != c.r.approvalDigest)));
    var unread := Once(TombstoneUnread, seals && t.ReadFailed?);
    OneTells(TombstoneElsewhere, elsewhere, c);
    OneTells(TombstoneCorrupt, corrupt, c);
    OneTells(TombstoneUnread, unread, c);
    TellsInTurn(elsewhere, corrupt, 9, 10, 11, c);
    TellsInTurn(elsewhere + corrupt, unread, 9, 11, 12, c);
    assert elsewhere + corrupt + unread == if seals then TombstoneFailures(t, c.r) else [];
  }

  lemma ApprovalTells(c: Case)
    ensures Tells(ApprovalFailures(c.env.store, c.r), 6, 13, c)
  {
    var mark := if SealsMark(c.r) then [MarkFailure(c.r.approvalDigest)] else [];
    var tomb := if SealsDigest(c.r) then TombstoneFailures(c.env.store.tombstone(c.r.approvalDigest), c.r) else [];
    var row := if SealsDigest(c.r) then RowFailures(c.env.store, c.r) else [];
    MarkTells(c);
    TombstoneTells(c);
    RowTells(c);
    hide MarkFailure, TombstoneFailures, RowFailures, Present, Tells, SealedShape;
    TellsInTurn(mark, tomb, 6, 9, 12, c);
    TellsInTurn(mark + tomb, row, 6, 12, 13, c);
    assert mark + tomb + row == ApprovalFailures(c.env.store, c.r);
  }

  lemma RowTells(c: Case)
    ensures Tells(if SealsDigest(c.r) then RowFailures(c.env.store, c.r) else [], 12, 13, c)
  { OneTells(ApprovalMismatch, if SealsDigest(c.r) then RowFailures(c.env.store, c.r) else [], c); }

  lemma CustodyTells(c: Case)
    ensures Tells(CustodyFailures(c.env.store, c.r, IsLast(c.env, c.rows, c.r)), 13, 15, c)
  {
    hide IsLast;
    var all := CustodyFailures(c.env.store, c.r, IsLast(c.env, c.rows, c.r));
    var p := c.env.store.present(c.r.actionId);
    var partial := !OfIntent(c.r) && p.Some? && p.value.actionRow != p.value.decisionRow;
    var incomplete, custody := Once(ActionIncomplete, partial), if partial then [] else all;
    OneTells(ActionIncomplete, incomplete, c);
    OneTells(CustodyMismatch, custody, c);
    TellsInTurn(incomplete, custody, 13, 14, 15, c);
    assert incomplete + custody == all;
  }

  /** The ladder names every fault that is there, and nothing else, and the first one first. */
  lemma LadderTells(env: Env, rows: seq<Receipt>, r: Receipt)
    ensures Tells(Failures(env, rows, r), 0, 15, Case(env, rows, r))
  {
    var c := Case(env, rows, r);
    ContentTells(c);
    KeyTells(c);
    LinkTells(c);
    ApprovalTells(c);
    CustodyTells(c);
    hide Tells, RoundTrips, HashOf, KeyFailures, LinkOk, ApprovalFailures, CustodyFailures, IsLast;
    var content := (if RoundTrips(env, r) then [] else [ROUNDTRIP])
                   + (if HashOf(env, r) == r.receiptHash then [] else [HASH]);
    var key, link := KeyFailures(env, r), if LinkOk(rows, r) then [] else [LINK];
    var approval, custody := ApprovalFailures(env.store, r), CustodyFailures(env.store, r, IsLast(env, rows, r));
    TellsInTurn(content, key, 0, 2, 5, c);
    TellsInTurn(content + key, link, 0, 5, 6, c);
    TellsInTurn(content + key + link, approval, 0, 6, 13, c);
    TellsInTurn(content + key + link + approval, custody, 0, 13, 15, c);
    assert Failures(env, rows, r) == content + key + link + approval + custody;
  }

  /** Each name is printed for a receipt exactly when its fault is there, and no other name ever is. */
  lemma NamesExactly(env: Env, rows: seq<Receipt>, r: Receipt)
    ensures forall f: Fault :: NameOf(f) in Failures(env, rows, r) <==> Present(f, Case(env, rows, r))
    ensures forall name :: name in Failures(env, rows, r) ==> exists f: Fault :: NameOf(f) == name
  {
    hide Failures, Present, NameOf;
    var c := Case(env, rows, r);
    LadderTells(env, rows, r);
    forall f: Fault ensures NameOf(f) in Failures(env, rows, r) <==> Present(f, c) {
      PlacesDiffer(f, f);
      if g: Fault :| 0 <= Place(g) < 15 && NameOf(g) == NameOf(f) && Present(g, c) {
        NamesDiffer(f, g);
      }
    }
    forall name | name in Failures(env, rows, r) ensures exists f: Fault :: NameOf(f) == name {
      assert TellsOf(name, 0, 15, c);
    }
  }

  /** Of the faults that are there, the ladder's first is told first; a receipt without any has no failure. */
  lemma FirstNameExactly(env: Env, rows: seq<Receipt>, r: Receipt)
    ensures Failures(env, rows, r) == [] <==> forall f: Fault :: !Present(f, Case(env, rows, r))
    ensures forall f: Fault :: Failures(env, rows, r) != [] && Failures(env, rows, r)[0] == NameOf(f) <==>
                               FirstIn(f, 0, 15, Case(env, rows, r))
  {
    hide Failures, Present, NameOf, Tells;
    var c, all := Case(env, rows, r), Failures(env, rows, r);
    NamesExactly(env, rows, r);
    LadderTells(env, rows, r);
    assert all != [] ==> all[0] in all;
    forall f: Fault ensures all != [] && all[0] == NameOf(f) <==> FirstIn(f, 0, 15, c) {
      FirstNamed(f, all, c);
    }
  }

  lemma FirstNamed(f: Fault, all: seq<string>, c: Case)
    requires Tells(all, 0, 15, c)
    ensures all != [] && all[0] == NameOf(f) <==> FirstIn(f, 0, 15, c)
  {
    hide Present, NameOf;
    PlacesDiffer(f, f);
    assert FirstIn(f, 0, 15, c) ==> TellsOf(NameOf(f), 0, 15, c);
    if all != [] {
      var g: Fault :| NameOf(g) == all[0] && FirstIn(g, 0, 15, c);
      PlacesDiffer(f, g);
      if all[0] == NameOf(f) {
        NamesDiffer(f, g);
      }
    }
  }

  // ---- The verdict ----

  /** The verdict carries a name exactly when, behind receipts without a fault, its fault is the first of a receipt. */
  lemma VerdictNames(env: Env, rows: seq<Receipt>, i: nat, f: Fault)
    requires i < |rows|
    ensures Judges(env, rows, Broken(i, NameOf(f))) <==>
            InSequence(rows, |rows|) && FirstIn(f, 0, 15, Case(env, rows, rows[i]))
            && forall j, g: Fault :: 0 <= j < i ==> !Present(g, Case(env, rows, rows[j]))
  {
    hide Failures, Present, NameOf, FirstIn;
    FirstNameExactly(env, rows, rows[i]);
    forall j | 0 <= j < i
      ensures Failures(env, rows, rows[j]) == [] <==> forall g: Fault :: !Present(g, Case(env, rows, rows[j])) {
      FirstNameExactly(env, rows, rows[j]);
    }
  }

  // ---- An edited receipt ----

  lemma {:induction false} LastOfEdited(rows: seq<Receipt>, i: nat, edited: Receipt, actionId: string)
    requires i < |rows| && edited.actionId == rows[i].actionId && edited.receiptId == rows[i].receiptId
    ensures var was, now := LastOf(rows, actionId), LastOf(rows[i := edited], actionId);
            was.Some? == now.Some? && (was.Some? ==> was.value.receiptId == now.value.receiptId)
    decreases |rows|
  {
    var n, all := |rows| - 1, rows[i := edited];
    if i == n {
      assert all[..n] == rows[..n];
    } else {
      assert all[..n] == rows[..n][i := edited];
      LastOfEdited(rows[..n], i, edited, actionId);
    }
  }

  /** A receipt before the edited one fails exactly when the edit took its evidence away. */
  lemma EarlierRow(env: Env, rows: seq<Receipt>, i: nat, edited: Receipt, j: nat)
    requires LedgerCheck.Accepted(env, rows) && j < i < |rows| && edited.chainSeq == i
    ensures var all := rows[i := edited];
            InSequence(all, |all|) && (Failures(env, all, all[j]) == [] <==> EvidenceStands(env, all, rows[j]))
  {
    hide RoundTrips, HashOf, Failures, WellSealed, EvidenceStands;
    var all := rows[i := edited];
    AcceptedRow(env, rows, j);
    FailuresExact(env, all, rows[j]);
    if j > 0 {
      RowAtInSequence(all, 0, j - 1);
      AcceptedRow(env, rows, j - 1);
      assert all[0..] == all;
    }
  }

  lemma HashFirst(env: Env, rows: seq<Receipt>, r: Receipt)
    requires RoundTrips(env, r) && HashOf(env, r) != r.receiptHash
    ensures Failures(env, rows, r) != [] && Failures(env, rows, r)[0] == "hash_mismatch"
  { hide RoundTrips, HashOf, KeyFailures, LinkOk, ApprovalFailures, CustodyFailures, IsLast; }

  /**
   A signed field of one receipt of an accepted ledger edited, its number and stored hash kept: the verdict names
   the hash at that place, unless the edit took an earlier receipt's evidence away, as moving the last receipt of an
   action can. With its identity and its action kept it never does.
   */
  lemma EditNamed(env: Env, rows: seq<Receipt>, i: nat, edited: Receipt)
    requires Sound(env) && LedgerCheck.Accepted(env, rows) && i < |rows| && RoundTrips(env, edited)
    requires edited.chainSeq == i && edited.receiptHash == rows[i].receiptHash && Signable(edited) != Signable(rows[i])
    ensures Judges(env, rows[i := edited], Broken(i, "hash_mismatch")) <==>
            forall j :: 0 <= j < i ==> EvidenceStands(env, rows[i := edited], rows[j])
    ensures edited.receiptId == rows[i].receiptId && edited.actionId == rows[i].actionId ==>
              Judges(env, rows[i := edited], Broken(i, "hash_mismatch"))
  {
    hide RoundTrips, HashOf, Failures, WellSealed, EvidenceStands, Signable;
    var all := rows[i := edited];
    AcceptedRow(env, rows, i);
    if HashOf(env, edited) == edited.receiptHash {
      SameHash(env, edited, rows[i]);
    }
    HashFirst(env, all, edited);
    forall k | 0 <= k < |all| ensures all[k].chainSeq == k {
      AcceptedRow(env, rows, k);
    }
    forall j | 0 <= j < i ensures Failures(env, all, all[j]) == [] <==> EvidenceStands(env, all, rows[j]) {
      EarlierRow(env, rows, i, edited, j);
    }
    if edited.receiptId == rows[i].receiptId && edited.actionId == rows[i].actionId {
      forall j | 0 <= j < i ensures EvidenceStands(env, all, rows[j]) {
        AcceptedRow(env, rows, j);
        EvidenceKept(env, rows, i, edited, rows[j]);
      }
    }
  }

  lemma EvidenceKept(env: Env, rows: seq<Receipt>, i: nat, edited: Receipt, r: Receipt)
    requires i < |rows| && edited.actionId == rows[i].actionId && edited.receiptId == rows[i].receiptId
    requires EvidenceStands(env, rows, r)
    ensures EvidenceStands(env, rows[i := edited], r)
  {
    hide ApprovalStands, CustodyStands;
    LastOfEdited(rows, i, edited, r.actionId);
  }
}
