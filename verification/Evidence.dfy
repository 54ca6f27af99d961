/**
 The evidence `receipt verify` reads beside a receipt: the approval it seals, the tombstone of that approval,
 and the rows of its action. What the store answers is a function of the action or the digest asked for.
 */
module Evidence {
  import opened Prelude
  import opened Receipts

  datatype Read<+T> = Absent | Unreadable | Found(value: T)

  /** Which rows of an action are there. */
  datatype Presence = Presence(actionRow: bool, decisionRow: bool)

  datatype ActionRecord = ActionRecord(state: string, parametersDigest: string)

  /** A tombstone as read back: corrupt, not read at all, or an approval's action and re-derived digest. */
  datatype TombstoneRead = NoTombstone | Corrupt | ReadFailed | Tombstone(actionId: string, digest: string)

  datatype Store = Store(
    present: string -> Option<Presence>, record: string -> Read<ActionRecord>, approval: string -> Read<string>,
    tombstone: string -> TombstoneRead, lists: string -> bool)

  const LIFECYCLE := "iev_"

  predicate HasPrefix(s: string, prefix: string) { |prefix| <= |s| && s[..|prefix|] == prefix }

  /** A receipt of a signed intent event descends from no action. */
  predicate OfIntent(r: Receipt) { HasPrefix(r.actionId, LIFECYCLE) }

  predicate HexDigit(c: char) { '0' <= c <= '9' || 'a' <= c <= 'f' }

  /** The shape of a digest the sealer writes. */
  predicate SealedShape(d: string) {
    |d| == 71 && HasPrefix(d, "sha256:") && forall i :: 7 <= i < |d| ==> HexDigit(d[i])
  }

  const CORRUPT_MARKS := ["corrupt:row_scan", "corrupt:decision_at", "corrupt:decision_principal",
                          "corrupt:decision_verb", "corrupt:approval_missing", "corrupt:status"]
  const UNREADABLE_MARK := "unreadable:driver"

  // ---- The failures, by name ----

  const EVIDENCE_CORRUPT := "approval_evidence_corrupt"
  const EVIDENCE_UNREADABLE := "approval_evidence_unreadable"
  const UNKNOWN_MARK := "approval_evidence_unknown_mark"
  const TOMBSTONE_ACTION := "tombstone_action_mismatch"
  const TOMBSTONE_CORRUPT := "tombstone_corrupt"
  const TOMBSTONE_UNREAD := "tombstone_read_failed"
  const APPROVAL := "approval_mismatch"
  const CUSTODY := "custody_mismatch"
  const INCOMPLETE := "action_evidence_incomplete"

  predicate SealsApproval(r: Receipt) { r.schemaVersion >= 2 && r.approvalDigest != "" }

  function MarkFailure(d: string): string {
    if d in CORRUPT_MARKS then EVIDENCE_CORRUPT else if d == UNREADABLE_MARK then EVIDENCE_UNREADABLE else UNKNOWN_MARK
  }

  function TombstoneFailures(t: TombstoneRead, r: Receipt): seq<string> {
    match t
    case NoTombstone => []
    case Corrupt => [TOMBSTONE_CORRUPT]
    case ReadFailed => [TOMBSTONE_UNREAD]
    case Tombstone(actionId, digest) =>
      if actionId != r.actionId then [TOMBSTONE_ACTION]
      else if digest != r.approvalDigest then [TOMBSTONE_CORRUPT] else []
  }

  function RowFailures(store: Store, r: Receipt): seq<string> {
    match store.approval(r.actionId)
    case Unreadable => [APPROVAL]
    case Found(digest) => if digest != r.approvalDigest then [APPROVAL] else []
    case Absent =>
      match store.present(r.actionId)
      case None => [APPROVAL]
      case Some(p) => if p.actionRow then [APPROVAL] else []
  }

  function ApprovalFailures(store: Store, r: Receipt): seq<string> {
    if !SealsApproval(r) then []
    else if !SealedShape(r.approvalDigest) then [MarkFailure(r.approvalDigest)]
    else TombstoneFailures(store.tombstone(r.approvalDigest), r) + RowFailures(store, r)
  }

  /** The action's rows; `last` says that the receipt is the last of its action. */
  function CustodyFailures(store: Store, r: Receipt, last: bool): seq<string> {
    if OfIntent(r) then []
    else match store.present(r.actionId)
      case None => [CUSTODY]
      case Some(p) =>
        if p.actionRow != p.decisionRow then [INCOMPLETE]
        else if !p.actionRow then []
        else match store.record(r.actionId)
          case Absent => [CUSTODY]
          case Unreadable => [CUSTODY]
          case Found(rec) =>
            (if last && rec.state != r.outcome then [CUSTODY] else [])
            + (if rec.parametersDigest != r.actionDigest then [CUSTODY] else [])
  }

  /** The tombstone proves the sealed approval, or there is none. */
  predicate TombstoneStands(t: TombstoneRead, r: Receipt) {
    t.NoTombstone? || t == Tombstone(r.actionId, r.approvalDigest)
  }

  /** Neither the approval nor its action's row is there. */
  predicate ApprovalGone(store: Store, r: Receipt) {
    store.approval(r.actionId).Absent? && store.present(r.actionId).Some? && !store.present(r.actionId).value.actionRow
  }

  /** The action and its decision are both gone, as retention leaves them. */
  predicate BothGone(store: Store, r: Receipt) { store.present(r.actionId) == Some(Presence(false, false)) }

  function ApprovalNotes(store: Store, r: Receipt): nat {
    if SealsApproval(r) && SealedShape(r.approvalDigest) && ApprovalGone(store, r)
       && TombstoneStands(store.tombstone(r.approvalDigest), r) then 1 else 0
  }

  function CustodyNotes(store: Store, r: Receipt): nat { if !OfIntent(r) && BothGone(store, r) then 1 else 0 }

  /** How many degraded checks a receipt is noted with. */
  function Notes(store: Store, r: Receipt): nat { ApprovalNotes(store, r) + CustodyNotes(store, r) }

  // ---- The checks, as they run ----

  method CheckApproval(store: Store, r: Receipt) returns (failures: seq<string>, notes: nat)
    ensures failures == ApprovalFailures(store, r)
    ensures notes == ApprovalNotes(store, r)
  {
    failures, notes := [], 0;
    var arm := SealsApproval(r);
    if arm && !SealedShape(r.approvalDigest) {
      arm := false;
      failures := failures + [MarkFailure(r.approvalDigest)];
    }
    if arm {
      var tomb, proven := store.tombstone(r.approvalDigest), false;
      match tomb {
        case NoTombstone =>
        case Corrupt => failures := failures + [TOMBSTONE_CORRUPT];
        case ReadFailed => failures := failures + [TOMBSTONE_UNREAD];
        case Tombstone(actionId, digest) =>
          if actionId != r.actionId {
            failures := failures + [TOMBSTONE_ACTION];
          } else if digest != r.approvalDigest {
            failures := failures + [TOMBSTONE_CORRUPT];
          } else {
            proven := true;
          }
      }
      match store.approval(r.actionId)
      case Absent =>
        var present := store.present(r.actionId);
        if present.None? || present.value.actionRow {
          failures := failures + [APPROVAL];
        } else if proven || tomb.NoTombstone? {
          notes := notes + 1;
        }
      case Unreadable => failures := failures + [APPROVAL];
      case Found(digest) =>
        if digest != r.approvalDigest {
          failures := failures + [APPROVAL];
        }
    }
  }

  method CheckCustody(store: Store, r: Receipt, last: bool) returns (failures: seq<string>, notes: nat)
    ensures failures == CustodyFailures(store, r, last)
    ensures notes == CustodyNotes(store, r)
  {
    failures, notes := [], 0;
    if OfIntent(r) {
      return;
    }
    var present := store.present(r.actionId);
    if present.None? {
      return [CUSTODY], 0;
    }
    if !present.value.actionRow && !present.value.decisionRow {
      return [], 1;
    }
    if !present.value.actionRow || !present.value.decisionRow {
      return [INCOMPLETE], 0;
    }
    var rec := store.record(r.actionId);
    if !rec.Found? {
      return [CUSTODY], 0;
    }
    if last && rec.value.state != r.outcome {
      failures := failures + [CUSTODY];
    }
    if rec.value.parametersDigest != r.actionDigest {
      failures := failures + [CUSTODY];
    }
  }

  // ---- What no failure means ----

  /** The sealed approval is the one in its row, or went with its action, and no tombstone says otherwise. */
  predicate ApprovalStands(store: Store, r: Receipt) {
    SealsApproval(r) ==>
      && SealedShape(r.approvalDigest)
      && TombstoneStands(store.tombstone(r.approvalDigest), r)
      && (store.approval(r.actionId) == Found(r.approvalDigest) || ApprovalGone(store, r))
  }

  /** The action's rows are both gone, or both there and say what the receipt says. */
  predicate CustodyStands(store: Store, r: Receipt, last: bool) {
    OfIntent(r) || BothGone(store, r)
    || (store.present(r.actionId) == Some(Presence(true, true)) && store.record(r.actionId).Found?
        && var rec := store.record(r.actionId).value;
           rec.parametersDigest == r.actionDigest && (last ==> rec.state == r.outcome))
  }

  lemma EvidenceExact(store: Store, r: Receipt, last: bool)
    ensures ApprovalFailures(store, r) == [] <==> ApprovalStands(store, r)
    ensures CustodyFailures(store, r, last) == [] <==> CustodyStands(store, r, last)
  { }

  // ---- Retention ----

  /** Prune: the rows of these actions go, with their decisions and approvals; tombstones and receipts stay. */
  function Pruned(store: Store, ids: set<string>): Store {
    store.(present := (id: string) => if id in ids then Some(Presence(false, false)) else store.present(id),
           record := (id: string) => if id in ids then Absent else store.record(id),
           approval := (id: string) => if id in ids then Absent else store.approval(id))
  }

  /** What stood before a prune stands after it, and each check that lost its rows is noted. */
  lemma PruneKeeps(store: Store, ids: set<string>, r: Receipt, last: bool)
    ensures ApprovalStands(store, r) ==> ApprovalStands(Pruned(store, ids), r)
    ensures CustodyStands(store, r, last) ==> CustodyStands(Pruned(store, ids), r, last)
    ensures ApprovalStands(store, r) ==>
              Notes(Pruned(store, ids), r) ==
              if r.actionId in ids then (if SealsApproval(r) then 1 else 0) + (if OfIntent(r) then 0 else 1)
              else Notes(store, r)
  { }

  /**
   Evidence no retention leaves: one of the action's rows without the other, another digest or, behind its
   last receipt, another state in them, an approval that is gone while its action is not or another one, or a
   tombstone that does not prove the sealed one.
   */
  predicate Altered(store: Store, other: Store, r: Receipt, last: bool) {
    var before, after := store.record(r.actionId), other.record(r.actionId);
    || (!OfIntent(r) && match other.present(r.actionId)
                        case None => true
                        case Some(p) =>
                          p.actionRow != p.decisionRow
                          || (p.actionRow && before.Found? && store.present(r.actionId) == Some(p)
                              && (after.Found? ==>
                                    after.value.parametersDigest != before.value.parametersDigest
                                    || (last && after.value.state != before.value.state))))
    || (SealsApproval(r) && !TombstoneStands(other.tombstone(r.approvalDigest), r))
    || (SealsApproval(r) && store.approval(r.actionId).Found? && match other.approval(r.actionId)
                            case Found(digest) => digest != store.approval(r.actionId).value
                            case Unreadable => true
                            case Absent =>
                              other.present(r.actionId).None? || other.present(r.actionId).value.actionRow)
  }

  lemma AlteredFails(store: Store, other: Store, r: Receipt, last: bool)
    requires ApprovalStands(store, r) && CustodyStands(store, r, last) && Altered(store, other, r, last)
    ensures !ApprovalStands(other, r) || !CustodyStands(other, r, last)
  { }

  /** Everything the checks of this receipt ask is answered alike. */
  predicate SameFor(store: Store, other: Store, r: Receipt) {
    && other.present(r.actionId) == store.present(r.actionId) && other.record(r.actionId) == store.record(r.actionId)
    && other.approval(r.actionId) == store.approval(r.actionId)
    && other.tombstone(r.approvalDigest) == store.tombstone(r.approvalDigest)
    && other.lists(r.actionId) == store.lists(r.actionId)
  }
}
