/**
 The first generation of delegated authority: the attenuation check of one edge, what a grant admits
 at an instant, and the budget ledger, with what the checks add up to along a chain of any length.

 Instants are integers with 0 for Go's zero time.
 */
module Attenuation {
  import opened Prelude
  import opened Effects

  datatype Status = Draft | Active | Expired | Revoked | Unknown

  datatype Budgets = Budgets(maxActions: int, perOperation: map<string, int>)

  datatype Grant = Grant(
    grantId: string, intentId: string, issuer: string, subject: string, parentGrantId: string,
    operations: seq<string>, resources: seq<string>, budgets: Budgets,
    validFrom: int, expiresAt: int, depth: int, effectCeiling: EffectClass, status: Status)

  // ---- One edge ----

  predicate CoveredBy(item: string, parentSet: seq<string>) { item in parentSet || "*" in parentSet }

  datatype Dimension = Intent | Parent | Issuer | Depth | Operations | Resources | Budget | Expiry | EffectCeiling |
      Window

  /** ValidateAttenuation: the first dimension in which the child widens its parent. */
  function ValidateAttenuation(parent: Grant, child: Grant): Option<Dimension> {
    if child.intentId != parent.intentId then Some(Intent)
    else if child.parentGrantId != parent.grantId then Some(Parent)
    else if child.issuer != parent.subject then Some(Issuer)
    else if parent.depth <= 0 || child.depth >= parent.depth then Some(Depth)
    else if exists op :: op in child.operations && !CoveredBy(op, parent.operations) then Some(Operations)
    else if exists r :: r in child.resources && !CoveredBy(r, parent.resources) then Some(Resources)
    else if parent.budgets.maxActions != 0
            && (child.budgets.maxActions == 0 || child.budgets.maxActions > parent.budgets.maxActions) then Some(Budget)
    else if parent.expiresAt != 0 && (child.expiresAt == 0 || child.expiresAt > parent.expiresAt) then Some(Expiry)
    else if parent.effectCeiling != "" && (child.effectCeiling == "" ||
        Rank(child.effectCeiling) > Rank(parent.effectCeiling))
    then Some(EffectCeiling)
    else if child.validFrom < parent.validFrom then Some(Window)
    else None
  }

  /** The child has no more of a dimension than the parent; zero means unlimited, for a budget and an expiry. */
  ghost predicate Keeps(d: Dimension, parent: Grant, child: Grant) {
    match d
    case Intent => child.intentId == parent.intentId
    case Parent => child.parentGrantId == parent.grantId
    case Issuer => child.issuer == parent.subject
    case Depth => 0 < parent.depth && child.depth < parent.depth
    case Operations => forall op :: op in child.operations ==> op in parent.operations || "*" in parent.operations
    case Resources => forall r :: r in child.resources ==> r in parent.resources || "*" in parent.resources
    case Budget =>
      parent.budgets.maxActions != 0 ==>
        child.budgets.maxActions != 0 && child.budgets.maxActions <= parent.budgets.maxActions
    case Expiry => parent.expiresAt != 0 ==> child.expiresAt != 0 && child.expiresAt <= parent.expiresAt
    case EffectCeiling =>
      parent.effectCeiling != "" ==>
        child.effectCeiling != "" && Rank(child.effectCeiling) <= Rank(parent.effectCeiling)
    case Window => parent.validFrom <= child.validFrom
  }

  /** The order in which they are judged. */
  function Place(d: Dimension): nat {
    match d
    case Intent => 0 case Parent => 1 case Issuer => 2 case Depth => 3 case Operations => 4 case Resources => 5
    case Budget => 6 case Expiry => 7 case EffectCeiling => 8 case Window => 9
  }

  /** One edge, exactly: accepted when every dimension keeps, else refused for the first that does not. */
  lemma AttenuationExactly(parent: Grant, child: Grant)
    ensures ValidateAttenuation(parent, child) == None <==> forall d: Dimension :: Keeps(d, parent, child)
    ensures forall d: Dimension ::
              ValidateAttenuation(parent, child) == Some(d) <==>
              !Keeps(d, parent, child) && forall e: Dimension :: Place(e) < Place(d) ==> Keeps(e, parent, child)
  {
    hide Rank;
    var bad := ValidateAttenuation(parent, child);
    CoversKeep(parent, child);
    if bad.Some? {
      assert !Keeps(bad.value, parent, child);
      forall e: Dimension | Place(e) < Place(bad.value) ensures Keeps(e, parent, child) { }
    } else {
      forall d: Dimension ensures Keeps(d, parent, child) { }
    }
  }

  lemma CoversKeep(parent: Grant, child: Grant)
    ensures Keeps(Operations, parent, child) <==>
            !exists op :: op in child.operations && !CoveredBy(op, parent.operations)
    ensures Keeps(Resources, parent, child) <==>
            !exists r :: r in child.resources && !CoveredBy(r, parent.resources)
  { }

  datatype Rule = Granted | AuthorityRevoked | AuthorityExpired | AuthorityInactive

  /** ValidateGrantAt: a withdrawal outranks the window, and the clock outranks a stale status. */
  function ValidateGrantAt(g: Grant, at: int): Rule {
    match g.status
    case Revoked => AuthorityRevoked
    case Expired => AuthorityExpired
    case Active =>
      if at < g.validFrom then AuthorityInactive
      else if g.expiresAt != 0 && at >= g.expiresAt then AuthorityExpired
      else Granted
    case _ => AuthorityInactive
  }

  /** What a grant admits at an instant. */
  predicate Admits(g: Grant, op: string, resource: string, at: int, effect: EffectClass) {
    && CoveredBy(op, g.operations)
    && CoveredBy(resource, g.resources)
    && ValidateGrantAt(g, at) == Granted
    && (g.effectCeiling != "" ==> Rank(effect) <= Rank(g.effectCeiling))
  }

  // ---- Chains ----

  ghost predicate Edge(parent: Grant, child: Grant) { ValidateAttenuation(parent, child) == None }

  ghost predicate EdgeAt(chain: seq<Grant>, i: int)
    requires 0 < i < |chain|
  { Edge(chain[i - 1], chain[i]) }

  /** Root first, every edge accepted. */
  ghost predicate Chain(chain: seq<Grant>) { forall i :: 0 < i < |chain| ==> EdgeAt(chain, i) }

  /** An accepted edge passes a use on to the parent, the parent's own status aside. */
  lemma EdgePassesUse(parent: Grant, child: Grant, op: string, resource: string, at: int, effect: EffectClass)
    requires Edge(parent, child) && Admits(child, op, resource, at, effect)
    ensures parent.status == Active ==> Admits(parent, op, resource, at, effect)
  {
    hide Rank;
    assert "*" in child.operations ==> CoveredBy("*", parent.operations);
    assert "*" in child.resources ==> CoveredBy("*", parent.resources);
    assert op in child.operations ==> CoveredBy(op, parent.operations);
    assert resource in child.resources ==> CoveredBy(resource, parent.resources);
  }

  /** The authority of a grant never exceeds any ancestor's: a use the leaf admits, every active ancestor admits. */
  lemma {:induction false} LeafUsesAreAdmitted(chain: seq<Grant>, i: nat, j: nat, op: string, resource: string,
    at: int, effect: EffectClass)
    requires Chain(chain) && i <= j < |chain|
    requires forall k :: 0 <= k < |chain| ==> chain[k].status == Active
    requires Admits(chain[j], op, resource, at, effect)
    ensures Admits(chain[i], op, resource, at, effect)
    decreases j
  {
    hide Admits, Edge;
    if i < j {
      assert EdgeAt(chain, j);
      EdgePassesUse(chain[j - 1], chain[j], op, resource, at, effect);
      LeafUsesAreAdmitted(chain, i, j - 1, op, resource, at, effect);
    }
  }

  /**
   The edge check is no stricter than its purpose in time: when it refuses a child for its expiry or
   its window, there is an instant at which the child would admit what its parent does not.
   */
  lemma ExpiryOrWindowSeparates(parent: Grant, child: Grant, op: string, resource: string, effect: EffectClass)
    requires parent.status == Active && child.status == Active
    requires Admits(child, op, resource, child.validFrom, effect)
    requires ValidateAttenuation(parent, child) in {Some(Expiry), Some(Window)}
    ensures exists at :: Admits(child, op, resource, at, effect) && !Admits(parent, op, resource, at, effect)
  {
    hide Rank, CoveredBy;
    var at := if ValidateAttenuation(parent, child) == Some(Window) then child.validFrom
              else if child.validFrom >= parent.expiresAt then child.validFrom else parent.expiresAt;
    assert Admits(child, op, resource, at, effect);
    assert !Admits(parent, op, resource, at, effect);
  }

  /** Depth strictly falls, so a chain is no longer than its root's depth allows. */
  lemma {:induction false} ChainLength(chain: seq<Grant>, i: nat)
    requires Chain(chain) && i < |chain|
    ensures i > 0 ==> chain[0].depth >= i && chain[i].depth <= chain[0].depth - i
  {
    if i > 0 {
      ChainLength(chain, i - 1);
      assert EdgeAt(chain, i);
    }
  }

  /** A limit anywhere above is kept by a limit of one's own below it. */
  lemma {:induction false} LimitsTighten(chain: seq<Grant>, i: nat, j: nat)
    requires Chain(chain) && i <= j < |chain| && chain[i].budgets.maxActions != 0
    ensures chain[j].budgets.maxActions != 0 && chain[j].budgets.maxActions <= chain[i].budgets.maxActions
    decreases j
  {
    if i < j {
      LimitsTighten(chain, i, j - 1);
      assert EdgeAt(chain, j);
    }
  }

  // ---- The budget ledger ----

  datatype Books = Books(limits: Budgets, total: nat, perOp: map<string, nat>)

  function Used(perOp: map<string, nat>, op: string): nat { if op in perOp then perOp[op] else 0 }

  predicate Exhausted(b: Books, op: string) {
    || (b.limits.maxActions != 0 && b.total >= b.limits.maxActions)
    || (op in b.limits.perOperation && b.limits.perOperation[op] != 0 && Used(b.perOp, op) >= b.limits.perOperation[op])
  }

  function Charged(b: Books, op: string): Books {
    if Exhausted(b, op) then b else b.(total := b.total + 1, perOp := b.perOp[op := Used(b.perOp, op) + 1])
  }

  /** The serialized ledger over one contract's budgets. */
  class BudgetLedger {
    const limits: Budgets
    var total: nat
    var perOp: map<string, nat>

    function Current(): Books
      reads this
    { Books(limits, total, perOp) }

    constructor (limits: Budgets)
      ensures Current() == Fresh(limits)
    {
      this.limits := limits;
      total, perOp := 0, map[];
    }

    /** Consume: grants while there is room under both caps; a denial consumes nothing. */
    method Consume(op: string) returns (granted: bool)
      modifies this
      ensures granted == !Exhausted(old(Current()), op)
      ensures Current() == Charged(old(Current()), op)
    {
      if limits.maxActions != 0 && total >= limits.maxActions {
        return false;
      }
      var used := Used(perOp, op);
      if op in limits.perOperation && limits.perOperation[op] != 0 && used >= limits.perOperation[op] {
        return false;
      }
      total := total + 1;
      perOp := perOp[op := used + 1];
      granted := true;
    }
  }

  function Fresh(limits: Budgets): Books { Books(limits, 0, map[]) }

  /** The ledger after a series of calls. */
  function ChargedAll(limits: Budgets, ops: seq<string>): Books {
    if ops == [] then Fresh(limits) else Charged(ChargedAll(limits, ops[..|ops| - 1]), ops[|ops| - 1])
  }

  ghost function SumOf(m: map<string, nat>): nat {
    if m == map[] then 0 else var k :| k in m; m[k] + SumOf(m - {k})
  }

  lemma {:induction false} SumRemove(m: map<string, nat>, k: string)
    requires k in m
    ensures SumOf(m) == m[k] + SumOf(m - {k})
    decreases |m|
  {
    var j :| j in m && SumOf(m) == m[j] + SumOf(m - {j});
    if j != k {
      SumRemove(m - {j}, k);
      SumRemove(m - {k}, j);
      assert m - {j} - {k} == m - {k} - {j};
    }
  }

  lemma SumUpdate(m: map<string, nat>, k: string, v: nat)
    ensures SumOf(m[k := v]) == SumOf(m) - Used(m, k) + v
  {
    SumRemove(m[k := v], k);
    if k in m {
      SumRemove(m, k);
      assert m[k := v] - {k} == m - {k};
    } else {
      assert m[k := v] - {k} == m;
    }
  }

  function Count(ops: seq<string>, op: string): nat {
    if ops == [] then 0 else Count(ops[..|ops| - 1], op) + if ops[|ops| - 1] == op then 1 else 0
  }

  /**
   After any series of calls: the total is the sum of the per-operation counts, no cap that bites is
   exceeded, no operation is charged more often than it was asked for, and an operation that was
   asked for more often than it was charged met a full cap.
   */
  lemma {:induction false} LedgerKeepsBudgets(limits: Budgets, ops: seq<string>, op: string)
    ensures var b := ChargedAll(limits, ops);
            && b.limits == limits
            && b.total == SumOf(b.perOp)
            && (limits.maxActions != 0 ==> b.total <= if limits.maxActions > 0 then limits.maxActions else 0)
            && (op in limits.perOperation && limits.perOperation[op] != 0 ==>
                  Used(b.perOp, op) <= if limits.perOperation[op] > 0 then limits.perOperation[op] else 0)
            && Used(b.perOp, op) <= Count(ops, op)
            && (Used(b.perOp, op) < Count(ops, op) ==> Exhausted(b, op))
  {
    if ops != [] {
      var before, last := ops[..|ops| - 1], ops[|ops| - 1];
      LedgerKeepsBudgets(limits, before, op);
      SumUpdate(ChargedAll(limits, before).perOp, last, Used(ChargedAll(limits, before).perOp, last) + 1);
    }
  }

  /** A ledger on the leaf's budgets never grants more than any ancestor's limit. */
  lemma LeafStaysWithinAncestors(chain: seq<Grant>, i: nat, j: nat, ops: seq<string>)
    requires Chain(chain) && i <= j < |chain| && chain[i].budgets.maxActions > 0
    ensures ChargedAll(chain[j].budgets, ops).total <= chain[i].budgets.maxActions
  {
    LimitsTighten(chain, i, j);
    LedgerKeepsBudgets(chain[j].budgets, ops, "");
  }

  /** Once exhausted for an operation, a ledger stays so. */
  lemma {:induction false} ExhaustedForGood(limits: Budgets, first: seq<string>, second: seq<string>, op: string)
    requires Exhausted(ChargedAll(limits, first), op)
    ensures Exhausted(ChargedAll(limits, first + second), op)
  {
    if second == [] {
      assert first + second == first;
    } else {
      var more := second[..|second| - 1];
      assert (first + second)[..|first + second| - 1] == first + more;
      ExhaustedForGood(limits, first, more, op);
      LedgerKeepsBudgets(limits, first + more, op);
    }
  }
}
