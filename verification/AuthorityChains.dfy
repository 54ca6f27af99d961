/**
 What chains of accepted delegations guarantee, for chains of any length under one intent.

 The use theorem is false for grants whose denied data holds "*": delegation reads that entry as a
 wildcard, the use check reads it literally. WildcardDenialWidens is the witness, and
 UsesTightenExactly says for which pairs of grants of a chain the theorem holds.
 */
module AuthorityChains {
  import opened Prelude
  import opened Authority
  import opened Effects
  import Urls

  /** `child` is what the normalizer returned for some proposal under some remaining balance. */
  ghost predicate Delegated(parent: Grant, child: Grant, intent: Intent, m: Matchers) {
    exists proposed, remaining :: Normalize(parent, proposed, intent, remaining, m) == Ok(child)
  }

  ghost predicate Chain(gs: seq<Grant>, intent: Intent, m: Matchers) {
    |gs| > 0 && forall i :: 0 < i < |gs| ==> DelegatedAt(gs, i, intent, m)
  }

  ghost predicate DelegatedAt(gs: seq<Grant>, i: int, intent: Intent, m: Matchers)
    requires 0 < i < |gs|
  { Delegated(gs[i - 1], gs[i], intent, m) }

  ghost predicate Allows(g: Grant, use: Use, m: Matchers) { ValidateUse(g, use, m) == Allowed }

  // ---- What tightens from an ancestor to a descendant ----

  predicate Covered(c: string, entries: seq<string>) { c in entries || "*" in entries }

  /** Operations, channels, effects, ceiling, window, approval and depth, as what they admit. */
  ghost predicate Tightens(anc: Grant, desc: Grant) {
    && (forall op :: op in desc.operations ==> op in anc.operations)
    && (forall c :: Covered(c, desc.channels) ==> Covered(c, anc.channels))
    && (forall e :: e in desc.effectClasses ==> e in anc.effectClasses)
    && CeilingBound(desc.effectCeiling) <= CeilingBound(anc.effectCeiling)
    && anc.validFrom <= desc.validFrom && desc.expiresAt <= anc.expiresAt
    && (anc.approvalRequired ==> desc.approvalRequired)
    && desc.depth <= anc.depth
  }

  /** What is needed to carry a use from a descendant to an ancestor, denied data aside. */
  ghost predicate ScopeTightens(anc: Grant, desc: Grant, m: Matchers) {
    && ResourcesIncluded(desc.allowedResources, anc.allowedResources, m)
    && (forall r :: r in anc.deniedResources ==> r in desc.deniedResources)
    && StringSubset(desc.allowedData, anc.allowedData)
    && StringSubset(desc.outputDestinations, anc.outputDestinations)
  }

  lemma EdgeTightens(parent: Grant, child: Grant, intent: Intent, m: Matchers)
    requires Delegated(parent, child, intent, m)
    ensures ValidGrant(parent) && Tightens(parent, child) && child.depth < parent.depth && child.depth >= 0
    ensures ScopeTightens(parent, child, m)
    ensures StringSubset(parent.deniedData, child.deniedData)
  {
    hide Normalize, SetsWiden, LimitsWiden, ValidGrant;
    var proposed, remaining :| Normalize(parent, proposed, intent, remaining, m) == Ok(child);
    NormalizeAccepts(parent, proposed, intent, remaining, m);
    SetsTighten(parent, proposed, intent, m);
    LimitsTighten(parent, proposed, intent);
  }

  /** What acceptance of an edge means, dimension group by dimension group. */
  lemma NormalizeAccepts(parent: Grant, proposed: Grant, intent: Intent, remaining: Budget, m: Matchers)
    requires Normalize(parent, proposed, intent, remaining, m).Ok?
    ensures ValidGrant(parent) && Normalize(parent, proposed, intent, remaining, m).value ==
            WithMaxima(proposed, remaining)
    ensures SetsWiden(parent, proposed, intent, m).None? && LimitsWiden(parent, proposed, intent).None?
  { hide ValidGrant, SetsWiden, LimitsWiden, LinkWidens; }

  lemma SetsTighten(parent: Grant, child: Grant, intent: Intent, m: Matchers)
    requires SetsWiden(parent, child, intent, m).None?
    ensures forall op :: op in child.operations ==> op in parent.operations
    ensures forall c :: Covered(c, child.channels) ==> Covered(c, parent.channels)
    ensures forall e :: e in child.effectClasses ==> e in parent.effectClasses
    ensures CeilingBound(child.effectCeiling) <= CeilingBound(parent.effectCeiling)
    ensures ScopeTightens(parent, child, m) && StringSubset(parent.deniedData, child.deniedData)
  {
    hide Rank;
    assert StringSubset(child.channels, parent.channels);
    forall c | Covered(c, child.channels) ensures Covered(c, parent.channels) {
      assert "*" in child.channels ==> "*" in parent.channels;
    }
    assert forall r :: r in parent.deniedResources ==> r in parent.deniedResources + intent.deniedResources;
  }

  lemma LimitsTighten(parent: Grant, child: Grant, intent: Intent)
    requires LimitsWiden(parent, child, intent).None?
    ensures parent.validFrom <= child.validFrom && child.expiresAt <= parent.expiresAt
    ensures (parent.approvalRequired ==> child.approvalRequired) && 0 <= child.depth < parent.depth
  { }

  /** The same against the intent. */
  lemma SetsStayInIntent(parent: Grant, child: Grant, intent: Intent, m: Matchers)
    requires SetsWiden(parent, child, intent, m).None?
    ensures ResourcesIncluded(child.allowedResources, intent.allowedResources, m)
    ensures forall d :: d in intent.deniedResources ==> d in child.deniedResources
    ensures StringSubset(child.allowedData, intent.dataScope)
    ensures StringSubset(child.outputDestinations, intent.outputDestinations)
  {
    hide Rank, StringSubset, ResourcesIncluded;
    assert forall d :: d in intent.deniedResources ==> d in parent.deniedResources + intent.deniedResources;
  }

  /** EdgeTightens at one place of a chain. */
  lemma ChainEdge(gs: seq<Grant>, j: nat, intent: Intent, m: Matchers)
    requires Chain(gs, intent, m) && 0 < j < |gs|
    ensures ValidGrant(gs[j - 1]) && Tightens(gs[j - 1], gs[j]) && 0 <= gs[j].depth < gs[j - 1].depth
    ensures ScopeTightens(gs[j - 1], gs[j], m) && StringSubset(gs[j - 1].deniedData, gs[j].deniedData)
  {
    assert DelegatedAt(gs, j, intent, m);
    EdgeTightens(gs[j - 1], gs[j], intent, m);
  }

  lemma TightensTransitive(a: Grant, b: Grant, c: Grant)
    requires Tightens(a, b) && Tightens(b, c)
    ensures Tightens(a, c)
  { }

  lemma {:induction false} DescendantTightens(gs: seq<Grant>, i: nat, j: nat, intent: Intent, m: Matchers)
    requires Chain(gs, intent, m) && i <= j < |gs|
    ensures Tightens(gs[i], gs[j]) && gs[j].depth <= gs[i].depth - (j - i)
    decreases j - i
  {
    if i < j {
      DescendantTightens(gs, i, j - 1, intent, m);
      ChainEdge(gs, j, intent, m);
      TightensTransitive(gs[i], gs[j - 1], gs[j]);
    }
  }

  lemma ResourcesIncludedTransitive(a: seq<ResourceRef>, b: seq<ResourceRef>, c: seq<ResourceRef>, m: Matchers)
    requires TransitiveMatchers(m) && ResourcesIncluded(a, b, m) && ResourcesIncluded(b, c, m)
    ensures ResourcesIncluded(a, c, m)
  {
    forall r | r in a ensures ResourceIncluded(r, c, m) {
      assert ResourceIncluded(r, b, m);
      var p :| p in b && p.kind == r.kind && r.kind in m && m[r.kind](p.id, r.id);
      assert ResourceIncluded(p, c, m);
      var q :| q in c && q.kind == p.kind && p.kind in m && m[p.kind](q.id, p.id);
      assert m[r.kind](q.id, r.id);
    }
  }

  lemma ScopeTransitive(a: Grant, b: Grant, c: Grant, m: Matchers)
    requires TransitiveMatchers(m) && ScopeTightens(a, b, m) && ScopeTightens(b, c, m)
    ensures ScopeTightens(a, c, m)
  { ResourcesIncludedTransitive(c.allowedResources, b.allowedResources, a.allowedResources, m); }

  lemma {:induction false} DescendantScope(gs: seq<Grant>, i: nat, j: nat, intent: Intent, m: Matchers)
    requires Chain(gs, intent, m) && i < j < |gs| && TransitiveMatchers(m)
    ensures ScopeTightens(gs[i], gs[j], m)
    decreases j - i
  {
    ChainEdge(gs, j, intent, m);
    if i < j - 1 {
      DescendantScope(gs, i, j - 1, intent, m);
      ScopeTransitive(gs[i], gs[j - 1], gs[j], m);
    }
  }

  // ---- Uses ----

  /** A datum the ancestor denies is denied by the descendant too, or the descendant never allowed it. */
  predicate DenialsKept(anc: Grant, desc: Grant) {
    forall v :: v in anc.deniedData ==> v in desc.deniedData || !Covered(v, desc.allowedData)
  }

  lemma UseCarries(anc: Grant, desc: Grant, use: Use, m: Matchers)
    requires TransitiveMatchers(m) && ScopeTightens(anc, desc, m) && DenialsKept(anc, desc)
    requires Allows(desc, use, m)
    ensures Allows(anc, use, m)
  {
    ResourcesIncludedTransitive(use.resources, desc.allowedResources, anc.allowedResources, m);
    assert !TouchesDenied(desc, use, m);
    assert StringSubset(use.data, desc.allowedData);
    forall v | v in use.data ensures v !in anc.deniedData {
      assert Covered(v, desc.allowedData);
      assert v !in desc.deniedData;
    }
  }

  /**
   Main theorem, both ways: every use the descendant allows is allowed by the ancestor exactly when
   the ancestor's denied data is literally kept wherever the descendant could allow it.
   */
  lemma UsesTightenExactly(gs: seq<Grant>, i: nat, j: nat, intent: Intent, m: Matchers)
    requires Chain(gs, intent, m) && i < j < |gs| && TransitiveMatchers(m)
    ensures (forall use :: Allows(gs[j], use, m) ==> Allows(gs[i], use, m)) <==> DenialsKept(gs[i], gs[j])
  {
    DescendantScope(gs, i, j, intent, m);
    if DenialsKept(gs[i], gs[j]) {
      forall use | Allows(gs[j], use, m) ensures Allows(gs[i], use, m) {
        UseCarries(gs[i], gs[j], use, m);
      }
    } else {
      var v :| v in gs[i].deniedData && v !in gs[j].deniedData && Covered(v, gs[j].allowedData);
      var use := Use([], [v], []);
      assert use.data[0] == v && v in use.data;
      assert Allows(gs[j], use, m);
      assert !Allows(gs[i], use, m);
    }
  }

  /** Without "*" among the denied data of the grants below the ancestor, denials are never lost. */
  lemma {:induction false} LiteralDenialsKept(gs: seq<Grant>, i: nat, j: nat, intent: Intent, m: Matchers)
    requires Chain(gs, intent, m) && i <= j < |gs|
    requires forall k :: i < k <= j ==> "*" !in gs[k].deniedData
    ensures forall v :: v in gs[i].deniedData ==> v in gs[j].deniedData
    decreases j - i
  {
    if i < j {
      LiteralDenialsKept(gs, i, j - 1, intent, m);
      ChainEdge(gs, j, intent, m);
    }
  }

  /** The chain theorem with the program's own matchers: the leaf's uses are uses of every ancestor. */
  lemma LeafUsesAreAncestorUses(gs: seq<Grant>, i: nat, intent: Intent, cwd: Option<string>, fold: Urls.Fold, use: Use)
    requires Urls.Equivalence(fold) && Chain(gs, intent, DefaultMatchers(cwd, fold)) && i < |gs|
    requires forall k :: i < k < |gs| ==> "*" !in gs[k].deniedData
    requires Allows(gs[|gs| - 1], use, DefaultMatchers(cwd, fold))
    ensures Allows(gs[i], use, DefaultMatchers(cwd, fold))
  {
    var j := |gs| - 1;
    if i < j {
      DefaultMatchersTransitive(cwd, fold);
      LiteralDenialsKept(gs, i, j, intent, DefaultMatchers(cwd, fold));
      UsesTightenExactly(gs, i, j, intent, DefaultMatchers(cwd, fold));
    }
  }

  /** A delegated grant's uses stay inside the intent as well. */
  ghost predicate IntentAdmits(intent: Intent, use: Use, m: Matchers) {
    && ResourcesIncluded(use.resources, intent.allowedResources, m)
    && (forall r, d :: r in use.resources && d in intent.deniedResources && r.kind == d.kind && r.kind in m ==>
          !m[r.kind](d.id, r.id))
    && StringSubset(use.data, intent.dataScope)
    && StringSubset(use.destinations, intent.outputDestinations)
  }

  lemma UsesStayInIntent(gs: seq<Grant>, j: nat, intent: Intent, m: Matchers, use: Use)
    requires Chain(gs, intent, m) && 0 < j < |gs| && TransitiveMatchers(m)
    requires Allows(gs[j], use, m)
    ensures IntentAdmits(intent, use, m)
  {
    hide Normalize, SetsWiden, LimitsWiden, ValidGrant, ValidateUse;
    assert DelegatedAt(gs, j, intent, m);
    var proposed, remaining :| Normalize(gs[j - 1], proposed, intent, remaining, m) == Ok(gs[j]);
    NormalizeAccepts(gs[j - 1], proposed, intent, remaining, m);
    SetsStayInIntent(gs[j - 1], proposed, intent, m);
    UseStaysInIntent(gs[j], intent, m, use);
  }

  lemma UseStaysInIntent(g: Grant, intent: Intent, m: Matchers, use: Use)
    requires TransitiveMatchers(m) && Allows(g, use, m)
    requires ResourcesIncluded(g.allowedResources, intent.allowedResources, m)
    requires forall d :: d in intent.deniedResources ==> d in g.deniedResources
    requires StringSubset(g.allowedData, intent.dataScope) &&
             StringSubset(g.outputDestinations, intent.outputDestinations)
    ensures IntentAdmits(intent, use, m)
  {
    ResourcesIncludedTransitive(use.resources, g.allowedResources, intent.allowedResources, m);
    assert !TouchesDenied(g, use, m);
  }

  /** The depth falls at every edge from at most sixteen, so a chain has at most seventeen grants. */
  lemma ChainLengthBound(gs: seq<Grant>, intent: Intent, m: Matchers)
    requires Chain(gs, intent, m)
    ensures |gs| <= MAX_DEPTH + 1
  {
    if |gs| > 1 {
      var n := |gs| - 1;
      DescendantTightens(gs, 0, n, intent, m);
      ChainEdge(gs, 1, intent, m);
      ChainEdge(gs, n, intent, m);
    }
  }

  // ---- The wildcard denial ----

  const ROOT_GRANT := Grant("g1", 2, 1, "p", "i", 1, "d", "owner", "alice", "", 0,
                            [OperationRef("tool", "read_file", 1)], ["console"], [], [], ["*"], ["pii"], [],
                            ["pure"], "", Budget(None, map[]), 1, 10, 2, false)

  const CHILD_GRANT := ROOT_GRANT.(grantId := "g2", parentGrantId := "g1", parentGrantVersion := 1,
                                   issuer := "alice", subject := "bob", deniedData := ["*"], depth := 1)

  const WITNESS_INTENT := Intent("p", "i", 1, "d", [OperationRef("tool", "read_file", 1)], [], [], ["*"], [],
                                 ["pure"], 1, 10, 2, false)

  /** An accepted delegation whose child allows data the parent denies: "*" passed for "pii". */
  lemma WildcardDenialWidens(m: Matchers)
    ensures Normalize(ROOT_GRANT, CHILD_GRANT, WITNESS_INTENT, Budget(None, map[]), m) == Ok(CHILD_GRANT)
    ensures Allows(CHILD_GRANT, Use([], ["pii"], []), m)
    ensures ValidateUse(ROOT_GRANT, Use([], ["pii"], []), m) == DataOutOfScope
  {
    hide ValidGrant, SetsWiden, LimitsWiden, LinkWidens;
    WitnessValid();
    WitnessLinks(m);
    WitnessUses(m);
    assert WithMaxima(CHILD_GRANT, Budget(None, map[])) == CHILD_GRANT;
  }

  lemma WitnessValid()
    ensures ValidGrant(ROOT_GRANT) && ValidGrant(CHILD_GRANT)
  { }

  lemma WitnessLinks(m: Matchers)
    ensures LinkWidens(ROOT_GRANT, CHILD_GRANT, WITNESS_INTENT).None? &&
            SetsWiden(ROOT_GRANT, CHILD_GRANT, WITNESS_INTENT, m).None?
    ensures LimitsWiden(ROOT_GRANT, CHILD_GRANT, WITNESS_INTENT).None?
  { assert "*" in ROOT_GRANT.allowedData && "*" in CHILD_GRANT.allowedData && "*" in CHILD_GRANT.deniedData; }

  lemma WitnessUses(m: Matchers)
    ensures Allows(CHILD_GRANT, Use([], ["pii"], []), m)
    ensures ValidateUse(ROOT_GRANT, Use([], ["pii"], []), m) == DataOutOfScope
  {
    var use := Use([], ["pii"], []);
    assert "pii" in use.data && "pii" in ROOT_GRANT.deniedData;
    assert "*" in ROOT_GRANT.allowedData && "*" in CHILD_GRANT.allowedData;
  }

  // ---- Budgets ----

  /** The unspent balance is no more than the parent's own maxima and names each of its operations. */
  predicate BalanceWithin(remaining: Budget, parent: Budget) {
    && (parent.total.Some? ==> remaining.total.Some? && remaining.total.value <= parent.total.value)
    && (forall k :: k in parent.perOperation ==>
                      k in remaining.perOperation && remaining.perOperation[k] <= parent.perOperation[k])
  }

  predicate BudgetWithin(anc: Budget, desc: Budget) {
    && (anc.total.Some? ==> desc.total.Some? && desc.total.value <= anc.total.value)
    && (forall k :: k in anc.perOperation ==> k in desc.perOperation && desc.perOperation[k] <= anc.perOperation[k])
  }

  /** A chain whose every edge was judged against a balance within the parent's budget. */
  ghost predicate FundedChain(gs: seq<Grant>, intent: Intent, m: Matchers) {
    |gs| > 0 && forall i :: 0 < i < |gs| ==> FundedAt(gs, i, intent, m)
  }

  ghost predicate FundedAt(gs: seq<Grant>, i: int, intent: Intent, m: Matchers)
    requires 0 < i < |gs|
  { FundedEdge(gs[i - 1], gs[i], intent, m) }

  ghost predicate FundedEdge(parent: Grant, child: Grant, intent: Intent, m: Matchers) {
    exists proposed, remaining ::
      Normalize(parent, proposed, intent, remaining, m) == Ok(child) && BalanceWithin(remaining, parent.budget)
  }

  /** What an accepted normalization returns and what it required of the balance. */
  lemma NormalizeBudget(parent: Grant, child: Grant, intent: Intent, remaining: Budget, m: Matchers)
    requires Normalize(parent, child, intent, remaining, m).Ok?
    ensures ValidGrant(parent) && ValidGrant(child)
    ensures Normalize(parent, child, intent, remaining, m).value == WithMaxima(child, remaining)
    ensures !TotalWidens(child.budget, remaining)
    ensures !OperationsExceed(child.budget.perOperation, remaining.perOperation)
  { }

  lemma MergedWithin(child: Budget, remaining: Budget, parent: Budget)
    requires !TotalWidens(child, remaining) && !OperationsExceed(child.perOperation, remaining.perOperation)
    requires BalanceWithin(remaining, parent)
    ensures BudgetWithin(parent, child.(perOperation := MergedMaxima(child.perOperation, remaining.perOperation)))
  { }

  lemma FundedStep(gs: seq<Grant>, j: nat, intent: Intent, m: Matchers)
    requires FundedChain(gs, intent, m) && 0 < j < |gs|
    ensures BudgetWithin(gs[j - 1].budget, gs[j].budget)
  {
    var parent, child := gs[j - 1], gs[j];
    assert FundedAt(gs, j, intent, m);
    var proposed, remaining :| Normalize(parent, proposed, intent, remaining, m) == Ok(child)
      && BalanceWithin(remaining, parent.budget);
    NormalizeBudget(parent, proposed, intent, remaining, m);
    MergedWithin(proposed.budget, remaining, parent.budget);
  }

  /** Along a funded chain no total and no per-operation maximum ever exceeds an ancestor's. */
  lemma {:induction false} BudgetsStayWithin(gs: seq<Grant>, i: nat, j: nat, intent: Intent, m: Matchers)
    requires FundedChain(gs, intent, m) && i <= j < |gs|
    ensures BudgetWithin(gs[i].budget, gs[j].budget)
    decreases j - i
  {
    if i < j {
      BudgetsStayWithin(gs, i, j - 1, intent, m);
      FundedStep(gs, j, intent, m);
    }
  }

  /** Normalization keeps the child's own maxima and adds only the balance's, each at its own value. */
  lemma NormalizeKeepsOwnMaxima(parent: Grant, child: Grant, intent: Intent, remaining: Budget, m: Matchers)
    requires Normalize(parent, child, intent, remaining, m).Ok?
    ensures var out := Normalize(parent, child, intent, remaining, m).value;
            && out.(budget := child.budget) == child && out.budget.total == child.budget.total
            && out.budget.perOperation.Keys == child.budget.perOperation.Keys + remaining.perOperation.Keys
            && (forall k :: k in child.budget.perOperation ==>
                  out.budget.perOperation[k] == child.budget.perOperation[k])
            && (forall k :: k in remaining.perOperation ==> out.budget.perOperation[k] <= remaining.perOperation[k])
  {
    NormalizeBudget(parent, child, intent, remaining, m);
    var own, rest := child.budget.perOperation, remaining.perOperation;
    forall k | k in rest ensures MergedMaxima(own, rest)[k] <= rest[k] {
      assert !(k in own && own[k] > rest[k]);
    }
  }

  /** The merged maxima still validate: at most 256 of them, under names, none negative. */
  predicate MergedValid(child: Grant, remaining: Budget) {
    var merged := MergedMaxima(child.budget.perOperation, remaining.perOperation);
    |merged| <= MAX_ENTRIES && forall k :: k in merged ==> k != "" && merged[k] >= 0
  }

  /** Normalizing twice is normalizing once, exactly when the merged maxima still validate. */
  lemma NormalizeIdempotent(parent: Grant, child: Grant, intent: Intent, remaining: Budget, m: Matchers)
    requires Normalize(parent, child, intent, remaining, m).Ok?
    ensures var out := Normalize(parent, child, intent, remaining, m);
            Normalize(parent, out.value, intent, remaining, m) == out <==> MergedValid(child, remaining)
  {
    NormalizeBudget(parent, child, intent, remaining, m);
    var out := WithMaxima(child, remaining);
    RemergeChangesNothing(child, remaining);
    SameOutsideBudget(parent, child, out, intent, m);
    if ValidGrant(out) {
      assert Normalize(parent, out, intent, remaining, m) == Ok(WithMaxima(out, remaining));
    }
    MergedValidity(child, remaining);
  }

  lemma RemergeChangesNothing(child: Grant, remaining: Budget)
    requires !OperationsExceed(child.budget.perOperation, remaining.perOperation)
    ensures var out := WithMaxima(child, remaining);
            WithMaxima(out, remaining) == out && !OperationsExceed(out.budget.perOperation, remaining.perOperation)
  {
    var out := WithMaxima(child, remaining);
    assert MergedMaxima(out.budget.perOperation, remaining.perOperation) == out.budget.perOperation;
    forall k | k in remaining.perOperation ensures out.budget.perOperation[k] <= remaining.perOperation[k] {
      assert !(k in child.budget.perOperation && child.budget.perOperation[k] > remaining.perOperation[k]);
    }
  }

  /** Every check but the budget's reads the same fields before and after the merge. */
  lemma SameOutsideBudget(parent: Grant, child: Grant, out: Grant, intent: Intent, m: Matchers)
    requires out.(budget := child.budget) == child
    ensures LinkWidens(parent, out, intent) == LinkWidens(parent, child, intent)
    ensures SetsWiden(parent, out, intent, m) == SetsWiden(parent, child, intent, m)
    ensures LimitsWiden(parent, out, intent) == LimitsWiden(parent, child, intent)
  { }

  lemma MergedValidity(child: Grant, remaining: Budget)
    requires ValidGrant(child)
    ensures ValidGrant(WithMaxima(child, remaining)) <==> MergedValid(child, remaining)
  { }

  // ---- Too many inherited maxima ----

  /** A balance that names the first `n` numerals. */
  function Numerals(n: nat): map<string, int> { if n == 0 then map[] else Numerals(n - 1)[NatText(n) := 0] }

  predicate NumeralUpTo(k: string, n: nat) { AllDigits(k) && NatValue(k) <= n }

  lemma {:induction false} NumeralsCount(n: nat)
    ensures |Numerals(n)| == n
    ensures forall k :: k in Numerals(n) ==> NumeralUpTo(k, n) && Numerals(n)[k] == 0
  {
    if n > 0 {
      hide NumeralUpTo;
      NumeralsCount(n - 1);
      NewNumeral(n, Numerals(n - 1).Keys);
      forall k | k in Numerals(n) ensures NumeralUpTo(k, n) {
        NumeralGrows(k, n);
      }
    }
  }

  lemma NewNumeral(n: nat, keys: set<string>)
    requires n > 0 && forall k :: k in keys ==> NumeralUpTo(k, n - 1)
    ensures NatText(n) !in keys && NumeralUpTo(NatText(n), n)
  { NatRoundTrip(n); }

  lemma NumeralGrows(k: string, n: nat)
    requires n > 0 && (NumeralUpTo(k, n - 1) || k == NatText(n))
    ensures NumeralUpTo(k, n)
  { NatRoundTrip(n); }

  /** A child with one limit of its own, under a balance that names 256 other operations. */
  const FULL_CHILD := CHILD_GRANT.(budget := Budget(None, map["tool/read_file@1" := 1]))

  /** The failing input: the delegation is accepted, and its result, with 257 maxima, no longer validates. */
  lemma MergedMaximaOverflow(m: Matchers)
    ensures var balance := Budget(None, Numerals(256));
            var first := Normalize(ROOT_GRANT, FULL_CHILD, WITNESS_INTENT, balance, m);
            && first.Ok?
            && |first.value.budget.perOperation| == 257
            && Normalize(ROOT_GRANT, first.value, WITNESS_INTENT, balance, m) == Err(Malformed)
  {
    hide ValidGrant, SetsWiden, LimitsWiden, LinkWidens, Numerals;
    var balance, own := Budget(None, Numerals(256)), FULL_CHILD.budget.perOperation;
    WitnessValid();
    FullChildValid();
    WitnessLinks(m);
    SameOutsideBudget(ROOT_GRANT, CHILD_GRANT, FULL_CHILD, WITNESS_INTENT, m);
    NumeralsCount(256);
    assert "tool/read_file@1"[0] == 't';
    MergedCount(own, Numerals(256), "tool/read_file@1", 1);
    TooManyMaxima(WithMaxima(FULL_CHILD, balance));
  }

  lemma FullChildValid()
    ensures ValidGrant(FULL_CHILD)
  {
    var own := FULL_CHILD.budget.perOperation;
    assert own == map["tool/read_file@1" := 1] && |own| == 1;
    hide ValidGrant;
    WitnessValid();
    BudgetAlone(CHILD_GRANT, own);
  }

  lemma BudgetAlone(g: Grant, own: map<string, int>)
    requires ValidGrant(g) && |own| <= MAX_ENTRIES && forall k :: k in own ==> k != "" && own[k] >= 0
    ensures ValidGrant(g.(budget := Budget(None, own)))
  { }

  lemma MergedCount(own: map<string, int>, rest: map<string, int>, k: string, v: int)
    requires own == map[k := v] && k !in rest
    ensures |MergedMaxima(own, rest)| == |rest| + 1
  {
    assert MergedMaxima(own, rest) == rest[k := v];
  }

  lemma TooManyMaxima(g: Grant)
    requires |g.budget.perOperation| > MAX_ENTRIES
    ensures !ValidGrant(g)
  { hide SetsOk; }
}
