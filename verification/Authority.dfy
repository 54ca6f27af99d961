/**
 Signed authority delegation, version 2: the grant terms, their structural validation, the
 attenuation of one delegation edge, and the check of a runtime use against a grant.

 Instants are integers counted from Go's zero time, so 0 is the zero time. A missing per-operation
 map and an empty one are the same value.
 */
module Authority {
  import opened Prelude
  import opened Effects
  import Paths
  import Urls

  const MAX_DEPTH := 16
  const MAX_ENTRIES := 256
  const ZERO_TIME := 0

  type Instant = int

  datatype OperationRef = OperationRef(namespace: string, name: string, version: int)

  datatype ResourceRef = ResourceRef(kind: string, id: string)

  /** `total` None means unlimited. */
  datatype Budget = Budget(total: Option<int>, perOperation: map<string, int>)

  datatype Grant = Grant(
    grantId: string, schemaVersion: int, version: int,
    profileId: string, intentId: string, intentVersion: int, intentDigest: string,
    issuer: string, subject: string, parentGrantId: string, parentGrantVersion: int,
    operations: seq<OperationRef>, channels: seq<string>,
    allowedResources: seq<ResourceRef>, deniedResources: seq<ResourceRef>,
    allowedData: seq<string>, deniedData: seq<string>, outputDestinations: seq<string>,
    effectClasses: seq<EffectClass>, effectCeiling: EffectClass,
    budget: Budget, validFrom: Instant, expiresAt: Instant, depth: int, approvalRequired: bool)

  /** The terms of an intent a delegation is judged by; `digest` is the value of its Digest(). */
  datatype Intent = Intent(
    profileId: string, intentId: string, version: int, digest: string,
    operations: seq<OperationRef>,
    allowedResources: seq<ResourceRef>, deniedResources: seq<ResourceRef>,
    dataScope: seq<string>, outputDestinations: seq<string>, effectClasses: seq<EffectClass>,
    validFrom: Instant, expiresAt: Instant, maxDelegationDepth: int, approvalRequired: bool)

  /** What one call actually touches, derived from its canonical arguments. */
  datatype Use = Use(resources: seq<ResourceRef>, data: seq<string>, destinations: seq<string>)

  datatype Verdict = Allowed | ResourceOutOfScope | DataOutOfScope | DestinationOutOfScope

  datatype Refusal = Malformed | Widens(dimension: string)

  type Matchers = map<string, (string, string) -> bool>

  // ---- The effect ladder ----

  /** A ceiling as a bound on the ladder: an absent one bounds nothing, so it sits above all ranks. */
  function CeilingBound(c: EffectClass): nat { if c == "" then |LADDER| + 1 else Rank(c) }

  // ---- Structural validation ----

  function OperationKey(op: OperationRef): string {
    op.namespace + "/" + op.name + "@" + IntText(op.version)
  }

  const NUL: char := '\0'

  function ResourceKey(r: ResourceRef): string { r.kind + [NUL] + r.id }

  function OperationKeys(ops: seq<OperationRef>): (r: seq<string>)
    ensures |r| == |ops| && forall i :: 0 <= i < |r| ==> r[i] == OperationKey(ops[i])
  { seq(|ops|, i requires 0 <= i < |ops| => OperationKey(ops[i])) }

  function ResourceKeys(rs: seq<ResourceRef>): (r: seq<string>)
    ensures |r| == |rs| && forall i :: 0 <= i < |r| ==> r[i] == ResourceKey(rs[i])
  { seq(|rs|, i requires 0 <= i < |rs| => ResourceKey(rs[i])) }

  /** No empty value and no value twice. */
  ghost predicate Unique(values: seq<string>) { "" !in values && Distinct(values) }

  predicate HeaderOk(g: Grant) {
    && g.schemaVersion == 2 && g.version > 0 && g.grantId != "" && g.profileId != ""
    && g.intentId != "" && g.intentVersion > 0 && g.intentDigest != "" && g.issuer != "" && g.subject != ""
    && (if g.parentGrantId == "" then g.parentGrantVersion == 0 else g.parentGrantVersion > 0)
    && 0 <= g.depth <= MAX_DEPTH
    && g.validFrom != ZERO_TIME && g.expiresAt != ZERO_TIME && g.validFrom < g.expiresAt
  }

  predicate SizesOk(g: Grant) {
    && 0 < |g.operations| <= MAX_ENTRIES && 0 < |g.channels| <= MAX_ENTRIES
    && 0 < |g.effectClasses| <= MAX_ENTRIES
    && |g.allowedResources| <= MAX_ENTRIES && |g.deniedResources| <= MAX_ENTRIES
    && |g.allowedData| <= MAX_ENTRIES && |g.deniedData| <= MAX_ENTRIES
    && |g.outputDestinations| <= MAX_ENTRIES && |g.budget.perOperation| <= MAX_ENTRIES
    && (g.budget.total.Some? ==> g.budget.total.value >= 0)
  }

  predicate EntriesOk(g: Grant) {
    && (forall op :: op in g.operations ==> op.namespace != "" && op.name != "" && op.version > 0)
    && (forall r :: r in g.allowedResources + g.deniedResources ==> r.kind != "" && r.id != "")
    && (forall e :: e in g.effectClasses ==> Known(e))
    && (forall k :: k in g.budget.perOperation ==> k != "" && g.budget.perOperation[k] >= 0)
    && (g.effectCeiling != "" ==> Known(g.effectCeiling))
  }

  ghost predicate SetsOk(g: Grant) {
    && Unique(OperationKeys(g.operations)) && Unique(g.channels)
    && Unique(ResourceKeys(g.allowedResources + g.deniedResources))
    && Unique(g.allowedData) && Unique(g.deniedData) && Unique(g.outputDestinations)
    && Unique(g.effectClasses)
  }

  /** AuthorityGrantV2.Validate: what a grant must satisfy on its own, with no parent or store. */
  ghost predicate ValidGrant(g: Grant) { HeaderOk(g) && SizesOk(g) && EntriesOk(g) && SetsOk(g) }

  /** The key under which the one shared `seen` map records a value of a kind. */
  function SeenKey(kind: string, value: string): string { kind + [NUL] + value }

  /** Kinds hold no NUL, so keys of two kinds never meet and keys of one kind determine the value. */
  lemma {:induction false} SeenKeyInjective(k1: string, v1: string, k2: string, v2: string)
    requires NUL !in k1 && NUL !in k2 && SeenKey(k1, v1) == SeenKey(k2, v2)
    ensures k1 == k2 && v1 == v2
  {
    assert SeenKey(k1, v1)[0] == SeenKey(k2, v2)[0];
    if k1 == "" || k2 == "" {
      assert SeenKey(k1, v1)[|k1|] == NUL && SeenKey(k2, v2)[|k2|] == NUL;
      assert k1 == "" && k2 == "";
      assert SeenKey(k1, v1)[1..] == v1 && SeenKey(k2, v2)[1..] == v2;
    } else {
      assert SeenKey(k1, v1)[1..] == SeenKey(k1[1..], v1);
      assert SeenKey(k2, v2)[1..] == SeenKey(k2[1..], v2);
      SeenKeyInjective(k1[1..], v1, k2[1..], v2);
    }
  }

  /** No key of this kind has been recorded yet. */
  ghost predicate FreshKind(seen: set<string>, kind: string) {
    forall v :: SeenKey(kind, v) !in seen
  }

  /** `more` is `seen` plus keys of `kind` only. */
  ghost predicate OnlyAdds(seen: set<string>, more: set<string>, kind: string) {
    forall k :: k in more ==> k in seen || exists v :: k == SeenKey(kind, v)
  }

  lemma FreshKindKept(seen: set<string>, more: set<string>, kind: string, other: string)
    requires NUL !in kind && NUL !in other && kind != other
    requires FreshKind(seen, other) && OnlyAdds(seen, more, kind)
    ensures FreshKind(more, other)
  {
    forall v ensures SeenKey(other, v) !in more {
      if SeenKey(other, v) in more {
        var w :| SeenKey(other, v) == SeenKey(kind, w);
        SeenKeyInjective(other, v, kind, w);
      }
    }
  }

  /** The loop over one list with the shared `seen` map: refuses an empty or repeated value. */
  method CheckUnique(kind: string, values: seq<string>, seen: set<string>) returns (ok: bool, more: set<string>)
    requires NUL !in kind && FreshKind(seen, kind)
    ensures ok <==> Unique(values)
    ensures OnlyAdds(seen, more, kind)
  {
    more := seen;
    for i := 0 to |values|
      invariant Unique(values[..i])
      invariant OnlyAdds(seen, more, kind)
      invariant forall v :: SeenKey(kind, v) in more <==> v in values[..i]
    {
      var key := SeenKey(kind, values[i]);
      if values[i] == "" || key in more {
        assert values[i] in values && values[..i] <= values;
        return false, more;
      }
      forall v ensures SeenKey(kind, v) in more + {key} <==> v in values[..i + 1] {
        if SeenKey(kind, v) == key {
          SeenKeyInjective(kind, v, kind, values[i]);
        }
      }
      more := more + {key};
      assert values[..i + 1] == values[..i] + [values[i]];
    }
    assert values[..|values|] == values;
    ok := true;
  }

  const KINDS := ["operation", "channel", "resource", "allowed_data", "denied_data", "destination", "effect"]

  /** The grant's seven lists, keyed as Validate keys them. */
  function KindValues(g: Grant, i: nat): seq<string>
    requires i < |KINDS|
  {
    if i == 0 then OperationKeys(g.operations) else if i == 1 then g.channels
    else if i == 2 then ResourceKeys(g.allowedResources + g.deniedResources)
    else if i == 3 then g.allowedData else if i == 4 then g.deniedData
    else if i == 5 then g.outputDestinations else g.effectClasses
  }

  /** The tests before the lists are walked. */
  method CheckHeader(g: Grant) returns (ok: bool)
    ensures ok <==> HeaderOk(g) && SizesOk(g)
  {
    if g.schemaVersion != 2 || g.version <= 0 || g.grantId == "" || g.profileId == "" ||
      g.intentId == "" || g.intentVersion <= 0 || g.intentDigest == "" || g.issuer == "" || g.subject == "" {
      return false;
    }
    if (g.parentGrantId == "" && g.parentGrantVersion != 0) || (g.parentGrantId != "" && g.parentGrantVersion <= 0) {
      return false;
    }
    if g.depth < 0 || g.depth > MAX_DEPTH {
      return false;
    }
    if g.validFrom == ZERO_TIME || g.expiresAt == ZERO_TIME || !(g.validFrom < g.expiresAt) {
      return false;
    }
    if |g.operations| == 0 || |g.channels| == 0 || |g.effectClasses| == 0 {
      return false;
    }
    if |g.operations| > MAX_ENTRIES || |g.channels| > MAX_ENTRIES || |g.allowedResources| > MAX_ENTRIES ||
      |g.deniedResources| > MAX_ENTRIES || |g.allowedData| > MAX_ENTRIES || |g.deniedData| > MAX_ENTRIES ||
      |g.outputDestinations| > MAX_ENTRIES || |g.effectClasses| > MAX_ENTRIES ||
      |g.budget.perOperation| > MAX_ENTRIES {
      return false;
    }
    ok := g.budget.total.None? || g.budget.total.value >= 0;
  }

  /** The tests of the lists' and the budget's own entries. */
  method CheckEntries(g: Grant) returns (ok: bool)
    ensures ok <==> EntriesOk(g)
  {
    for i := 0 to |g.operations|
      invariant forall op :: op in g.operations[..i] ==> op.namespace != "" && op.name != "" && op.version > 0
    {
      var op := g.operations[i];
      assert g.operations[..i + 1] == g.operations[..i] + [op];
      if op.namespace == "" || op.name == "" || op.version <= 0 {
        return false;
      }
    }
    assert g.operations[..|g.operations|] == g.operations;
    var resources := g.allowedResources + g.deniedResources;
    for i := 0 to |resources|
      invariant forall r :: r in resources[..i] ==> r.kind != "" && r.id != ""
    {
      assert resources[..i + 1] == resources[..i] + [resources[i]];
      if resources[i].kind == "" || resources[i].id == "" {
        return false;
      }
    }
    assert resources[..|resources|] == resources;
    for i := 0 to |g.effectClasses|
      invariant forall e :: e in g.effectClasses[..i] ==> Known(e)
    {
      assert g.effectClasses[..i + 1] == g.effectClasses[..i] + [g.effectClasses[i]];
      if !Known(g.effectClasses[i]) {
        return false;
      }
    }
    assert g.effectClasses[..|g.effectClasses|] == g.effectClasses;
    var todo := g.budget.perOperation.Keys;
    while todo != {}
      invariant todo <= g.budget.perOperation.Keys
      invariant forall k :: k in g.budget.perOperation && k !in todo ==> k != "" && g.budget.perOperation[k] >= 0
      decreases todo
    {
      var key :| key in todo;
      todo := todo - {key};
      if key == "" || g.budget.perOperation[key] < 0 {
        return false;
      }
    }
    ok := g.effectCeiling == "" || Known(g.effectCeiling);
  }

  /** AuthorityGrantV2.Validate, with one `seen` map shared by all the lists. */
  method Validate(g: Grant) returns (ok: bool)
    ensures ok <==> ValidGrant(g)
  {
    ok := CheckHeader(g);
    if ok {
      ok := CheckEntries(g);
    }
    if !ok {
      return;
    }
    var seen: set<string> := {};
    for i := 0 to |KINDS|
      invariant forall j :: i <= j < |KINDS| ==> FreshKind(seen, KINDS[j])
      invariant forall j :: 0 <= j < i ==> Unique(KindValues(g, j))
    {
      var more;
      ok, more := CheckUnique(KINDS[i], KindValues(g, i), seen);
      if !ok {
        return;
      }
      forall j | i < j < |KINDS| ensures FreshKind(more, KINDS[j]) {
        FreshKindKept(seen, more, KINDS[i], KINDS[j]);
      }
      seen := more;
    }
    assert forall j :: 0 <= j < 7 ==> Unique(KindValues(g, j));
    assert Unique(KindValues(g, 0)) && Unique(KindValues(g, 1)) && Unique(KindValues(g, 2));
    assert Unique(KindValues(g, 3)) && Unique(KindValues(g, 4)) && Unique(KindValues(g, 5)) && Unique(KindValues(g, 6));
    ok := true;
  }

  // ---- Set comparisons ----

  predicate StringSubset(child: seq<string>, parent: seq<string>) {
    forall c :: c in child ==> c in parent || "*" in parent
  }

  predicate ResourceIncluded(child: ResourceRef, parents: seq<ResourceRef>, matchers: Matchers) {
    exists p :: p in parents && p.kind == child.kind && child.kind in matchers && matchers[child.kind](p.id, child.id)
  }

  predicate ResourcesIncluded(children: seq<ResourceRef>, parents: seq<ResourceRef>, matchers: Matchers) {
    forall c :: c in children ==> ResourceIncluded(c, parents, matchers)
  }

  predicate Contains<T(==)>(larger: seq<T>, smaller: seq<T>) {
    forall x :: x in smaller ==> x in larger
  }

  // ---- One delegation edge ----

  /** The first identity dimension that differs, if any. */
  function LinkWidens(parent: Grant, child: Grant, intent: Intent): Option<string> {
    if child.profileId != parent.profileId || child.profileId != intent.profileId then Some("profile")
    else if child.intentId != parent.intentId || child.intentId != intent.intentId then Some("intent")
    else if child.intentVersion != parent.intentVersion ||
        child.intentVersion != intent.version then Some("intent_version")
    else if child.intentDigest != parent.intentDigest || child.intentDigest != intent.digest then Some("intent_digest")
    else if child.parentGrantId != parent.grantId || child.parentGrantVersion != parent.version then Some("parent")
    else if child.issuer != parent.subject then Some("issuer")
    else None
  }

  /** The first set or ceiling dimension that widens, if any. */
  function SetsWiden(parent: Grant, child: Grant, intent: Intent, m: Matchers): Option<string> {
    if !Contains(parent.operations, child.operations) ||
        !Contains(intent.operations, child.operations) then Some("operations")
    else if !StringSubset(child.channels, parent.channels) then Some("channels")
    else if !ResourcesIncluded(child.allowedResources, parent.allowedResources, m)
         || !ResourcesIncluded(child.allowedResources, intent.allowedResources, m) then Some("allowed_resources")
    else if !Contains(child.deniedResources, parent.deniedResources + intent.deniedResources) then
        Some("denied_resources")
    else if !StringSubset(child.allowedData, parent.allowedData) ||
        !StringSubset(child.allowedData, intent.dataScope) then Some("allowed_data")
    else if !StringSubset(parent.deniedData, child.deniedData) then Some("denied_data")
    else if !StringSubset(child.outputDestinations, parent.outputDestinations)
         || !StringSubset(child.outputDestinations, intent.outputDestinations) then Some("destinations")
    else if !Contains(parent.effectClasses, child.effectClasses) ||
        !Contains(intent.effectClasses, child.effectClasses) then Some("effect_classes")
    else if parent.effectCeiling != "" && (child.effectCeiling == "" ||
        Rank(child.effectCeiling) > Rank(parent.effectCeiling)) then Some("effect_ceiling")
    else None
  }

  predicate TotalWidens(child: Budget, remaining: Budget) {
    remaining.total.Some? && (child.total.None? || child.total.value > remaining.total.value)
  }

  predicate OperationsExceed(own: map<string, int>, remaining: map<string, int>) {
    exists k :: k in remaining && k in own && own[k] > remaining[k]
  }

  /** The child's own maxima, and the parent's remaining maxima where the child sets none. */
  function MergedMaxima(own: map<string, int>, remaining: map<string, int>): map<string, int> { remaining + own }

  /** The first window, depth or approval dimension that widens, if any. */
  function LimitsWiden(parent: Grant, child: Grant, intent: Intent): Option<string> {
    if child.validFrom < parent.validFrom || child.validFrom < intent.validFrom then Some("valid_from")
    else if child.expiresAt > parent.expiresAt || child.expiresAt > intent.expiresAt then Some("expires_at")
    else if parent.depth <= 0 || child.depth < 0 || child.depth >= parent.depth ||
        child.depth > intent.maxDelegationDepth then Some("depth")
    else if (parent.approvalRequired || intent.approvalRequired) && !child.approvalRequired then Some("approval")
    else None
  }

  /** NormalizeAuthorityDelegation; `remaining` is the parent's unspent balance. */
  ghost function Normalize(parent: Grant, child: Grant, intent: Intent, remaining: Budget, m: Matchers): Result<Grant,
    Refusal> {
    if !ValidGrant(parent) || !ValidGrant(child) then Err(Malformed)
    else if LinkWidens(parent, child, intent).Some? then Err(Widens(LinkWidens(parent, child, intent).value))
    else if SetsWiden(parent, child, intent, m).Some? then Err(Widens(SetsWiden(parent, child, intent, m).value))
    else if TotalWidens(child.budget, remaining) then Err(Widens("budget_total_remaining"))
    else if OperationsExceed(child.budget.perOperation, remaining.perOperation) then
        Err(Widens("budget_operation_remaining"))
    else if LimitsWiden(parent, child, intent).Some? then Err(Widens(LimitsWiden(parent, child, intent).value))
    else Ok(WithMaxima(child, remaining))
  }

  function WithMaxima(child: Grant, remaining: Budget): Grant {
    child.(budget := child.budget.(perOperation := MergedMaxima(child.budget.perOperation, remaining.perOperation)))
  }

  /** The loop over the remaining maxima: fills in what the child leaves open, in any iteration order. */
  method MergeMaxima(own: map<string, int>, remaining: map<string, int>) returns (ok: bool, merged: map<string, int>)
    ensures ok <==> !OperationsExceed(own, remaining)
    ensures ok ==> merged == MergedMaxima(own, remaining)
  {
    merged := own;
    var todo := remaining.Keys;
    while todo != {}
      invariant todo <= remaining.Keys
      invariant merged.Keys == own.Keys + (remaining.Keys - todo)
      invariant forall k :: k in merged ==> merged[k] == if k in own then own[k] else remaining[k]
      invariant forall k :: k in remaining && k !in todo && k in own ==> own[k] <= remaining[k]
      decreases todo
    {
      var operation :| operation in todo;
      todo := todo - {operation};
      if operation !in merged {
        merged := merged[operation := remaining[operation]];
      } else if merged[operation] > remaining[operation] {
        return false, merged;
      }
    }
    ok := true;
  }

  method NormalizeAuthorityDelegation(parent: Grant, child: Grant, intent: Intent, remaining: Budget, m: Matchers)
    returns (r: Result<Grant, Refusal>)
    ensures r == Normalize(parent, child, intent, remaining, m)
  {
    var ok := Validate(parent);
    if !ok { return Err(Malformed); }
    ok := Validate(child);
    if !ok { return Err(Malformed); }
    var bad := LinkWidens(parent, child, intent);
    if bad.None? { bad := SetsWiden(parent, child, intent, m); }
    if bad.Some? { return Err(Widens(bad.value)); }
    if TotalWidens(child.budget, remaining) { return Err(Widens("budget_total_remaining")); }
    var merged;
    ok, merged := MergeMaxima(child.budget.perOperation, remaining.perOperation);
    if !ok { return Err(Widens("budget_operation_remaining")); }
    bad := LimitsWiden(parent, child, intent);
    if bad.Some? { return Err(Widens(bad.value)); }
    r := Ok(child.(budget := child.budget.(perOperation := merged)));
  }

  // ---- A runtime use ----

  predicate TouchesDenied(g: Grant, use: Use, m: Matchers) {
    exists r, d :: r in use.resources && d in g.deniedResources && r.kind == d.kind && r.kind in m &&
        m[r.kind](d.id, r.id)
  }

  /** ValidateAuthorityUse. */
  function ValidateUse(g: Grant, use: Use, m: Matchers): Verdict {
    if !ResourcesIncluded(use.resources, g.allowedResources, m) || TouchesDenied(g, use, m) then ResourceOutOfScope
    else if !StringSubset(use.data, g.allowedData) ||
        (exists v :: v in use.data && v in g.deniedData) then DataOutOfScope
    else if !StringSubset(use.destinations, g.outputDestinations) then DestinationOutOfScope
    else Allowed
  }

  // ---- The matchers of the running program ----

  predicate ExactOrAll(parent: string, child: string) { parent == child || parent == "*" }

  function DefaultMatchers(cwd: Option<string>, fold: Urls.Fold): Matchers {
    map["path" := (p, c) => Paths.PathIncludes(cwd, p, c),
        "url" := (p, c) => Urls.UrlIncludes(fold, p, c),
        "cage" := ExactOrAll, "legacy" := ExactOrAll]
  }

  ghost predicate TransitiveMatchers(m: Matchers) {
    forall k, a, b, c :: k in m && m[k](a, b) && m[k](b, c) ==> m[k](a, c)
  }

  lemma DefaultMatchersTransitive(cwd: Option<string>, fold: Urls.Fold)
    requires Urls.Equivalence(fold)
    ensures TransitiveMatchers(DefaultMatchers(cwd, fold))
  {
    var m := DefaultMatchers(cwd, fold);
    forall k, a, b, c | k in m && m[k](a, b) && m[k](b, c) ensures m[k](a, c) {
      if k == "path" {
        Paths.PathIncludesTransitive(cwd, a, b, c);
      } else if k == "url" {
        Urls.UrlIncludesTransitive(fold, a, b, c);
      }
    }
  }
}
