/**
 What one accepted delegation says, dimension by dimension, against the parent and against the intent, and which
 dimension a refusal names.
 */
module AuthorityEdge {
  import opened Prelude
  import opened Authority
  import opened AuthorityChains
  import opened Effects

  /** The dimensions of a delegation. */
  datatype Dimension =
    | Profile | IntentId | IntentVersion | IntentDigest | ParentLink | Issuer
    | Operations | Channels | AllowedResources | DeniedResources | AllowedData | DeniedData | Destinations
    | EffectClasses | EffectCeiling | Total | PerOperation | ValidFrom | ExpiresAt | Depth | Approval

  /** What the normalizer is given: `left` is the parent's unspent balance. */
  datatype Edge = Edge(parent: Grant, child: Grant, intent: Intent, left: Budget, matchers: Matchers)

  /** Each dimension holds when the child has no more of it than the parent, the intent or the balance. */
  ghost predicate Holds(d: Dimension, e: Edge) {
    var Edge(parent, child, intent, left, m) := e;
    match d
    case Profile => child.profileId == parent.profileId && child.profileId == intent.profileId
    case IntentId => child.intentId == parent.intentId && child.intentId == intent.intentId
    case IntentVersion => child.intentVersion == parent.intentVersion && child.intentVersion == intent.version
    case IntentDigest => child.intentDigest == parent.intentDigest && child.intentDigest == intent.digest
    case ParentLink => child.parentGrantId == parent.grantId && child.parentGrantVersion == parent.version
    case Issuer => child.issuer == parent.subject
    case Operations => forall op :: op in child.operations ==> op in parent.operations && op in intent.operations
    case Channels => forall c :: c in child.channels ==> Covered(c, parent.channels)
    case AllowedResources =>
      forall r :: r in child.allowedResources ==>
                    ResourceIncluded(r, parent.allowedResources, m) && ResourceIncluded(r, intent.allowedResources, m)
    case DeniedResources =>
      (forall r :: r in parent.deniedResources ==> r in child.deniedResources)
      && forall r :: r in intent.deniedResources ==> r in child.deniedResources
    case AllowedData =>
      forall c :: c in child.allowedData ==> Covered(c, parent.allowedData) && Covered(c, intent.dataScope)
    case DeniedData => forall c :: c in parent.deniedData ==> Covered(c, child.deniedData)
    case Destinations =>
      forall c :: c in child.outputDestinations ==>
                    Covered(c, parent.outputDestinations) && Covered(c, intent.outputDestinations)
    case EffectClasses =>
      forall e :: e in child.effectClasses ==> e in parent.effectClasses && e in intent.effectClasses
    case EffectCeiling =>
      parent.effectCeiling != "" ==>
        child.effectCeiling != "" && Rank(child.effectCeiling) <= Rank(parent.effectCeiling)
    case Total => left.total.Some? ==> child.budget.total.Some? && child.budget.total.value <= left.total.value
    case PerOperation =>
      forall k :: k in left.perOperation && k in child.budget.perOperation ==>
                    child.budget.perOperation[k] <= left.perOperation[k]
    case ValidFrom => parent.validFrom <= child.validFrom && intent.validFrom <= child.validFrom
    case ExpiresAt => child.expiresAt <= parent.expiresAt && child.expiresAt <= intent.expiresAt
    case Depth => 0 <= child.depth < parent.depth && child.depth <= intent.maxDelegationDepth
    case Approval => parent.approvalRequired || intent.approvalRequired ==> child.approvalRequired
  }

  /** The order in which they are judged. */
  function Place(d: Dimension): nat {
    match d
    case Profile => 0 case IntentId => 1 case IntentVersion => 2 case IntentDigest => 3 case ParentLink => 4
    case Issuer => 5 case Operations => 6 case Channels => 7 case AllowedResources => 8 case DeniedResources => 9
    case AllowedData => 10 case DeniedData => 11 case Destinations => 12 case EffectClasses => 13
    case EffectCeiling => 14 case Total => 15 case PerOperation => 16 case ValidFrom => 17 case ExpiresAt => 18
    case Depth => 19 case Approval => 20
  }

  function NameOf(d: Dimension): string {
    match d
    case Profile => "profile" case IntentId => "intent" case IntentVersion => "intent_version"
    case IntentDigest => "intent_digest" case ParentLink => "parent" case Issuer => "issuer"
    case Operations => "operations" case Channels => "channels" case AllowedResources => "allowed_resources"
    case DeniedResources => "denied_resources" case AllowedData => "allowed_data" case DeniedData => "denied_data"
    case Destinations => "destinations" case EffectClasses => "effect_classes" case EffectCeiling => "effect_ceiling"
    case Total => "budget_total_remaining" case PerOperation => "budget_operation_remaining"
    case ValidFrom => "valid_from" case ExpiresAt => "expires_at" case Depth => "depth" case Approval => "approval"
  }

  /** The dimensions judged at these places hold. */
  ghost predicate HoldIn(from: nat, upTo: nat, e: Edge) { forall d: Dimension :: from <= Place(d) < upTo ==>
    Holds(d, e) }

  /** The dimension fails and every one judged before it, from this place on, holds. */
  ghost predicate FailsFrom(d: Dimension, from: nat, e: Edge) {
    from <= Place(d) && !Holds(d, e) && HoldIn(from, Place(d), e)
  }

  ghost predicate FailsFirst(d: Dimension, e: Edge) { FailsFrom(d, 0, e) }

  ghost predicate AllHold(e: Edge) { forall d: Dimension :: Holds(d, e) }

  /** The verdict of some of the tests: the first of these dimensions that fails, if any. */
  ghost predicate Names(bad: Option<string>, from: nat, upTo: nat, e: Edge) {
    match bad
    case None => HoldIn(from, upTo, e)
    case Some(name) => exists d: Dimension :: Place(d) < upTo && NameOf(d) == name && FailsFrom(d, from, e)
  }

  lemma LinkNames(e: Edge)
    ensures Names(LinkWidens(e.parent, e.child, e.intent), 0, 6, e)
  {
    var bad := LinkWidens(e.parent, e.child, e.intent);
    if bad.Some? {
      var d := if !Holds(Profile, e) then Profile else if !Holds(IntentId, e) then IntentId
      else if !Holds(IntentVersion, e) then IntentVersion else if !Holds(IntentDigest, e) then IntentDigest
      else if !Holds(ParentLink, e) then ParentLink else Issuer;
      assert Place(d) < 6 && NameOf(d) == bad.value && FailsFrom(d, 0, e);
    }
  }

  /** The tests of the sets, one by one. */
  lemma OperationsHold(e: Edge)
    ensures Contains(e.parent.operations, e.child.operations) && Contains(e.intent.operations, e.child.operations)
            <==> Holds(Operations, e)
  { }

  lemma ResourcesHold(e: Edge)
    ensures ResourcesIncluded(e.child.allowedResources, e.parent.allowedResources, e.matchers)
            && ResourcesIncluded(e.child.allowedResources, e.intent.allowedResources, e.matchers)
            <==> Holds(AllowedResources, e)
  { hide ResourceIncluded; }

  lemma DenialsHold(e: Edge)
    ensures Contains(e.child.deniedResources, e.parent.deniedResources + e.intent.deniedResources)
            <==> Holds(DeniedResources, e)
  {
    var denied := e.parent.deniedResources + e.intent.deniedResources;
    assert forall r :: r in denied <==> r in e.parent.deniedResources || r in e.intent.deniedResources;
  }

  lemma DataHold(e: Edge)
    ensures StringSubset(e.child.allowedData, e.parent.allowedData)
            && StringSubset(e.child.allowedData, e.intent.dataScope)
            <==> Holds(AllowedData, e)
    ensures StringSubset(e.parent.deniedData, e.child.deniedData) <==> Holds(DeniedData, e)
  { }

  lemma ChannelsHold(e: Edge)
    ensures StringSubset(e.child.channels, e.parent.channels) <==> Holds(Channels, e)
    ensures StringSubset(e.child.outputDestinations, e.parent.outputDestinations)
            && StringSubset(e.child.outputDestinations, e.intent.outputDestinations)
            <==> Holds(Destinations, e)
  { }

  lemma EffectsHold(e: Edge)
    ensures Contains(e.parent.effectClasses, e.child.effectClasses)
            && Contains(e.intent.effectClasses, e.child.effectClasses)
            <==> Holds(EffectClasses, e)
    ensures e.parent.effectCeiling != ""
            && (e.child.effectCeiling == "" || Rank(e.child.effectCeiling) > Rank(e.parent.effectCeiling))
            <==> !Holds(EffectCeiling, e)
  { hide Rank; }

  lemma SetsName(e: Edge)
    ensures Names(SetsWiden(e.parent, e.child, e.intent, e.matchers), 6, 15, e)
  {
    hide Rank, Holds, Contains, StringSubset, ResourcesIncluded;
    OperationsHold(e);
    ResourcesHold(e);
    DenialsHold(e);
    DataHold(e);
    ChannelsHold(e);
    EffectsHold(e);
    var bad := SetsWiden(e.parent, e.child, e.intent, e.matchers);
    if bad.Some? {
      var d := if !Holds(Operations, e) then Operations else if !Holds(Channels, e) then Channels
      else if !Holds(AllowedResources, e) then AllowedResources
      else if !Holds(DeniedResources, e) then DeniedResources
      else if !Holds(AllowedData, e) then AllowedData else if !Holds(DeniedData, e) then DeniedData
      else if !Holds(Destinations, e) then Destinations else if !Holds(EffectClasses, e) then EffectClasses
      else EffectCeiling;
      assert Place(d) < 15 && NameOf(d) == bad.value && FailsFrom(d, 6, e);
    }
  }

  function BudgetWidens(e: Edge): Option<string> {
    if TotalWidens(e.child.budget, e.left) then Some("budget_total_remaining")
    else if OperationsExceed(e.child.budget.perOperation, e.left.perOperation) then Some("budget_operation_remaining")
    else None
  }

  lemma BudgetNames(e: Edge)
    ensures Names(BudgetWidens(e), 15, 17, e)
  {
    var bad := BudgetWidens(e);
    if bad.Some? {
      var d := if !Holds(Total, e) then Total else PerOperation;
      assert Place(d) < 17 && NameOf(d) == bad.value && FailsFrom(d, 15, e);
    }
  }

  lemma LimitsName(e: Edge)
    ensures Names(LimitsWiden(e.parent, e.child, e.intent), 17, 21, e)
  {
    var bad := LimitsWiden(e.parent, e.child, e.intent);
    if bad.Some? {
      var d := if !Holds(ValidFrom, e) then ValidFrom else if !Holds(ExpiresAt, e) then ExpiresAt
      else if !Holds(Depth, e) then Depth else Approval;
      assert Place(d) < 21 && NameOf(d) == bad.value && FailsFrom(d, 17, e);
    }
  }

  /** Two runs of tests one after the other. */
  lemma NamesInTurn(first: Option<string>, second: Option<string>, from: nat, middle: nat, upTo: nat, e: Edge)
    requires Names(first, from, middle, e) && Names(second, middle, upTo, e) && from <= middle <= upTo
    ensures Names(if first.Some? then first else second, from, upTo, e)
  {
    hide Holds, NameOf;
    if first.None? && second.Some? {
      var d: Dimension :| Place(d) < upTo && NameOf(d) == second.value && FailsFrom(d, middle, e);
      assert FailsFrom(d, from, e);
    }
  }

  function Accept(e: Edge): Result<Grant, Refusal> { Ok(WithMaxima(e.child, e.left)) }

  ghost function Judged(e: Edge): Result<Grant, Refusal> { Normalize(e.parent, e.child, e.intent, e.left, e.matchers) }

  /** A refusal names the first dimension that fails, and an acceptance means that none does. */
  lemma RefusalNames(e: Edge)
    requires ValidGrant(e.parent) && ValidGrant(e.child)
    ensures exists bad :: Names(bad, 0, 21, e) && Judged(e) == if bad.Some? then Err(Widens(bad.value)) else Accept(e)
  {
    hide ValidGrant, LinkWidens, SetsWiden, LimitsWiden, WithMaxima, Names, TotalWidens, OperationsExceed;
    LinkNames(e);
    SetsName(e);
    BudgetNames(e);
    LimitsName(e);
    var link, sets := LinkWidens(e.parent, e.child, e.intent), SetsWiden(e.parent, e.child, e.intent, e.matchers);
    var budget, limits := BudgetWidens(e), LimitsWiden(e.parent, e.child, e.intent);
    NamesInTurn(link, sets, 0, 6, 15, e);
    var early := if link.Some? then link else sets;
    NamesInTurn(early, budget, 0, 15, 17, e);
    NamesInTurn(if early.Some? then early else budget, limits, 0, 17, 21, e);
  }

  function Signature(d: Dimension): (nat, char, char) {
    var n := NameOf(d);
    (|n|, if |n| > 1 then n[1] else ' ', if |n| > 8 then n[8] else ' ')
  }

  /** Length and two characters of a name, spelled out. */
  lemma SignatureOf(d: Dimension)
    ensures Signature(d) ==
            match d
            case Profile => (7, 'r', ' ') case IntentId => (6, 'n', ' ') case IntentVersion => (14, 'n', 'e')
            case IntentDigest => (13, 'n', 'i') case ParentLink => (6, 'a', ' ') case Issuer => (6, 's', ' ')
            case Operations => (10, 'p', 'n') case Channels => (8, 'h', ' ') case AllowedResources => (17, 'l', 'r')
            case DeniedResources => (16, 'e', 'e') case AllowedData => (12, 'l', 'd') case DeniedData => (11, 'e', 'a')
            case Destinations => (12, 'e', 'i') case EffectClasses => (14, 'f', 'l')
            case EffectCeiling => (14, 'f', 'e') case Total => (22, 'u', 'o') case PerOperation => (26, 'u', 'p')
            case ValidFrom => (10, 'a', 'o') case ExpiresAt => (10, 'x', 'a') case Depth => (5, 'e', ' ')
            case Approval => (8, 'p', ' ')
  { }

  lemma NamesDiffer(d: Dimension, e: Dimension)
    requires NameOf(d) == NameOf(e)
    ensures d == e
  {
    assert Signature(d) == Signature(e);
    hide Signature, NameOf;
    SignatureOf(d);
    SignatureOf(e);
  }

  lemma OneFailsFirst(d: Dimension, f: Dimension, e: Edge)
    requires FailsFirst(d, e) && FailsFirst(f, e)
    ensures d == f
  {
    hide Holds;
    PlacesDiffer(d, f);
  }

  lemma PlacesDiffer(d: Dimension, f: Dimension)
    ensures Place(d) < 21 && (Place(d) == Place(f) <==> d == f)
  { }

  /**
   One edge, exactly: valid grants are accepted when every dimension holds, and then only the maxima of the child
   change; otherwise the refusal names the dimension that fails first, and no other. An invalid grant is malformed.
   */
  lemma EdgeExactly(e: Edge)
    ensures Judged(e) == Err(Malformed) <==> !ValidGrant(e.parent) || !ValidGrant(e.child)
    ensures ValidGrant(e.parent) && ValidGrant(e.child) ==>
              && (AllHold(e) ==> Judged(e) == Accept(e))
              && (Judged(e).Ok? ==> AllHold(e))
              && forall d: Dimension :: Judged(e) == Err(Widens(NameOf(d))) <==> FailsFirst(d, e)
  {
    hide ValidGrant, LinkWidens, SetsWiden, LimitsWiden, WithMaxima, Holds, NameOf;
    if ValidGrant(e.parent) && ValidGrant(e.child) {
      RefusalNames(e);
      var bad :| Names(bad, 0, 21, e) && Judged(e) == if bad.Some? then Err(Widens(bad.value)) else Accept(e);
      forall d: Dimension ensures Judged(e) == Err(Widens(NameOf(d))) <==> FailsFirst(d, e) {
        NamedIsFirst(d, bad, e);
      }
      forall d: Dimension | bad.None? ensures Holds(d, e) {
        PlacesDiffer(d, d);
      }
    }
  }

  lemma NamedIsFirst(d: Dimension, bad: Option<string>, e: Edge)
    requires Names(bad, 0, 21, e)
    ensures bad == Some(NameOf(d)) <==> FailsFirst(d, e)
  {
    hide Holds, NameOf;
    PlacesDiffer(d, d);
    if bad.Some? {
      var f: Dimension :| Place(f) < 21 && NameOf(f) == bad.value && FailsFrom(f, 0, e);
      if NameOf(f) == NameOf(d) {
        NamesDiffer(f, d);
      }
      if FailsFirst(d, e) {
        OneFailsFirst(d, f, e);
      }
    }
  }

  // ---- Every grant of a chain, against its intent ----

  /** The grant has the intent's identity and no more than the intent's terms. */
  ghost predicate InIntent(g: Grant, intent: Intent, m: Matchers) {
    SameIntent(g, intent) && WithinLists(g, intent, m) && WithinLimits(g, intent)
  }

  predicate SameIntent(g: Grant, intent: Intent) {
    && g.profileId == intent.profileId && g.intentId == intent.intentId
    && g.intentVersion == intent.version && g.intentDigest == intent.digest
  }

  ghost predicate WithinLists(g: Grant, intent: Intent, m: Matchers) {
    && (forall op :: op in g.operations ==> op in intent.operations)
    && (forall e :: e in g.effectClasses ==> e in intent.effectClasses)
    && (forall r :: r in g.allowedResources ==> ResourceIncluded(r, intent.allowedResources, m))
    && (forall r :: r in intent.deniedResources ==> r in g.deniedResources)
    && (forall c :: c in g.allowedData ==> Covered(c, intent.dataScope))
    && (forall c :: c in g.outputDestinations ==> Covered(c, intent.outputDestinations))
  }

  predicate WithinLimits(g: Grant, intent: Intent) {
    && intent.validFrom <= g.validFrom && g.expiresAt <= intent.expiresAt
    && g.depth <= intent.maxDelegationDepth
    && (intent.approvalRequired ==> g.approvalRequired)
  }

  /** The grant is issued by its parent's subject and names its parent. */
  predicate IssuedBy(g: Grant, parent: Grant) {
    && g.issuer == parent.subject && g.parentGrantId == parent.grantId && g.parentGrantVersion == parent.version
    && g.profileId == parent.profileId && g.intentId == parent.intentId
    && g.intentVersion == parent.intentVersion && g.intentDigest == parent.intentDigest
  }

  lemma HoldsSays(e: Edge)
    requires AllHold(e)
    ensures InIntent(e.child, e.intent, e.matchers) && IssuedBy(e.child, e.parent)
  {
    hide Holds, SameIntent, WithinLists, WithinLimits, IssuedBy;
    forall d: Dimension ensures Holds(d, e) { }
    LinksSay(e);
    ListsSay(e);
    LimitsSay(e);
  }

  lemma LinksSay(e: Edge)
    requires Holds(Profile, e) && Holds(IntentId, e) && Holds(IntentVersion, e) && Holds(IntentDigest, e)
    requires Holds(ParentLink, e) && Holds(Issuer, e)
    ensures SameIntent(e.child, e.intent) && IssuedBy(e.child, e.parent)
  { }

  lemma ListsSay(e: Edge)
    requires Holds(Operations, e) && Holds(EffectClasses, e) && Holds(AllowedResources, e)
    requires Holds(DeniedResources, e) && Holds(AllowedData, e) && Holds(Destinations, e)
    ensures WithinLists(e.child, e.intent, e.matchers)
  { hide ResourceIncluded, Covered; }

  lemma LimitsSay(e: Edge)
    requires Holds(ValidFrom, e) && Holds(ExpiresAt, e) && Holds(Depth, e) && Holds(Approval, e)
    ensures WithinLimits(e.child, e.intent)
  { }

  /** No grant of a chain, at any distance from the root, leaves its intent or its parent's subject. */
  lemma ChainStaysInIntent(gs: seq<Grant>, j: nat, intent: Intent, m: Matchers)
    requires Chain(gs, intent, m) && 0 < j < |gs|
    ensures InIntent(gs[j], intent, m) && IssuedBy(gs[j], gs[j - 1])
  {
    hide Normalize, InIntent, IssuedBy, Holds, AllHold, WithMaxima;
    assert DelegatedAt(gs, j, intent, m);
    var proposed, left :| Normalize(gs[j - 1], proposed, intent, left, m) == Ok(gs[j]);
    var e := Edge(gs[j - 1], proposed, intent, left, m);
    EdgeExactly(e);
    HoldsSays(e);
    MaximaOnly(e);
  }

  /** Filling in the maxima changes none of that. */
  lemma MaximaOnly(e: Edge)
    requires InIntent(e.child, e.intent, e.matchers) && IssuedBy(e.child, e.parent)
    ensures var g := WithMaxima(e.child, e.left); InIntent(g, e.intent, e.matchers) && IssuedBy(g, e.parent)
  { hide MergedMaxima; }

  // ---- One use ----

  /** Every resource is inside an allowed one and inside no denied one. */
  ghost predicate ResourcesInScope(g: Grant, use: Use, m: Matchers) {
    forall r :: r in use.resources ==>
                  ResourceIncluded(r, g.allowedResources, m) && !ResourceIncluded(r, g.deniedResources, m)
  }

  ghost predicate DataInScope(g: Grant, use: Use) {
    forall d :: d in use.data ==> Covered(d, g.allowedData) && d !in g.deniedData
  }

  ghost predicate DestinationsInScope(g: Grant, use: Use) {
    forall d :: d in use.destinations ==> Covered(d, g.outputDestinations)
  }

  /** One use, exactly: allowed when all three are in scope, else refused for the first that is not. */
  lemma UseExactly(g: Grant, use: Use, m: Matchers)
    ensures ValidateUse(g, use, m) ==
            if !ResourcesInScope(g, use, m) then ResourceOutOfScope
            else if !DataInScope(g, use) then DataOutOfScope
            else if !DestinationsInScope(g, use) then DestinationOutOfScope
            else Allowed
  {
    assert ResourcesInScope(g, use, m) <==>
      ResourcesIncluded(use.resources, g.allowedResources, m) && !TouchesDenied(g, use, m);
  }
}
