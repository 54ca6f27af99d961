/**
 The wire form of a version 2 authority grant: the canonical terms with every set sorted, and the
 parser of untrusted bytes.

 Instants print and read as in the receipts. Sorting works on a copy, so what the caller holds is not
 part of the model.
 */
module GrantWire {
  import opened Prelude
  import opened Json
  import opened Canonical
  import opened DupKeys
  import opened Wire
  import opened FieldNames
  import opened Sorting
  import A = Authority
  import R = Receipts
  import opened Digest

  const MAX_BYTES := 65536

  // ---- The fields ----

  datatype Field =
    | GrantId | SchemaVersion | Version | ProfileId | IntentId | IntentVersion | IntentDigest | Issuer | Subject
    | ParentId | ParentVersion | Operations | Channels | AllowedResources | DeniedResources | AllowedData | DeniedData
    | Destinations | EffectClasses | EffectCeiling | BudgetTerms | ValidFrom | ExpiresAt | Depth | Approval

  function NameOf(f: Field): string {
    match f
    case GrantId => "grant_id"
    case SchemaVersion => "schema_version"
    case Version => "version"
    case ProfileId => "profile_id"
    case IntentId => "intent_id"
    case IntentVersion => "intent_version"
    case IntentDigest => "intent_digest"
    case Issuer => "issuer_principal_id"
    case Subject => "subject_principal_id"
    case ParentId => "parent_grant_id"
    case ParentVersion => "parent_grant_version"
    case Operations => "operations"
    case Channels => "channels"
    case AllowedResources => "allowed_resources"
    case DeniedResources => "denied_resources"
    case AllowedData => "allowed_data"
    case DeniedData => "denied_data"
    case Destinations => "output_destinations"
    case EffectClasses => "effect_classes"
    case EffectCeiling => "effect_ceiling"
    case BudgetTerms => "budget"
    case ValidFrom => "valid_from"
    case ExpiresAt => "expires_at"
    case Depth => "delegation_depth_remaining"
    case Approval => "approval"
  }

  /** Declaration order. */
  const FIELDS :=
    [ GrantId, SchemaVersion, Version, ProfileId, IntentId, IntentVersion, IntentDigest, Issuer, Subject,
      ParentId, ParentVersion, Operations, Channels, AllowedResources, DeniedResources, AllowedData, DeniedData,
      Destinations, EffectClasses, EffectCeiling, BudgetTerms, ValidFrom, ExpiresAt, Depth, Approval ]

  const OPERATION := Record([FieldSchema("namespace", Text), FieldSchema("name", Text),
      FieldSchema("version", Integer)])
  const RESOURCE := Record([FieldSchema("kind", Text), FieldSchema("id", Text)])
  const BUDGET := Record([FieldSchema("total", MaybeInteger), FieldSchema("per_operation", Counts)])
  const APPROVAL := Record([FieldSchema("required", Flag)])

  function SchemaOf(f: Field): Schema {
    match f
    case SchemaVersion => Integer
    case Version => Integer
    case IntentVersion => Integer
    case ParentVersion => Integer
    case Depth => Integer
    case Operations => ListOf(OPERATION)
    case AllowedResources => ListOf(RESOURCE)
    case DeniedResources => ListOf(RESOURCE)
    case Channels => ListOf(Text)
    case AllowedData => ListOf(Text)
    case DeniedData => ListOf(Text)
    case Destinations => ListOf(Text)
    case EffectClasses => ListOf(Text)
    case BudgetTerms => BUDGET
    case Approval => APPROVAL
    case _ => Text
  }

  function SchemasFor(fields: seq<Field>): (r: seq<FieldSchema>)
    ensures |r| == |fields| && forall i :: 0 <= i < |fields| ==>
            r[i] == FieldSchema(NameOf(fields[i]), SchemaOf(fields[i]))
  { if fields == [] then [] else [FieldSchema(NameOf(fields[0]), SchemaOf(fields[0]))] + SchemasFor(fields[1..]) }

  function GrantSchema(): Schema { Record(SchemasFor(FIELDS)) }

  // ---- Writing ----

  function IntTree(n: int): Tree { NumTree(IntText(n)) }

  function StringTrees(xs: seq<string>): (r: seq<Tree>)
    ensures |r| == |xs| && forall i :: 0 <= i < |xs| ==> r[i] == StrTree(xs[i])
  { seq(|xs|, i requires 0 <= i < |xs| => StrTree(xs[i])) }

  function OperationTree(op: A.OperationRef): Tree {
    ObjTree([Member("namespace", StrTree(op.namespace)), Member("name", StrTree(op.name)),
        Member("version", IntTree(op.version))])
  }

  function OperationTrees(xs: seq<A.OperationRef>): (r: seq<Tree>)
    ensures |r| == |xs| && forall i :: 0 <= i < |xs| ==> r[i] == OperationTree(xs[i])
  { seq(|xs|, i requires 0 <= i < |xs| => OperationTree(xs[i])) }

  function ResourceTree(r: A.ResourceRef): Tree { ObjTree([Member("kind", StrTree(r.kind)),
    Member("id", StrTree(r.id))]) }

  function ResourceTrees(xs: seq<A.ResourceRef>): (r: seq<Tree>)
    ensures |r| == |xs| && forall i :: 0 <= i < |xs| ==> r[i] == ResourceTree(xs[i])
  { seq(|xs|, i requires 0 <= i < |xs| => ResourceTree(xs[i])) }

  function CountMembers(keys: seq<string>, m: map<string, int>): (r: seq<Member>)
    requires forall k :: k in keys ==> k in m
    ensures |r| == |keys| && forall i :: 0 <= i < |keys| ==> r[i] == Member(keys[i], IntTree(m[keys[i]]))
  { seq(|keys|, i requires 0 <= i < |keys| => Member(keys[i], IntTree(m[keys[i]]))) }

  ghost function BudgetTree(b: A.Budget): Tree {
    ObjTree([Member("total", if b.total.None? then NullTree else IntTree(b.total.value)),
             Member("per_operation", ObjTree(CountMembers(SortedKeys(b.perOperation.Keys), b.perOperation)))])
  }

  ghost function ValueOf(clock: R.Clock, g: A.Grant, f: Field): Tree {
    match f
    case GrantId => StrTree(g.grantId)
    case SchemaVersion => IntTree(2)
    case Version => IntTree(g.version)
    case ProfileId => StrTree(g.profileId)
    case IntentId => StrTree(g.intentId)
    case IntentVersion => IntTree(g.intentVersion)
    case IntentDigest => StrTree(g.intentDigest)
    case Issuer => StrTree(g.issuer)
    case Subject => StrTree(g.subject)
    case ParentId => StrTree(g.parentGrantId)
    case ParentVersion => IntTree(g.parentGrantVersion)
    case Operations => ArrTree(OperationTrees(g.operations))
    case Channels => ArrTree(StringTrees(g.channels))
    case AllowedResources => ArrTree(ResourceTrees(g.allowedResources))
    case DeniedResources => ArrTree(ResourceTrees(g.deniedResources))
    case AllowedData => ArrTree(StringTrees(g.allowedData))
    case DeniedData => ArrTree(StringTrees(g.deniedData))
    case Destinations => ArrTree(StringTrees(g.outputDestinations))
    case EffectClasses => ArrTree(StringTrees(g.effectClasses))
    case EffectCeiling => StrTree(g.effectCeiling)
    case BudgetTerms => BudgetTree(g.budget)
    case ValidFrom => StrTree(R.TimeTerm(clock, g.validFrom))
    case ExpiresAt => StrTree(R.TimeTerm(clock, g.expiresAt))
    case Depth => IntTree(g.depth)
    case Approval => ObjTree([Member("required", BoolTree(g.approvalRequired))])
  }

  ghost function MembersFor(clock: R.Clock, g: A.Grant, fields: seq<Field>): (r: seq<Member>)
    ensures |r| == |fields| && forall i :: 0 <= i < |fields| ==>
            r[i] == Member(NameOf(fields[i]), ValueOf(clock, g, fields[i]))
  { if fields == [] then [] else [Member(NameOf(fields[0]), ValueOf(clock, g, fields[0]))] + MembersFor(clock, g,
      fields[1..]) }

  /** The terms as they stand, sets in their own order. */
  ghost function WireTree(clock: R.Clock, g: A.Grant): Tree { ObjTree(MembersFor(clock, g, FIELDS)) }

  predicate LessOperation(a: A.OperationRef, b: A.OperationRef) { Less(A.OperationKey(a), A.OperationKey(b)) }

  predicate LessResource(a: A.ResourceRef, b: A.ResourceRef) {
    if a.kind != b.kind then Less(a.kind, b.kind) else Less(a.id, b.id)
  }

  /** The same terms with every set sorted. */
  function SortedGrant(g: A.Grant): A.Grant {
    g.(schemaVersion := 2,
       operations := SortBy(g.operations, LessOperation),
       channels := SortBy(g.channels, Less),
       allowedResources := SortBy(g.allowedResources, LessResource),
       deniedResources := SortBy(g.deniedResources, LessResource),
       allowedData := SortBy(g.allowedData, Less),
       deniedData := SortBy(g.deniedData, Less),
       outputDestinations := SortBy(g.outputDestinations, Less),
       effectClasses := SortBy(g.effectClasses, Less))
  }

  /** AuthorityGrantV2.CanonicalBytes. */
  ghost function CanonicalBytes(clock: R.Clock, g: A.Grant): string { Print(WireTree(clock, SortedGrant(g))) }

  // ---- Reading ----

  function TextIn(t: Tree): string { if t.StrTree? then t.text else "" }

  function IntIn(t: Tree): int { if IntegerIn(t).Some? then IntegerIn(t).value else 0 }

  function PartOf(t: Tree, key: string): Tree {
    if t.ObjTree? && HasKey(t.members, key) then Binding(t.members, key) else NullTree
  }

  function ItemsIn(t: Tree): seq<Tree> { if t.ArrTree? then t.items else [] }

  function TextsIn(t: Tree): seq<string> { seq(|ItemsIn(t)|,
    i requires 0 <= i < |ItemsIn(t)| => TextIn(ItemsIn(t)[i])) }

  function OperationIn(t: Tree): A.OperationRef {
    A.OperationRef(TextIn(PartOf(t, "namespace")), TextIn(PartOf(t, "name")), IntIn(PartOf(t, "version")))
  }

  function OperationsIn(t: Tree): seq<A.OperationRef> {
    seq(|ItemsIn(t)|, i requires 0 <= i < |ItemsIn(t)| => OperationIn(ItemsIn(t)[i]))
  }

  function ResourceIn(t: Tree): A.ResourceRef { A.ResourceRef(TextIn(PartOf(t, "kind")), TextIn(PartOf(t, "id"))) }

  function ResourcesIn(t: Tree): seq<A.ResourceRef> {
    seq(|ItemsIn(t)|, i requires 0 <= i < |ItemsIn(t)| => ResourceIn(ItemsIn(t)[i]))
  }

  function CountsIn(ms: seq<Member>): map<string, int> {
    if ms == [] then map[] else CountsIn(ms[..|ms| - 1])[ms[|ms| - 1].key := IntIn(ms[|ms| - 1].value)]
  }

  function BudgetIn(t: Tree): A.Budget {
    var total, counts := PartOf(t, "total"), PartOf(t, "per_operation");
    A.Budget(if total.NullTree? then None else Some(IntIn(total)),
        if counts.ObjTree? then CountsIn(counts.members) else map[])
  }

  function FlagIn(t: Tree): bool { t.BoolTree? && t.value }

  /** The grant with these field values. */
  function GrantFrom(v: Field -> Tree, validFrom: int, expiresAt: int): A.Grant {
    A.Grant(TextIn(v(GrantId)), IntIn(v(SchemaVersion)), IntIn(v(Version)),
            TextIn(v(ProfileId)), TextIn(v(IntentId)), IntIn(v(IntentVersion)), TextIn(v(IntentDigest)),
            TextIn(v(Issuer)), TextIn(v(Subject)), TextIn(v(ParentId)), IntIn(v(ParentVersion)),
            OperationsIn(v(Operations)), TextsIn(v(Channels)),
            ResourcesIn(v(AllowedResources)), ResourcesIn(v(DeniedResources)),
            TextsIn(v(AllowedData)), TextsIn(v(DeniedData)), TextsIn(v(Destinations)),
            TextsIn(v(EffectClasses)), TextIn(v(EffectCeiling)),
            BudgetIn(v(BudgetTerms)), validFrom, expiresAt, IntIn(v(Depth)), FlagIn(PartOf(v(Approval), "required")))
  }

  /** The decoded terms before their own validation; None when they do not decode or a time does not parse. */
  function ReadTerms(clock: R.Clock, t: Tree): Option<A.Grant> {
    match Fill(GrantSchema(), t)
    case None => None
    case Some(full) =>
      var v := FieldsOf(full);
      var from, until := clock.parse(TextIn(v(ValidFrom))), clock.parse(TextIn(v(ExpiresAt)));
      if from.Some? && until.Some? then Some(GrantFrom(v, from.value, until.value)) else None
  }

  function FieldsOf(t: Tree): Field -> Tree { f => PartOf(t, NameOf(f)) }

  /** ParseAuthorityGrantV2: size, repeated keys, one strict value, times, structure. */
  ghost function ParseGrant(clock: R.Clock, raw: string): Option<A.Grant> {
    if ByteLength(raw) > MAX_BYTES then None
    else match Decode(raw)
      case None => None
      case Some(t) =>
        if !UniqueKeys(t) || !Fits(t, MAX_DEPTH) then None
        else match ReadTerms(clock, t)
          case None => None
          case Some(g) => if A.ValidGrant(g) then Some(g) else None
  }

  lemma DecodedIsScanned(raw: string)
    ensures Decode(raw).Some? ==>
              var p := ParseValue(Lex(raw).tokens); p.Done? && p.value == Decode(raw).value
  { }

  method ParseAuthorityGrantV2(clock: R.Clock, raw: string) returns (r: Option<A.Grant>)
    ensures r == ParseGrant(clock, raw)
  {
    hide ByteLength, Decode, UniqueKeys, Fits, ReadTerms, A.ValidGrant, ParseValue, Lex;
    DecodedIsScanned(raw);
    if ByteLength(raw) > MAX_BYTES {
      return None;
    }
    var scan := RejectDuplicateJSONKeys(raw);
    if !scan.Accept? {
      return None;
    }
    var decoded := Decode(raw);
    if decoded.None? {
      return None;
    }
    r := ReadTerms(clock, decoded.value);
    if r.Some? {
      var ok := A.Validate(r.value);
      if !ok {
        return None;
      }
    }
  }

  // ---- The terms are in full ----

  function Signature(f: Field): (nat, char, char) {
    var n := NameOf(f);
    (|n|, if |n| > 1 then n[1] else ' ', if |n| > 8 then n[8] else ' ')
  }

  /** Length and two characters of a name, spelled out. */
  lemma SignatureOf(f: Field)
    ensures Signature(f) ==
            match f
            case GrantId => (8, 'r', ' ') case SchemaVersion => (14, 'c', 'e') case Version => (7, 'e', ' ')
            case ProfileId => (10, 'r', 'i') case IntentId => (9, 'n', 'd') case IntentVersion => (14, 'n', 'e')
            case IntentDigest => (13, 'n', 'i') case Issuer => (19, 's', 'r') case Subject => (20, 'u', 'p')
            case ParentId => (15, 'a', 'r') case ParentVersion => (20, 'a', 'r') case Operations => (10, 'p', 'n')
            case Channels => (8, 'h', ' ') case AllowedResources => (17, 'l', 'r')
            case DeniedResources => (16, 'e', 'e') case AllowedData => (12, 'l', 'd') case DeniedData => (11, 'e', 'a')
            case Destinations => (19, 'u', 'e') case EffectClasses => (14, 'f', 'l')
            case EffectCeiling => (14, 'f', 'e') case BudgetTerms => (6, 'u', ' ') case ValidFrom => (10, 'a', 'o')
            case ExpiresAt => (10, 'x', 'a') case Depth => (26, 'e', 'o') case Approval => (8, 'p', ' ')
  { }

  lemma SignaturesDiffer(f: Field, g: Field)
    requires f != g
    ensures Signature(f) != Signature(g)
  {
    hide Signature;
    SignatureOf(f);
    SignatureOf(g);
  }

  lemma NamesDiffer(f: Field, g: Field)
    requires f != g
    ensures NameOf(f) != NameOf(g)
  {
    hide NameOf;
    SignaturesDiffer(f, g);
  }

  lemma NamesLower1(f: Field)
    requires f.GrantId? || f.SchemaVersion? || f.Version? || f.ProfileId? || f.IntentId? || f.IntentVersion? ||
             f.IntentDigest?
    ensures Lower(NameOf(f))
  { }

  lemma NamesLower2(f: Field)
    requires f.Issuer? || f.Subject? || f.ParentId? || f.ParentVersion? || f.Operations? || f.Channels? ||
             f.AllowedResources?
    ensures Lower(NameOf(f))
  { }

  lemma NamesLower3(f: Field)
    requires f.DeniedResources? || f.AllowedData? || f.DeniedData? || f.Destinations? || f.EffectClasses? ||
             f.EffectCeiling? || f.BudgetTerms?
    ensures Lower(NameOf(f))
  { }

  lemma NamesLower4(f: Field)
    requires f.ValidFrom? || f.ExpiresAt? || f.Depth? || f.Approval?
    ensures Lower(NameOf(f))
  { }

  lemma NameIsLower(f: Field)
    ensures Lower(NameOf(f))
  {
    hide NameOf, Lower;
    match f
    case GrantId | SchemaVersion | Version | ProfileId | IntentId | IntentVersion | IntentDigest => NamesLower1(f);
    case Issuer | Subject | ParentId | ParentVersion | Operations | Channels | AllowedResources => NamesLower2(f);
    case DeniedResources | AllowedData | DeniedData | Destinations | EffectClasses | EffectCeiling |
       BudgetTerms => NamesLower3(f);
    case ValidFrom | ExpiresAt | Depth | Approval => NamesLower4(f);
  }

  lemma NamesFoldDiffer(f: Field, g: Field)
    requires f != g
    ensures !SameName(NameOf(f), NameOf(g))
  {
    hide NameOf;
    NamesDiffer(f, g);
    NameIsLower(f);
    NameIsLower(g);
    NamesFoldApart(NameOf(f), NameOf(g));
  }

  function Rank(f: Field): nat {
    match f
    case GrantId => 0 case SchemaVersion => 1 case Version => 2 case ProfileId => 3 case IntentId => 4
    case IntentVersion => 5 case IntentDigest => 6 case Issuer => 7 case Subject => 8 case ParentId => 9
    case ParentVersion => 10 case Operations => 11 case Channels => 12 case AllowedResources =>
      13 case DeniedResources => 14
    case AllowedData => 15 case DeniedData => 16 case Destinations => 17 case EffectClasses =>
      18 case EffectCeiling => 19
    case BudgetTerms => 20 case ValidFrom => 21 case ExpiresAt => 22 case Depth => 23 case Approval => 24
  }

  lemma FieldPlaces()
    ensures |FIELDS| == 25 && forall i :: 0 <= i < 25 ==> Rank(FIELDS[i]) == i
    ensures forall f: Field :: Rank(f) < 25 && FIELDS[Rank(f)] == f
  { }

  lemma SchemasDistinct(fields: seq<Field>)
    requires forall i, j :: 0 <= i < j < |fields| ==> fields[i] != fields[j]
    ensures NamesDistinct(SchemasFor(fields))
  {
    hide NameOf, SchemasFor, SchemaOf;
    forall i, j | 0 <= i < j < |fields| ensures !SameName(SchemasFor(fields)[i].name, SchemasFor(fields)[j].name) {
      NamesFoldDiffer(fields[i], fields[j]);
    }
  }

  lemma OperationFull(op: A.OperationRef)
    ensures Full(OPERATION, OperationTree(op)) && OperationIn(OperationTree(op)) == op
  {
    hide OperationIn, PlainInteger, IntegerIn, WellFormed;
    NumberText(op.version);
    OperationReads(op);
  }

  lemma OperationReads(op: A.OperationRef)
    ensures OperationIn(OperationTree(op)) == op
  {
    hide IntIn, IntTree;
    IntReads(op.version);
    var ms := OperationTree(op).members;
    LastIs(ms, "namespace", 0);
    LastIs(ms, "name", 1);
    LastIs(ms, "version", 2);
  }

  lemma ResourceFull(r: A.ResourceRef)
    ensures Full(RESOURCE, ResourceTree(r)) && ResourceIn(ResourceTree(r)) == r
  {
    var ms := ResourceTree(r).members;
    LastIs(ms, "kind", 0);
    LastIs(ms, "id", 1);
  }

  lemma StringsFull(xs: seq<string>)
    ensures Full(ListOf(Text), ArrTree(StringTrees(xs))) && TextsIn(ArrTree(StringTrees(xs))) == xs
  { }

  lemma OperationsFull(xs: seq<A.OperationRef>)
    ensures Full(ListOf(OPERATION), ArrTree(OperationTrees(xs))) && OperationsIn(ArrTree(OperationTrees(xs))) == xs
  {
    hide OperationTree, OperationIn;
    forall i | 0 <= i < |xs| ensures Full(OPERATION, OperationTrees(xs)[i]) &&
        OperationIn(OperationTrees(xs)[i]) == xs[i] {
      OperationFull(xs[i]);
    }
  }

  lemma ResourcesFull(xs: seq<A.ResourceRef>)
    ensures Full(ListOf(RESOURCE), ArrTree(ResourceTrees(xs))) && ResourcesIn(ArrTree(ResourceTrees(xs))) == xs
  {
    hide ResourceTree, ResourceIn;
    forall i | 0 <= i < |xs| ensures Full(RESOURCE, ResourceTrees(xs)[i]) && ResourceIn(ResourceTrees(xs)[i]) == xs[i] {
      ResourceFull(xs[i]);
    }
  }

  lemma IntReads(n: int)
    ensures IntIn(IntTree(n)) == n
  { NumberText(n); }

  lemma CountsFront(keys: seq<string>, m: map<string, int>)
    requires keys != [] && forall k :: k in keys ==> k in m
    ensures CountMembers(keys, m)[..|keys| - 1] == CountMembers(keys[..|keys| - 1], m)
  { }

  lemma {:induction false} CountsRead(keys: seq<string>, m: map<string, int>)
    requires Distinct(keys) && forall k :: k in keys ==> k in m
    ensures CountsIn(CountMembers(keys, m)) == map k | k in keys :: m[k]
  {
    hide CountMembers, IntIn, IntTree;
    if keys != [] {
      var n := |keys| - 1;
      CountsRead(keys[..n], m);
      IntReads(m[keys[n]]);
      CountsFront(keys, m);
      assert forall k :: k in keys <==> k in keys[..n] || k == keys[n];
    }
  }

  lemma CountsFull(m: map<string, int>)
    ensures var t := ObjTree(CountMembers(SortedKeys(m.Keys), m)); Full(Counts, t) && CountsIn(t.members) == m
  {
    hide CountMembers, CountsIn, PlainInteger, SortedKeys;
    var keys := SortedKeys(m.Keys);
    CountsRead(keys, m);
    CountsPlain(keys, m);
    assert (map k | k in keys :: m[k]) == m;
  }

  lemma CountsPlain(keys: seq<string>, m: map<string, int>)
    requires Distinct(keys) && forall k :: k in keys ==> k in m
    ensures Full(Counts, ObjTree(CountMembers(keys, m)))
  {
    forall i | 0 <= i < |keys| ensures PlainInteger(CountMembers(keys, m)[i].value) {
      NumberText(m[keys[i]]);
    }
  }

  lemma BudgetFull(b: A.Budget)
    ensures Full(BUDGET, BudgetTree(b)) && BudgetIn(BudgetTree(b)) == b
  {
    hide SortedKeys, CountMembers, CountsIn, PlainInteger, IntegerIn;
    CountsFull(b.perOperation);
    if b.total.Some? {
      NumberText(b.total.value);
    }
    BudgetParts(b);
  }

  lemma BudgetParts(b: A.Budget)
    ensures PartOf(BudgetTree(b), "total") == BudgetTree(b).members[0].value
    ensures PartOf(BudgetTree(b), "per_operation") == BudgetTree(b).members[1].value
  {
    hide SortedKeys, CountMembers, CountsIn, PlainInteger, IntegerIn, IntTree;
    var ms := BudgetTree(b).members;
    LastIs(ms, "total", 0);
    LastIs(ms, "per_operation", 1);
  }

  lemma ApprovalFull(required: bool)
    ensures var t := ObjTree([Member("required", BoolTree(required))]);
            Full(APPROVAL, t) && FlagIn(PartOf(t, "required")) == required
  { LastIs([Member("required", BoolTree(required))], "required", 0); }

  /** Every field's value is of the field's type. */
  lemma FieldFull(clock: R.Clock, g: A.Grant, f: Field)
    ensures Full(SchemaOf(f), ValueOf(clock, g, f))
  {
    match f
    case SchemaVersion => NumberText(2);
    case Version => NumberText(g.version);
    case IntentVersion => NumberText(g.intentVersion);
    case ParentVersion => NumberText(g.parentGrantVersion);
    case Depth => NumberText(g.depth);
    case Operations => OperationsFull(g.operations);
    case AllowedResources => ResourcesFull(g.allowedResources);
    case DeniedResources => ResourcesFull(g.deniedResources);
    case Channels => StringsFull(g.channels);
    case AllowedData => StringsFull(g.allowedData);
    case DeniedData => StringsFull(g.deniedData);
    case Destinations => StringsFull(g.outputDestinations);
    case EffectClasses => StringsFull(g.effectClasses);
    case BudgetTerms => BudgetFull(g.budget);
    case Approval => ApprovalFull(g.approvalRequired);
    case _ =>
  }

  lemma {:induction false} FieldsFull(clock: R.Clock, g: A.Grant, fields: seq<Field>)
    ensures FullFields(SchemasFor(fields), MembersFor(clock, g, fields))
  {
    hide SchemaOf, ValueOf, NameOf, Full;
    if fields != [] {
      FieldFull(clock, g, fields[0]);
      FieldsFull(clock, g, fields[1..]);
    }
  }

  lemma ShallowField(f: Field)
    ensures Shallow(SchemaOf(f), 7)
  { }

  lemma FieldsApart()
    ensures forall i, j :: 0 <= i < j < |FIELDS| ==> FIELDS[i] != FIELDS[j]
  { FieldPlaces(); }

  lemma ShallowFields(fields: seq<Field>)
    ensures Shallow(Record(SchemasFor(fields)), 8)
  {
    hide SchemaOf, NameOf;
    forall i | 0 <= i < |fields| ensures Shallow(SchemasFor(fields)[i].schema, 7) {
      ShallowField(fields[i]);
    }
  }

  lemma RecordFull(fields: seq<FieldSchema>, ms: seq<Member>)
    requires NamesDistinct(fields) && FullFields(fields, ms)
    ensures Full(Record(fields), ObjTree(ms))
  { }

  lemma WireFull(clock: R.Clock, g: A.Grant)
    ensures var t := WireTree(clock, g);
            Fill(GrantSchema(), t) == Some(t) && UniqueKeys(t) && Fits(t, MAX_DEPTH) && WellFormed(t)
  {
    hide SchemasFor, MembersFor, Full, FullFields, Fill, NamesDistinct, Shallow, UniqueKeys, Fits, WellFormed;
    FieldsApart();
    SchemasDistinct(FIELDS);
    FieldsFull(clock, g, FIELDS);
    RecordFull(SchemasFor(FIELDS), MembersFor(clock, g, FIELDS));
    FillFull(GrantSchema(), WireTree(clock, g));
    ShallowFields(FIELDS);
    FullIsClean(GrantSchema(), WireTree(clock, g), 8);
  }

  // ---- Reading back ----

  lemma PartAt(clock: R.Clock, g: A.Grant, fields: seq<Field>, i: nat)
    requires i < |fields| && forall i, j :: 0 <= i < j < |fields| ==> fields[i] != fields[j]
    ensures PartOf(ObjTree(MembersFor(clock, g, fields)), NameOf(fields[i])) == ValueOf(clock, g, fields[i])
  {
    hide NameOf, ValueOf, MembersFor;
    var ms := MembersFor(clock, g, fields);
    forall j | i < j < |ms| ensures ms[j].key != NameOf(fields[i]) {
      NamesDiffer(fields[i], fields[j]);
    }
    LastIs(ms, NameOf(fields[i]), i);
  }

  lemma PartOfWire(clock: R.Clock, g: A.Grant, f: Field)
    ensures PartOf(WireTree(clock, g), NameOf(f)) == ValueOf(clock, g, f)
  {
    hide NameOf, ValueOf, MembersFor;
    FieldPlaces();
    FieldsApart();
    PartAt(clock, g, FIELDS, Rank(f));
  }

  /** The header: identities, versions, times aside. */
  lemma HeaderReads(clock: R.Clock, g: A.Grant, v: Field -> Tree)
    requires forall f: Field :: v(f) == ValueOf(clock, g, f)
    ensures && TextIn(v(GrantId)) == g.grantId && IntIn(v(SchemaVersion)) == 2 && IntIn(v(Version)) == g.version
            && TextIn(v(ProfileId)) == g.profileId && TextIn(v(IntentId)) == g.intentId
            && IntIn(v(IntentVersion)) == g.intentVersion && TextIn(v(IntentDigest)) == g.intentDigest
            && TextIn(v(Issuer)) == g.issuer && TextIn(v(Subject)) == g.subject
            && TextIn(v(ParentId)) == g.parentGrantId && IntIn(v(ParentVersion)) == g.parentGrantVersion
            && IntIn(v(Depth)) == g.depth && TextIn(v(EffectCeiling)) == g.effectCeiling
  {
    hide IntIn, IntTree;
    IntReads(2);
    IntReads(g.version);
    IntReads(g.intentVersion);
    IntReads(g.parentGrantVersion);
    IntReads(g.depth);
  }

  lemma ScopeReads(clock: R.Clock, g: A.Grant, v: Field -> Tree)
    requires forall f: Field :: v(f) == ValueOf(clock, g, f)
    ensures OperationsIn(v(Operations)) == g.operations && TextsIn(v(Channels)) == g.channels
    ensures ResourcesIn(v(AllowedResources)) == g.allowedResources &&
            ResourcesIn(v(DeniedResources)) == g.deniedResources
    ensures TextsIn(v(Destinations)) == g.outputDestinations
  {
    hide TextsIn, OperationsIn, ResourcesIn, StringTrees, OperationTrees, ResourceTrees, BudgetTree, Full;
    OperationsFull(g.operations);
    StringsFull(g.channels);
    ResourcesFull(g.allowedResources);
    ResourcesFull(g.deniedResources);
    StringsFull(g.outputDestinations);
  }

  lemma LimitsRead(clock: R.Clock, g: A.Grant, v: Field -> Tree)
    requires forall f: Field :: v(f) == ValueOf(clock, g, f)
    ensures TextsIn(v(AllowedData)) == g.allowedData && TextsIn(v(DeniedData)) == g.deniedData
    ensures TextsIn(v(EffectClasses)) == g.effectClasses
    ensures BudgetIn(v(BudgetTerms)) == g.budget && FlagIn(PartOf(v(Approval), "required")) == g.approvalRequired
  {
    hide TextsIn, BudgetIn, PartOf, StringTrees, OperationTrees, ResourceTrees, BudgetTree, Full;
    StringsFull(g.allowedData);
    StringsFull(g.deniedData);
    StringsFull(g.effectClasses);
    BudgetFull(g.budget);
    ApprovalFull(g.approvalRequired);
  }

  lemma TimesRead(clock: R.Clock, g: A.Grant, v: Field -> Tree)
    requires R.Lawful(clock) && g.validFrom != 0 && g.expiresAt != 0
    requires forall f: Field :: v(f) == ValueOf(clock, g, f)
    ensures clock.parse(TextIn(v(ValidFrom))) == Some(g.validFrom) &&
            clock.parse(TextIn(v(ExpiresAt))) == Some(g.expiresAt)
  { }

  lemma GrantReads(clock: R.Clock, g: A.Grant, v: Field -> Tree)
    requires forall f: Field :: v(f) == ValueOf(clock, g, f)
    ensures GrantFrom(v, g.validFrom, g.expiresAt) == g.(schemaVersion := 2)
  {
    hide ValueOf, TextIn, IntIn, TextsIn, OperationsIn, ResourcesIn, BudgetIn, FlagIn, PartOf;
    HeaderReads(clock, g, v);
    ScopeReads(clock, g, v);
    LimitsRead(clock, g, v);
  }

  /** The terms come back from their own tree, whatever the order of their sets. */
  lemma TermsRoundTrip(clock: R.Clock, g: A.Grant)
    requires R.Lawful(clock) && g.validFrom != 0 && g.expiresAt != 0
    ensures ReadTerms(clock, WireTree(clock, g)) == Some(g.(schemaVersion := 2))
  {
    hide WireTree, Fill, GrantFrom, TextIn, FieldsOf, GrantSchema, UniqueKeys, Fits, WellFormed;
    WireFull(clock, g);
    FieldsOfWire(clock, g);
    TimesRead(clock, g, FieldsOf(WireTree(clock, g)));
    GrantReads(clock, g, FieldsOf(WireTree(clock, g)));
  }

  lemma FieldsOfWire(clock: R.Clock, g: A.Grant)
    ensures forall f: Field :: FieldsOf(WireTree(clock, g))(f) == ValueOf(clock, g, f)
  {
    hide WireTree, NameOf, ValueOf, PartOf;
    forall f: Field ensures FieldsOf(WireTree(clock, g))(f) == ValueOf(clock, g, f) {
      PartOfWire(clock, g, f);
    }
  }

  // ---- The main results ----

  /**
   The parser undoes the printer for every valid grant, and does not ask for the canonical form: any
   order of the sets and any blanks between tokens read back as the same terms, up to the size cap.
   */
  lemma ParsesEveryForm(clock: R.Clock, g: A.Grant, gaps: seq<string>)
    requires R.Lawful(clock) && A.ValidGrant(g)
    requires |gaps| == |Tokens(WireTree(clock, g))| + 1 && forall i :: 0 <= i < |gaps| ==> AllSpace(gaps[i])
    ensures var raw := SpacedText(Tokens(WireTree(clock, g)), gaps);
            ParseGrant(clock, raw) == if ByteLength(raw) <= MAX_BYTES then Some(g) else None
  {
    hide *;
    WireFull(clock, g);
    ValidHeader(g);
    TermsRoundTrip(clock, g);
    ParsesSpaced(clock, WireTree(clock, g), g, gaps);
  }

  lemma ParsesSpaced(clock: R.Clock, t: Tree, g: A.Grant, gaps: seq<string>)
    requires WellFormed(t) && UniqueKeys(t) && Fits(t, MAX_DEPTH) && ReadTerms(clock, t) == Some(g) && A.ValidGrant(g)
    requires |gaps| == |Tokens(t)| + 1 && forall i :: 0 <= i < |gaps| ==> AllSpace(gaps[i])
    ensures var raw := SpacedText(Tokens(t), gaps);
            ParseGrant(clock, raw) == if ByteLength(raw) <= MAX_BYTES then Some(g) else None
  {
    hide *;
    DecodeSpaced(t, gaps);
    ParseFrom(clock, SpacedText(Tokens(t), gaps), t, g);
  }

  lemma ValidHeader(g: A.Grant)
    requires A.ValidGrant(g)
    ensures g.validFrom != 0 && g.expiresAt != 0 && g.(schemaVersion := 2) == g
  { }

  lemma ParseFrom(clock: R.Clock, raw: string, t: Tree, g: A.Grant)
    requires Decode(raw) == Some(t) && UniqueKeys(t) && Fits(t, MAX_DEPTH)
    requires ReadTerms(clock, t) == Some(g) && A.ValidGrant(g)
    ensures ParseGrant(clock, raw) == if ByteLength(raw) <= MAX_BYTES then Some(g) else None
  { hide Decode, UniqueKeys, Fits, ReadTerms, ByteLength, A.ValidGrant; }

  // ---- The canonical form ----

  lemma OrdersRank()
    ensures Ranks(Less) && Ranks(LessOperation) && Ranks(LessResource)
  {
    LessRanks();
    forall a, b, c | LessResource(a, b) && LessResource(b, c) ensures LessResource(a, c) {
      assert a.kind != b.kind && b.kind != c.kind ==> Less(a.kind, c.kind) && a.kind != c.kind by {
        LessTotal(a.kind, b.kind);
      }
    }
  }

  lemma OperationsNoTies(xs: seq<A.OperationRef>)
    requires A.Unique(A.OperationKeys(xs))
    ensures NoTies(xs, LessOperation)
  {
    forall i, j | 0 <= i < j < |xs| ensures LessOperation(xs[i], xs[j]) || LessOperation(xs[j], xs[i]) {
      assert A.OperationKeys(xs)[i] != A.OperationKeys(xs)[j];
      LessTotal(A.OperationKey(xs[i]), A.OperationKey(xs[j]));
    }
  }

  lemma ResourcesNoTies(xs: seq<A.ResourceRef>)
    requires A.Unique(A.ResourceKeys(xs))
    ensures NoTies(xs, LessResource)
  {
    forall i, j | 0 <= i < j < |xs| ensures LessResource(xs[i], xs[j]) || LessResource(xs[j], xs[i]) {
      assert A.ResourceKeys(xs)[i] != A.ResourceKeys(xs)[j];
      LessTotal(xs[i].kind, xs[j].kind);
      LessTotal(xs[i].id, xs[j].id);
    }
  }

  lemma StringsStayUnique(xs: seq<string>, ys: seq<string>)
    requires A.Unique(xs) && multiset(xs) == multiset(ys)
    ensures A.Unique(ys)
  {
    KeysPermuted(xs, ys, (x: string) => x);
    assert "" !in multiset(ys);
    forall i, j | 0 <= i < j < |ys| ensures ys[i] != ys[j] {
      assert ((x: string) => x)(ys[i]) != ((x: string) => x)(ys[j]);
    }
  }

  lemma OperationsStayUnique(xs: seq<A.OperationRef>, ys: seq<A.OperationRef>)
    requires A.Unique(A.OperationKeys(xs)) && multiset(xs) == multiset(ys)
    ensures A.Unique(A.OperationKeys(ys))
  {
    forall i, j | 0 <= i < j < |xs| ensures A.OperationKey(xs[i]) != A.OperationKey(xs[j]) {
      assert A.OperationKeys(xs)[i] != A.OperationKeys(xs)[j];
    }
    KeysPermuted(xs, ys, A.OperationKey);
    forall j | 0 <= j < |ys| ensures A.OperationKeys(ys)[j] != "" {
      assert ys[j] in multiset(xs);
      var i :| 0 <= i < |xs| && xs[i] == ys[j];
      assert A.OperationKeys(xs)[i] in A.OperationKeys(xs);
    }
  }

  lemma ResourcesStayUnique(xs: seq<A.ResourceRef>, ys: seq<A.ResourceRef>)
    requires A.Unique(A.ResourceKeys(xs)) && multiset(xs) == multiset(ys)
    ensures A.Unique(A.ResourceKeys(ys))
  {
    forall i, j | 0 <= i < j < |xs| ensures A.ResourceKey(xs[i]) != A.ResourceKey(xs[j]) {
      assert A.ResourceKeys(xs)[i] != A.ResourceKeys(xs)[j];
    }
    KeysPermuted(xs, ys, A.ResourceKey);
  }

  /** The resources of one side of a valid grant have no ties either. */
  lemma PartsUnique(xs: seq<A.ResourceRef>, ys: seq<A.ResourceRef>)
    requires A.Unique(A.ResourceKeys(xs + ys))
    ensures A.Unique(A.ResourceKeys(xs)) && A.Unique(A.ResourceKeys(ys))
  {
    var all := A.ResourceKeys(xs + ys);
    assert forall i :: 0 <= i < |xs| ==> A.ResourceKeys(xs)[i] == all[i];
    assert forall j :: 0 <= j < |ys| ==> A.ResourceKeys(ys)[j] == all[|xs| + j];
    assert forall i :: 0 <= i < |all| ==> all[i] in all;
  }

  /** Each set of a grant is a permutation of the other grant's, and every other term is the same. */
  ghost predicate SameTerms(a: A.Grant, b: A.Grant) {
    && a.(operations := [], channels := [], allowedResources := [], deniedResources := [], allowedData := [],
       deniedData := [],
          outputDestinations := [], effectClasses := [], schemaVersion := 2)
       == b.(operations := [], channels := [], allowedResources := [], deniedResources := [], allowedData := [],
           deniedData := [],
             outputDestinations := [], effectClasses := [], schemaVersion := 2)
    && multiset(a.operations) == multiset(b.operations) && multiset(a.channels) == multiset(b.channels)
    && multiset(a.allowedResources) == multiset(b.allowedResources) &&
       multiset(a.deniedResources) == multiset(b.deniedResources)
    && multiset(a.allowedData) == multiset(b.allowedData) && multiset(a.deniedData) == multiset(b.deniedData)
    && multiset(a.outputDestinations) == multiset(b.outputDestinations) &&
       multiset(a.effectClasses) == multiset(b.effectClasses)
  }

  lemma SortedSame(g: A.Grant)
    ensures SameTerms(g, SortedGrant(g))
  {
    SortKeeps(g.operations, LessOperation);
    SortKeeps(g.channels, Less);
    SortKeeps(g.allowedResources, LessResource);
    SortKeeps(g.deniedResources, LessResource);
    SortKeeps(g.allowedData, Less);
    SortKeeps(g.deniedData, Less);
    SortKeeps(g.outputDestinations, Less);
    SortKeeps(g.effectClasses, Less);
  }

  lemma SameSets(a: A.Grant, b: A.Grant)
    requires SameTerms(a, b) && A.SetsOk(a)
    ensures A.SetsOk(b)
  {
    OperationsStayUnique(a.operations, b.operations);
    StringsStayUnique(a.channels, b.channels);
    ResourcesStayUnique(a.allowedResources + a.deniedResources, b.allowedResources + b.deniedResources);
    StringsStayUnique(a.allowedData, b.allowedData);
    StringsStayUnique(a.deniedData, b.deniedData);
    StringsStayUnique(a.outputDestinations, b.outputDestinations);
    StringsStayUnique(a.effectClasses, b.effectClasses);
  }

  lemma SameSizes(a: A.Grant, b: A.Grant)
    requires SameTerms(a, b) && A.SizesOk(a) && A.EntriesOk(a)
    ensures A.SizesOk(b) && A.EntriesOk(b)
  {
    SameSize(a.operations, b.operations);
    SameSize(a.channels, b.channels);
    SameSize(a.allowedResources, b.allowedResources);
    SameSize(a.deniedResources, b.deniedResources);
    SameSize(a.allowedData, b.allowedData);
    SameSize(a.deniedData, b.deniedData);
    SameSize(a.outputDestinations, b.outputDestinations);
    SameSize(a.effectClasses, b.effectClasses);
  }

  lemma SortedValid(g: A.Grant)
    requires A.ValidGrant(g)
    ensures A.ValidGrant(SortedGrant(g))
  {
    hide A.SetsOk, A.SizesOk, A.EntriesOk, SortBy, SameTerms;
    SortedSame(g);
    SameSets(g, SortedGrant(g));
    SameSizes(g, SortedGrant(g));
  }

  /** The order of the sets in the canonical terms: by text, operations by their key, resources by kind and then id. */
  lemma SortedInOrder(g: A.Grant)
    requires A.SetsOk(g)
    ensures var s := SortedGrant(g);
            && InOrder(s.channels) && InOrder(s.allowedData) && InOrder(s.deniedData)
            && InOrder(s.outputDestinations) && InOrder(s.effectClasses) && InOrder(A.OperationKeys(s.operations))
            && ResourcesInOrder(s.allowedResources) && ResourcesInOrder(s.deniedResources)
  {
    hide A.Unique, A.OperationKeys, A.ResourceKeys, SortBy, NoTies, Ranks, InOrder, ResourcesInOrder;
    PartsUnique(g.allowedResources, g.deniedResources);
    StringsInOrder(g.channels);
    StringsInOrder(g.allowedData);
    StringsInOrder(g.deniedData);
    StringsInOrder(g.outputDestinations);
    StringsInOrder(g.effectClasses);
    OperationsInOrder(g.operations);
    ResourcesSorted(g.allowedResources);
    ResourcesSorted(g.deniedResources);
  }

  ghost predicate InOrder(xs: seq<string>) { forall i, j :: 0 <= i < j < |xs| ==> Precedes(xs[i], xs[j]) }

  ghost predicate ResourcesInOrder(xs: seq<A.ResourceRef>) {
    forall i, j :: 0 <= i < j < |xs| ==>
                     Precedes(xs[i].kind, xs[j].kind) || (xs[i].kind == xs[j].kind && Precedes(xs[i].id, xs[j].id))
  }

  lemma StringsInOrder(xs: seq<string>)
    requires A.Unique(xs)
    ensures InOrder(SortBy(xs, Less))
  {
    OrdersRank();
    DistinctNoTies(xs);
    SortAscends(xs, Less);
    var s := SortBy(xs, Less);
    forall i, j | 0 <= i < j < |s| ensures Precedes(s[i], s[j]) {
      LessExact(s[i], s[j]);
    }
  }

  lemma OperationsInOrder(xs: seq<A.OperationRef>)
    requires A.Unique(A.OperationKeys(xs))
    ensures InOrder(A.OperationKeys(SortBy(xs, LessOperation)))
  {
    OrdersRank();
    OperationsNoTies(xs);
    SortAscends(xs, LessOperation);
    var s := SortBy(xs, LessOperation);
    forall i, j | 0 <= i < j < |s| ensures Precedes(A.OperationKeys(s)[i], A.OperationKeys(s)[j]) {
      LessExact(A.OperationKey(s[i]), A.OperationKey(s[j]));
    }
  }

  lemma ResourcesSorted(xs: seq<A.ResourceRef>)
    requires A.Unique(A.ResourceKeys(xs))
    ensures ResourcesInOrder(SortBy(xs, LessResource))
  {
    OrdersRank();
    ResourcesNoTies(xs);
    SortAscends(xs, LessResource);
    var s := SortBy(xs, LessResource);
    forall i, j | 0 <= i < j < |s|
      ensures Precedes(s[i].kind, s[j].kind) || (s[i].kind == s[j].kind && Precedes(s[i].id, s[j].id)) {
      LessExact(s[i].kind, s[j].kind);
      LessExact(s[i].id, s[j].id);
    }
  }

  /** Two valid grants sort to the same terms exactly when their sets are permutations of each other's. */
  lemma SortedDecides(a: A.Grant, b: A.Grant)
    requires A.SetsOk(a) && A.SetsOk(b)
    ensures SortedGrant(a) == SortedGrant(b) <==> SameTerms(a, b)
  {
    hide A.Unique, A.OperationKeys, A.ResourceKeys, SortBy, NoTies, Ranks;
    OrdersRank();
    PartsUnique(a.allowedResources, a.deniedResources);
    PartsUnique(b.allowedResources, b.deniedResources);
    OperationsDecide(a.operations, b.operations);
    StringsDecide(a.channels, b.channels);
    ResourcesDecide(a.allowedResources, b.allowedResources);
    ResourcesDecide(a.deniedResources, b.deniedResources);
    StringsDecide(a.allowedData, b.allowedData);
    StringsDecide(a.deniedData, b.deniedData);
    StringsDecide(a.outputDestinations, b.outputDestinations);
    StringsDecide(a.effectClasses, b.effectClasses);
  }

  lemma StringsDecide(xs: seq<string>, ys: seq<string>)
    requires A.Unique(xs) && A.Unique(ys)
    ensures SortBy(xs, Less) == SortBy(ys, Less) <==> multiset(xs) == multiset(ys)
  {
    OrdersRank();
    DistinctNoTies(xs);
    DistinctNoTies(ys);
    SortDecidesPermutation(xs, ys, Less);
  }

  lemma OperationsDecide(xs: seq<A.OperationRef>, ys: seq<A.OperationRef>)
    requires A.Unique(A.OperationKeys(xs)) && A.Unique(A.OperationKeys(ys))
    ensures SortBy(xs, LessOperation) == SortBy(ys, LessOperation) <==> multiset(xs) == multiset(ys)
  {
    OrdersRank();
    OperationsNoTies(xs);
    OperationsNoTies(ys);
    SortDecidesPermutation(xs, ys, LessOperation);
  }

  lemma ResourcesDecide(xs: seq<A.ResourceRef>, ys: seq<A.ResourceRef>)
    requires A.Unique(A.ResourceKeys(xs)) && A.Unique(A.ResourceKeys(ys))
    ensures SortBy(xs, LessResource) == SortBy(ys, LessResource) <==> multiset(xs) == multiset(ys)
  {
    OrdersRank();
    ResourcesNoTies(xs);
    ResourcesNoTies(ys);
    SortDecidesPermutation(xs, ys, LessResource);
  }

  /** The canonical bytes of a valid grant parse to its terms with the sets sorted, up to the size cap. */
  lemma GrantRoundTrip(clock: R.Clock, g: A.Grant)
    requires R.Lawful(clock) && A.ValidGrant(g)
    ensures ParseGrant(clock, CanonicalBytes(clock, g)) ==
            if ByteLength(CanonicalBytes(clock, g)) <= MAX_BYTES then Some(SortedGrant(g)) else None
    ensures SameTerms(g, SortedGrant(g))
  {
    hide A.ValidGrant, ParseGrant, SortedGrant, SameTerms, ByteLength, WireTree, SpacedText, Tokens;
    SortedValid(g);
    SortedSame(g);
    var t := WireTree(clock, SortedGrant(g));
    ParsesEveryForm(clock, SortedGrant(g), NoGaps(|Tokens(t)| + 1));
  }

  /** Equal bytes mean equal terms, and the order of a set means nothing. */
  lemma BytesDecideTerms(clock: R.Clock, a: A.Grant, b: A.Grant)
    requires R.Lawful(clock) && A.ValidGrant(a) && A.ValidGrant(b)
    ensures CanonicalBytes(clock, a) == CanonicalBytes(clock, b) <==> SameTerms(a, b)
  {
    hide SortedGrant, SameTerms, ReadTerms, WireTree, Print, A.SetsOk, A.SizesOk, A.EntriesOk, Decode, WellFormed,
         UniqueKeys, Fits;
    SortedDecides(a, b);
    BytesRead(clock, a);
    BytesRead(clock, b);
  }

  lemma BytesRead(clock: R.Clock, g: A.Grant)
    requires R.Lawful(clock) && A.ValidGrant(g)
    ensures Decode(CanonicalBytes(clock, g)) == Some(WireTree(clock, SortedGrant(g)))
    ensures ReadTerms(clock, WireTree(clock, SortedGrant(g))) == Some(SortedGrant(g))
  {
    hide SortedGrant, ReadTerms, WireTree, Print, A.SetsOk, A.SizesOk, A.EntriesOk, Decode, WellFormed, UniqueKeys,
         Fits, Fill;
    SortedValid(g);
    ValidHeader(SortedGrant(g));
    WireFull(clock, SortedGrant(g));
    DecodePrint(WireTree(clock, SortedGrant(g)));
    TermsRoundTrip(clock, SortedGrant(g));
  }

  /** Whatever parses is valid, and its canonical bytes are a fixed point of parsing and printing. */
  lemma ParsedIsCanonicalizable(clock: R.Clock, raw: string)
    requires R.Lawful(clock) && ParseGrant(clock, raw).Some?
    ensures var g := ParseGrant(clock, raw).value;
            && A.ValidGrant(g)
            && CanonicalBytes(clock, SortedGrant(g)) == CanonicalBytes(clock, g)
            && (ByteLength(CanonicalBytes(clock, g)) <= MAX_BYTES ==>
                  ParseGrant(clock, CanonicalBytes(clock, g)) == Some(SortedGrant(g)))
  {
    hide SortedGrant, SameTerms, WireTree, ByteLength, ReadTerms, Decode, UniqueKeys, Fits, CanonicalBytes;
    var g := ParseGrant(clock, raw).value;
    SortedValid(g);
    GrantRoundTrip(clock, g);
    BytesDecideTerms(clock, g, SortedGrant(g));
  }
}
