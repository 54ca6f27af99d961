/**
 Which of the texts the grant parser accepts are the canonical ones, and an accepted text that is not.
 */
module GrantForms {
  import opened Prelude
  import opened Json
  import opened Canonical
  import opened CanonicalForm
  import opened DupKeys
  import opened Wire
  import opened Sorting
  import opened Digest
  import opened GrantWire
  import A = Authority
  import C = AuthorityChains
  import R = Receipts

  lemma RecordPart(fields: seq<FieldSchema>, t: Tree, i: nat)
    requires Full(Record(fields), t) && i < |fields|
    ensures t.ObjTree? && |t.members| == |fields|
    ensures PartOf(t, fields[i].name) == t.members[i].value && Full(fields[i].schema, t.members[i].value)
  {
    hide Full;
    RecordIs(fields, t);
    FullFieldsAt(fields, t.members, i);
    forall j | i < j < |fields| ensures t.members[j].key != fields[i].name {
      FullFieldsAt(fields, t.members, j);
    }
    LastIs(t.members, fields[i].name, i);
  }

  lemma RecordIs(fields: seq<FieldSchema>, t: Tree)
    requires Full(Record(fields), t)
    ensures t.ObjTree? && NamesDistinct(fields) && FullFields(fields, t.members) && |t.members| == |fields|
  { }

  lemma FullMember(fields: seq<FieldSchema>, t: Tree, i: nat)
    requires Full(Record(fields), t) && i < |fields|
    ensures t.ObjTree? && |t.members| == |fields| && t.members[i] == Member(fields[i].name, PartOf(t, fields[i].name))
  {
    hide Full;
    RecordIs(fields, t);
    RecordPart(fields, t, i);
    FullFieldsAt(fields, t.members, i);
  }

  /** A value of a type in full is what the writer makes of what the reader takes from it. */
  lemma OperationBack(t: Tree)
    requires Full(OPERATION, t)
    ensures OperationTree(OperationIn(t)) == t
  {
    hide Full, PartOf, IntIn, IntTree, TextIn;
    RecordIs(OPERATION.fields, t);
    forall i: nat | i < 3 ensures t.members[i] == OperationTree(OperationIn(t)).members[i] {
      FullMember(OPERATION.fields, t, i);
      RecordPart(OPERATION.fields, t, i);
      ScalarBack(OPERATION.fields[i].schema, t.members[i].value);
    }
  }

  lemma ResourceBack(t: Tree)
    requires Full(RESOURCE, t)
    ensures ResourceTree(ResourceIn(t)) == t
  {
    hide Full, PartOf, TextIn;
    RecordIs(RESOURCE.fields, t);
    forall i: nat | i < 2 ensures t.members[i] == ResourceTree(ResourceIn(t)).members[i] {
      FullMember(RESOURCE.fields, t, i);
      RecordPart(RESOURCE.fields, t, i);
      ScalarBack(RESOURCE.fields[i].schema, t.members[i].value);
    }
  }

  lemma ScalarBack(s: Schema, t: Tree)
    requires Full(s, t)
    ensures s.Text? ==> StrTree(TextIn(t)) == t
    ensures s.Integer? ==> IntTree(IntIn(t)) == t
    ensures s.MaybeInteger? && !t.NullTree? ==> IntTree(IntIn(t)) == t
    ensures s.Flag? ==> BoolTree(FlagIn(t)) == t
  { }

  lemma TextsBack(t: Tree)
    requires Full(ListOf(Text), t)
    ensures ArrTree(StringTrees(TextsIn(t))) == t
  { }

  lemma OperationsBack(t: Tree)
    requires Full(ListOf(OPERATION), t)
    ensures ArrTree(OperationTrees(OperationsIn(t))) == t
  {
    hide OperationTree, OperationIn;
    ItemsFull(OPERATION, t);
    forall i | 0 <= i < |t.items| ensures OperationTree(OperationIn(t.items[i])) == t.items[i] {
      OperationBack(t.items[i]);
    }
  }

  lemma ResourcesBack(t: Tree)
    requires Full(ListOf(RESOURCE), t)
    ensures ArrTree(ResourceTrees(ResourcesIn(t))) == t
  {
    hide ResourceTree, ResourceIn;
    ItemsFull(RESOURCE, t);
    forall i | 0 <= i < |t.items| ensures ResourceTree(ResourceIn(t.items[i])) == t.items[i] {
      ResourceBack(t.items[i]);
    }
  }

  lemma ItemsFull(item: Schema, t: Tree)
    requires Full(ListOf(item), t)
    ensures t.ArrTree? && forall i :: 0 <= i < |t.items| ==> Full(item, t.items[i])
  { }

  lemma {:induction false} CountsInAt(ms: seq<Member>)
    requires KeysDistinct(ms)
    ensures forall k :: k in CountsIn(ms) <==> exists m :: m in ms && m.key == k
    ensures forall i :: 0 <= i < |ms| ==> ms[i].key in CountsIn(ms) && CountsIn(ms)[ms[i].key] == IntIn(ms[i].value)
  {
    if ms != [] {
      var n := |ms| - 1;
      CountsInAt(ms[..n]);
      assert ms == ms[..n] + [ms[n]];
    }
  }

  function KeysOf(ms: seq<Member>): (r: seq<string>)
    ensures |r| == |ms| && forall i :: 0 <= i < |ms| ==> r[i] == ms[i].key
  { seq(|ms|, i requires 0 <= i < |ms| => ms[i].key) }

  lemma CountsBack(ms: seq<Member>)
    requires Full(Counts, ObjTree(ms)) && Ascending(KeysOf(ms), Less)
    ensures CountMembers(SortedKeys(CountsIn(ms).Keys), CountsIn(ms)) == ms
  {
    hide SortedKeys, CountsIn, IntIn, IntTree, PlainInteger, Ascending;
    CountsInAt(ms);
    var keys := SortedKeys(CountsIn(ms).Keys);
    SortedKeysAscend(CountsIn(ms).Keys);
    KeysAre(ms, keys);
    AscendingExtensional(keys, KeysOf(ms));
    forall i | 0 <= i < |ms| ensures IntTree(IntIn(ms[i].value)) == ms[i].value {
      ScalarBack(Integer, ms[i].value);
    }
  }

  lemma KeysAre(ms: seq<Member>, keys: seq<string>)
    requires forall k :: k in keys <==> exists m :: m in ms && m.key == k
    ensures forall k :: k in keys <==> k in KeysOf(ms)
  {
    forall k ensures k in keys <==> k in KeysOf(ms) {
      if k in KeysOf(ms) {
        var i :| 0 <= i < |ms| && KeysOf(ms)[i] == k;
        assert ms[i] in ms;
      }
      if m :| m in ms && m.key == k {
        var i :| 0 <= i < |ms| && ms[i] == m;
        assert KeysOf(ms)[i] == k;
      }
    }
  }

  /** The per-operation maxima come in the order json.Marshal gives map keys. */
  predicate CountsInOrder(t: Tree) {
    var counts := PartOf(t, "per_operation");
    counts.ObjTree? ==> forall i, j :: 0 <= i < j < |counts.members| ==>
        Less(counts.members[i].key, counts.members[j].key)
  }

  lemma BudgetBack(t: Tree)
    requires Full(BUDGET, t) && CountsInOrder(t)
    ensures BudgetTree(BudgetIn(t)) == t
  {
    hide Full, PartOf, IntIn, IntTree, SortedKeys, CountMembers, CountsIn;
    RecordIs(BUDGET.fields, t);
    FullMember(BUDGET.fields, t, 0);
    FullMember(BUDGET.fields, t, 1);
    RecordPart(BUDGET.fields, t, 0);
    RecordPart(BUDGET.fields, t, 1);
    ScalarBack(MaybeInteger, t.members[0].value);
    CountsIs(t.members[1].value);
    CountsBack(t.members[1].value.members);
  }

  lemma CountsIs(t: Tree)
    requires Full(Counts, t)
    ensures t.ObjTree?
  { }

  lemma ApprovalBack(t: Tree)
    requires Full(APPROVAL, t)
    ensures ObjTree([Member("required", BoolTree(FlagIn(PartOf(t, "required"))))]) == t
  {
    hide Full, PartOf, FlagIn;
    RecordIs(APPROVAL.fields, t);
    FullMember(APPROVAL.fields, t, 0);
    RecordPart(APPROVAL.fields, t, 0);
    ScalarBack(Flag, t.members[0].value);
  }

  /** A time is written as the canonical text of its instant. */
  predicate TimeInForm(clock: R.Clock, t: Tree) {
    t.StrTree? && clock.parse(t.text).Some? && R.TimeTerm(clock, clock.parse(t.text).value) == t.text
  }

  /** Every field is there, in order and in full, counts by key, times in canonical text. */
  ghost predicate InFull(clock: R.Clock, t: Tree) {
    && Full(GrantSchema(), t)
    && CountsInOrder(FieldsOf(t)(BudgetTerms))
    && TimeInForm(clock, FieldsOf(t)(ValidFrom)) && TimeInForm(clock, FieldsOf(t)(ExpiresAt))
  }

  lemma FieldIsFull(t: Tree, f: Field)
    requires Full(GrantSchema(), t)
    ensures Full(SchemaOf(f), FieldsOf(t)(f))
    ensures t.ObjTree? && |t.members| == |FIELDS| && t.members[Rank(f)] == Member(NameOf(f), FieldsOf(t)(f))
  {
    hide Full, PartOf, NameOf, SchemaOf;
    FieldPlaces();
    RecordPart(SchemasFor(FIELDS), t, Rank(f));
    FullMember(SchemasFor(FIELDS), t, Rank(f));
  }

  /** The writer undoes the reader, field by field. */
  lemma ValueBack(clock: R.Clock, v: Field -> Tree, g: A.Grant, f: Field)
    requires Full(SchemaOf(f), v(f)) && g == GrantFrom(v, g.validFrom, g.expiresAt) && g.schemaVersion == 2
    requires f.BudgetTerms? ==> CountsInOrder(v(f))
    requires f.ValidFrom? ==> v(f) == StrTree(R.TimeTerm(clock, g.validFrom))
    requires f.ExpiresAt? ==> v(f) == StrTree(R.TimeTerm(clock, g.expiresAt))
    ensures ValueOf(clock, g, f) == v(f)
  {
    hide Full, TextIn, IntIn, IntTree, TextsIn, OperationsIn, ResourcesIn, BudgetIn, BudgetTree, FlagIn, PartOf,
         R.TimeTerm,
         CountsInOrder;
    match f
    case SchemaVersion | Version | IntentVersion | ParentVersion | Depth => ScalarBack(Integer, v(f));
    case Operations => OperationsBack(v(f));
    case AllowedResources | DeniedResources => ResourcesBack(v(f));
    case Channels | AllowedData | DeniedData | Destinations | EffectClasses => TextsBack(v(f));
    case BudgetTerms => BudgetBack(v(f));
    case Approval => ApprovalBack(v(f));
    case ValidFrom | ExpiresAt =>
    case _ => ScalarBack(Text, v(f));
  }

  lemma TermsAre(clock: R.Clock, t: Tree, g: A.Grant)
    requires InFull(clock, t) && ReadTerms(clock, t) == Some(g)
    ensures g == GrantFrom(FieldsOf(t), g.validFrom, g.expiresAt)
    ensures FieldsOf(t)(ValidFrom) == StrTree(R.TimeTerm(clock, g.validFrom))
    ensures FieldsOf(t)(ExpiresAt) == StrTree(R.TimeTerm(clock, g.expiresAt))
  {
    hide GrantSchema, Full, FieldsOf, R.TimeTerm, CountsInOrder;
    FillFull(GrantSchema(), t);
  }

  lemma TreeBack(clock: R.Clock, t: Tree, g: A.Grant)
    requires InFull(clock, t) && ReadTerms(clock, t) == Some(g) && g.schemaVersion == 2
    ensures WireTree(clock, g) == t
  {
    hide GrantSchema, Full, FieldsOf, R.TimeTerm, CountsInOrder, ReadTerms, ValueOf, MembersFor, NameOf, GrantFrom,
         SchemaOf;
    FieldPlaces();
    TermsAre(clock, t, g);
    FieldIsFull(t, GrantId);
    var ms := MembersFor(clock, g, FIELDS);
    forall i | 0 <= i < |FIELDS| ensures t.members[i] == ms[i] {
      FieldIsFull(t, FIELDS[i]);
      ValueBack(clock, FieldsOf(t), g, FIELDS[i]);
    }
    assert t.members == ms;
  }

  lemma WireIsFull(clock: R.Clock, g: A.Grant)
    ensures Full(GrantSchema(), WireTree(clock, g))
  {
    hide SchemasFor, MembersFor, Full, FullFields, NamesDistinct;
    FieldsApart();
    SchemasDistinct(FIELDS);
    FieldsFull(clock, g, FIELDS);
    RecordFull(SchemasFor(FIELDS), MembersFor(clock, g, FIELDS));
  }

  lemma BudgetInOrder(b: A.Budget)
    ensures CountsInOrder(BudgetTree(b))
  {
    hide SortedKeys, IntTree, PartOf;
    BudgetParts(b);
    SortedKeysAscend(b.perOperation.Keys);
  }

  lemma WireInFull(clock: R.Clock, g: A.Grant)
    requires R.Lawful(clock) && g.validFrom != 0 && g.expiresAt != 0
    ensures InFull(clock, WireTree(clock, g))
  {
    hide GrantSchema, Full, WireTree, FieldsOf, CountsInOrder, BudgetTree;
    WireIsFull(clock, g);
    FieldsOfWire(clock, g);
    BudgetInOrder(g.budget);
  }

  /** A text in canonical form: the compact print of terms written in full. */
  ghost predicate InForm(clock: R.Clock, raw: string) {
    Decode(raw).Some? && raw == Print(Decode(raw).value) && InFull(clock, Decode(raw).value)
  }

  /**
   Of the texts that parse, the canonical bytes are exactly those in canonical form with every set
   sorted. Every other accepted text says the same terms in a form the parser does not insist on.
   */
  lemma AcceptedIsCanonicalExactly(clock: R.Clock, raw: string)
    requires R.Lawful(clock) && ParseGrant(clock, raw).Some?
    ensures var g := ParseGrant(clock, raw).value;
            raw == CanonicalBytes(clock, g) <==> InForm(clock, raw) && SortedGrant(g) == g
  {
    hide InFull, SortedGrant, ReadTerms, WireTree, Print, Decode, UniqueKeys, Fits, ByteLength, A.SetsOk, A.SizesOk,
         A.EntriesOk;
    var g, t := ParseGrant(clock, raw).value, Decode(raw).value;
    BytesRead(clock, g);
    ValidHeader(g);
    WireInFull(clock, g);
    if InFull(clock, t) {
      TreeBack(clock, t, g);
    }
  }

  // ---- The spacing of a text ----

  lemma SameTreeSameTerms(clock: R.Clock, g: A.Grant)
    requires R.Lawful(clock) && A.ValidGrant(g)
    ensures WireTree(clock, g) == WireTree(clock, SortedGrant(g)) <==> SortedGrant(g) == g
    ensures WellFormed(WireTree(clock, g)) && WellFormed(WireTree(clock, SortedGrant(g)))
  {
    hide SortedGrant, ReadTerms, WireTree, WellFormed, A.ValidGrant, Fill, UniqueKeys, Fits, Decode;
    SortedValid(g);
    ValidHeader(g);
    ValidHeader(SortedGrant(g));
    TermsRoundTrip(clock, g);
    TermsRoundTrip(clock, SortedGrant(g));
    WireFull(clock, g);
    WireFull(clock, SortedGrant(g));
  }

  /** In any spacing and order of sets, a grant's text is canonical exactly without blanks and disorder. */
  lemma SpacedIsCanonicalExactly(clock: R.Clock, g: A.Grant, gaps: seq<string>)
    requires R.Lawful(clock) && A.ValidGrant(g)
    requires |gaps| == |Tokens(WireTree(clock, g))| + 1 && forall i :: 0 <= i < |gaps| ==> AllSpace(gaps[i])
    ensures SpacedText(Tokens(WireTree(clock, g)), gaps) == CanonicalBytes(clock, g) <==>
            SortedGrant(g) == g && forall i :: 0 <= i < |gaps| ==> gaps[i] == ""
  {
    hide A.ValidGrant, SortedGrant, WireTree, SpacedText, Tokens, WellFormed, AllSpace, Print;
    SameTreeSameTerms(clock, g);
    SpacedIsPrint(WireTree(clock, g), WireTree(clock, SortedGrant(g)), gaps);
  }

  // ---- An accepted text that is not canonical ----

  /** How long a tree's text can be: an escaped character takes at most six. */
  function SizeBound(t: Tree): nat {
    match t
    case NullTree => 4
    case BoolTree(_) => 5
    case NumTree(literal) => |literal|
    case StrTree(text) => 6 * |text| + 2
    case ArrTree(items) => 2 + ItemsBound(items)
    case ObjTree(ms) => 2 + MembersBound(ms)
  }

  function ItemsBound(items: seq<Tree>): nat {
    if items == [] then 0 else SizeBound(items[0]) + 1 + ItemsBound(items[1..])
  }

  function MembersBound(ms: seq<Member>): nat {
    if ms == [] then 0 else 6 * |ms[0].key| + 4 + SizeBound(ms[0].value) + MembersBound(ms[1..])
  }

  lemma {:induction false} EscapedLength(s: string)
    ensures |EscapeAll(s)| <= 6 * |s|
  {
    if s != "" {
      EscapedLength(s[1..]);
      assert |EscapeOne(s[0])| <= 6;
    }
  }

  lemma StrLength(text: string)
    ensures |TokenText(Str(text))| <= 6 * |text| + 2
  { EscapedLength(text); }

  lemma {:induction false} TextLengthJoin(a: seq<Token>, b: seq<Token>)
    ensures TextLength(a + b) == TextLength(a) + TextLength(b)
  {
    hide TokenText;
    if a == [] {
      assert a + b == b;
    } else {
      TextLengthJoin(a[1..], b);
      assert (a + b)[1..] == a[1..] + b;
    }
  }

  lemma OneToken(t: Token)
    ensures TextLength([t]) == |TokenText(t)|
  { assert [t][1..] == []; }

  lemma {:induction false} TokensBounded(t: Tree)
    ensures TextLength(Tokens(t)) <= SizeBound(t)
    decreases t, 0
  {
    hide TokenText;
    match t
    case ArrTree(items) =>
      ItemsBounded(items);
      TextLengthJoin([LeftBracket], ItemTokens(items));
      TextLengthJoin([LeftBracket] + ItemTokens(items), [RightBracket]);
      Punctuation();
    case ObjTree(ms) =>
      MembersBounded(ms);
      TextLengthJoin([LeftBrace], MemberTokens(ms));
      TextLengthJoin([LeftBrace] + MemberTokens(ms), [RightBrace]);
      Punctuation();
    case StrTree(text) =>
      OneToken(Str(text));
      StrLength(text);
    case _ =>
      OneToken(Tokens(t)[0]);
      ScalarLength(t);
      assert Tokens(t) == [Tokens(t)[0]];
  }

  lemma ScalarLength(t: Tree)
    requires t.NullTree? || t.BoolTree? || t.NumTree?
    ensures |TokenText(Tokens(t)[0])| <= SizeBound(t)
  { }

  lemma Punctuation()
    ensures TextLength([LeftBracket]) == TextLength([RightBracket]) == TextLength([LeftBrace]) ==
            TextLength([RightBrace]) == 1
    ensures TextLength([Comma]) == TextLength([Colon]) == 1
  {
    OneToken(LeftBracket);
    OneToken(RightBracket);
    OneToken(LeftBrace);
    OneToken(RightBrace);
    OneToken(Comma);
    OneToken(Colon);
  }

  lemma {:induction false} ItemsBounded(items: seq<Tree>)
    ensures TextLength(ItemTokens(items)) <= ItemsBound(items)
    decreases items, 1
  {
    hide TokenText, Tokens;
    if items != [] {
      TokensBounded(items[0]);
      ItemsBounded(items[1..]);
      Punctuation();
      TextLengthJoin([Comma], ItemTokens(items[1..]));
      TextLengthJoin(Tokens(items[0]), if |items| == 1 then [] else [Comma] + ItemTokens(items[1..]));
    }
  }

  lemma {:induction false} MembersBounded(ms: seq<Member>)
    ensures TextLength(MemberTokens(ms)) <= MembersBound(ms)
    decreases ms, 1
  {
    hide TokenText, Tokens;
    if ms != [] {
      var head, value := [Str(ms[0].key), Colon], Tokens(ms[0].value);
      TokensBounded(ms[0].value);
      MembersBounded(ms[1..]);
      Punctuation();
      OneToken(Str(ms[0].key));
      StrLength(ms[0].key);
      assert head == [Str(ms[0].key)] + [Colon];
      TextLengthJoin([Str(ms[0].key)], [Colon]);
      TextLengthJoin(head, value);
      TextLengthJoin([Comma], MemberTokens(ms[1..]));
      TextLengthJoin(head + value, if |ms| == 1 then [] else [Comma] + MemberTokens(ms[1..]));
    }
  }

  lemma {:induction false} BytesBounded(s: string)
    ensures ByteLength(s) <= 4 * |s|
  {
    if s != "" {
      BytesBounded(s[1..]);
    }
  }

  /** A clock that writes the two instants of the witness no longer than a time stamp. */
  predicate Short(clock: R.Clock) {
    |clock.format(C.ROOT_GRANT.validFrom)| <= 40 && |clock.format(C.ROOT_GRANT.expiresAt)| <= 40
  }

  /** The witnesses below are about clocks that exist. */
  lemma ShortClock()
    ensures R.Lawful(R.NUMERALS) && Short(R.NUMERALS)
  {
    R.NumeralsLawful();
    assert IntText(1) == "1" && IntText(10) == "10";
  }

  lemma SmallIntText(n: int)
    requires 0 <= n < 10
    ensures |IntText(n)| == 1
  { }

  lemma WitnessSets(f: Field, clock: R.Clock)
    requires SchemaOf(f).ListOf?
    ensures SizeBound(ValueOf(clock, C.ROOT_GRANT, f)) <= 250
  {
    hide SizeBound;
    var g := C.ROOT_GRANT;
    OneString("console");
    OneString("*");
    OneString("pii");
    OneString("pure");
    OneOperation(g.operations[0]);
    EmptyList();
    assert g.operations == [g.operations[0]];
  }

  lemma EmptyList()
    ensures StringTrees([]) == [] && ResourceTrees([]) == [] && SizeBound(ArrTree([])) == 2
  { }

  lemma OneString(s: string)
    ensures SizeBound(ArrTree(StringTrees([s]))) == 6 * |s| + 5
  {
    assert StringTrees([s]) == [StrTree(s)] && [StrTree(s)][1..] == [];
    assert ItemsBound([StrTree(s)]) == SizeBound(StrTree(s)) + 1 + ItemsBound([]);
  }

  lemma MembersStep(m: Member, rest: seq<Member>)
    ensures MembersBound([m] + rest) == 6 * |m.key| + 4 + SizeBound(m.value) + MembersBound(rest)
  { assert ([m] + rest)[1..] == rest; }

  lemma OneOperation(op: A.OperationRef)
    requires op == A.OperationRef("tool", "read_file", 1)
    ensures SizeBound(ArrTree(OperationTrees([op]))) <= 250
  {
    var ms := OperationTree(op).members;
    SmallIntText(1);
    MembersStep(ms[2], []);
    MembersStep(ms[1], [ms[2]]);
    MembersStep(ms[0], [ms[1], ms[2]]);
    assert ms == [ms[0]] + [ms[1], ms[2]] && [ms[1], ms[2]] == [ms[1]] + [ms[2]] && [ms[2]] == [ms[2]] + [];
    var t := OperationTree(op);
    assert OperationTrees([op]) == [t] && [t][1..] == [];
    assert ItemsBound([t]) == SizeBound(t) + 1 + ItemsBound([]);
  }

  lemma WitnessBudget(b: A.Budget)
    requires b == A.Budget(None, map[])
    ensures SizeBound(BudgetTree(b)) <= 250
  {
    var counts := CountMembers(SortedKeys(b.perOperation.Keys), b.perOperation);
    assert b.perOperation.Keys == {};
    assert counts == [];
    var ms := BudgetTree(b).members;
    MembersStep(ms[1], []);
    MembersStep(ms[0], [ms[1]]);
    assert ms == [ms[0]] + [ms[1]] && [ms[1]] == [ms[1]] + [];
    assert SizeBound(ObjTree([])) == 2;
  }

  lemma WitnessField(clock: R.Clock, f: Field)
    requires Short(clock)
    ensures SizeBound(ValueOf(clock, C.ROOT_GRANT, f)) <= 250
  {
    hide SizeBound;
    match f
    case Operations | Channels | AllowedData | DeniedData | EffectClasses | Destinations
       | AllowedResources | DeniedResources => WitnessSets(f, clock);
    case BudgetTerms => WitnessBudget(C.ROOT_GRANT.budget);
    case _ => WitnessScalar(clock, f);
  }

  lemma WitnessScalar(clock: R.Clock, f: Field)
    requires Short(clock) && !SchemaOf(f).ListOf? && !f.BudgetTerms?
    ensures SizeBound(ValueOf(clock, C.ROOT_GRANT, f)) <= 250
  {
    forall n | 0 <= n < 10 ensures |IntText(n)| == 1 {
      SmallIntText(n);
    }
    var ms := [Member("required", BoolTree(false))];
    assert ms[1..] == [];
  }

  lemma {:induction false} FieldsBound(clock: R.Clock, g: A.Grant, fields: seq<Field>)
    requires forall f :: SizeBound(ValueOf(clock, g, f)) <= 250
    ensures MembersBound(MembersFor(clock, g, fields)) <= 450 * |fields|
  {
    hide ValueOf, SizeBound;
    if fields != [] {
      NameBound(fields[0]);
      FieldsBound(clock, g, fields[1..]);
      var ms := MembersFor(clock, g, fields);
      assert ms[1..] == MembersFor(clock, g, fields[1..]);
    }
  }

  lemma NameBound(f: Field)
    ensures |NameOf(f)| <= 26
  { SignatureOf(f); }

  /** The witness: a valid grant's canonical bytes behind a blank are accepted, and are not its canonical bytes. */
  lemma BlankAccepted(clock: R.Clock)
    requires R.Lawful(clock) && Short(clock)
    ensures var raw := " " + CanonicalBytes(clock, C.ROOT_GRANT);
            ParseGrant(clock, raw).Some? && raw != CanonicalBytes(clock, ParseGrant(clock, raw).value)
  {
    hide ParseGrant, WireTree, A.ValidGrant, SortedGrant, SizeBound, Print, ByteLength, Tokens, SpacedText;
    C.WitnessValid();
    var g := SortedGrant(C.ROOT_GRANT);
    var t := WireTree(clock, g);
    RootIsSorted();
    SortedValid(C.ROOT_GRANT);
    var gaps := NoGaps(|Tokens(t)| + 1)[0 := " "];
    BlankInFront(t);
    WitnessFits(clock);
    ParsesEveryForm(clock, g, gaps);
    SpacedIsCanonicalExactly(clock, g, gaps);
  }

  lemma RootIsSorted()
    ensures SortedGrant(C.ROOT_GRANT) == C.ROOT_GRANT
  {
    var g := C.ROOT_GRANT;
    assert g.operations[1..] == [] && g.channels[1..] == [] && g.allowedData[1..] == [] && g.deniedData[1..] == [];
    assert g.effectClasses[1..] == [];
  }

  lemma BlankInFront(t: Tree)
    ensures SpacedText(Tokens(t), NoGaps(|Tokens(t)| + 1)[0 := " "]) == " " + Print(t)
  {
    hide Tokens, TokenText;
    var ts := Tokens(t);
    var gaps := NoGaps(|ts| + 1);
    var text, rest := TokenText(ts[0]), SpacedText(ts[1..], gaps[1..]);
    assert gaps[0 := " "][1..] == gaps[1..];
    assert " " + text + rest == " " + ("" + text + rest);
  }

  lemma WitnessFits(clock: R.Clock)
    requires Short(clock)
    ensures ByteLength(" " + Print(WireTree(clock, C.ROOT_GRANT))) <= MAX_BYTES
  {
    hide SizeBound, ValueOf, MembersFor, Print, ByteLength, TextLength, Tokens;
    forall f ensures SizeBound(ValueOf(clock, C.ROOT_GRANT, f)) <= 250 {
      WitnessField(clock, f);
    }
    FieldsBound(clock, C.ROOT_GRANT, FIELDS);
    FieldPlaces();
    var t := WireTree(clock, C.ROOT_GRANT);
    ObjectBound(t.members);
    TokensBounded(t);
    PrintLength(t);
    BytesBounded(" " + Print(t));
  }

  lemma ObjectBound(ms: seq<Member>)
    ensures SizeBound(ObjTree(ms)) == 2 + MembersBound(ms)
  { }

  lemma PrintLength(t: Tree)
    ensures |Print(t)| == TextLength(Tokens(t))
  {
    SpacedLength(Tokens(t), NoGaps(|Tokens(t)| + 1));
    NoGapLength(NoGaps(|Tokens(t)| + 1));
  }
}
