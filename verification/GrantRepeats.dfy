/**
 What the grant parser makes of a text with two keys for one field, spelled differently so that the scanner
 passes them: a later value in full decides, except that maxima add up; any other one decodes over the earlier.
 */
module GrantRepeats {
  import opened Prelude
  import opened Json
  import opened Canonical
  import opened CanonicalForm
  import opened DupKeys
  import opened FieldNames
  import opened Wire
  import opened WireMerge
  import opened Sorting
  import opened Digest
  import opened GrantWire
  import opened GrantForms
  import A = Authority
  import C = AuthorityChains
  import R = Receipts

  /** A second spelling of a field's name. */
  predicate Respells(key: string, f: Field) { SameName(key, NameOf(f)) && key != NameOf(f) }

  /** A grant's terms with one more member among them. */
  ghost function Repeated(clock: R.Clock, g: A.Grant, p: nat, key: string, v: Tree): Tree
    requires p <= |FIELDS|
  { ObjTree(With(MembersFor(clock, g, FIELDS), p, Member(key, v))) }

  /** What the scanner sees: no key twice and no more depth, though two keys are for one field. */
  predicate PassesTwice(t: Tree) {
    t.ObjTree? && WellFormed(t) && UniqueKeys(t) && Fits(t, MAX_DEPTH) && !UniqueFields(t.members)
  }

  /** What the parser should answer for a tree's text, up to the size cap. */
  ghost predicate ParsesTo(clock: R.Clock, t: Tree, g: A.Grant) {
    ParseGrant(clock, Print(t)) == if ByteLength(Print(t)) <= MAX_BYTES then Some(g) else None
  }

  lemma NotDeclared(key: string, f: Field, e: Field)
    requires Respells(key, f)
    ensures key != NameOf(e)
  {
    hide NameOf;
    if e != f {
      NamesFoldDiffer(e, f);
    }
  }

  lemma MemberClean(clock: R.Clock, g: A.Grant, f: Field)
    ensures UniqueKeys(ValueOf(clock, g, f)) && Fits(ValueOf(clock, g, f), 7) && WellFormed(ValueOf(clock, g, f))
  {
    hide ValueOf, SchemaOf, UniqueKeys, Fits, WellFormed, Full, Shallow;
    FieldFull(clock, g, f);
    ShallowField(f);
    FullIsClean(SchemaOf(f), ValueOf(clock, g, f), 7);
  }

  lemma RepeatPasses(clock: R.Clock, g: A.Grant, f: Field, p: nat, key: string, v: Tree)
    requires p <= |FIELDS| && Respells(key, f) && UniqueKeys(v) && Fits(v, 7) && WellFormed(v)
    ensures PassesTwice(Repeated(clock, g, p, key, v))
  {
    hide ValueOf, NameOf, MembersFor, Respells, With, WellFormed, UniqueFields;
    var ms := MembersFor(clock, g, FIELDS);
    var ns := With(ms, p, Member(key, v));
    WithAt(ms, p, Member(key, v), p);
    forall i | 0 <= i < |ns| ensures UniqueKeys(ns[i].value) && Fits(ns[i].value, 7) && WellFormed(ns[i].value) {
      WithAt(ms, p, Member(key, v), i);
      if i != p {
        MemberClean(clock, g, FIELDS[if i < p then i else i - 1]);
      }
    }
    forall i, j | 0 <= i < j < |ns| ensures ns[i].key != ns[j].key {
      RepeatKeysDiffer(clock, g, f, p, key, v, i, j);
    }
    MembersClean(ns);
    RepeatShares(clock, g, f, p, key, v);
  }

  lemma MembersClean(ns: seq<Member>)
    requires forall i, j :: 0 <= i < j < |ns| ==> ns[i].key != ns[j].key
    requires forall i :: 0 <= i < |ns| ==> UniqueKeys(ns[i].value) && Fits(ns[i].value, 7) && WellFormed(ns[i].value)
    ensures var t := ObjTree(ns); WellFormed(t) && UniqueKeys(t) && Fits(t, MAX_DEPTH)
  { AllMembersWellFormed(ns); }

  lemma WithAt(ms: seq<Member>, p: nat, m: Member, i: nat)
    requires p <= |ms| && i <= |ms|
    ensures |With(ms, p, m)| == |ms| + 1
    ensures With(ms, p, m)[i] == if i < p then ms[i] else if i == p then m else ms[i - 1]
  { }

  lemma RepeatKeysDiffer(clock: R.Clock, g: A.Grant, f: Field, p: nat, key: string, v: Tree, i: nat, j: nat)
    requires p <= |FIELDS| && Respells(key, f) && i < j <= |FIELDS|
    ensures var ns := With(MembersFor(clock, g, FIELDS), p, Member(key, v));
            |ns| == |FIELDS| + 1 && ns[i].key != ns[j].key
  {
    hide ValueOf, NameOf, MembersFor, Respells, With;
    FieldPlaces();
    var ms := MembersFor(clock, g, FIELDS);
    WithAt(ms, p, Member(key, v), i);
    WithAt(ms, p, Member(key, v), j);
    if i == p {
      NotDeclared(key, f, FIELDS[j - 1]);
    } else if j == p {
      NotDeclared(key, f, FIELDS[i]);
    } else {
      NamesDiffer(FIELDS[if i < p then i else i - 1], FIELDS[if j < p then j else j - 1]);
    }
  }

  lemma RepeatShares(clock: R.Clock, g: A.Grant, f: Field, p: nat, key: string, v: Tree)
    requires p <= |FIELDS| && Respells(key, f)
    ensures !UniqueFields(With(MembersFor(clock, g, FIELDS), p, Member(key, v)))
  {
    hide ValueOf, NameOf, MembersFor;
    FieldPlaces();
    var ns, r := With(MembersFor(clock, g, FIELDS), p, Member(key, v)), Rank(f);
    var i := if r < p then r else r + 1;
    assert ns[i].key == NameOf(f) && ns[p].key == key;
    assert i < p ==> SameName(ns[i].key, ns[p].key);
    assert p < i ==> SameName(ns[p].key, ns[i].key);
  }

  /** What the two keys make of their field, in the order of the text. */
  ghost function Made(clock: R.Clock, g: A.Grant, f: Field, p: nat, v: Tree): Option<Tree> {
    if Rank(f) < p then Both(SchemaOf(f), ValueOf(clock, g, f), v) else Both(SchemaOf(f), v, ValueOf(clock, g, f))
  }

  lemma RepeatFills(clock: R.Clock, g: A.Grant, f: Field, p: nat, key: string, v: Tree)
    requires p <= |FIELDS| && Respells(key, f)
    ensures Rank(f) < |FIELDS|
    ensures Fill(GrantSchema(), Repeated(clock, g, p, key, v)) ==
            match Made(clock, g, f, p, v)
            case None => None
            case Some(w) => Some(ObjTree(MembersFor(clock, g, FIELDS)[Rank(f) := Member(NameOf(f), w)]))
  {
    hide ValueOf, NameOf, SchemaOf, SchemasFor, MembersFor, Fill, Both, SameName, NamesDistinct, FullFields, With;
    FieldPlaces();
    FieldsApart();
    SchemasDistinct(FIELDS);
    FieldsFull(clock, g, FIELDS);
    TwoKeys(SchemasFor(FIELDS), MembersFor(clock, g, FIELDS), Rank(f), p, Member(key, v));
  }

  /** The second grant is the first but for one term. */
  ghost predicate SameBut(clock: R.Clock, g: A.Grant, k: A.Grant, f: Field) {
    forall e: Field :: e != f ==> ValueOf(clock, k, e) == ValueOf(clock, g, e)
  }

  lemma TermReplaced(clock: R.Clock, g: A.Grant, k: A.Grant, f: Field)
    requires SameBut(clock, g, k, f)
    ensures Rank(f) < |FIELDS|
    ensures ObjTree(MembersFor(clock, g, FIELDS)[Rank(f) := Member(NameOf(f), ValueOf(clock, k, f))]) ==
            WireTree(clock, k)
  {
    hide ValueOf, NameOf, MembersFor;
    FieldPlaces();
    var ms := MembersFor(clock, g, FIELDS)[Rank(f) := Member(NameOf(f), ValueOf(clock, k, f))];
    forall i | 0 <= i < |FIELDS| ensures ms[i] == MembersFor(clock, k, FIELDS)[i] {
      assert i != Rank(f) ==> FIELDS[i] != f;
    }
    assert ms == MembersFor(clock, k, FIELDS);
  }

  lemma ReadsAs(clock: R.Clock, t: Tree, k: A.Grant)
    requires A.ValidGrant(k) && ReadTerms(clock, t) == Some(k)
    requires WellFormed(t) && UniqueKeys(t) && Fits(t, MAX_DEPTH)
    ensures ParsesTo(clock, t, k)
  {
    hide ReadTerms, WellFormed, UniqueKeys, Fits, UniqueFields, A.ValidGrant, Print, ByteLength, ParseGrant;
    DecodePrint(t);
    ParseFrom(clock, Print(t), t, k);
  }

  /** A text whose terms fill like a valid grant's own parses to it. */
  lemma FillsAs(clock: R.Clock, t: Tree, k: A.Grant)
    requires R.Lawful(clock) && A.ValidGrant(k) && PassesTwice(t)
    requires Fill(GrantSchema(), t) == Some(WireTree(clock, k))
    ensures ParsesTo(clock, t, k)
  {
    hide Fill, WireTree, A.ValidGrant, ParsesTo, ReadTerms, WellFormed, UniqueKeys, Fits, UniqueFields;
    ValidHeader(k);
    WireFull(clock, k);
    TermsRoundTrip(clock, k);
    ReadAlike(clock, t, WireTree(clock, k));
    ReadsAs(clock, t, k);
  }

  lemma ReadAlike(clock: R.Clock, t: Tree, u: Tree)
    requires Fill(GrantSchema(), t) == Fill(GrantSchema(), u)
    ensures ReadTerms(clock, t) == ReadTerms(clock, u)
  { hide Fill, GrantSchema, FieldsOf, GrantFrom; }

  lemma MadeFills(clock: R.Clock, g: A.Grant, k: A.Grant, f: Field, p: nat, key: string, v: Tree)
    requires p <= |FIELDS| && Respells(key, f) && SameBut(clock, g, k, f)
    requires Made(clock, g, f, p, v) == Some(ValueOf(clock, k, f))
    ensures Fill(GrantSchema(), Repeated(clock, g, p, key, v)) == Some(WireTree(clock, k))
  {
    hide Fill, WireTree, MembersFor, Repeated, Made, ValueOf, NameOf;
    RepeatFills(clock, g, f, p, key, v);
    TermReplaced(clock, g, k, f);
  }

  lemma NoMapInside(f: Field)
    requires !f.BudgetTerms?
    ensures Replaces(SchemaOf(f))
  { }

  /**
   Two keys for one field other than the budget, both values written in full, anywhere in the text: the scanner
   passes them, and the parser returns the terms of whichever comes later.
   */
  lemma LaterKeyDecides(clock: R.Clock, g: A.Grant, k: A.Grant, f: Field, key: string, p: nat)
    requires R.Lawful(clock) && A.ValidGrant(g) && A.ValidGrant(k) && SameBut(clock, g, k, f) && !f.BudgetTerms?
    requires Respells(key, f) && p <= |FIELDS|
    ensures var t := Repeated(clock, g, p, key, ValueOf(clock, k, f));
            PassesTwice(t) && ParsesTo(clock, t, if Rank(f) < p then k else g)
  {
    hide *;
    var winner, v := if Rank(f) < p then k else g, ValueOf(clock, k, f);
    MemberClean(clock, k, f);
    RepeatPasses(clock, g, f, p, key, v);
    LaterMade(clock, g, k, f, p);
    SameButItself(clock, g, f);
    MadeFills(clock, g, winner, f, p, key, v);
    FillsAs(clock, Repeated(clock, g, p, key, v), winner);
  }

  lemma LaterMade(clock: R.Clock, g: A.Grant, k: A.Grant, f: Field, p: nat)
    requires !f.BudgetTerms?
    ensures Made(clock, g, f, p, ValueOf(clock, k, f)) == Some(ValueOf(clock, if Rank(f) < p then k else g, f))
  {
    hide ValueOf, SchemaOf, Both, Replaces, Full;
    NoMapInside(f);
    FieldFull(clock, g, f);
    FieldFull(clock, k, f);
    LaterReplaces(SchemaOf(f), ValueOf(clock, g, f), ValueOf(clock, k, f));
    LaterReplaces(SchemaOf(f), ValueOf(clock, k, f), ValueOf(clock, g, f));
  }

  lemma SameButItself(clock: R.Clock, g: A.Grant, f: Field)
    ensures SameBut(clock, g, g, f)
  { }

  lemma WireFieldsUnique(clock: R.Clock, g: A.Grant)
    ensures UniqueFields(MembersFor(clock, g, FIELDS))
  {
    hide ValueOf, NameOf, SameName;
    FieldsApart();
    var ms := MembersFor(clock, g, FIELDS);
    forall i, j | 0 <= i < j < |ms| ensures !SameName(ms[i].key, ms[j].key) {
      NamesFoldDiffer(FIELDS[i], FIELDS[j]);
    }
  }

  lemma PermutedClean(clock: R.Clock, g: A.Grant, ms: seq<Member>)
    requires multiset(ms) == multiset(MembersFor(clock, g, FIELDS))
    ensures var t := ObjTree(ms); WellFormed(t) && UniqueKeys(t) && Fits(t, MAX_DEPTH)
  {
    hide MembersFor, ValueOf, NameOf;
    var ns, key := MembersFor(clock, g, FIELDS), (m: Member) => m.key;
    SameSize(ms, ns);
    FieldsApart();
    forall i, j | 0 <= i < j < |ns| ensures key(ns[i]) != key(ns[j]) {
      NamesDiffer(FIELDS[i], FIELDS[j]);
    }
    KeysPermuted(ns, ms, key);
    forall i | 0 <= i < |ms| ensures UniqueKeys(ms[i].value) && Fits(ms[i].value, 7) && WellFormed(ms[i].value) {
      assert ms[i] in ns;
      var j :| 0 <= j < |ns| && ns[j] == ms[i];
      MemberClean(clock, g, FIELDS[j]);
    }
    assert forall i, j :: 0 <= i < j < |ms| ==> key(ms[i]) != key(ms[j]);
    AllMembersWellFormed(ms);
  }

  /** With one key to a field, the fields may come in any order. */
  lemma AnyFieldOrder(clock: R.Clock, g: A.Grant, ms: seq<Member>)
    requires R.Lawful(clock) && A.ValidGrant(g) && multiset(ms) == multiset(MembersFor(clock, g, FIELDS))
    ensures ParsesTo(clock, ObjTree(ms), g)
  {
    hide *;
    var t, u := ObjTree(ms), WireTree(clock, g);
    PermutedClean(clock, g, ms);
    WireFieldsUnique(clock, g);
    OrderOfFieldsDoesNotMatter(SchemasFor(FIELDS), MembersFor(clock, g, FIELDS), ms);
    ValidHeader(g);
    TermsRoundTrip(clock, g);
    WireIs(clock, g);
    ReadAlike(clock, t, u);
    ReadsAs(clock, t, g);
  }

  lemma WireIs(clock: R.Clock, g: A.Grant)
    ensures WireTree(clock, g) == ObjTree(MembersFor(clock, g, FIELDS)) && GrantSchema() == Record(SchemasFor(FIELDS))
  { }

  // ---- Every text parses like its terms in full ----

  lemma ShapesProper()
    ensures forall f: Field :: Proper(SchemaOf(f))
  { }

  lemma SchemasProper(fields: seq<Field>)
    ensures forall f :: f in SchemasFor(fields) ==> Proper(f.schema)
  {
    hide SchemaOf, NameOf, Proper, SchemasFor;
    ShapesProper();
    forall f | f in SchemasFor(fields) ensures Proper(f.schema) {
      var i :| 0 <= i < |fields| && SchemasFor(fields)[i] == f;
    }
  }

  lemma GrantProper()
    ensures Proper(GrantSchema())
  {
    hide SchemasFor, NamesDistinct, Proper;
    FieldsApart();
    SchemasDistinct(FIELDS);
    SchemasProper(FIELDS);
    RecordProper(SchemasFor(FIELDS));
  }

  lemma RecordProper(fields: seq<FieldSchema>)
    requires NamesDistinct(fields) && forall f :: f in fields ==> Proper(f.schema)
    ensures Proper(Record(fields))
  { }

  lemma FilledIsClean(t: Tree, u: Tree)
    requires Fill(GrantSchema(), t) == Some(u)
    ensures Fill(GrantSchema(), u) == Some(u) && WellFormed(u) && UniqueKeys(u) && Fits(u, MAX_DEPTH)
  {
    hide Fill, GrantSchema, WellFormed, UniqueKeys, Fits, Full, Proper, Shallow;
    GrantProper();
    FilledIsFull(GrantSchema(), t);
    ShallowGrant();
    FullIsClean(GrantSchema(), u, 8);
  }

  lemma ShallowGrant()
    ensures Shallow(GrantSchema(), 8)
  { ShallowFields(FIELDS); }

  lemma ParseIs(clock: R.Clock, raw: string, t: Tree)
    requires Decode(raw) == Some(t) && UniqueKeys(t) && Fits(t, MAX_DEPTH) && ByteLength(raw) <= MAX_BYTES
    ensures ParseGrant(clock, raw) ==
            if ReadTerms(clock, t).Some? && A.ValidGrant(ReadTerms(clock, t).value) then ReadTerms(clock, t) else None
  { hide Decode, UniqueKeys, Fits, ReadTerms, ByteLength, A.ValidGrant; }

  /** A text that passes the scanner parses like the print of what it decodes to, written out in full. */
  lemma ParsesAsFilled(clock: R.Clock, raw: string, t: Tree)
    requires Decode(raw) == Some(t) && UniqueKeys(t) && Fits(t, MAX_DEPTH) && ByteLength(raw) <= MAX_BYTES
    ensures match Fill(GrantSchema(), t)
            case None => ParseGrant(clock, raw) == None
            case Some(u) => ByteLength(Print(u)) <= MAX_BYTES ==> ParseGrant(clock, raw) == ParseGrant(clock, Print(u))
  {
    hide Decode, UniqueKeys, Fits, ReadTerms, ByteLength, A.ValidGrant, Fill, GrantSchema, Print, ParseGrant,
         WellFormed;
    ParseIs(clock, raw, t);
    if Fill(GrantSchema(), t).None? {
      ReadsNothing(clock, t);
    } else {
      var u := Fill(GrantSchema(), t).value;
      FilledIsClean(t, u);
      ReadAlike(clock, t, u);
      DecodePrint(u);
      if ByteLength(Print(u)) <= MAX_BYTES {
        ParseIs(clock, Print(u), u);
      }
    }
  }

  lemma ReadsNothing(clock: R.Clock, t: Tree)
    requires Fill(GrantSchema(), t).None?
    ensures ReadTerms(clock, t).None?
  { hide Fill, GrantSchema; }

  /**
   Two keys for one field, the second with any value: the scanner passes them, and the parser reads the text
   as if the field had one key, with what the earlier value and the later one make together.
   */
  lemma TwoKeysParseAsOne(clock: R.Clock, g: A.Grant, f: Field, key: string, p: nat, v: Tree)
    requires Respells(key, f) && p <= |FIELDS| && UniqueKeys(v) && Fits(v, 7) && WellFormed(v)
    ensures Rank(f) < |FIELDS|
    ensures var t := Repeated(clock, g, p, key, v);
            && PassesTwice(t)
            && (ByteLength(Print(t)) <= MAX_BYTES ==>
                  match Made(clock, g, f, p, v)
                  case None => ParseGrant(clock, Print(t)) == None
                  case Some(w) =>
                    var u := ObjTree(MembersFor(clock, g, FIELDS)[Rank(f) := Member(NameOf(f), w)]);
                    ByteLength(Print(u)) <= MAX_BYTES ==> ParseGrant(clock, Print(t)) == ParseGrant(clock, Print(u)))
    ensures if Rank(f) < p then Merges(SchemaOf(f), ValueOf(clock, g, f), v, Made(clock, g, f, p, v))
            else Merges(SchemaOf(f), v, ValueOf(clock, g, f), Made(clock, g, f, p, v))
  {
    hide *;
    var t := Repeated(clock, g, p, key, v);
    RepeatPasses(clock, g, f, p, key, v);
    PassingIs(t);
    RepeatFills(clock, g, f, p, key, v);
    DecodePrint(t);
    if ByteLength(Print(t)) <= MAX_BYTES {
      ParsesAsFilled(clock, Print(t), t);
    }
    MadeMerges(clock, g, f, p, v);
  }

  lemma MadeMerges(clock: R.Clock, g: A.Grant, f: Field, p: nat, v: Tree)
    ensures if Rank(f) < p then Merges(SchemaOf(f), ValueOf(clock, g, f), v, Made(clock, g, f, p, v))
            else Merges(SchemaOf(f), v, ValueOf(clock, g, f), Made(clock, g, f, p, v))
  {
    hide Merges, Both, ValueOf, SchemaOf;
    BothMerges(SchemaOf(f), ValueOf(clock, g, f), v);
    BothMerges(SchemaOf(f), v, ValueOf(clock, g, f));
  }

  // ---- A list is written over element by element ----

  /** An operation with a name alone. */
  function NameOnly(name: string): Tree { ArrTree([ObjTree([Member("name", StrTree(name))])]) }

  function Renamed(g: A.Grant, name: string): A.Grant
    requires g.operations != []
  { g.(operations := [g.operations[0].(name := name)]) }

  /** The slot of an operation that was decoded in full. */
  lemma OperationSlot(op: A.OperationRef, slot: Slot)
    requires Shaped(OPERATION, slot) && View(OPERATION, slot) == OperationTree(op)
    ensures slot == Struct([Scalar(StrTree(op.namespace)), Scalar(StrTree(op.name)), Scalar(IntTree(op.version))])
  {
    var fields := OPERATION.fields;
    ViewFieldsAt(fields, slot.slots, 0);
    ViewFieldsAt(fields, slot.slots, 1);
    ViewFieldsAt(fields, slot.slots, 2);
    assert slot.slots == [slot.slots[0], slot.slots[1], slot.slots[2]];
  }

  lemma {:induction false} ViewFieldsAt(fields: seq<FieldSchema>, slots: seq<Slot>, i: nat)
    requires ShapedFields(fields, slots) && i < |fields|
    ensures |slots| == |fields| && Shaped(fields[i].schema, slots[i])
    ensures ViewFields(fields, slots)[i] == Member(fields[i].name, View(fields[i].schema, slots[i]))
    decreases i
  {
    if i > 0 {
      ViewFieldsAt(fields[1..], slots[1..], i - 1);
    }
  }

  lemma NamesApart()
    ensures SameName("name", "name") && !SameName("name", "namespace") && !SameName("name", "version")
  { assert FoldName("name")[0] == 'N' && FoldName("version")[0] == 'V'; }

  lemma NameInto(op: A.OperationRef, slot: Slot, name: string)
    requires Shaped(OPERATION, slot) && View(OPERATION, slot) == OperationTree(op)
    ensures var r := Into(OPERATION, slot, NameOnly(name).items[0]);
            r.Some? && View(OPERATION, r.value) == OperationTree(op.(name := name))
  {
    hide SameName, IntTree;
    OperationSlot(op, slot);
    NamesApart();
    var ms, fields := [Member("name", StrTree(name))], OPERATION.fields;
    assert fields[1] in fields && KnownField(fields, "name");
    NoKeyFor(Text, slot.slots[0], ms, "namespace");
    OneKeyFor(Text, slot.slots[1], ms, 0, "name");
    NoKeyFor(Integer, slot.slots[2], ms, "version");
    ThreeFields(fields, slot.slots, ms, Scalar(StrTree(name)));
  }

  lemma ThreeFields(fields: seq<FieldSchema>, slots: seq<Slot>, ms: seq<Member>, middle: Slot)
    requires |fields| == 3 && ShapedFields(fields, slots)
    requires Shaped(fields[0].schema, slots[0]) && Shaped(fields[1].schema, slots[1]) &&
             Shaped(fields[2].schema, slots[2])
    requires IntoField(fields[0].schema, slots[0], ms, fields[0].name) == Some(slots[0])
    requires IntoField(fields[1].schema, slots[1], ms, fields[1].name) == Some(middle)
    requires IntoField(fields[2].schema, slots[2], ms, fields[2].name) == Some(slots[2])
    ensures IntoFields(fields, slots, ms) == Some([slots[0], middle, slots[2]])
  {
    hide IntoField, Shaped;
    IntoFieldsStep(fields, slots, ms);
    IntoFieldsStep(fields[1..], slots[1..], ms);
    IntoFieldsStep(fields[1..][1..], slots[1..][1..], ms);
    var fs, ss := fields[1..][1..], slots[1..][1..];
    assert fields[1..][0] == fields[1] && slots[1..][0] == slots[1] && fs[0] == fields[2] && ss[0] == slots[2];
    assert IntoFields(fs[1..], ss[1..], ms) == Some([]);
    assert [slots[0]] + ([middle] + ([slots[2]] + [])) == [slots[0], middle, slots[2]];
  }

  lemma IntoFieldsStep(fields: seq<FieldSchema>, slots: seq<Slot>, ms: seq<Member>)
    requires ShapedFields(fields, slots) && fields != []
    ensures Shaped(fields[0].schema, slots[0]) && ShapedFields(fields[1..], slots[1..])
    ensures var first, rest := IntoField(fields[0].schema, slots[0], ms, fields[0].name),
                               IntoFields(fields[1..], slots[1..], ms);
            first.Some? && rest.Some? ==> IntoFields(fields, slots, ms) == Some([first.value] + rest.value)
  { }

  lemma NameOverFirst(xs: seq<A.OperationRef>, name: string)
    requires xs != []
    ensures Both(ListOf(OPERATION), ArrTree(OperationTrees(xs)), NameOnly(name)) ==
            Some(ArrTree(OperationTrees([xs[0].(name := name)])))
  {
    hide Full, View, Into, OperationTree;
    OperationsFull(xs);
    var s, first := ListOf(OPERATION), ArrTree(OperationTrees(xs));
    FullInto(s, Fresh(s), first);
    var slot := Into(s, Fresh(s), first).value;
    FirstOf(xs, slot);
    NameInto(xs[0], slot.items[0], name);
    OverFirst(OPERATION, slot, NameOnly(name).items[0]);
    var op := xs[0].(name := name);
    assert OperationTrees([op]) == [OperationTree(op)];
  }

  lemma FirstOf(xs: seq<A.OperationRef>, slot: Slot)
    requires xs != [] && Shaped(ListOf(OPERATION), slot)
    requires View(ListOf(OPERATION), slot) == ArrTree(OperationTrees(xs))
    ensures slot.items != [] && View(OPERATION, slot.items[0]) == OperationTree(xs[0])
  { hide OperationTree; }

  lemma OverFirst(item: Schema, slot: Slot, t: Tree)
    requires Shaped(ListOf(item), slot) && slot.items != []
    ensures Into(ListOf(item), slot, ArrTree([t])) ==
            match Into(item, slot.items[0], t)
            case None => None
            case Some(next) => Some(Slice([next] + slot.items[1..], 1))
    ensures Into(item, slot.items[0], t).Some? ==>
              View(ListOf(item), Into(ListOf(item), slot, ArrTree([t])).value) ==
              ArrTree([View(item, Into(item, slot.items[0], t).value)])
  {
    assert [t][1..] == [];
    var next := Into(item, slot.items[0], t);
    if next.Some? {
      assert ([next.value] + slot.items[1..])[..1] == [next.value];
      assert [next.value][1..] == [];
    }
  }

  lemma RenamedValid(g: A.Grant, name: string)
    requires A.ValidGrant(g) && name != ""
    ensures g.operations != [] && A.ValidGrant(Renamed(g, name))
  {
    var op := g.operations[0];
    assert op in g.operations;
    assert Renamed(g, name).operations == [op.(name := name)];
    assert '/' in A.OperationKey(op.(name := name));
  }

  /**
   A second value that is not in full: an object with a name alone decodes over the first operation and renames
   it, so the parser returns one that no key of the text spells out.
   */
  lemma OperationsMix(clock: R.Clock, g: A.Grant, key: string, name: string)
    requires R.Lawful(clock) && A.ValidGrant(g) && Respells(key, Operations) && name != ""
    ensures g.operations != []
    ensures var t := Repeated(clock, g, |FIELDS|, key, NameOnly(name));
            PassesTwice(t) && ParsesTo(clock, t, Renamed(g, name))
  {
    hide *;
    RenamedValid(g, name);
    NameOnlyClean(name);
    RepeatPasses(clock, g, Operations, |FIELDS|, key, NameOnly(name));
    RenamedMade(clock, g, name);
    MadeFills(clock, g, Renamed(g, name), Operations, |FIELDS|, key, NameOnly(name));
    FillsAs(clock, Repeated(clock, g, |FIELDS|, key, NameOnly(name)), Renamed(g, name));
  }

  lemma RenamedMade(clock: R.Clock, g: A.Grant, name: string)
    requires g.operations != []
    ensures SameBut(clock, g, Renamed(g, name), Operations)
    ensures Made(clock, g, Operations, |FIELDS|, NameOnly(name)) == Some(ValueOf(clock, Renamed(g, name), Operations))
  {
    hide Both, OperationTrees, NameOnly;
    NameOverFirst(g.operations, name);
  }

  lemma NameOnlyClean(name: string)
    ensures var v := NameOnly(name); UniqueKeys(v) && Fits(v, 7) && WellFormed(v)
  {
    AllMembersWellFormed(NameOnly(name).items[0].members);
    AllItemsWellFormed(NameOnly(name).items);
  }

  // ---- Maxima add up ----

  ghost predicate KeyAt(ms: seq<Member>, key: string) { exists i :: 0 <= i < |ms| && ms[i].key == key }

  lemma CountsSpell(ms: seq<Member>)
    requires KeysDistinct(ms)
    ensures forall k :: k in CountsIn(ms) ==> KeyAt(ms, k)
    ensures forall i :: 0 <= i < |ms| ==> ms[i].key in CountsIn(ms) && CountsIn(ms)[ms[i].key] == IntIn(ms[i].value)
  {
    hide CountsIn, IntIn, KeysDistinct;
    CountsInAt(ms);
    forall k | k in CountsIn(ms) ensures KeyAt(ms, k) {
      var m :| m in ms && m.key == k;
      var i :| 0 <= i < |ms| && ms[i] == m;
    }
  }

  /** The map that members with different keys spell. */
  lemma CountsAre(ms: seq<Member>, c: map<string, int>)
    requires KeysDistinct(ms) && forall k :: k in c ==> KeyAt(ms, k)
    requires forall i :: 0 <= i < |ms| ==> ms[i].key in c && c[ms[i].key] == IntIn(ms[i].value)
    ensures CountsIn(ms) == c
  {
    hide CountsIn, IntIn, KeysDistinct;
    CountsSpell(ms);
    assert CountsIn(ms).Keys == c.Keys;
  }

  lemma {:induction false} PutIs(ms: seq<Member>, m: Member) returns (i: nat)
    requires KeysDistinct(ms)
    ensures i <= |ms| && |Put(ms, m)| == (if i < |ms| then |ms| else i + 1)
    ensures forall j :: 0 <= j < |Put(ms, m)| ==> Put(ms, m)[j] == if j == i then m else ms[j]
    ensures forall j :: 0 <= j < |ms| ==> (ms[j].key == m.key <==> j == i)
  {
    i := 0;
    if ms != [] && ms[0].key != m.key {
      i := PutIs(ms[1..], m);
      i := i + 1;
      forall j | 0 <= j < |ms| ensures ms[j].key == m.key <==> j == i {
        assert j > 0 ==> ms[j] == ms[1..][j - 1];
      }
    }
  }

  lemma CountsPut(ms: seq<Member>, m: Member)
    requires KeysDistinct(ms)
    ensures KeysDistinct(Put(ms, m)) && CountsIn(Put(ms, m)) == CountsIn(ms)[m.key := IntIn(m.value)]
  {
    hide CountsIn, IntIn, Put;
    var i := PutIs(ms, m);
    var ns, c := Put(ms, m), CountsIn(ms)[m.key := IntIn(m.value)];
    CountsSpell(ms);
    forall k | k in c ensures KeyAt(ns, k) {
      if k == m.key {
        assert ns[i].key == k;
      } else {
        var j :| 0 <= j < |ms| && ms[j].key == k;
        assert ns[j].key == k;
      }
    }
    CountsAre(ns, c);
  }

  lemma CountsAhead(ms: seq<Member>)
    requires KeysDistinct(ms) && ms != []
    ensures CountsIn(ms) == map[ms[0].key := IntIn(ms[0].value)] + CountsIn(ms[1..])
  {
    hide CountsIn, IntIn;
    var rest, c := ms[1..], map[ms[0].key := IntIn(ms[0].value)] + CountsIn(ms[1..]);
    CountsSpell(rest);
    forall i | 0 <= i < |ms| ensures ms[i].key in c && c[ms[i].key] == IntIn(ms[i].value) {
      assert i > 0 ==> ms[i] == rest[i - 1];
    }
    forall k | k in c ensures KeyAt(ms, k) {
      if k != ms[0].key {
        var j :| 0 <= j < |rest| && rest[j].key == k;
        assert ms[j + 1].key == k;
      }
    }
    CountsAre(ms, c);
  }

  /** Counts over counts: the earlier ones stay but where the later give their own. */
  lemma {:induction false} CountsAdd(had: seq<Member>, ms: seq<Member>)
    requires KeysDistinct(had) && KeysDistinct(ms) && forall i :: 0 <= i < |ms| ==> PlainInteger(ms[i].value)
    ensures IntoCounts(had, ms).Some? && CountsIn(IntoCounts(had, ms).value) == CountsIn(had) + CountsIn(ms)
    decreases |ms|
  {
    hide CountsIn, Put, PlainInteger, IntoInteger, IntIn;
    if ms == [] {
      NoCounts();
    } else {
      PlainInto(ms[0].value);
      assert Member(ms[0].key, ms[0].value) == ms[0];
      CountsPut(had, ms[0]);
      CountsAdd(Put(had, ms[0]), ms[1..]);
      CountsAhead(ms);
    }
  }

  lemma NoCounts()
    ensures CountsIn([]) == map[]
  { }

  function Added(first: A.Budget, second: A.Budget): A.Budget {
    A.Budget(second.total, first.perOperation + second.perOperation)
  }

  lemma BudgetSlot(b: A.Budget, slot: Slot)
    requires Shaped(BUDGET, slot) && View(BUDGET, slot) == BudgetTree(b)
    ensures slot == Struct([Scalar(BudgetTree(b).members[0].value), Table(BudgetTree(b).members[1].value.members)])
  {
    hide CountMembers, SortedKeys, IntTree;
    ViewFieldsAt(BUDGET.fields, slot.slots, 0);
    ViewFieldsAt(BUDGET.fields, slot.slots, 1);
    assert slot.slots == [slot.slots[0], slot.slots[1]];
  }

  lemma TotalApart()
    ensures SameName("total", "total") && SameName("per_operation", "per_operation")
    ensures !SameName("total", "per_operation") && !SameName("per_operation", "total")
  { }

  lemma BudgetParted(b: A.Budget)
    ensures var t := BudgetTree(b);
            && |t.members| == 2 && t.members[0].key == "total" && t.members[1].key == "per_operation"
            && Full(MaybeInteger, t.members[0].value) && Full(Counts, t.members[1].value)
            && b == BudgetOf(t.members[0].value, t.members[1].value)
  {
    hide Full, CountMembers, SortedKeys, CountsIn, IntIn, IntTree, PartOf;
    BudgetFull(b);
    BudgetParts(b);
    RecordPart(BUDGET.fields, BudgetTree(b), 0);
    RecordPart(BUDGET.fields, BudgetTree(b), 1);
  }

  function BudgetOf(total: Tree, counts: Tree): A.Budget {
    A.Budget(if total.NullTree? then None else Some(IntIn(total)),
        if counts.ObjTree? then CountsIn(counts.members) else map[])
  }

  lemma BudgetsMake(slot: Slot, ms: seq<Member>)
    requires Shaped(BUDGET, slot) && slot.slots[1].Table? && KeysDistinct(slot.slots[1].members)
    requires |ms| == 2 && ms[0].key == "total" && ms[1].key == "per_operation"
    requires Full(MaybeInteger, ms[0].value) && Full(Counts, ms[1].value)
    ensures IntoCounts(slot.slots[1].members, ms[1].value.members).Some?
    ensures Into(BUDGET, slot, ObjTree(ms)) ==
            Some(Struct([Scalar(ms[0].value), Table(IntoCounts(slot.slots[1].members, ms[1].value.members).value)]))
  {
    hide SameName, IntoField, IntoCounts, PlainInteger, KeysDistinct;
    TotalApart();
    var fields, slots := BUDGET.fields, slot.slots;
    CountsAdd(slots[1].members, ms[1].value.members);
    TotalInto(slots[0], ms[0].value);
    OneKeyFor(MaybeInteger, slots[0], ms, 0, "total");
    OneKeyFor(Counts, slots[1], ms, 1, "per_operation");
    assert fields[0] in fields && fields[1] in fields;
    assert KnownField(fields, ms[0].key) && KnownField(fields, ms[1].key);
    TwoFields(fields, slots, ms, Scalar(ms[0].value), Into(Counts, slots[1], ms[1].value).value);
  }

  lemma TotalInto(slot: Slot, t: Tree)
    requires Shaped(MaybeInteger, slot) && Full(MaybeInteger, t)
    ensures Into(MaybeInteger, slot, t) == Some(Scalar(t))
  { }

  lemma TwoFields(fields: seq<FieldSchema>, slots: seq<Slot>, ms: seq<Member>, a: Slot, b: Slot)
    requires |fields| == 2 && ShapedFields(fields, slots)
    requires Shaped(fields[0].schema, slots[0]) && Shaped(fields[1].schema, slots[1])
    requires IntoField(fields[0].schema, slots[0], ms, fields[0].name) == Some(a)
    requires IntoField(fields[1].schema, slots[1], ms, fields[1].name) == Some(b)
    ensures IntoFields(fields, slots, ms) == Some([a, b])
  {
    hide IntoField, Shaped;
    IntoFieldsStep(fields, slots, ms);
    IntoFieldsStep(fields[1..], slots[1..], ms);
    assert fields[1..][0] == fields[1] && slots[1..][0] == slots[1];
    assert IntoFields(fields[1..][1..], slots[1..][1..], ms) == Some([]);
    assert [a] + ([b] + []) == [a, b];
  }

  lemma BudgetInto(b: A.Budget)
    ensures Into(BUDGET, Fresh(BUDGET), BudgetTree(b)) ==
            Some(Struct([Scalar(BudgetTree(b).members[0].value), Table(BudgetTree(b).members[1].value.members)]))
  {
    hide View, Into, Fresh, Full, BudgetTree;
    BudgetIsObject(b);
    BudgetFull(b);
    FullInto(BUDGET, Fresh(BUDGET), BudgetTree(b));
    BudgetSlot(b, Into(BUDGET, Fresh(BUDGET), BudgetTree(b)).value);
  }

  /** A budget over another: its own total, and the maxima of both, of one operation its own. */
  lemma BudgetOver(first: A.Budget, second: A.Budget)
    ensures var r := Both(BUDGET, BudgetTree(first), BudgetTree(second));
            r.Some? && BudgetIn(r.value) == Added(first, second)
  {
    hide View, Into, Fresh, Full, CountsIn, CountMembers, SortedKeys, IntTree, PartOf, IntoCounts, KeysDistinct,
         PlainInteger, BudgetTree, BudgetIn;
    BudgetIsObject(first);
    BudgetIsObject(second);
    BudgetInto(first);
    BudgetParted(first);
    BudgetParted(second);
    var had, ms := BudgetTree(first).members, BudgetTree(second).members;
    CountsAreDistinct(had[1].value);
    CountsAreDistinct(ms[1].value);
    var slot := Into(BUDGET, Fresh(BUDGET), BudgetTree(first)).value;
    BudgetsMake(slot, ms);
    CountsAdd(had[1].value.members, ms[1].value.members);
    BudgetRead(Into(BUDGET, slot, BudgetTree(second)).value);
  }

  lemma BudgetIsObject(b: A.Budget)
    ensures BudgetTree(b) == ObjTree(BudgetTree(b).members)
  { }

  lemma CountsAreDistinct(t: Tree)
    requires Full(Counts, t)
    ensures t.ObjTree? && KeysDistinct(t.members)
    ensures forall i :: 0 <= i < |t.members| ==> PlainInteger(t.members[i].value)
  { }

  lemma BudgetRead(slot: Slot)
    requires Shaped(BUDGET, slot) && slot.slots[0].Scalar? && slot.slots[1].Table?
    ensures var total := slot.slots[0].tree;
            BudgetIn(View(BUDGET, slot)) ==
            A.Budget(if total.NullTree? then None else Some(IntIn(total)), CountsIn(slot.slots[1].members))
  {
    hide CountsIn, IntIn;
    ViewFieldsAt(BUDGET.fields, slot.slots, 0);
    ViewFieldsAt(BUDGET.fields, slot.slots, 1);
    var ms := View(BUDGET, slot).members;
    assert |ms| == 2 && ms[0].key == "total" && ms[1].key == "per_operation";
    assert "total"[0] != "per_operation"[0];
    LastIs(ms, "total", 0);
    LastIs(ms, "per_operation", 1);
  }

  lemma FieldPlaced(ms: seq<Member>, e: Field)
    requires |ms| == |FIELDS| && forall i :: 0 <= i < |FIELDS| ==> ms[i].key == NameOf(FIELDS[i])
    ensures Rank(e) < |ms| && FieldsOf(ObjTree(ms))(e) == ms[Rank(e)].value
  {
    hide NameOf;
    FieldPlaces();
    forall j | Rank(e) < j < |ms| ensures ms[j].key != NameOf(e) {
      NamesDiffer(FIELDS[j], e);
    }
    LastIs(ms, NameOf(e), Rank(e));
  }

  /** Terms that read like a grant's but for the order of its maxima. */
  lemma BudgetReadsAs(clock: R.Clock, v: Field -> Tree, k: A.Grant)
    requires R.Lawful(clock) && A.ValidGrant(k)
    requires BudgetIn(v(BudgetTerms)) == k.budget
    requires forall e: Field :: !e.BudgetTerms? ==> v(e) == ValueOf(clock, k, e)
    ensures clock.parse(TextIn(v(ValidFrom))) == Some(k.validFrom)
    ensures clock.parse(TextIn(v(ExpiresAt))) == Some(k.expiresAt)
    ensures GrantFrom(v, k.validFrom, k.expiresAt) == k
  {
    hide A.SetsOk, A.SizesOk, A.EntriesOk, ValueOf, BudgetIn, TextIn, IntIn, TextsIn, OperationsIn, ResourcesIn,
         FlagIn, PartOf, BudgetTree;
    var w: Field -> Tree := FieldsOf(WireTree(clock, k));
    FieldsOfWire(clock, k);
    ValidHeader(k);
    TimesRead(clock, k, w);
    GrantReads(clock, k, w);
    BudgetFull(k.budget);
    BudgetValue(clock, k);
  }

  lemma BudgetValue(clock: R.Clock, k: A.Grant)
    ensures ValueOf(clock, k, BudgetTerms) == BudgetTree(k.budget)
  { }

  lemma ReadFrom(clock: R.Clock, t: Tree, u: Tree, k: A.Grant)
    requires Fill(GrantSchema(), t) == Some(u)
    requires clock.parse(TextIn(FieldsOf(u)(ValidFrom))) == Some(k.validFrom)
    requires clock.parse(TextIn(FieldsOf(u)(ExpiresAt))) == Some(k.expiresAt)
    requires GrantFrom(FieldsOf(u), k.validFrom, k.expiresAt) == k
    ensures ReadTerms(clock, t) == Some(k)
  { hide Fill, GrantSchema, FieldsOf, GrantFrom; }

  /** The budget of a grant with another one beside its own, in the order of the text. */
  function Summed(g: A.Grant, other: A.Budget, p: nat): A.Budget {
    if Rank(BudgetTerms) < p then Added(g.budget, other) else Added(other, g.budget)
  }

  lemma BudgetMade(clock: R.Clock, g: A.Grant, other: A.Budget, p: nat)
    ensures var w := Made(clock, g, BudgetTerms, p, BudgetTree(other));
            w.Some? && BudgetIn(w.value) == Summed(g, other, p)
  {
    hide ValueOf, Both, BudgetTree, Added, BudgetIn;
    BudgetValue(clock, g);
    BudgetOver(g.budget, other);
    BudgetOver(other, g.budget);
  }

  lemma BudgetFields(clock: R.Clock, g: A.Grant, k: A.Grant, w: Tree)
    requires k == g.(budget := k.budget)
    ensures Rank(BudgetTerms) < |FIELDS|
    ensures var u := ObjTree(MembersFor(clock, g, FIELDS)[Rank(BudgetTerms) := Member(NameOf(BudgetTerms), w)]);
            forall e: Field :: FieldsOf(u)(e) == if e.BudgetTerms? then w else ValueOf(clock, k, e)
  {
    hide ValueOf, MembersFor, NameOf, FieldsOf;
    FieldPlaces();
    var ms := MembersFor(clock, g, FIELDS)[Rank(BudgetTerms) := Member(NameOf(BudgetTerms), w)];
    forall e: Field ensures FieldsOf(ObjTree(ms))(e) == if e.BudgetTerms? then w else ValueOf(clock, k, e) {
      FieldPlaced(ms, e);
      if !e.BudgetTerms? {
        BudgetOnly(clock, g, k, e);
      }
    }
  }

  /**
   Two budgets: the total is the later one's, and the maxima are those of both, the later one's where both
   name an operation.
   */
  lemma BudgetsAdd(clock: R.Clock, g: A.Grant, other: A.Budget, key: string, p: nat)
    requires R.Lawful(clock) && A.ValidGrant(g.(budget := Summed(g, other, p)))
    requires Respells(key, BudgetTerms) && p <= |FIELDS|
    ensures var t := Repeated(clock, g, p, key, BudgetTree(other));
            PassesTwice(t) && ParsesTo(clock, t, g.(budget := Summed(g, other, p)))
  {
    hide *;
    var k, t := g.(budget := Summed(g, other, p)), Repeated(clock, g, p, key, BudgetTree(other));
    BudgetClean(clock, g, other);
    RepeatPasses(clock, g, BudgetTerms, p, key, BudgetTree(other));
    BudgetMade(clock, g, other, p);
    RepeatFills(clock, g, BudgetTerms, p, key, BudgetTree(other));
    var w := Made(clock, g, BudgetTerms, p, BudgetTree(other)).value;
    BudgetFields(clock, g, k, w);
    var u := ObjTree(MembersFor(clock, g, FIELDS)[Rank(BudgetTerms) := Member(NameOf(BudgetTerms), w)]);
    BudgetReadsAs(clock, FieldsOf(u), k);
    ReadFrom(clock, t, u, k);
    PassingIs(t);
    ReadsAs(clock, t, k);
  }

  lemma PassingIs(t: Tree)
    requires PassesTwice(t)
    ensures WellFormed(t) && UniqueKeys(t) && Fits(t, MAX_DEPTH)
  { hide WellFormed, UniqueKeys, Fits, UniqueFields; }

  lemma BudgetOnly(clock: R.Clock, g: A.Grant, k: A.Grant, e: Field)
    requires k == g.(budget := k.budget) && !e.BudgetTerms?
    ensures ValueOf(clock, k, e) == ValueOf(clock, g, e)
  { }

  lemma BudgetClean(clock: R.Clock, g: A.Grant, b: A.Budget)
    ensures UniqueKeys(BudgetTree(b)) && Fits(BudgetTree(b), 7) && WellFormed(BudgetTree(b))
  {
    hide BudgetTree, ValueOf, UniqueKeys, Fits, WellFormed;
    MemberClean(clock, g.(budget := b), BudgetTerms);
    BudgetValue(clock, g.(budget := b));
  }

  // ---- The witnesses ----

  /** Room for one more member. */
  lemma RepeatIsShort(clock: R.Clock, p: nat, key: string, v: Tree)
    requires Short(clock) && p <= |FIELDS| && |key| <= 26 && SizeBound(v) <= 250
    ensures ByteLength(Print(Repeated(clock, C.ROOT_GRANT, p, key, v))) <= MAX_BYTES
  {
    hide SizeBound, ValueOf, MembersFor, Print, ByteLength, TextLength, Tokens;
    forall f ensures SizeBound(ValueOf(clock, C.ROOT_GRANT, f)) <= 250 {
      WitnessField(clock, f);
    }
    FieldsBound(clock, C.ROOT_GRANT, FIELDS);
    FieldPlaces();
    var ms, m := MembersFor(clock, C.ROOT_GRANT, FIELDS), Member(key, v);
    var t := ObjTree(With(ms, p, m));
    BoundWith(ms, p, m);
    ObjectBound(t.members);
    TokensBounded(t);
    PrintLength(t);
    BytesBounded(Print(t));
  }

  lemma {:induction false} BoundWith(ms: seq<Member>, p: nat, m: Member)
    requires p <= |ms|
    ensures MembersBound(With(ms, p, m)) == MembersBound(ms) + 6 * |m.key| + 4 + SizeBound(m.value)
    decreases p
  {
    hide SizeBound;
    if p == 0 {
      assert With(ms, 0, m)[1..] == ms;
    } else {
      BoundWith(ms[1..], p - 1, m);
      assert With(ms, p, m)[1..] == With(ms[1..], p - 1, m);
      assert With(ms, p, m)[0] == ms[0];
    }
  }

  lemma Respelled()
    ensures Respells("GRANT_ID", GrantId) && Respells("Operations", Operations)
  {
    assert FoldName("grant_id") == "GRANT_ID" == FoldName("GRANT_ID");
    assert FoldName("operations") == "OPERATIONS" == FoldName("Operations");
    assert "grant_id"[0] != "GRANT_ID"[0] && "operations"[0] != "Operations"[0];
  }

  /** A grant with two identifiers is accepted under the later one. */
  lemma TwoIdentifiersAccepted(clock: R.Clock)
    requires R.Lawful(clock) && Short(clock)
    ensures var t := Repeated(clock, C.ROOT_GRANT, |FIELDS|, "GRANT_ID", StrTree("g2"));
            PassesTwice(t) && ParseGrant(clock, Print(t)) == Some(C.ROOT_GRANT.(grantId := "g2"))
  {
    hide A.ValidGrant, Print, ByteLength, Respells, PassesTwice, ParseGrant, Repeated;
    var k := C.ROOT_GRANT.(grantId := "g2");
    C.WitnessValid();
    RenamedGrantValid();
    Respelled();
    FieldPlaces();
    IdentifierOnly(clock, C.ROOT_GRANT, k);
    LaterKeyDecides(clock, C.ROOT_GRANT, k, GrantId, "GRANT_ID", |FIELDS|);
    RepeatIsShort(clock, |FIELDS|, "GRANT_ID", StrTree("g2"));
  }

  lemma IdentifierOnly(clock: R.Clock, g: A.Grant, k: A.Grant)
    requires k == g.(grantId := k.grantId)
    ensures SameBut(clock, g, k, GrantId) && ValueOf(clock, k, GrantId) == StrTree(k.grantId)
  { }

  lemma RenamedGrantValid()
    ensures A.ValidGrant(C.ROOT_GRANT.(grantId := "g2"))
  { }

  /** A grant to read files, with a second list that names another tool and nothing else, grants that tool. */
  lemma MixedOperationAccepted(clock: R.Clock)
    requires R.Lawful(clock) && Short(clock)
    ensures var t := Repeated(clock, C.ROOT_GRANT, |FIELDS|, "Operations", NameOnly("write_file"));
            && PassesTwice(t)
            && ParseGrant(clock, Print(t)) ==
               Some(C.ROOT_GRANT.(operations := [A.OperationRef("tool", "write_file", 1)]))
  {
    hide A.ValidGrant, Print, ByteLength, Respells, PassesTwice, ParseGrant, Repeated;
    C.WitnessValid();
    Respelled();
    OperationsMix(clock, C.ROOT_GRANT, "Operations", "write_file");
    NameOnlyShort();
    RepeatIsShort(clock, |FIELDS|, "Operations", NameOnly("write_file"));
  }

  lemma NameOnlyShort()
    ensures SizeBound(NameOnly("write_file")) <= 250
  {
    var m := Member("name", StrTree("write_file"));
    MembersStep(m, []);
    assert [m] == [m] + [];
    var t := ObjTree([m]);
    assert [t][1..] == [];
    assert ItemsBound([t]) == SizeBound(t) + 1 + ItemsBound([]);
  }
}
