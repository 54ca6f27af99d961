/**
 Strict decoding of JSON into a typed shape, as encoding/json does it into a fresh value with unknown
 fields disallowed: anything of another type is refused.

 A key is for the field whose name it is, letter case aside. Every key for a field decodes into what the
 keys before it left: null leaves a text, a number, a flag or a record as it is and empties the rest, a record
 keeps the fields it is not given, counts are added to, and a list is written over from its first element, in
 the array that its earlier elements are still in. Integers have no width.
 */
module Wire {
  import opened Prelude
  import opened Json
  import opened Canonical
  import opened DupKeys
  import opened FieldNames
  import opened Sorting

  datatype Schema =
    | Text | Integer | MaybeInteger | Flag
    | ListOf(item: Schema)
    | Counts
    | Record(fields: seq<FieldSchema>)

  datatype FieldSchema = FieldSchema(name: string, schema: Schema)

  function IntegerIn(t: Tree): Option<int> { if t.NumTree? then IntValue(t.literal) else None }

  // ---- Values being decoded into ----

  /** A list keeps its elements beyond its length, as a slice's array does. */
  datatype Slot =
    | Scalar(tree: Tree)
    | Slice(items: seq<Slot>, len: nat)
    | Table(members: seq<Member>)
    | Struct(slots: seq<Slot>)

  predicate Shaped(s: Schema, slot: Slot)
    decreases s
  {
    match s
    case ListOf(item) =>
      slot.Slice? && slot.len <= |slot.items| && forall i :: 0 <= i < |slot.items| ==> Shaped(item, slot.items[i])
    case Counts => slot.Table?
    case Record(fields) => slot.Struct? && ShapedFields(fields, slot.slots)
    case _ => slot.Scalar?
  }

  predicate ShapedFields(fields: seq<FieldSchema>, slots: seq<Slot>)
    decreases fields
  {
    && |slots| == |fields|
    && (fields != [] ==> Shaped(fields[0].schema, slots[0]) && ShapedFields(fields[1..], slots[1..]))
  }

  /** The zero value. */
  function Fresh(s: Schema): (slot: Slot)
    ensures Shaped(s, slot)
  {
    match s
    case Text => Scalar(StrTree(""))
    case Integer => Scalar(NumTree("0"))
    case MaybeInteger => Scalar(NullTree)
    case Flag => Scalar(BoolTree(false))
    case ListOf(_) => Slice([], 0)
    case Counts => Table([])
    case Record(fields) => Struct(FreshFields(fields))
  }

  function FreshFields(fields: seq<FieldSchema>): (slots: seq<Slot>)
    ensures ShapedFields(fields, slots)
  { if fields == [] then [] else [Fresh(fields[0].schema)] + FreshFields(fields[1..]) }

  /** The value, written out in full. */
  function View(s: Schema, slot: Slot): Tree
    requires Shaped(s, slot)
    decreases s, 0
  {
    match s
    case ListOf(item) => ArrTree(ViewItems(item, slot.items[..slot.len]))
    case Counts => ObjTree(slot.members)
    case Record(fields) => ObjTree(ViewFields(fields, slot.slots))
    case _ => slot.tree
  }

  function ViewItems(item: Schema, items: seq<Slot>): (r: seq<Tree>)
    requires forall i :: 0 <= i < |items| ==> Shaped(item, items[i])
    ensures |r| == |items|
    decreases item, |items| + 1
  { if items == [] then [] else [View(item, items[0])] + ViewItems(item, items[1..]) }

  function ViewFields(fields: seq<FieldSchema>, slots: seq<Slot>): (r: seq<Member>)
    requires ShapedFields(fields, slots)
    ensures |r| == |fields|
    decreases fields
  {
    if fields == [] then []
    else [Member(fields[0].name, View(fields[0].schema, slots[0]))] + ViewFields(fields[1..], slots[1..])
  }

  // ---- Decoding ----

  predicate KnownField(fields: seq<FieldSchema>, key: string) { exists f :: f in fields && SameName(f.name, key) }

  /** What a value holds once a tree was decoded into it. */
  function Into(s: Schema, slot: Slot, t: Tree): (r: Option<Slot>)
    requires Shaped(s, slot)
    ensures r.Some? ==> Shaped(s, r.value)
    decreases s, 0
  {
    if t.NullTree? then Some(if s.MaybeInteger? || s.ListOf? || s.Counts? then Fresh(s) else slot)
    else match s
      case Text => if t.StrTree? then Some(Scalar(t)) else None
      case Integer => IntoInteger(t)
      case MaybeInteger => IntoInteger(t)
      case Flag => if t.BoolTree? then Some(Scalar(t)) else None
      case ListOf(item) =>
        if !t.ArrTree? then None
        else if t.items == [] then Some(Fresh(s))
        else (match IntoItems(item, slot.items, t.items)
              case None => None
              case Some(items) => Some(Slice(items, |t.items|)))
      case Counts =>
        if !t.ObjTree? then None
        else (match IntoCounts(slot.members, t.members)
              case None => None
              case Some(members) => Some(Table(members)))
      case Record(fields) =>
        if !t.ObjTree? || exists m :: m in t.members && !KnownField(fields, m.key) then None
        else (match IntoFields(fields, slot.slots, t.members)
              case None => None
              case Some(slots) => Some(Struct(slots)))
  }

  function IntoInteger(t: Tree): (r: Option<Slot>)
    ensures r.Some? ==> r.value.Scalar?
  {
    match IntegerIn(t)
    case None => None
    case Some(n) => Some(Scalar(NumTree(IntText(n))))
  }

  /** The elements of a list over the ones its array held, of which the rest stay. */
  function IntoItems(item: Schema, had: seq<Slot>, items: seq<Tree>): (r: Option<seq<Slot>>)
    requires forall i :: 0 <= i < |had| ==> Shaped(item, had[i])
    ensures r.Some? ==> |r.value| >= |items| && forall i :: 0 <= i < |r.value| ==> Shaped(item, r.value[i])
    decreases item, |items| + 1
  {
    if items == [] then Some(had)
    else match Into(item, if had == [] then Fresh(item) else had[0], items[0])
      case None => None
      case Some(first) =>
        match IntoItems(item, if had == [] then [] else had[1..], items[1..])
        case None => None
        case Some(rest) => Some([first] + rest)
  }

  function Put(ms: seq<Member>, m: Member): seq<Member> {
    if ms == [] then [m]
    else if ms[0].key == m.key then [m] + ms[1..]
    else [ms[0]] + Put(ms[1..], m)
  }

  function IntoCounts(had: seq<Member>, ms: seq<Member>): Option<seq<Member>>
    decreases |ms|
  {
    if ms == [] then Some(had)
    else match (if ms[0].value.NullTree? then Some(Scalar(NumTree("0"))) else IntoInteger(ms[0].value))
      case None => None
      case Some(n) => IntoCounts(Put(had, Member(ms[0].key, n.tree)), ms[1..])
  }

  function IntoFields(fields: seq<FieldSchema>, slots: seq<Slot>, ms: seq<Member>): (r: Option<seq<Slot>>)
    requires ShapedFields(fields, slots)
    ensures r.Some? ==> ShapedFields(fields, r.value)
    decreases fields
  {
    if fields == [] then Some([])
    else match IntoField(fields[0].schema, slots[0], ms, fields[0].name)
      case None => None
      case Some(first) =>
        match IntoFields(fields[1..], slots[1..], ms)
        case None => None
        case Some(rest) => Some([first] + rest)
  }

  /** One field, from all the keys that are for it, in their order. */
  function IntoField(s: Schema, slot: Slot, ms: seq<Member>, name: string): (r: Option<Slot>)
    requires Shaped(s, slot)
    ensures r.Some? ==> Shaped(s, r.value)
    decreases s, |ms| + 1
  {
    if ms == [] then Some(slot)
    else match (if SameName(ms[0].key, name) then Into(s, slot, ms[0].value) else Some(slot))
      case None => None
      case Some(next) => IntoField(s, next, ms[1..], name)
  }

  /** The value a tree decodes to, written out in full: every field present, in order. */
  function Fill(s: Schema, t: Tree): Option<Tree> {
    match Into(s, Fresh(s), t)
    case None => None
    case Some(slot) => Some(View(s, slot))
  }

  // ---- Values written out in full ----

  predicate NamesDistinct(fields: seq<FieldSchema>) { forall i, j :: 0 <= i < j < |fields| ==>
    !SameName(fields[i].name, fields[j].name) }

  predicate KeysDistinct(ms: seq<Member>) { forall i, j :: 0 <= i < j < |ms| ==> ms[i].key != ms[j].key }

  predicate PlainInteger(t: Tree) { IntegerIn(t).Some? && t.literal == IntText(IntegerIn(t).value) }

  /** The tree is a value of the shape, written out in full. */
  predicate Full(s: Schema, t: Tree)
    decreases s
  {
    match s
    case Text => t.StrTree?
    case Integer => PlainInteger(t)
    case MaybeInteger => t.NullTree? || PlainInteger(t)
    case Flag => t.BoolTree?
    case ListOf(item) => t.ArrTree? && forall i :: 0 <= i < |t.items| ==> Full(item, t.items[i])
    case Counts => t.ObjTree? && KeysDistinct(t.members) && forall i :: 0 <= i < |t.members| ==>
      PlainInteger(t.members[i].value)
    case Record(fields) => t.ObjTree? && NamesDistinct(fields) && FullFields(fields, t.members)
  }

  predicate FullFields(fields: seq<FieldSchema>, ms: seq<Member>)
    decreases fields
  {
    && |ms| == |fields|
    && (fields != [] ==>
          && ms[0].key == fields[0].name && Full(fields[0].schema, ms[0].value)
          && FullFields(fields[1..], ms[1..]))
  }

  /** No more than `room` containers inside each other. */
  predicate Shallow(s: Schema, room: int)
    decreases s
  {
    match s
    case ListOf(item) => room >= 1 && Shallow(item, room - 1)
    case Counts => room >= 1
    case Record(fields) => room >= 1 && forall i :: 0 <= i < |fields| ==> Shallow(fields[i].schema, room - 1)
    case _ => true
  }

  lemma {:induction false} FullFieldsAt(fields: seq<FieldSchema>, ms: seq<Member>, i: nat)
    requires FullFields(fields, ms) && i < |fields|
    ensures ms[i].key == fields[i].name && Full(fields[i].schema, ms[i].value)
    decreases i
  {
    if i > 0 {
      FullFieldsAt(fields[1..], ms[1..], i - 1);
    }
  }

  lemma NumberText(n: int)
    ensures PlainInteger(NumTree(IntText(n))) && IntegerIn(NumTree(IntText(n))) == Some(n)
    ensures WellFormed(NumTree(IntText(n)))
  {
    IntRoundTrip(n);
    IntTextIsNumber(n);
  }

  /** No map inside, so that a value in full leaves nothing of an earlier one. */
  predicate Replaces(s: Schema)
    decreases s
  {
    match s
    case ListOf(item) => Replaces(item)
    case Counts => false
    case Record(fields) => forall f :: f in fields ==> Replaces(f.schema)
    case _ => true
  }

  /** What is written out in full decodes to itself: into a fresh value, and over any other one without a map. */
  lemma {:induction false} FullInto(s: Schema, slot: Slot, t: Tree)
    requires Full(s, t) && Shaped(s, slot) && (Replaces(s) || slot == Fresh(s))
    ensures Into(s, slot, t).Some? && View(s, Into(s, slot, t).value) == t
    decreases s, 1
  {
    match s
    case ListOf(item) =>
      if t.items != [] {
        FullIntoItems(item, slot.items, t.items);
      }
    case Counts => FullIntoCounts([], t.members);
    case Record(fields) =>
      FullKnown(fields, t.members);
      FullIntoFields(fields, slot.slots, t.members, 0);
      assert fields[0..] == fields && t.members[0..] == t.members && slot.slots[0..] == slot.slots;
    case _ =>
  }

  lemma FullKnown(fields: seq<FieldSchema>, ms: seq<Member>)
    requires FullFields(fields, ms)
    ensures forall m :: m in ms ==> KnownField(fields, m.key)
  {
    forall m | m in ms ensures KnownField(fields, m.key) {
      var i :| 0 <= i < |ms| && ms[i] == m;
      FullFieldsAt(fields, ms, i);
      assert fields[i] in fields;
    }
  }

  lemma {:induction false} FullIntoItems(item: Schema, had: seq<Slot>, items: seq<Tree>)
    requires forall i :: 0 <= i < |items| ==> Full(item, items[i])
    requires (forall i :: 0 <= i < |had| ==> Shaped(item, had[i])) && (Replaces(item) || had == [])
    ensures IntoItems(item, had, items).Some?
    ensures ViewItems(item, IntoItems(item, had, items).value[..|items|]) == items
    decreases item, |items| + 2
  {
    hide View, Into, Full, Replaces, Shaped, IntoItems, ViewItems, Fresh;
    if items == [] {
      NoItems(item, had);
    } else {
      var slot, left := if had == [] then Fresh(item) else had[0], if had == [] then [] else had[1..];
      FullInto(item, slot, items[0]);
      FullIntoItems(item, left, items[1..]);
      IntoItemsStep(item, had, items);
      ViewMore(item, Into(item, slot, items[0]).value, IntoItems(item, left, items[1..]).value, |items| - 1);
      assert items == [items[0]] + items[1..];
    }
  }

  lemma NoItems(item: Schema, had: seq<Slot>)
    requires forall i :: 0 <= i < |had| ==> Shaped(item, had[i])
    ensures IntoItems(item, had, []) == Some(had) && ViewItems(item, []) == []
  { }

  lemma IntoItemsStep(item: Schema, had: seq<Slot>, items: seq<Tree>)
    requires items != [] && forall i :: 0 <= i < |had| ==> Shaped(item, had[i])
    ensures var first := Into(item, if had == [] then Fresh(item) else had[0], items[0]);
            var rest := IntoItems(item, if had == [] then [] else had[1..], items[1..]);
            first.Some? && rest.Some? ==> IntoItems(item, had, items) == Some([first.value] + rest.value)
  { hide View, Into, Shaped, Fresh; }

  lemma ViewMore(item: Schema, first: Slot, rest: seq<Slot>, n: nat)
    requires Shaped(item, first) && n <= |rest| && forall i :: 0 <= i < |rest| ==> Shaped(item, rest[i])
    ensures ViewItems(item, ([first] + rest)[..n + 1]) == [View(item, first)] + ViewItems(item, rest[..n])
  {
    hide View, Shaped;
    assert ([first] + rest)[..n + 1] == [first] + rest[..n];
    assert ([first] + rest[..n])[1..] == rest[..n];
  }

  lemma {:induction false} PutNew(ms: seq<Member>, m: Member)
    requires forall i :: 0 <= i < |ms| ==> ms[i].key != m.key
    ensures Put(ms, m) == ms + [m]
  {
    if ms != [] {
      PutNew(ms[1..], m);
    }
  }

  lemma PlainInto(t: Tree)
    requires PlainInteger(t)
    ensures !t.NullTree? && IntoInteger(t) == Some(Scalar(t))
  { }

  lemma {:induction false} FullIntoCounts(had: seq<Member>, ms: seq<Member>)
    requires KeysDistinct(had + ms) && forall i :: 0 <= i < |ms| ==> PlainInteger(ms[i].value)
    ensures IntoCounts(had, ms) == Some(had + ms)
    decreases |ms|
  {
    hide PlainInteger, IntoInteger, Put;
    if ms == [] {
      assert had + ms == had;
    } else {
      PlainInto(ms[0].value);
      forall i | 0 <= i < |had| ensures had[i].key != ms[0].key {
        assert (had + ms)[i].key != (had + ms)[|had|].key;
      }
      PutNew(had, ms[0]);
      assert Member(ms[0].key, ms[0].value) == ms[0] && had + [ms[0]] + ms[1..] == had + ms;
      FullIntoCounts(had + [ms[0]], ms[1..]);
    }
  }

  // ---- The keys for one field ----

  lemma {:induction false} NoKeyFor(s: Schema, slot: Slot, ms: seq<Member>, name: string)
    requires Shaped(s, slot) && forall i :: 0 <= i < |ms| ==> !SameName(ms[i].key, name)
    ensures IntoField(s, slot, ms, name) == Some(slot)
    decreases |ms|
  {
    if ms != [] {
      NoKeyFor(s, slot, ms[1..], name);
    }
  }

  lemma {:induction false} KeysInTurn(s: Schema, slot: Slot, ms: seq<Member>, ns: seq<Member>, name: string)
    requires Shaped(s, slot)
    ensures IntoField(s, slot, ms + ns, name) ==
            match IntoField(s, slot, ms, name)
            case None => None
            case Some(next) => IntoField(s, next, ns, name)
    decreases |ms|
  {
    if ms == [] {
      assert ms + ns == ns;
    } else {
      assert (ms + ns)[1..] == ms[1..] + ns;
      if SameName(ms[0].key, name) {
        if Into(s, slot, ms[0].value).Some? {
          KeysInTurn(s, Into(s, slot, ms[0].value).value, ms[1..], ns, name);
        }
      } else {
        KeysInTurn(s, slot, ms[1..], ns, name);
      }
    }
  }

  lemma OneKeyFor(s: Schema, slot: Slot, ms: seq<Member>, i: nat, name: string)
    requires Shaped(s, slot) && i < |ms| && SameName(ms[i].key, name)
    requires forall j :: 0 <= j < |ms| && j != i ==> !SameName(ms[j].key, name)
    ensures IntoField(s, slot, ms, name) == Into(s, slot, ms[i].value)
  {
    assert ms == ms[..i] + ms[i..];
    KeysInTurn(s, slot, ms[..i], ms[i..], name);
    NoKeyFor(s, slot, ms[..i], name);
    if Into(s, slot, ms[i].value).Some? {
      NoKeyFor(s, Into(s, slot, ms[i].value).value, ms[i..][1..], name);
    }
  }

  lemma {:induction false} ShapedFieldsAt(fields: seq<FieldSchema>, slots: seq<Slot>, i: nat)
    requires ShapedFields(fields, slots) && i <= |fields|
    ensures |slots| == |fields| && ShapedFields(fields[i..], slots[i..])
    ensures i < |fields| ==> Shaped(fields[i].schema, slots[i])
    decreases i
  {
    if i > 0 {
      ShapedFieldsAt(fields[1..], slots[1..], i - 1);
      assert fields[1..][i - 1..] == fields[i..] && slots[1..][i - 1..] == slots[i..];
    } else {
      assert fields[0..] == fields && slots[0..] == slots;
    }
  }

  lemma {:induction false} FullIntoFields(fields: seq<FieldSchema>, slots: seq<Slot>, ms: seq<Member>, i: nat)
    requires NamesDistinct(fields) && FullFields(fields, ms) && i <= |fields|
    requires ShapedFields(fields, slots) && (Replaces(Record(fields)) || slots[i..] == FreshFields(fields[i..]))
    ensures ShapedFields(fields[i..], slots[i..]) && IntoFields(fields[i..], slots[i..], ms).Some?
    ensures ViewFields(fields[i..], IntoFields(fields[i..], slots[i..], ms).value) == ms[i..]
    decreases fields, |fields| - i
  {
    hide View, Into, IntoField, Full, FullFields, Shaped, Fresh, SameName, NamesDistinct;
    FullFieldsSize(fields, ms);
    ShapedFieldsAt(fields, slots, i);
    if i < |fields| {
      FullFieldsAt(fields, ms, i);
      OthersNotFor(fields, ms, i);
      OneKeyFor(fields[i].schema, slots[i], ms, i, fields[i].name);
      assert fields[i] in fields;
      assert fields[i..][1..] == fields[i + 1..] && slots[i..][1..] == slots[i + 1..];
      FullInto(fields[i].schema, slots[i], ms[i].value);
      FullIntoFields(fields, slots, ms, i + 1);
      assert [ms[i]] + ms[i + 1..] == ms[i..];
    }
  }

  lemma OthersNotFor(fields: seq<FieldSchema>, ms: seq<Member>, i: nat)
    requires NamesDistinct(fields) && FullFields(fields, ms) && i < |fields|
    ensures forall j :: 0 <= j < |ms| && j != i ==> !SameName(ms[j].key, fields[i].name)
    ensures ms[i].key == fields[i].name
  {
    FullFieldsAt(fields, ms, i);
    forall j | 0 <= j < |ms| && j != i ensures !SameName(ms[j].key, fields[i].name) {
      FullFieldsAt(fields, ms, j);
    }
  }

  /** What is written out in full decodes to itself. */
  lemma FillFull(s: Schema, t: Tree)
    requires Full(s, t)
    ensures Fill(s, t) == Some(t)
  { FullInto(s, Fresh(s), t); }

  /** And passes the scanner and the printer: no key twice, no deeper than its shape, proper numbers. */
  lemma {:induction false} FullIsClean(s: Schema, t: Tree, room: int)
    requires Full(s, t) && Shallow(s, room)
    ensures UniqueKeys(t) && Fits(t, room) && WellFormed(t)
    decreases s
  {
    match s
    case ListOf(item) =>
      forall i | 0 <= i < |t.items| ensures UniqueKeys(t.items[i]) && Fits(t.items[i], room - 1) &&
          WellFormed(t.items[i]) {
        FullIsClean(item, t.items[i], room - 1);
      }
      AllItemsWellFormed(t.items);
    case Counts =>
      forall i | 0 <= i < |t.members| ensures WellFormed(t.members[i].value) {
        NumberText(IntegerIn(t.members[i].value).value);
      }
      AllMembersWellFormed(t.members);
    case Record(fields) =>
      forall i | 0 <= i < |fields|
        ensures t.members[i].key == fields[i].name && UniqueKeys(t.members[i].value) &&
                Fits(t.members[i].value, room - 1)
                && WellFormed(t.members[i].value) {
        FullFieldsAt(fields, t.members, i);
        FullIsClean(fields[i].schema, t.members[i].value, room - 1);
      }
      AllMembersWellFormed(t.members);
    case Integer => NumberText(IntegerIn(t).value);
    case MaybeInteger =>
      if t.NumTree? {
        NumberText(IntegerIn(t).value);
      }
    case _ =>
  }

  lemma {:induction false} AllItemsWellFormed(items: seq<Tree>)
    requires forall i :: 0 <= i < |items| ==> WellFormed(items[i])
    ensures ItemsWellFormed(items)
  {
    if items != [] {
      AllItemsWellFormed(items[1..]);
    }
  }

  lemma {:induction false} AllMembersWellFormed(ms: seq<Member>)
    requires forall i :: 0 <= i < |ms| ==> WellFormed(ms[i].value)
    ensures MembersWellFormed(ms)
  {
    if ms != [] {
      AllMembersWellFormed(ms[1..]);
    }
  }

  // ---- Keys and fields ----

  /** No two keys of an object are for one field. */
  predicate UniqueFields(ms: seq<Member>) {
    forall i, j :: 0 <= i < j < |ms| ==> !SameName(ms[i].key, ms[j].key)
  }

  /** Keys spelled as the program declares its names are for different fields exactly when they differ. */
  lemma UniqueKeysUniqueFields(ms: seq<Member>)
    requires forall i :: 0 <= i < |ms| ==> Lower(ms[i].key)
    ensures UniqueFields(ms) <==> KeysDistinct(ms)
  {
    forall i, j | 0 <= i < j < |ms| ensures SameName(ms[i].key, ms[j].key) <==> ms[i].key == ms[j].key {
      NamesFoldApart(ms[i].key, ms[j].key);
    }
  }

  /** What one field decodes to from an object's members. */
  function FieldFrom(f: FieldSchema, ms: seq<Member>): Option<Tree> {
    match IntoField(f.schema, Fresh(f.schema), ms, f.name)
    case None => None
    case Some(slot) => Some(View(f.schema, slot))
  }

  /** What a value decodes to from one tree and then another. */
  function Both(s: Schema, first: Tree, second: Tree): Option<Tree> {
    match Into(s, Fresh(s), first)
    case None => None
    case Some(slot) =>
      match Into(s, slot, second)
      case None => None
      case Some(next) => Some(View(s, next))
  }

  lemma {:induction false} FieldsFrom(fields: seq<FieldSchema>, ms: seq<Member>)
    ensures var r := IntoFields(fields, FreshFields(fields), ms);
            && (r.Some? <==> forall j :: 0 <= j < |fields| ==> FieldFrom(fields[j], ms).Some?)
            && (r.Some? ==> forall j :: 0 <= j < |fields| ==>
                  ViewFields(fields, r.value)[j] == Member(fields[j].name, FieldFrom(fields[j], ms).value))
    decreases fields
  {
    hide IntoField, View, Fresh;
    if fields != [] {
      FieldsFrom(fields[1..], ms);
      assert forall j :: 0 < j < |fields| ==> fields[j] == fields[1..][j - 1];
    }
  }

  /** A record decodes field by field. */
  lemma FillRecord(fields: seq<FieldSchema>, ms: seq<Member>)
    ensures var r := Fill(Record(fields), ObjTree(ms));
            && (r.Some? <==> (forall m :: m in ms ==> KnownField(fields, m.key)) &&
                             forall j :: 0 <= j < |fields| ==> FieldFrom(fields[j], ms).Some?)
            && (r.Some? ==> r.value.ObjTree? && |r.value.members| == |fields| && forall j :: 0 <= j < |fields| ==>
                  r.value.members[j] == Member(fields[j].name, FieldFrom(fields[j], ms).value))
  {
    hide FieldFrom, KnownField;
    FieldsFrom(fields, ms);
  }

  lemma FieldOnce(f: FieldSchema, ms: seq<Member>, i: nat)
    requires UniqueFields(ms) && i < |ms| && SameName(ms[i].key, f.name)
    ensures FieldFrom(f, ms) == Fill(f.schema, ms[i].value)
  { OneKeyFor(f.schema, Fresh(f.schema), ms, i, f.name); }

  lemma FieldPermuted(f: FieldSchema, ms: seq<Member>, ns: seq<Member>)
    requires UniqueFields(ms) && UniqueFields(ns) && forall m :: m in ms <==> m in ns
    ensures FieldFrom(f, ms) == FieldFrom(f, ns)
  {
    hide FieldFrom, Fill;
    if i :| 0 <= i < |ms| && SameName(ms[i].key, f.name) {
      assert ms[i] in ns;
      var j :| 0 <= j < |ns| && ns[j] == ms[i];
      FieldOnce(f, ms, i);
      FieldOnce(f, ns, j);
    } else {
      forall j | 0 <= j < |ns| ensures !SameName(ns[j].key, f.name) {
        assert ns[j] in ms;
      }
      FieldAbsent(f, ms);
      FieldAbsent(f, ns);
    }
  }

  lemma FieldAbsent(f: FieldSchema, ms: seq<Member>)
    requires forall j :: 0 <= j < |ms| ==> !SameName(ms[j].key, f.name)
    ensures FieldFrom(f, ms) == Some(View(f.schema, Fresh(f.schema)))
  { NoKeyFor(f.schema, Fresh(f.schema), ms, f.name); }

  /** Members for different fields decode to the same record in every order. */
  lemma OrderOfFieldsDoesNotMatter(fields: seq<FieldSchema>, ms: seq<Member>, ns: seq<Member>)
    requires UniqueFields(ms) && multiset(ms) == multiset(ns)
    ensures Fill(Record(fields), ObjTree(ms)) == Fill(Record(fields), ObjTree(ns))
  {
    hide FieldFrom, Fill, KnownField;
    var folded := (m: Member) => FoldName(m.key);
    KeysPermuted(ms, ns, folded);
    assert forall i, j :: 0 <= i < j < |ns| ==> folded(ns[i]) != folded(ns[j]);
    SameSize(ms, ns);
    FillRecord(fields, ms);
    FillRecord(fields, ns);
    forall j | 0 <= j < |fields| ensures FieldFrom(fields[j], ms) == FieldFrom(fields[j], ns) {
      FieldPermuted(fields[j], ms, ns);
    }
    var r, q := Fill(Record(fields), ObjTree(ms)), Fill(Record(fields), ObjTree(ns));
    if r.Some? && q.Some? {
      assert r.value.members == q.value.members;
    }
  }

  /** The members with one more among them. */
  function With(ms: seq<Member>, p: nat, m: Member): seq<Member>
    requires p <= |ms|
  { ms[..p] + [m] + ms[p..] }

  lemma FieldTwice(f: FieldSchema, ms: seq<Member>, i: nat, p: nat, m: Member)
    requires i < |ms| && p <= |ms| && SameName(m.key, f.name) && SameName(ms[i].key, f.name)
    requires forall j :: 0 <= j < |ms| && j != i ==> !SameName(ms[j].key, f.name)
    ensures FieldFrom(f, With(ms, p, m)) ==
            if i < p then Both(f.schema, ms[i].value, m.value) else Both(f.schema, m.value, ms[i].value)
  {
    hide Into, View;
    var slot := Fresh(f.schema);
    KeysInTurn(f.schema, slot, ms[..p], [m] + ms[p..], f.name);
    assert With(ms, p, m) == ms[..p] + ([m] + ms[p..]) && ([m] + ms[p..])[1..] == ms[p..];
    if i < p {
      OneKeyFor(f.schema, slot, ms[..p], i, f.name);
    } else {
      NoKeyFor(f.schema, slot, ms[..p], f.name);
    }
    var first := IntoField(f.schema, slot, ms[..p], f.name);
    if first.Some? {
      var next := Into(f.schema, first.value, m.value);
      if next.Some? {
        if i < p {
          NoKeyFor(f.schema, next.value, ms[p..], f.name);
        } else {
          OneKeyFor(f.schema, next.value, ms[p..], i - p, f.name);
        }
      }
    }
  }

  /** A record in full with a second key for a field: that field decodes from both in turn, the others as before. */
  lemma TwoKeys(fields: seq<FieldSchema>, ms: seq<Member>, i: nat, p: nat, m: Member)
    requires NamesDistinct(fields) && FullFields(fields, ms) && i < |fields| && p <= |ms|
    requires SameName(m.key, fields[i].name)
    ensures Fill(Record(fields), ObjTree(With(ms, p, m))) ==
            match (if i < p then Both(fields[i].schema, ms[i].value, m.value)
                   else Both(fields[i].schema, m.value, ms[i].value))
            case None => None
            case Some(w) => Some(ObjTree(ms[i := Member(fields[i].name, w)]))
  {
    hide FieldFrom, Fill, KnownField, Both, Full, FullFields, SameName, NamesDistinct, With;
    var ns := With(ms, p, m);
    FullFieldsSize(fields, ms);
    FillRecord(fields, ns);
    OthersNotFor(fields, ms, i);
    SameNameItself(fields[i].name);
    FieldTwice(fields[i], ms, i, p, m);
    forall j | 0 <= j < |fields| && j != i
      ensures FieldFrom(fields[j], ns) == Some(ms[j].value) && ms[j].key == fields[j].name {
      FieldBeside(fields, ms, i, p, m, j);
      FullFieldsAt(fields, ms, j);
    }
    KnownWith(fields, ms, i, p, m);
    var r := Fill(Record(fields), ObjTree(ns));
    if r.Some? {
      assert r.value.members == ms[i := Member(fields[i].name, FieldFrom(fields[i], ns).value)];
    }
  }

  lemma FullFieldsSize(fields: seq<FieldSchema>, ms: seq<Member>)
    requires FullFields(fields, ms)
    ensures |ms| == |fields|
  { }

  lemma KnownWith(fields: seq<FieldSchema>, ms: seq<Member>, i: nat, p: nat, m: Member)
    requires FullFields(fields, ms) && i < |fields| && p <= |ms| && SameName(m.key, fields[i].name)
    ensures forall n :: n in With(ms, p, m) ==> KnownField(fields, n.key)
  {
    FullKnown(fields, ms);
    assert fields[i] in fields;
    assert forall n :: n in With(ms, p, m) ==> n == m || n in ms;
  }

  lemma NotFor(fields: seq<FieldSchema>, key: string, i: nat, j: nat)
    requires NamesDistinct(fields) && i < |fields| && j < |fields| && i != j && SameName(key, fields[i].name)
    ensures !SameName(key, fields[j].name)
  {
    hide FoldName;
    assert SameName(fields[i].name, fields[j].name) <==> FoldName(fields[i].name) == FoldName(fields[j].name);
    assert SameName(fields[j].name, fields[i].name) <==> FoldName(fields[i].name) == FoldName(fields[j].name);
  }

  lemma FieldBeside(fields: seq<FieldSchema>, ms: seq<Member>, i: nat, p: nat, m: Member, j: nat)
    requires NamesDistinct(fields) && FullFields(fields, ms) && i < |fields| && p <= |ms|
    requires SameName(m.key, fields[i].name) && j < |fields| && j != i
    ensures FieldFrom(fields[j], With(ms, p, m)) == Some(ms[j].value)
  {
    hide Full, FullFields, Into, View, SameName, IntoField, NamesDistinct;
    FullFieldsSize(fields, ms);
    var ns, k := With(ms, p, m), if j < p then j else j + 1;
    OthersNotFor(fields, ms, j);
    FullFieldsAt(fields, ms, j);
    NotFor(fields, m.key, i, j);
    SameNameItself(fields[j].name);
    forall q | 0 <= q < |ns| && q != k ensures !SameName(ns[q].key, fields[j].name) {
      assert ns[q] == if q < p then ms[q] else if q == p then m else ms[q - 1];
    }
    assert ns[k] == ms[j];
    FullInto(fields[j].schema, Fresh(fields[j].schema), ms[j].value);
    OneKeyFor(fields[j].schema, Fresh(fields[j].schema), ns, k, fields[j].name);
  }

  lemma SameNameItself(name: string)
    ensures SameName(name, name)
  { }

  /** Of two values in full the later decides, where there is no map inside. */
  lemma LaterReplaces(s: Schema, first: Tree, second: Tree)
    requires Replaces(s) && Full(s, first) && Full(s, second)
    ensures Both(s, first, second) == Some(second)
  {
    FullInto(s, Fresh(s), first);
    FullInto(s, Into(s, Fresh(s), first).value, second);
  }
}
