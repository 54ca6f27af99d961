/**
 What a later value leaves of an earlier one when both are decoded into one field, and that whatever decodes
 is written out in full.
 */
module WireMerge {
  import opened Prelude
  import opened Json
  import opened Canonical
  import opened FieldNames
  import opened Wire

  // ---- What decodes is in full ----

  /** Every record in the shape names its fields apart. */
  predicate Proper(s: Schema)
    decreases s
  {
    match s
    case ListOf(item) => Proper(item)
    case Record(fields) => NamesDistinct(fields) && forall f :: f in fields ==> Proper(f.schema)
    case _ => true
  }

  /** The value and whatever its lists still hold beyond their lengths could be written out in full. */
  predicate Whole(s: Schema, slot: Slot)
    decreases s
  {
    match s
    case Text => slot.Scalar? && slot.tree.StrTree?
    case Integer => slot.Scalar? && PlainInteger(slot.tree)
    case MaybeInteger => slot.Scalar? && (slot.tree.NullTree? || PlainInteger(slot.tree))
    case Flag => slot.Scalar? && slot.tree.BoolTree?
    case ListOf(item) =>
      slot.Slice? && slot.len <= |slot.items| && forall i :: 0 <= i < |slot.items| ==> Whole(item, slot.items[i])
    case Counts => slot.Table? && WholeCounts(slot.members)
    case Record(fields) => slot.Struct? && WholeFields(fields, slot.slots)
  }

  predicate WholeCounts(ms: seq<Member>) {
    KeysDistinct(ms) && forall i :: 0 <= i < |ms| ==> PlainInteger(ms[i].value)
  }

  predicate WholeFields(fields: seq<FieldSchema>, slots: seq<Slot>)
    decreases fields
  {
    && |slots| == |fields|
    && (fields != [] ==> Whole(fields[0].schema, slots[0]) && WholeFields(fields[1..], slots[1..]))
  }

  lemma {:induction false} WholeIsShaped(s: Schema, slot: Slot)
    requires Whole(s, slot)
    ensures Shaped(s, slot)
    decreases s
  {
    match s
    case ListOf(item) =>
      forall i | 0 <= i < |slot.items| ensures Shaped(item, slot.items[i]) {
        WholeIsShaped(item, slot.items[i]);
      }
    case Record(fields) => WholeFieldsShaped(fields, slot.slots);
    case _ =>
  }

  lemma {:induction false} WholeFieldsShaped(fields: seq<FieldSchema>, slots: seq<Slot>)
    requires WholeFields(fields, slots)
    ensures ShapedFields(fields, slots)
    decreases fields
  {
    if fields != [] {
      WholeIsShaped(fields[0].schema, slots[0]);
      WholeFieldsShaped(fields[1..], slots[1..]);
    }
  }

  lemma {:induction false} FreshIsWhole(s: Schema)
    ensures Whole(s, Fresh(s))
    decreases s
  {
    match s
    case Integer => NumberText(0);
    case Record(fields) => FreshFieldsWhole(fields);
    case _ =>
  }

  lemma {:induction false} FreshFieldsWhole(fields: seq<FieldSchema>)
    ensures WholeFields(fields, FreshFields(fields))
    decreases fields
  {
    if fields != [] {
      FreshIsWhole(fields[0].schema);
      FreshFieldsWhole(fields[1..]);
    }
  }

  lemma IntegerIsWhole(t: Tree)
    ensures IntoInteger(t).Some? ==> IntoInteger(t).value.Scalar? && PlainInteger(IntoInteger(t).value.tree)
  {
    if IntegerIn(t).Some? {
      NumberText(IntegerIn(t).value);
    }
  }

  lemma {:induction false} IntoIsWhole(s: Schema, slot: Slot, t: Tree)
    requires Whole(s, slot)
    ensures Shaped(s, slot) && (Into(s, slot, t).Some? ==> Whole(s, Into(s, slot, t).value))
    decreases s, 0
  {
    WholeIsShaped(s, slot);
    FreshIsWhole(s);
    match s
    case Integer => IntegerIsWhole(t);
    case MaybeInteger => IntegerIsWhole(t);
    case ListOf(item) =>
      if t.ArrTree? && t.items != [] {
        ItemsAreWhole(item, slot.items, t.items);
      }
    case Counts =>
      if t.ObjTree? {
        CountsAreWhole(slot.members, t.members);
      }
    case Record(fields) =>
      if t.ObjTree? {
        FieldsAreWhole(fields, slot.slots, t.members);
      }
    case _ =>
  }

  lemma {:induction false} ItemsAreWhole(item: Schema, had: seq<Slot>, items: seq<Tree>)
    requires forall i :: 0 <= i < |had| ==> Whole(item, had[i]) && Shaped(item, had[i])
    ensures IntoItems(item, had, items).Some? ==>
              forall i :: 0 <= i < |IntoItems(item, had, items).value| ==>
                  Whole(item, IntoItems(item, had, items).value[i])
    decreases item, |items| + 1
  {
    hide Whole, Shaped, Into, Fresh;
    if items != [] {
      FreshIsWhole(item);
      IntoIsWhole(item, if had == [] then Fresh(item) else had[0], items[0]);
      ItemsAreWhole(item, if had == [] then [] else had[1..], items[1..]);
    }
  }

  lemma {:induction false} PutIsWhole(ms: seq<Member>, m: Member)
    requires WholeCounts(ms) && PlainInteger(m.value)
    ensures WholeCounts(Put(ms, m))
    ensures forall i :: 0 <= i < |Put(ms, m)| ==>
              Put(ms, m)[i].key == m.key || exists j :: 0 <= j < |ms| && ms[j].key == Put(ms, m)[i].key
  {
    hide PlainInteger;
    if ms != [] && ms[0].key != m.key {
      PutIsWhole(ms[1..], m);
      var rest := Put(ms[1..], m);
      forall i | 0 <= i < |rest| ensures rest[i].key != ms[0].key {
        if rest[i].key != m.key {
          var j :| 0 <= j < |ms| - 1 && ms[1..][j].key == rest[i].key;
          assert ms[j + 1].key == rest[i].key;
        }
      }
    }
  }

  lemma {:induction false} CountsAreWhole(had: seq<Member>, ms: seq<Member>)
    requires WholeCounts(had)
    ensures IntoCounts(had, ms).Some? ==> WholeCounts(IntoCounts(had, ms).value)
    decreases |ms|
  {
    hide WholeCounts, PlainInteger, IntoInteger, Put;
    if ms != [] {
      IntegerIsWhole(ms[0].value);
      var n := if ms[0].value.NullTree? then Some(Scalar(NumTree("0"))) else IntoInteger(ms[0].value);
      if n.Some? {
        ZeroIsPlain();
        PutIsWhole(had, Member(ms[0].key, n.value.tree));
        CountsAreWhole(Put(had, Member(ms[0].key, n.value.tree)), ms[1..]);
      }
    }
  }

  lemma ZeroIsPlain()
    ensures PlainInteger(NumTree("0"))
  { NumberText(0); }

  lemma {:induction false} FieldsAreWhole(fields: seq<FieldSchema>, slots: seq<Slot>, ms: seq<Member>)
    requires WholeFields(fields, slots) && ShapedFields(fields, slots)
    ensures IntoFields(fields, slots, ms).Some? ==> WholeFields(fields, IntoFields(fields, slots, ms).value)
    decreases fields, 0
  {
    hide Whole, Shaped, IntoField;
    if fields != [] {
      FieldIsWhole(fields[0].schema, slots[0], ms, fields[0].name);
      FieldsAreWhole(fields[1..], slots[1..], ms);
    }
  }

  lemma {:induction false} FieldIsWhole(s: Schema, slot: Slot, ms: seq<Member>, name: string)
    requires Whole(s, slot) && Shaped(s, slot)
    ensures IntoField(s, slot, ms, name).Some? ==> Whole(s, IntoField(s, slot, ms, name).value)
    decreases s, |ms| + 1
  {
    hide Whole, Shaped, Into;
    if ms != [] {
      IntoIsWhole(s, slot, ms[0].value);
      var next := if SameName(ms[0].key, name) then Into(s, slot, ms[0].value) else Some(slot);
      if next.Some? {
        FieldIsWhole(s, next.value, ms[1..], name);
      }
    }
  }

  lemma {:induction false} ViewIsFull(s: Schema, slot: Slot)
    requires Proper(s) && Whole(s, slot) && Shaped(s, slot)
    ensures Full(s, View(s, slot))
    decreases s, 0
  {
    match s
    case ListOf(item) => ViewItemsFull(item, slot.items[..slot.len]);
    case Record(fields) => ViewFieldsFull(fields, slot.slots);
    case _ =>
  }

  lemma {:induction false} ViewItemsFull(item: Schema, items: seq<Slot>)
    requires Proper(item) && forall i :: 0 <= i < |items| ==> Whole(item, items[i]) && Shaped(item, items[i])
    ensures forall i :: 0 <= i < |items| ==> Full(item, ViewItems(item, items)[i])
    decreases item, |items| + 1
  {
    hide Whole, Shaped, Full, View, Proper;
    if items != [] {
      ViewIsFull(item, items[0]);
      ViewItemsFull(item, items[1..]);
    }
  }

  lemma {:induction false} ViewFieldsFull(fields: seq<FieldSchema>, slots: seq<Slot>)
    requires (forall f :: f in fields ==> Proper(f.schema)) && WholeFields(fields, slots) && ShapedFields(fields, slots)
    ensures FullFields(fields, ViewFields(fields, slots))
    decreases fields
  {
    hide Whole, Shaped, Full, View, Proper;
    if fields != [] {
      ViewIsFull(fields[0].schema, slots[0]);
      ViewFieldsFull(fields[1..], slots[1..]);
      assert ViewFields(fields, slots)[1..] == ViewFields(fields[1..], slots[1..]);
    }
  }

  /** Whatever decodes is written out in full, so decoding it again changes nothing. */
  lemma FilledIsFull(s: Schema, t: Tree)
    requires Proper(s) && Fill(s, t).Some?
    ensures Full(s, Fill(s, t).value) && Fill(s, Fill(s, t).value) == Fill(s, t)
  {
    hide Whole, Full, Proper, View, Into, Fresh;
    FreshIsWhole(s);
    IntoIsWhole(s, Fresh(s), t);
    ViewIsFull(s, Into(s, Fresh(s), t).value);
    FillFull(s, Fill(s, t).value);
  }

  // ---- Two values into one ----

  predicate Emptied(s: Schema) { s.MaybeInteger? || s.ListOf? || s.Counts? }

  /** An element of the second list: over the element of the first in its place, where there is one. */
  function ElementOver(item: Schema, xs: seq<Tree>, ys: seq<Tree>, i: nat): Option<Tree>
    requires i < |ys|
  { if i < |xs| then Both(item, xs[i], ys[i]) else Fill(item, ys[i]) }

  /** A list that decodes element by element over another one, which must itself decode. */
  predicate ListOver(item: Schema, xs: seq<Tree>, ys: seq<Tree>, r: Option<Tree>) {
    && (r.Some? <==> (forall i :: 0 <= i < |xs| ==> Fill(item, xs[i]).Some?)
                     && forall i :: 0 <= i < |ys| ==> ElementOver(item, xs, ys, i).Some?)
    && (r.Some? ==> r.value.ArrTree? && |r.value.items| == |ys|
                    && forall i :: 0 <= i < |ys| ==> r.value.items[i] == ElementOver(item, xs, ys, i).value)
  }

  /**
   What any second value leaves of any first one. Null empties an optional number, a list and a map and leaves
   the rest; the members of two objects count as one object's, in turn; lists go element by element, with the
   length of the second; anything else replaces.
   */
  predicate Merges(s: Schema, first: Tree, second: Tree, r: Option<Tree>) {
    if Fill(s, first).None? then r == None
    else if second.NullTree? then r == if Emptied(s) then Fill(s, NullTree) else Fill(s, first)
    else if first.NullTree? then r == Fill(s, second)
    else match s
      case ListOf(item) => if second.ArrTree? then ListOver(item, first.items, second.items, r) else r == None
      case Counts =>
        r == if second.ObjTree? then Fill(s, ObjTree(first.members + second.members)) else None
      case Record(_) =>
        r == if second.ObjTree? then Fill(s, ObjTree(first.members + second.members)) else None
      case _ => r == Fill(s, second)
  }

  lemma {:induction false} FieldsInTurn(fields: seq<FieldSchema>, slots: seq<Slot>, ms: seq<Member>, ns: seq<Member>)
    requires ShapedFields(fields, slots)
    ensures IntoFields(fields, slots, ms + ns) ==
            match IntoFields(fields, slots, ms)
            case None => None
            case Some(next) => IntoFields(fields, next, ns)
    decreases fields
  {
    hide Shaped, IntoField;
    if fields != [] {
      KeysInTurn(fields[0].schema, slots[0], ms, ns, fields[0].name);
      FieldsInTurn(fields[1..], slots[1..], ms, ns);
      var first, rest := IntoField(fields[0].schema, slots[0], ms, fields[0].name),
          IntoFields(fields[1..], slots[1..], ms);
      if first.Some? && rest.Some? {
        assert ([first.value] + rest.value)[1..] == rest.value;
      }
    }
  }

  lemma RecordsMerge(fields: seq<FieldSchema>, ms: seq<Member>, ns: seq<Member>)
    requires Fill(Record(fields), ObjTree(ms)).Some?
    ensures Both(Record(fields), ObjTree(ms), ObjTree(ns)) == Fill(Record(fields), ObjTree(ms + ns))
  {
    hide KnownField, View, IntoFields;
    FieldsInTurn(fields, FreshFields(fields), ms, ns);
    assert forall m :: m in ms + ns <==> m in ms || m in ns;
  }

  lemma {:induction false} CountsInTurn(had: seq<Member>, ms: seq<Member>, ns: seq<Member>)
    ensures IntoCounts(had, ms + ns) ==
            match IntoCounts(had, ms)
            case None => None
            case Some(next) => IntoCounts(next, ns)
    decreases |ms|
  {
    hide Put, IntoInteger;
    if ms == [] {
      assert ms + ns == ns;
    } else {
      assert (ms + ns)[1..] == ms[1..] + ns && (ms + ns)[0] == ms[0];
      var n := if ms[0].value.NullTree? then Some(Scalar(NumTree("0"))) else IntoInteger(ms[0].value);
      if n.Some? {
        CountsInTurn(Put(had, Member(ms[0].key, n.value.tree)), ms[1..], ns);
      }
    }
  }

  lemma {:induction false} ItemsAt(item: Schema, had: seq<Slot>, items: seq<Tree>)
    requires forall i :: 0 <= i < |had| ==> Shaped(item, had[i])
    ensures var r := IntoItems(item, had, items);
            && (r.Some? <==> forall i :: 0 <= i < |items| ==> Into(item, SlotAt(item, had, i), items[i]).Some?)
            && (r.Some? ==> (items != [] || r.value == had)
                            && forall i :: 0 <= i < |items| ==>
                                 Some(r.value[i]) == Into(item, SlotAt(item, had, i), items[i]))
            && (r.Some? && had == [] ==> |r.value| == |items|)
    decreases |items|
  {
    hide Into, Shaped, Fresh;
    if items != [] {
      var left := if had == [] then [] else had[1..];
      ItemsAt(item, left, items[1..]);
      IntoItemsIs(item, had, items);
      forall i | 0 < i < |items| ensures SlotAt(item, had, i) == SlotAt(item, left, i - 1) &&
          items[i] == items[1..][i - 1]
      { }
    }
  }

  lemma IntoItemsIs(item: Schema, had: seq<Slot>, items: seq<Tree>)
    requires items != [] && forall i :: 0 <= i < |had| ==> Shaped(item, had[i])
    ensures var first := Into(item, SlotAt(item, had, 0), items[0]);
            var rest := IntoItems(item, if had == [] then [] else had[1..], items[1..]);
            IntoItems(item, had, items) ==
            if first.Some? && rest.Some? then Some([first.value] + rest.value) else None
  { hide Into, Shaped, Fresh; }

  function SlotAt(item: Schema, had: seq<Slot>, i: nat): (slot: Slot)
    requires forall i :: 0 <= i < |had| ==> Shaped(item, had[i])
    ensures Shaped(item, slot)
  { if i < |had| then had[i] else Fresh(item) }

  lemma {:induction false} ViewItemsAt(item: Schema, items: seq<Slot>, i: nat)
    requires (forall i :: 0 <= i < |items| ==> Shaped(item, items[i])) && i < |items|
    ensures ViewItems(item, items)[i] == View(item, items[i])
    decreases i
  {
    hide View, Shaped;
    if i > 0 {
      ViewItemsAt(item, items[1..], i - 1);
    }
  }

  /** The slots a list decodes to, afresh. */
  lemma FirstList(item: Schema, xs: seq<Tree>)
    ensures var s := ListOf(item);
            var r := Into(s, Fresh(s), ArrTree(xs));
            && (r.Some? <==> forall i :: 0 <= i < |xs| ==> Into(item, Fresh(item), xs[i]).Some?)
            && (r.Some? ==> r.value.Slice? && r.value.len == |r.value.items| == |xs|
                            && forall i :: 0 <= i < |xs| ==> Some(r.value.items[i]) == Into(item, Fresh(item), xs[i]))
  { ItemsAt(item, [], xs); }

  lemma SecondList(item: Schema, had: seq<Slot>, ys: seq<Tree>)
    requires forall i :: 0 <= i < |had| ==> Shaped(item, had[i])
    ensures var s := ListOf(item);
            var r := Into(s, Slice(had, |had|), ArrTree(ys));
            && (r.Some? <==> forall i :: 0 <= i < |ys| ==> Into(item, SlotAt(item, had, i), ys[i]).Some?)
            && (r.Some? ==> View(s, r.value).ArrTree? && |View(s, r.value).items| == |ys|
                            && forall i :: 0 <= i < |ys| ==>
                                 View(s, r.value).items[i] == View(item, Into(item, SlotAt(item, had, i), ys[i]).value))
  {
    ItemsAt(item, had, ys);
    var r := Into(ListOf(item), Slice(had, |had|), ArrTree(ys));
    if r.Some? {
      forall i | 0 <= i < |ys|
        ensures ViewItems(item, r.value.items[..|ys|])[i] == View(item, Into(item, SlotAt(item, had, i), ys[i]).value) {
        ViewItemsAt(item, r.value.items[..|ys|], i);
      }
    }
  }

  lemma ListsMerge(item: Schema, xs: seq<Tree>, ys: seq<Tree>)
    ensures ListOver(item, xs, ys, Both(ListOf(item), ArrTree(xs), ArrTree(ys)))
  {
    hide Into, View, Fresh, Shaped;
    FirstList(item, xs);
    var first := Into(ListOf(item), Fresh(ListOf(item)), ArrTree(xs));
    if first.Some? {
      var had := first.value.items;
      ListShaped(item, first.value);
      SecondList(item, had, ys);
      assert forall i :: 0 <= i < |xs| ==> Fill(item, xs[i]).Some?;
      forall i | 0 <= i < |ys| ensures
          var next := Into(item, SlotAt(item, had, i), ys[i]);
          ElementOver(item, xs, ys, i) == if next.None? then None else Some(View(item, next.value))
      {
        if i < |xs| {
          assert Some(had[i]) == Into(item, Fresh(item), xs[i]);
        }
      }
    } else {
      var i :| 0 <= i < |xs| && Into(item, Fresh(item), xs[i]).None?;
      assert Fill(item, xs[i]).None?;
    }
  }

  lemma ListShaped(item: Schema, slot: Slot)
    requires Shaped(ListOf(item), slot)
    ensures slot.Slice? && forall i :: 0 <= i < |slot.items| ==> Shaped(item, slot.items[i])
  { }

  lemma NullIsFresh(s: Schema)
    ensures Into(s, Fresh(s), NullTree) == Some(Fresh(s))
  { }

  /** Two values for one field, of any shape and whatever they hold, make exactly that of each other. */
  lemma BothMerges(s: Schema, first: Tree, second: Tree)
    ensures Merges(s, first, second, Both(s, first, second))
  {
    NullIsFresh(s);
    if Fill(s, first).Some? && !first.NullTree? && !second.NullTree? {
      match s
      case ListOf(item) =>
        if second.ArrTree? {
          ListsMerge(item, first.items, second.items);
        }
      case Counts =>
        if second.ObjTree? {
          CountsInTurn([], first.members, second.members);
        }
      case Record(fields) =>
        if second.ObjTree? {
          RecordsMerge(fields, first.members, second.members);
        }
      case _ =>
    }
  }
}
