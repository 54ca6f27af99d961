/** Key order and overridden keys do not matter to the canonical form at any depth of a value. */
module CanonicalDepth {
  import opened Json
  import opened Canonical
  import opened Sorting

  /** A value with a hole, at any depth. */
  datatype Context =
    | Hole
    | InArray(before: seq<Tree>, inner: Context, after: seq<Tree>)
    | InObject(first: seq<Member>, key: string, inner: Context, last: seq<Member>)

  function Plug(c: Context, t: Tree): Tree {
    match c
    case Hole => t
    case InArray(before, inner, after) => ArrTree(before + [Plug(inner, t)] + after)
    case InObject(first, key, inner, last) => ObjTree(first + [Member(key, Plug(inner, t))] + last)
  }

  lemma SameItself(t: Tree)
    ensures Same(t, t)
  { NormDecidesSame(t, t); }

  lemma SameInArray(before: seq<Tree>, a: Tree, b: Tree, after: seq<Tree>)
    requires Same(a, b)
    ensures Same(ArrTree(before + [a] + after), ArrTree(before + [b] + after))
  {
    var xs, ys := before + [a] + after, before + [b] + after;
    forall i | 0 <= i < |xs| ensures Same(xs[i], ys[i]) {
      if i != |before| {
        SameItself(xs[i]);
      }
    }
  }

  lemma SameInObject(first: seq<Member>, key: string, a: Tree, b: Tree, last: seq<Member>)
    requires Same(a, b)
    ensures Same(ObjTree(first + [Member(key, a)] + last), ObjTree(first + [Member(key, b)] + last))
  {
    var xs, ys := first + [Member(key, a)] + last, first + [Member(key, b)] + last;
    forall k ensures SameAt(xs, ys, k) {
      SameKeys(xs, ys, k);
      var i := LastIndex(xs, k);
      if i >= 0 && i != |first| {
        SameItself(xs[i].value);
      }
    }
  }

  lemma SameKeys(xs: seq<Member>, ys: seq<Member>, k: string)
    requires |xs| == |ys| && forall i :: 0 <= i < |xs| ==> xs[i].key == ys[i].key
    ensures LastIndex(xs, k) == LastIndex(ys, k)
  {
    var i, j := LastIndex(xs, k), LastIndex(ys, k);
    assert i >= 0 ==> ys[i].key == k;
    assert j >= 0 ==> xs[j].key == k;
  }

  /** Same values are the same wherever they stand. */
  lemma {:induction false} SameAnywhere(c: Context, a: Tree, b: Tree)
    requires Same(a, b)
    ensures Same(Plug(c, a), Plug(c, b))
  {
    match c
    case Hole =>
    case InArray(before, inner, after) =>
      SameAnywhere(inner, a, b);
      SameInArray(before, Plug(inner, a), Plug(inner, b), after);
    case InObject(first, key, inner, last) =>
      SameAnywhere(inner, a, b);
      SameInObject(first, key, Plug(inner, a), Plug(inner, b), last);
  }

  lemma PermutedAt(ms: seq<Member>, ns: seq<Member>, i: nat)
    requires multiset(ms) == multiset(ns) && i < |ms|
    ensures exists j :: 0 <= j < |ns| && ns[j] == ms[i]
  {
    assert ms[i] in multiset(ms);
    assert ms[i] in ns;
  }

  /** An object's members in any order are the same object, if no key comes twice. */
  lemma PermutedSame(ms: seq<Member>, ns: seq<Member>)
    requires multiset(ms) == multiset(ns)
    requires forall i, j :: 0 <= i < j < |ms| ==> ms[i].key != ms[j].key
    requires forall i, j :: 0 <= i < j < |ns| ==> ns[i].key != ns[j].key
    ensures Same(ObjTree(ms), ObjTree(ns))
  {
    forall k ensures SameAt(ms, ns, k) {
      var i := LastIndex(ms, k);
      if i >= 0 {
        PermutedAt(ms, ns, i);
        var j :| 0 <= j < |ns| && ns[j] == ms[i];
        LastIs(ns, k, j);
        SameItself(ms[i].value);
      } else {
        forall j | 0 <= j < |ns| ensures ns[j].key != k {
          PermutedAt(ns, ms, j);
        }
      }
    }
  }

  /** Texts of the same value have the same canonical form. */
  lemma SameTextsAgree(a: Tree, b: Tree)
    requires WellFormed(a) && WellFormed(b) && Same(a, b)
    ensures CanonicalParams(Print(a)) == CanonicalParams(Print(b))
  {
    DecodePrint(a);
    DecodePrint(b);
    CanonicalAgreesExactly(Print(a), Print(b));
  }

  lemma StayApart(ms: seq<Member>, ns: seq<Member>)
    requires multiset(ms) == multiset(ns)
    requires forall i, j :: 0 <= i < j < |ms| ==> ms[i].key != ms[j].key
    ensures forall i, j :: 0 <= i < j < |ns| ==> ns[i].key != ns[j].key
  {
    var key := (m: Member) => m.key;
    KeysPermuted(ms, ns, key);
    forall i, j | 0 <= i < j < |ns| ensures ns[i].key != ns[j].key {
      assert key(ns[i]) != key(ns[j]);
    }
  }

  /** Whatever the order of an object's members, at whatever depth it stands. */
  lemma KeyOrderAnywhere(c: Context, ms: seq<Member>, ns: seq<Member>)
    requires multiset(ms) == multiset(ns)
    requires forall i, j :: 0 <= i < j < |ms| ==> ms[i].key != ms[j].key
    requires WellFormed(Plug(c, ObjTree(ms))) && WellFormed(Plug(c, ObjTree(ns)))
    ensures CanonicalParams(Print(Plug(c, ObjTree(ms)))) == CanonicalParams(Print(Plug(c, ObjTree(ns))))
  {
    hide *;
    StayApart(ms, ns);
    PermutedSame(ms, ns);
    SameAnywhere(c, ObjTree(ms), ObjTree(ns));
    SameTextsAgree(Plug(c, ObjTree(ms)), Plug(c, ObjTree(ns)));
  }

  /** Whatever member is overridden by a later one, at whatever depth; and so again for the next. */
  lemma OverriddenAnywhere(c: Context, before: seq<Member>, m: Member, after: seq<Member>)
    requires HasKey(after, m.key)
    requires WellFormed(Plug(c, ObjTree(before + [m] + after))) && WellFormed(Plug(c, ObjTree(before + after)))
    ensures CanonicalParams(Print(Plug(c, ObjTree(before + [m] + after))))
            == CanonicalParams(Print(Plug(c, ObjTree(before + after))))
  {
    hide *;
    OverriddenDoesNotMatter(before, m, after);
    SameAnywhere(c, ObjTree(before + [m] + after), ObjTree(before + after));
    SameTextsAgree(Plug(c, ObjTree(before + [m] + after)), Plug(c, ObjTree(before + after)));
  }
}
