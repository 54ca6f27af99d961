/** Sorting a list by a strict order: what sort.Slice and sort.Strings leave of a list without ties. */
module Sorting {
  import opened Prelude

  function InsertBy<T>(xs: seq<T>, x: T, less: (T, T) -> bool): seq<T> {
    if xs == [] || less(x, xs[0]) then [x] + xs else [xs[0]] + InsertBy(xs[1..], x, less)
  }

  function SortBy<T>(xs: seq<T>, less: (T, T) -> bool): seq<T> {
    if xs == [] then [] else InsertBy(SortBy(xs[1..], less), xs[0], less)
  }

  /** A strict order of the elements of `xs`, of which no two tie. */
  ghost predicate Ranks<T(!new)>(less: (T, T) -> bool) {
    && (forall a, b :: !(less(a, b) && less(b, a)))
    && (forall a, b, c :: less(a, b) && less(b, c) ==> less(a, c))
  }

  ghost predicate NoTies<T>(xs: seq<T>, less: (T, T) -> bool) {
    forall i, j :: 0 <= i < j < |xs| ==> less(xs[i], xs[j]) || less(xs[j], xs[i])
  }

  ghost predicate Ascending<T>(xs: seq<T>, less: (T, T) -> bool) {
    forall i, j :: 0 <= i < j < |xs| ==> less(xs[i], xs[j])
  }

  lemma {:induction false} InsertKeeps<T>(xs: seq<T>, x: T, less: (T, T) -> bool)
    ensures multiset(InsertBy(xs, x, less)) == multiset(xs) + multiset{x}
  {
    if xs != [] && !less(x, xs[0]) {
      InsertKeeps(xs[1..], x, less);
      assert xs == [xs[0]] + xs[1..];
    }
  }

  lemma {:induction false} SortBag<T>(xs: seq<T>, less: (T, T) -> bool)
    ensures multiset(SortBy(xs, less)) == multiset(xs)
  {
    if xs != [] {
      SortBag(xs[1..], less);
      InsertKeeps(SortBy(xs[1..], less), xs[0], less);
      assert xs == [xs[0]] + xs[1..];
    }
  }

  lemma SameSize<T>(xs: seq<T>, ys: seq<T>)
    requires multiset(xs) == multiset(ys)
    ensures |xs| == |ys| && forall x :: x in xs <==> x in ys
  {
    assert |multiset(xs)| == |xs| && |multiset(ys)| == |ys|;
    assert forall x :: x in xs <==> x in multiset(xs);
    assert forall x :: x in ys <==> x in multiset(ys);
  }

  /** Sorting is a permutation. */
  lemma SortKeeps<T>(xs: seq<T>, less: (T, T) -> bool)
    ensures multiset(SortBy(xs, less)) == multiset(xs) && |SortBy(xs, less)| == |xs|
    ensures forall x :: x in SortBy(xs, less) <==> x in xs
  {
    SortBag(xs, less);
    SameSize(SortBy(xs, less), xs);
  }

  lemma {:induction false} InsertAscends<T(!new)>(xs: seq<T>, x: T, less: (T, T) -> bool)
    requires Ranks(less) && Ascending(xs, less)
    requires forall y :: y in xs ==> less(x, y) || less(y, x)
    ensures Ascending(InsertBy(xs, x, less), less)
  {
    if xs != [] {
      if less(x, xs[0]) {
        forall i | 0 <= i < |xs| ensures less(x, xs[i]) {
          assert i > 0 ==> less(xs[0], xs[i]);
        }
      } else {
        var rest := InsertBy(xs[1..], x, less);
        InsertAscends(xs[1..], x, less);
        InsertKeeps(xs[1..], x, less);
        forall i | 0 <= i < |rest| ensures less(xs[0], rest[i]) {
          assert rest[i] in multiset(rest);
          assert rest[i] == x || rest[i] in xs[1..];
          assert xs[0] in xs;
        }
      }
    }
  }

  lemma {:induction false} SortAscends<T(!new)>(xs: seq<T>, less: (T, T) -> bool)
    requires Ranks(less) && NoTies(xs, less)
    ensures Ascending(SortBy(xs, less), less)
  {
    if xs != [] {
      SortAscends(xs[1..], less);
      SortKeeps(xs[1..], less);
      forall y | y in SortBy(xs[1..], less) ensures less(xs[0], y) || less(y, xs[0]) {
        var j :| 0 <= j < |xs| - 1 && xs[1..][j] == y;
        assert xs[j + 1] == y;
      }
      InsertAscends(SortBy(xs[1..], less), xs[0], less);
    }
  }

  /** The first of an ascending order is in no other place of another one. */
  lemma FirstIsFirst<T(!new)>(xs: seq<T>, ys: seq<T>, less: (T, T) -> bool)
    requires Ranks(less) && Ascending(xs, less) && Ascending(ys, less) && xs != [] && ys != []
    requires xs[0] in ys && ys[0] in xs
    ensures xs[0] == ys[0]
  {
    var i :| 0 <= i < |ys| && ys[i] == xs[0];
    var j :| 0 <= j < |xs| && xs[j] == ys[0];
    assert i > 0 ==> less(ys[0], ys[i]);
    assert j > 0 ==> less(xs[0], xs[j]);
  }

  /** A set of elements has one ascending order. */
  lemma {:induction false} AscendingUnique<T(!new)>(xs: seq<T>, ys: seq<T>, less: (T, T) -> bool)
    requires Ranks(less) && Ascending(xs, less) && Ascending(ys, less) && multiset(xs) == multiset(ys)
    ensures xs == ys
  {
    hide Ranks, Ascending;
    SameSize(xs, ys);
    if xs != [] {
      FirstIsFirst(xs, ys, less);
      AscendingTail(xs, less);
      AscendingTail(ys, less);
      BagTail(xs);
      BagTail(ys);
      AscendingUnique(xs[1..], ys[1..], less);
      assert xs == [xs[0]] + xs[1..] && ys == [ys[0]] + ys[1..];
    }
  }

  lemma AscendingTail<T(!new)>(xs: seq<T>, less: (T, T) -> bool)
    requires Ascending(xs, less) && xs != []
    ensures Ascending(xs[1..], less)
  { }

  /** Two lists sort to the same list exactly when each is a permutation of the other. */
  lemma SortDecidesPermutation<T(!new)>(xs: seq<T>, ys: seq<T>, less: (T, T) -> bool)
    requires Ranks(less) && NoTies(xs, less) && NoTies(ys, less)
    ensures SortBy(xs, less) == SortBy(ys, less) <==> multiset(xs) == multiset(ys)
  {
    SortKeeps(xs, less);
    SortKeeps(ys, less);
    SortAscends(xs, less);
    SortAscends(ys, less);
    if multiset(xs) == multiset(ys) {
      AscendingUnique(SortBy(xs, less), SortBy(ys, less), less);
    }
  }

  ghost predicate KeysApart<T>(xs: seq<T>, key: T -> string) {
    forall i, j :: 0 <= i < j < |xs| ==> key(xs[i]) != key(xs[j])
  }

  function Removed<T>(xs: seq<T>, i: nat): (left: seq<T>)
    requires i < |xs|
    ensures |left| == |xs| - 1 && forall k :: 0 <= k < |left| ==> left[k] == if k < i then xs[k] else xs[k + 1]
  { xs[..i] + xs[i + 1..] }

  lemma RemovedBag<T>(xs: seq<T>, i: nat)
    requires i < |xs|
    ensures multiset(Removed(xs, i)) == multiset(xs) - multiset{xs[i]}
  { assert xs == xs[..i] + [xs[i]] + xs[i + 1..]; }

  /** One element taken out. */
  lemma TakenOut<T>(xs: seq<T>, i: nat, key: T -> string)
    requires i < |xs| && KeysApart(xs, key)
    ensures KeysApart(Removed(xs, i), key)
    ensures forall x :: x in Removed(xs, i) ==> key(x) != key(xs[i])
  {
    var left := Removed(xs, i);
    forall k | 0 <= k < |left| ensures key(left[k]) != key(xs[i]) {
      assert k < i ==> key(xs[k]) != key(xs[i]);
      assert k >= i ==> key(xs[i]) != key(xs[k + 1]);
    }
    forall x | x in left ensures key(x) != key(xs[i]) {
      var k :| 0 <= k < |left| && left[k] == x;
    }
  }

  /** Elements with different keys have them in every order. */
  lemma {:induction false} KeysPermuted<T>(xs: seq<T>, ys: seq<T>, key: T -> string)
    requires KeysApart(xs, key) && multiset(xs) == multiset(ys)
    ensures KeysApart(ys, key)
    decreases |ys|
  {
    hide KeysApart, Removed;
    if ys == [] {
      NoKeys(key);
    } else {
      var i := BagMember(xs, ys[0], multiset(ys));
      TakenOut(xs, i, key);
      RemovedBag(xs, i);
      BagTail(ys);
      KeysPermuted(Removed(xs, i), ys[1..], key);
      forall x | x in ys[1..] ensures key(x) != key(ys[0]) {
        assert x in multiset(Removed(xs, i));
      }
      KeysFirst(ys, key);
    }
  }

  lemma NoKeys<T>(key: T -> string)
    ensures KeysApart([], key)
  { }

  lemma BagMember<T>(xs: seq<T>, y: T, bag: multiset<T>) returns (i: nat)
    requires multiset(xs) == bag && y in bag
    ensures i < |xs| && xs[i] == y
  { i :| i < |xs| && xs[i] == y; }

  lemma BagTail<T>(ys: seq<T>)
    requires ys != []
    ensures multiset(ys[1..]) == multiset(ys) - multiset{ys[0]}
  { assert ys == [ys[0]] + ys[1..]; }

  lemma KeysFirst<T>(ys: seq<T>, key: T -> string)
    requires ys != [] && KeysApart(ys[1..], key) && forall x :: x in ys[1..] ==> key(x) != key(ys[0])
    ensures KeysApart(ys, key)
  {
    forall i, j | 0 <= i < j < |ys| ensures key(ys[i]) != key(ys[j]) {
      assert ys[j] == ys[1..][j - 1];
      assert i > 0 ==> ys[i] == ys[1..][i - 1];
    }
  }

  // ---- The keys of a map, in order ----

  lemma DistinctNoTies(xs: seq<string>)
    requires Distinct(xs)
    ensures NoTies(xs, Less)
  {
    forall i, j | 0 <= i < j < |xs| ensures Less(xs[i], xs[j]) || Less(xs[j], xs[i]) {
      LessTotal(xs[i], xs[j]);
    }
  }

  lemma LessRanks()
    ensures Ranks(Less)
  {
    forall a, b ensures !(Less(a, b) && Less(b, a)) {
      LessTotal(a, b);
    }
    forall a, b, c | Less(a, b) && Less(b, c) ensures Less(a, c) {
      LessTransitive(a, b, c);
    }
  }

  ghost predicate Least(k: string, keys: set<string>) { k in keys && forall l :: l in keys ==> l == k || Less(k, l) }

  lemma {:induction false} LeastOf(keys: set<string>) returns (least: string)
    requires keys != {}
    ensures Least(least, keys)
  {
    var x :| x in keys;
    if keys - {x} == {} {
      assert forall l :: l in keys ==> l == x || l in keys - {x};
      least := x;
    } else {
      var k := LeastOf(keys - {x});
      LessTotal(x, k);
      least := if Less(x, k) then x else k;
      forall l | l in keys ensures l == least || Less(least, l) {
        LeastWith(x, k, l);
      }
    }
  }

  lemma LeastWith(x: string, k: string, l: string)
    requires l == x || l == k || Less(k, l)
    ensures var least := if Less(x, k) then x else k; l == least || Less(least, l)
  {
    LessTotal(x, k);
    if Less(x, k) && Less(k, l) {
      LessTransitive(x, k, l);
    }
  }

  lemma LeastExists(keys: set<string>)
    requires keys != {}
    ensures exists k :: Least(k, keys)
  { var k := LeastOf(keys); }

  /** The keys json.Marshal writes for a map. */
  ghost function SortedKeys(keys: set<string>): (r: seq<string>)
    ensures |r| == |keys| && forall k :: k in r <==> k in keys
    ensures Distinct(r)
  {
    if keys == {} then []
    else
      LeastExists(keys);
      var k :| Least(k, keys);
      var rest := SortedKeys(keys - {k});
      assert forall i :: 0 <= i < |rest| ==> rest[i] in rest;
      [k] + rest
  }

  lemma LeastFirst(k: string, keys: set<string>, rest: seq<string>)
    requires Least(k, keys) && Ascending(rest, Less) && forall l :: l in rest ==> l in keys && l != k
    ensures Ascending([k] + rest, Less)
  {
    forall i | 0 <= i < |rest| ensures Less(k, rest[i]) {
      assert rest[i] in rest;
    }
  }

  lemma {:induction false} SortedKeysAscend(keys: set<string>)
    ensures Ascending(SortedKeys(keys), Less)
  {
    if keys != {} {
      LeastExists(keys);
      var k :| Least(k, keys) && SortedKeys(keys) == [k] + SortedKeys(keys - {k});
      SortedKeysAscend(keys - {k});
      LeastFirst(k, keys, SortedKeys(keys - {k}));
    }
  }

  /** An ascending order is decided by what it orders. */
  lemma {:induction false} AscendingExtensional(xs: seq<string>, ys: seq<string>)
    requires Ascending(xs, Less) && Ascending(ys, Less) && forall x :: x in xs <==> x in ys
    ensures xs == ys
    decreases |xs|
  {
    assert (xs != [] ==> xs[0] in xs) && (ys != [] ==> ys[0] in ys);
    if xs != [] && ys != [] {
      LessRanks();
      FirstIsFirst(xs, ys, Less);
      TailMembers(xs);
      TailMembers(ys);
      AscendingExtensional(xs[1..], ys[1..]);
    }
  }

  lemma TailMembers(xs: seq<string>)
    requires Ascending(xs, Less) && xs != []
    ensures Ascending(xs[1..], Less) && xs == [xs[0]] + xs[1..]
    ensures forall x :: x in xs[1..] <==> x in xs && x != xs[0]
  {
    forall i | 0 < i < |xs| ensures xs[i] != xs[0] {
      LessTotal(xs[0], xs[i]);
    }
    assert forall x :: x in xs <==> x == xs[0] || x in xs[1..];
  }
}
