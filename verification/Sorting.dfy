/** Stable sorting by an integer key, flattening lists of lists, and picking positions. */
module Sorting {

  function InsertBy<T>(x: T, xs: seq<T>, key: T -> int): seq<T> {
    if xs == [] || key(x) <= key(xs[0]) then [x] + xs else [xs[0]] + InsertBy(x, xs[1..], key)
  }

  function SortBy<T>(xs: seq<T>, key: T -> int): seq<T> {
    if xs == [] then [] else InsertBy(xs[0], SortBy(xs[1..], key), key)
  }

  ghost predicate Ordered<T>(xs: seq<T>, key: T -> int) {
    forall i, j :: 0 <= i < j < |xs| ==> key(xs[i]) <= key(xs[j])
  }

  lemma {:induction false} InsertOrders<T>(x: T, xs: seq<T>, key: T -> int)
    requires Ordered(xs, key)
    ensures Ordered(InsertBy(x, xs, key), key)
    ensures InsertBy(x, xs, key)[0] == if xs == [] || key(x) <= key(xs[0]) then x else xs[0]
    decreases |xs|
  {
    if xs != [] && key(x) > key(xs[0]) {
      InsertOrders(x, xs[1..], key);
      assert key(InsertBy(x, xs[1..], key)[0]) >= key(xs[0]);
    }
  }

  lemma {:induction false} SortOrders<T>(xs: seq<T>, key: T -> int)
    ensures Ordered(SortBy(xs, key), key)
    decreases |xs|
  {
    if xs != [] {
      SortOrders(xs[1..], key);
      InsertOrders(xs[0], SortBy(xs[1..], key), key);
    }
  }

  lemma {:induction false} InsertKeeps<T>(x: T, xs: seq<T>, key: T -> int)
    ensures multiset(InsertBy(x, xs, key)) == multiset{x} + multiset(xs)
    decreases |xs|
  {
    if xs != [] && key(x) > key(xs[0]) {
      InsertKeeps(x, xs[1..], key);
      assert [xs[0]] + xs[1..] == xs;
    }
  }

  lemma {:induction false} SortKeeps<T>(xs: seq<T>, key: T -> int)
    ensures multiset(SortBy(xs, key)) == multiset(xs) && |SortBy(xs, key)| == |xs|
    decreases |xs|
  {
    if xs != [] {
      SortKeeps(xs[1..], key);
      InsertKeeps(xs[0], SortBy(xs[1..], key), key);
      assert [xs[0]] + xs[1..] == xs;
      assert |multiset(SortBy(xs, key))| == |multiset(xs)|;
    }
  }

  /** Those with key `k`, in order. */
  function WithKey<T>(xs: seq<T>, key: T -> int, k: int): seq<T> {
    if xs == [] then [] else (if key(xs[0]) == k then [xs[0]] else []) + WithKey(xs[1..], key, k)
  }

  lemma WithKeyFirst<T>(x: T, xs: seq<T>, key: T -> int, k: int)
    ensures WithKey([x] + xs, key, k) == if key(x) == k then [x] + WithKey(xs, key, k) else WithKey(xs, key, k)
  {
    assert ([x] + xs)[1..] == xs;
  }

  lemma {:induction false} InsertStable<T>(x: T, xs: seq<T>, key: T -> int, k: int)
    ensures WithKey(InsertBy(x, xs, key), key, k) ==
            if key(x) == k then [x] + WithKey(xs, key, k) else WithKey(xs, key, k)
    decreases |xs|
  {
    if xs == [] || key(x) <= key(xs[0]) {
      hide WithKey;
      WithKeyFirst(x, xs, key, k);
    } else {
      InsertStable(x, xs[1..], key, k);
      hide WithKey;
      WithKeyFirst(xs[0], xs[1..], key, k);
      WithKeyFirst(xs[0], InsertBy(x, xs[1..], key), key, k);
      assert [xs[0]] + xs[1..] == xs;
    }
  }

  /** Equal keys stay in the order they came in. */
  lemma {:induction false} SortStable<T>(xs: seq<T>, key: T -> int, k: int)
    ensures WithKey(SortBy(xs, key), key, k) == WithKey(xs, key, k)
    decreases |xs|
  {
    if xs != [] {
      SortStable(xs[1..], key, k);
      InsertStable(xs[0], SortBy(xs[1..], key), key, k);
      WithKeyFirst(xs[0], xs[1..], key, k);
      assert [xs[0]] + xs[1..] == xs;
    }
  }

  lemma SortHolds<T>(xs: seq<T>, key: T -> int, x: T)
    ensures x in SortBy(xs, key) <==> x in xs
  {
    SortKeeps(xs, key);
    assert x in SortBy(xs, key) <==> x in multiset(SortBy(xs, key));
    assert x in xs <==> x in multiset(xs);
  }

  // ---------- Lists of lists ----------

  function Flatten<T>(xs: seq<seq<T>>): seq<T> {
    if xs == [] then [] else xs[0] + Flatten(xs[1..])
  }

  lemma {:induction false} FlattenConcat<T>(xs: seq<seq<T>>, ys: seq<seq<T>>)
    ensures Flatten(xs + ys) == Flatten(xs) + Flatten(ys)
    decreases |xs|
  {
    if xs == [] {
      assert xs + ys == ys;
    } else {
      FlattenConcat(xs[1..], ys);
      assert (xs + ys)[1..] == xs[1..] + ys;
    }
  }

  lemma FlattenLast<T>(xs: seq<seq<T>>)
    requires xs != []
    ensures Flatten(xs) == Flatten(xs[..|xs| - 1]) + xs[|xs| - 1]
  {
    var n := |xs| - 1;
    FlattenConcat(xs[..n], [xs[n]]);
    assert xs == xs[..n] + [xs[n]];
    var none: seq<seq<T>> := [];
    assert [xs[n]][1..] == none;
  }

  lemma {:induction false} FlattenInsert<T>(x: seq<T>, xs: seq<seq<T>>, key: seq<T> -> int)
    ensures multiset(Flatten(InsertBy(x, xs, key))) == multiset(x) + multiset(Flatten(xs))
    decreases |xs|
  {
    var r := InsertBy(x, xs, key);
    if xs == [] || key(x) <= key(xs[0]) {
      assert r[1..] == xs;
    } else {
      FlattenInsert(x, xs[1..], key);
      assert r[1..] == InsertBy(x, xs[1..], key);
    }
  }

  /** Sorting the lists keeps all their members. */
  lemma {:induction false} FlattenSorted<T>(xs: seq<seq<T>>, key: seq<T> -> int)
    ensures multiset(Flatten(SortBy(xs, key))) == multiset(Flatten(xs))
    decreases |xs|
  {
    if xs != [] {
      FlattenSorted(xs[1..], key);
      FlattenInsert(xs[0], SortBy(xs[1..], key), key);
    }
  }

  // ---------- Positions ----------

  /** Where the flags are set. */
  function Positions(flags: seq<bool>): (at: seq<nat>)
    ensures forall k :: 0 <= k < |at| ==> at[k] < |flags|
  {
    if flags == [] then []
    else
      var n := |flags| - 1;
      Positions(flags[..n]) + if flags[n] then [n] else []
  }

  lemma {:induction false} PositionsAscend(flags: seq<bool>, k: nat, l: nat)
    requires k < l < |Positions(flags)|
    ensures Positions(flags)[k] < Positions(flags)[l]
    decreases |flags|
  {
    var n := |flags| - 1;
    if l < |Positions(flags[..n])| {
      PositionsAscend(flags[..n], k, l);
    }
  }

  lemma {:induction false} PositionsAre(flags: seq<bool>, i: nat)
    requires i < |flags|
    ensures i in Positions(flags) <==> flags[i]
    decreases |flags|
  {
    var n := |flags| - 1;
    if i < n {
      PositionsAre(flags[..n], i);
    }
  }
}
