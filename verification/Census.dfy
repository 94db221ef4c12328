/** Counting where numbered things are: lists of ids, and how often an id occurs in them. */
module Census {

  function RemoveAt<T>(xs: seq<T>, i: nat): seq<T>
    requires i < |xs|
  {
    xs[..i] + xs[i + 1..]
  }

  function UpTo(n: nat): seq<nat> { seq(n, i => i) }

  function Times(c: nat, xs: seq<nat>): nat {
    multiset(xs)[c]
  }

  ghost predicate Distinct<T>(xs: seq<T>) {
    forall i, j :: 0 <= i < j < |xs| ==> xs[i] != xs[j]
  }

  function Elements(xs: seq<nat>): set<nat> {
    set x | x in xs
  }

  lemma TimesNone(c: nat)
    ensures Times(c, []) == 0
  {
  }

  lemma TimesAdded(c: nat, xs: seq<nat>, x: nat)
    ensures Times(c, xs + [x]) == Times(c, xs) + Times(c, [x])
  {
  }

  lemma TimesRemoved(c: nat, xs: seq<nat>, i: nat)
    requires i < |xs|
    ensures Times(c, xs) == Times(c, RemoveAt(xs, i)) + Times(c, [xs[i]])
  {
    assert xs == xs[..i] + [xs[i]] + xs[i + 1..];
  }

  lemma TimesFirst(c: nat, xs: seq<nat>)
    requires xs != []
    ensures Times(c, xs) == Times(c, xs[1..]) + Times(c, [xs[0]])
  {
    assert xs == [xs[0]] + xs[1..];
  }

  lemma {:induction false} TimesUpTo(n: nat, c: nat)
    ensures Times(c, UpTo(n)) == if c < n then 1 else 0
    decreases n
  {
    if n > 0 {
      TimesUpTo(n - 1, c);
      assert UpTo(n) == UpTo(n - 1) + [n - 1];
    }
  }

  lemma RepeatedTwice(xs: seq<nat>, i: nat, j: nat)
    requires i < j < |xs| && xs[i] == xs[j]
    ensures Times(xs[i], xs) >= 2
  {
    TimesRemoved(xs[i], xs, j);
    assert RemoveAt(xs, j)[i] == xs[i];
    assert xs[i] in RemoveAt(xs, j);
  }

  lemma OnceIsDistinct(xs: seq<nat>)
    requires forall c: nat :: Times(c, xs) <= 1
    ensures Distinct(xs)
  {
    forall i, j | 0 <= i < j < |xs| ensures xs[i] != xs[j] {
      if xs[i] == xs[j] {
        RepeatedTwice(xs, i, j);
      }
    }
  }

  lemma {:induction false} DistinctSize(xs: seq<nat>)
    requires Distinct(xs)
    ensures |Elements(xs)| == |xs|
    decreases |xs|
  {
    if xs != [] {
      var n := |xs| - 1;
      DistinctSize(xs[..n]);
      assert xs == xs[..n] + [xs[n]];
      assert xs[n] !in Elements(xs[..n]);
      assert Elements(xs) == Elements(xs[..n]) + {xs[n]};
    }
  }

  lemma SubsetSize(a: set<nat>, b: set<nat>)
    requires a <= b
    ensures |a| <= |b|
    ensures |a| == |b| ==> a == b
  {
    assert b == a + (b - a);
  }

  lemma {:induction false} BoundedSet(s: set<nat>, m: nat)
    requires forall c :: c in s ==> c < m
    ensures |s| <= m
    decreases m
  {
    if m > 0 {
      BoundedSet(s - {m - 1}, m - 1);
      assert s <= (s - {m - 1}) + {m - 1};
      assert |s| <= |s - {m - 1}| + 1;
    } else {
      assert s == {};
    }
  }

  /** What was taken out of a queue and what is left in it, after one more step. */
  lemma Rejoin(taken: seq<nat>, queue: seq<nat>, put: seq<nat>, more: seq<nat>, left: seq<nat>, added: seq<nat>)
    requires taken + queue == put && more + left == queue + added
    ensures (taken + more) + left == put + added
  {
    assert (taken + more) + left == taken + (more + left) == taken + (queue + added) == (taken + queue) + added;
  }
}
