/** Sums of real sequences over index sets, and how they split by a key. */
module Sums {

  /** The entries of `xs` below `n` whose index is in `s`, summed. */
  function SumIn(xs: seq<real>, s: set<nat>, n: nat): real
    requires n <= |xs|
  {
    if n == 0 then 0.0 else SumIn(xs, s, n - 1) + if n - 1 in s then xs[n - 1] else 0.0
  }

  lemma {:induction false} SumUpdate(xs: seq<real>, s: set<nat>, n: nat, i: nat, v: real)
    requires n <= |xs| && i < |xs|
    ensures SumIn(xs[i := v], s, n) == SumIn(xs, s, n) + if i in s && i < n then v - xs[i] else 0.0
    decreases n
  {
    if n > 0 {
      SumUpdate(xs, s, n - 1, i, v);
    }
  }

  lemma {:induction false} SumDisjoint(xs: seq<real>, a: set<nat>, b: set<nat>, n: nat)
    requires n <= |xs| && a !! b
    ensures SumIn(xs, a + b, n) == SumIn(xs, a, n) + SumIn(xs, b, n)
    decreases n
  {
    if n > 0 {
      SumDisjoint(xs, a, b, n - 1);
    }
  }

  lemma {:induction false} SumEmpty(xs: seq<real>, n: nat)
    requires n <= |xs|
    ensures SumIn(xs, {}, n) == 0.0
    decreases n
  {
    if n > 0 {
      SumEmpty(xs, n - 1);
    }
  }

  lemma {:induction false} SumSingle(xs: seq<real>, i: nat, n: nat)
    requires n <= |xs|
    ensures SumIn(xs, {i}, n) == if i < n then xs[i] else 0.0
    decreases n
  {
    if n > 0 {
      SumSingle(xs, i, n - 1);
    }
  }

  /** Sums agree when the summands do. */
  lemma {:induction false} SumSame(xs: seq<real>, a: set<nat>, ys: seq<real>, b: set<nat>, n: nat)
    requires n <= |xs| && n <= |ys|
    requires forall i :: 0 <= i < n ==> (if i in a then xs[i] else 0.0) == if i in b then ys[i] else 0.0
    ensures SumIn(xs, a, n) == SumIn(ys, b, n)
    decreases n
  {
    if n > 0 {
      SumSame(xs, a, ys, b, n - 1);
    }
  }

  lemma {:induction false} SumMonotone(xs: seq<real>, a: set<nat>, ys: seq<real>, b: set<nat>, n: nat)
    requires n <= |xs| && n <= |ys|
    requires forall i :: 0 <= i < n ==> (if i in a then xs[i] else 0.0) <= if i in b then ys[i] else 0.0
    ensures SumIn(xs, a, n) <= SumIn(ys, b, n)
    decreases n
  {
    if n > 0 {
      SumMonotone(xs, a, ys, b, n - 1);
    }
  }

  /** Three sums together at most two others, when the summands are. */
  lemma {:induction false} SumsShare(xs: seq<real>, a: set<nat>, b: set<nat>, c: set<nat>,
                                     u: set<nat>, v: set<nat>, n: nat)
    requires n <= |xs|
    requires forall i :: 0 <= i < n ==>
               (if i in a then xs[i] else 0.0) + (if i in b then xs[i] else 0.0) + (if i in c then xs[i] else 0.0)
               <= (if i in u then xs[i] else 0.0) + (if i in v then xs[i] else 0.0)
    ensures SumIn(xs, a, n) + SumIn(xs, b, n) + SumIn(xs, c, n) <= SumIn(xs, u, n) + SumIn(xs, v, n)
    decreases n
  {
    if n > 0 {
      SumsShare(xs, a, b, c, u, v, n - 1);
    }
  }

  /** Members of `s` below `n`. */
  function CountIn(s: set<nat>, n: nat): nat {
    if n == 0 then 0 else CountIn(s, n - 1) + if n - 1 in s then 1 else 0
  }

  lemma {:induction false} SumConstant(xs: seq<real>, s: set<nat>, n: nat, v: real)
    requires n <= |xs| && forall i :: 0 <= i < n && i in s ==> xs[i] == v
    ensures SumIn(xs, s, n) == v * CountIn(s, n) as real
    decreases n
  {
    if n > 0 {
      SumConstant(xs, s, n - 1, v);
    }
  }

  lemma {:induction false} CountIsSize(s: set<nat>, n: nat)
    requires forall i :: i in s ==> i < n
    ensures CountIn(s, n) == |s|
    decreases n
  {
    if n > 0 {
      CountSame(s, s - {n - 1}, n - 1);
      CountIsSize(s - {n - 1}, n - 1);
      if n - 1 in s {
        assert s == s - {n - 1} + {n - 1};
      } else {
        assert s == s - {n - 1};
      }
    } else {
      assert s == {};
    }
  }

  lemma {:induction false} CountSame(a: set<nat>, b: set<nat>, n: nat)
    requires forall i :: 0 <= i < n ==> (i in a <==> i in b)
    ensures CountIn(a, n) == CountIn(b, n)
    decreases n
  {
    if n > 0 {
      CountSame(a, b, n - 1);
    }
  }

  /** A sum of at most `v` per member. */
  lemma {:induction false} SumAtMost(xs: seq<real>, s: set<nat>, n: nat, v: real)
    requires n <= |xs| && forall i :: 0 <= i < n && i in s ==> xs[i] <= v
    ensures SumIn(xs, s, n) <= v * CountIn(s, n) as real
    decreases n
  {
    if n > 0 {
      SumAtMost(xs, s, n - 1, v);
    }
  }

  // ---------- Grouping by a key ----------

  /** Indices with key `g`. */
  function Group(key: seq<nat>, g: nat): set<nat> {
    set p | 0 <= p < |key| && key[p] == g
  }

  /** Indices whose key is in `gs` and below `k`. */
  function Members(key: seq<nat>, gs: set<nat>, k: nat): set<nat> {
    set p | 0 <= p < |key| && key[p] < k && key[p] in gs
  }

  /** The sum of each group. */
  function Totals(xs: seq<real>, key: seq<nat>, k: nat): (t: seq<real>)
    requires |xs| == |key|
    ensures |t| == k && forall g :: 0 <= g < k ==> t[g] == SumIn(xs, Group(key, g), |xs|)
  {
    seq(k, g requires 0 <= g < k => SumIn(xs, Group(key, g), |xs|))
  }

  /** Summing group sums is summing the members. */
  lemma {:induction false} SumOfTotals(xs: seq<real>, key: seq<nat>, k: nat, gs: set<nat>, j: nat)
    requires |xs| == |key| && j <= k
    ensures SumIn(Totals(xs, key, k), gs, j) == SumIn(xs, Members(key, gs, j), |xs|)
    decreases j
  {
    if j == 0 {
      assert Members(key, gs, 0) == {};
      SumEmpty(xs, |xs|);
    } else {
      SumOfTotals(xs, key, k, gs, j - 1);
      if j - 1 in gs {
        SumDisjoint(xs, Members(key, gs, j - 1), Group(key, j - 1), |xs|);
        assert Members(key, gs, j) == Members(key, gs, j - 1) + Group(key, j - 1);
      } else {
        assert Members(key, gs, j) == Members(key, gs, j - 1);
      }
    }
  }

  function Total(xs: seq<real>): real {
    if xs == [] then 0.0 else Total(xs[..|xs| - 1]) + xs[|xs| - 1]
  }
}
