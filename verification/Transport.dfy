/**
 Spreading demands over slots with limited room: each slot takes from one demand and fills
 one rank.  It can be done exactly when no set of ranks must hold more than it has room for.
 */
module Transport {
  import opened Sums

  /** The demand and the rank of every slot, and how many there are of each. */
  datatype Net = Net(owners: seq<nat>, ranks: seq<nat>, demands: nat, width: nat)

  ghost predicate ValidNet(net: Net) {
    && |net.owners| == |net.ranks|
    && forall p :: 0 <= p < |net.owners| ==> net.owners[p] < net.demands && net.ranks[p] < net.width
  }

  /** Among the first `k` slots, every slot of demand `e` is on a rank of `rs`. */
  ghost predicate Held(net: Net, k: nat, rs: set<nat>, e: nat)
    requires ValidNet(net) && k <= |net.owners|
  {
    forall p :: 0 <= p < k && net.owners[p] == e ==> net.ranks[p] in rs
  }

  ghost function HeldBy(net: Net, k: nat, rs: set<nat>): set<nat>
    requires ValidNet(net) && k <= |net.owners|
  {
    set e | 0 <= e < net.demands && Held(net, k, rs, e)
  }

  ghost predicate Within(rs: set<nat>, n: nat) {
    forall r :: r in rs ==> r < n
  }

  /** What is left to place, and the room left for it. */
  ghost predicate Sized(net: Net, k: nat, d: seq<real>, cap: seq<real>) {
    && ValidNet(net) && k <= |net.owners| && |d| == net.demands && |cap| == net.width
    && forall e :: 0 <= e < |d| ==> d[e] >= 0.0
  }

  ghost function Need(net: Net, k: nat, d: seq<real>, cap: seq<real>, rs: set<nat>): real
    requires Sized(net, k, d, cap)
  {
    SumIn(d, HeldBy(net, k, rs), |d|)
  }

  /** No set of ranks must hold more than it has room for. */
  ghost predicate HasRoom(net: Net, k: nat, d: seq<real>, cap: seq<real>)
    requires Sized(net, k, d, cap)
  {
    forall rs :: Within(rs, net.width) ==> Need(net, k, d, cap, rs) <= SumIn(cap, rs, |cap|)
  }

  // ---------- The largest value over sets of ranks ----------

  /** The largest value of `f` at `s` and any ranks below `n`. */
  ghost function Largest(f: set<nat> -> real, s: set<nat>, n: nat): real
    decreases n
  {
    if n == 0 then f(s)
    else
      var without, with := Largest(f, s, n - 1), Largest(f, s + {n - 1}, n - 1);
      if without >= with then without else with
  }

  lemma {:induction false} LargestBounds(f: set<nat> -> real, s: set<nat>, n: nat, rs: set<nat>)
    requires Within(rs, n)
    ensures f(s + rs) <= Largest(f, s, n)
    decreases n
  {
    if n == 0 {
      assert s + rs == s;
    } else if n - 1 in rs {
      LargestBounds(f, s + {n - 1}, n - 1, rs - {n - 1});
      assert s + {n - 1} + (rs - {n - 1}) == s + rs;
    } else {
      LargestBounds(f, s, n - 1, rs);
    }
  }

  lemma {:induction false} LargestAttained(f: set<nat> -> real, s: set<nat>, n: nat) returns (rs: set<nat>)
    ensures Within(rs, n) && f(s + rs) == Largest(f, s, n)
    decreases n
  {
    if n == 0 {
      rs := {};
      assert s + rs == s;
    } else if Largest(f, s, n - 1) >= Largest(f, s + {n - 1}, n - 1) {
      rs := LargestAttained(f, s, n - 1);
    } else {
      var rest := LargestAttained(f, s + {n - 1}, n - 1);
      rs := rest + {n - 1};
      assert s + {n - 1} + rest == s + rs;
    }
  }

  // ---------- One slot ----------

  /** What the last slot must take so that `rs` has room for the rest. */
  ghost function Shortfall(net: Net, k: nat, d: seq<real>, cap: seq<real>, rs: set<nat>): real
    requires Sized(net, k, d, cap) && k > 0
  {
    var e, r := net.owners[k - 1], net.ranks[k - 1];
    var short := Need(net, k, d, cap, rs) + d[e] - SumIn(cap, rs, |cap|);
    if r !in rs && Held(net, k - 1, rs, e) && short > 0.0 then short else 0.0
  }

  /** A set without the last slot's rank and one with it share the room of their union and overlap. */
  lemma SetsShareRoom(net: Net, k: nat, d: seq<real>, cap: seq<real>, a: set<nat>, b: set<nat>)
    requires Sized(net, k, d, cap) && k > 0 && HasRoom(net, k, d, cap)
    requires Within(a, net.width) && Within(b, net.width)
    requires net.ranks[k - 1] !in a && Held(net, k - 1, a, net.owners[k - 1])
    requires net.ranks[k - 1] in b && !Held(net, k - 1, b, net.owners[k - 1])
    ensures Need(net, k, d, cap, a) + d[net.owners[k - 1]] - SumIn(cap, a, |cap|)
            <= SumIn(cap, b, |cap|) - Need(net, k, d, cap, b)
  {
    var e := net.owners[k - 1];
    HeldSplits(net, k, a, b);
    SumsShare(d, HeldBy(net, k, a), HeldBy(net, k, b), {e}, HeldBy(net, k, a + b), HeldBy(net, k, a * b), |d|);
    SumsShare(cap, a + b, a * b, {}, a, b, |cap|);
    SumSingle(d, e, |d|);
    SumEmpty(cap, |cap|);
    assert Need(net, k, d, cap, a + b) <= SumIn(cap, a + b, |cap|);
    assert Need(net, k, d, cap, a * b) <= SumIn(cap, a * b, |cap|);
  }

  /** Where the two sets each hold a demand, so does their union or overlap; the last demand only their union. */
  lemma HeldSplits(net: Net, k: nat, a: set<nat>, b: set<nat>)
    requires ValidNet(net) && 0 < k <= |net.owners|
    requires net.ranks[k - 1] !in a && Held(net, k - 1, a, net.owners[k - 1])
    requires net.ranks[k - 1] in b && !Held(net, k - 1, b, net.owners[k - 1])
    ensures var ha, hb, hu, hi := HeldBy(net, k, a), HeldBy(net, k, b), HeldBy(net, k, a + b), HeldBy(net, k, a * b);
            && net.owners[k - 1] in hu && net.owners[k - 1] !in ha && net.owners[k - 1] !in hb
            && ha <= hu && hb <= hu && ha * hb <= hi
  {
    var e := net.owners[k - 1];
    assert Held(net, k, a + b, e);
    var p :| 0 <= p < k - 1 && net.owners[p] == e && net.ranks[p] !in b;
    assert !Held(net, k, a, e) && !Held(net, k, b, e);
    forall g | g in HeldBy(net, k, a) + HeldBy(net, k, b) ensures g in HeldBy(net, k, a + b) {
      assert Held(net, k, a + b, g);
    }
    forall g | g in HeldBy(net, k, a) * HeldBy(net, k, b) ensures g in HeldBy(net, k, a * b) {
      assert Held(net, k, a * b, g);
    }
  }

  /** How taking `x` for the last slot changes what a set must hold and its room. */
  lemma TakeChanges(net: Net, k: nat, d: seq<real>, cap: seq<real>, x: real, rs: set<nat>)
    requires Sized(net, k, d, cap) && k > 0 && x <= d[net.owners[k - 1]]
    ensures var e, r := net.owners[k - 1], net.ranks[k - 1];
            var d', cap' := d[e := d[e] - x], cap[r := cap[r] - x];
            && Sized(net, k - 1, d', cap')
            && SumIn(cap', rs, |cap|) == SumIn(cap, rs, |cap|) - (if r in rs then x else 0.0)
            && Need(net, k - 1, d', cap', rs) ==
               Need(net, k, d, cap, rs) + if !Held(net, k - 1, rs, e) then 0.0 else if r in rs then -x else d[e] - x
  {
    var e, r := net.owners[k - 1], net.ranks[k - 1];
    SumUpdate(cap, rs, |cap|, r, cap[r] - x);
    SumUpdate(d, HeldBy(net, k - 1, rs), |d|, e, d[e] - x);
    HeldBefore(net, k, rs);
    if Held(net, k - 1, rs, e) && r !in rs {
      SumDisjoint(d, HeldBy(net, k, rs), {e}, |d|);
      SumSingle(d, e, |d|);
    } else {
      assert HeldBy(net, k - 1, rs) == HeldBy(net, k, rs);
    }
  }

  lemma HeldBefore(net: Net, k: nat, rs: set<nat>)
    requires ValidNet(net) && 0 < k <= |net.owners|
    ensures var e, r := net.owners[k - 1], net.ranks[k - 1];
            && HeldBy(net, k - 1, rs) == HeldBy(net, k, rs) + (if Held(net, k - 1, rs, e) then {e} else {})
            && (e in HeldBy(net, k, rs) <==> Held(net, k - 1, rs, e) && r in rs)
  {
    var e := net.owners[k - 1];
    forall g | 0 <= g < net.demands && g != e ensures Held(net, k - 1, rs, g) <==> Held(net, k, rs, g) {
    }
    assert Held(net, k, rs, e) ==> Held(net, k - 1, rs, e);
  }

  /** Taking what some set is short of, and at least what every set is short of, leaves room for the rest. */
  lemma TakeLeavesRoom(net: Net, k: nat, d: seq<real>, cap: seq<real>, x: real, a: set<nat>, rs: set<nat>)
    requires Sized(net, k, d, cap) && k > 0 && HasRoom(net, k, d, cap)
    requires Within(a, net.width) && x == Shortfall(net, k, d, cap, a)
    requires Within(rs, net.width) && Shortfall(net, k, d, cap, rs) <= x
    ensures 0.0 <= x <= d[net.owners[k - 1]]
    ensures var e, r := net.owners[k - 1], net.ranks[k - 1];
            var d', cap' := d[e := d[e] - x], cap[r := cap[r] - x];
            Sized(net, k - 1, d', cap') && Need(net, k - 1, d', cap', rs) <= SumIn(cap', rs, |cap|)
  {
    var e, r := net.owners[k - 1], net.ranks[k - 1];
    assert Need(net, k, d, cap, a) <= SumIn(cap, a, |cap|);
    assert Need(net, k, d, cap, rs) <= SumIn(cap, rs, |cap|);
    TakeChanges(net, k, d, cap, x, rs);
    if r in rs && !Held(net, k - 1, rs, e) && x > 0.0 {
      SetsShareRoom(net, k, d, cap, a, rs);
    }
  }

  /** The last slot takes the largest shortfall; the rest still has room. */
  lemma TakeShortfall(net: Net, k: nat, d: seq<real>, cap: seq<real>) returns (x: real)
    requires Sized(net, k, d, cap) && k > 0 && HasRoom(net, k, d, cap)
    ensures 0.0 <= x <= d[net.owners[k - 1]]
    ensures var e, r := net.owners[k - 1], net.ranks[k - 1];
            && Sized(net, k - 1, d[e := d[e] - x], cap[r := cap[r] - x])
            && HasRoom(net, k - 1, d[e := d[e] - x], cap[r := cap[r] - x])
  {
    var e, r := net.owners[k - 1], net.ranks[k - 1];
    hide Need, Shortfall, SumIn;
    var short := (rs: set<nat>) => if Sized(net, k, d, cap) && k > 0 then Shortfall(net, k, d, cap, rs) else 0.0;
    x := Largest(short, {}, net.width);
    var a := LargestAttained(short, {}, net.width);
    assert {} + a == a;
    forall rs | Within(rs, net.width)
      ensures 0.0 <= x <= d[e] && Sized(net, k - 1, d[e := d[e] - x], cap[r := cap[r] - x])
      ensures Need(net, k - 1, d[e := d[e] - x], cap[r := cap[r] - x], rs)
              <= SumIn(cap[r := cap[r] - x], rs, |cap|)
    {
      LargestBounds(short, {}, net.width, rs);
      assert {} + rs == rs;
      TakeLeavesRoom(net, k, d, cap, x, a, rs);
    }
    assert Within(a, net.width);
  }

  // ---------- All slots ----------

  /** The demands all met within the room, over the first `k` slots. */
  ghost predicate Fills(net: Net, k: nat, d: seq<real>, cap: seq<real>, mass: seq<real>)
    requires Sized(net, k, d, cap)
  {
    && |mass| == k && (forall p :: 0 <= p < k ==> mass[p] >= 0.0)
    && (forall e :: 0 <= e < |d| ==> SumIn(mass, Group(net.owners, e), k) == d[e])
    && (forall r :: 0 <= r < |cap| ==> SumIn(mass, Group(net.ranks, r), k) <= cap[r])
  }

  /** Without slots, nothing is left to place and no room is owed. */
  lemma NothingLeft(net: Net, d: seq<real>, cap: seq<real>)
    requires Sized(net, 0, d, cap) && HasRoom(net, 0, d, cap)
    ensures Fills(net, 0, d, cap, [])
  {
    forall e | 0 <= e < |d| ensures d[e] == 0.0 {
      assert Need(net, 0, d, cap, {}) <= SumIn(cap, {}, |cap|);
      SumEmpty(cap, |cap|);
      SumSingle(d, e, |d|);
      SumMonotone(d, {e}, d, HeldBy(net, 0, {}), |d|);
    }
    forall r | 0 <= r < |cap| ensures cap[r] >= 0.0 {
      assert Need(net, 0, d, cap, {r}) <= SumIn(cap, {r}, |cap|);
      SumSingle(cap, r, |cap|);
      SumEmpty(d, |d|);
      SumMonotone(d, {}, d, HeldBy(net, 0, {r}), |d|);
    }
  }

  lemma SumSnoc(xs: seq<real>, x: real, s: set<nat>)
    ensures SumIn(xs + [x], s, |xs| + 1) == SumIn(xs, s, |xs|) + if |xs| in s then x else 0.0
  {
    SumSame(xs + [x], s, xs, s, |xs|);
  }

  lemma FillOneMore(net: Net, k: nat, d: seq<real>, cap: seq<real>, x: real, rest: seq<real>)
    requires Sized(net, k, d, cap) && k > 0 && 0.0 <= x <= d[net.owners[k - 1]]
    requires var e, r := net.owners[k - 1], net.ranks[k - 1];
             && Sized(net, k - 1, d[e := d[e] - x], cap[r := cap[r] - x])
             && Fills(net, k - 1, d[e := d[e] - x], cap[r := cap[r] - x], rest)
    ensures Fills(net, k, d, cap, rest + [x])
  {
    forall e | 0 <= e < |d| ensures SumIn(rest + [x], Group(net.owners, e), k) == d[e] {
      SumSnoc(rest, x, Group(net.owners, e));
    }
    forall r | 0 <= r < |cap| ensures SumIn(rest + [x], Group(net.ranks, r), k) <= cap[r] {
      SumSnoc(rest, x, Group(net.ranks, r));
    }
  }

  /** With room for every set of ranks, all demands can be met. */
  lemma {:induction false} Fill(net: Net, k: nat, d: seq<real>, cap: seq<real>) returns (mass: seq<real>)
    requires Sized(net, k, d, cap) && HasRoom(net, k, d, cap)
    ensures Fills(net, k, d, cap, mass)
    decreases k
  {
    if k == 0 {
      NothingLeft(net, d, cap);
      mass := [];
    } else {
      hide HasRoom, Fills;
      var x := TakeShortfall(net, k, d, cap);
      var e, r := net.owners[k - 1], net.ranks[k - 1];
      var rest := Fill(net, k - 1, d[e := d[e] - x], cap[r := cap[r] - x]);
      FillOneMore(net, k, d, cap, x, rest);
      mass := rest + [x];
    }
  }
}
