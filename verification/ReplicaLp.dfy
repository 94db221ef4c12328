/**
 The replica-mass linear program (benchmark/eplb/prepare_static_lp.py): spread each logical
 expert's demand over its physical replicas so that the busiest rank carries as little as
 possible.  Reals stand for floating point, and the solver is known by its contract only.
 */
module ReplicaLp {
  import opened Arithmetic
  import opened Sums
  import opened Transport

  /** One layer: the logical expert of each physical slot. */
  datatype Layout = Layout(owners: seq<nat>, numLogical: nat, epSize: nat)

  /** What validation and the replica check let through. */
  ghost predicate ValidLayout(l: Layout) {
    && l.epSize > 0 && l.numLogical > 0 && |l.owners| > 0 && |l.owners| % l.epSize == 0
    && (forall p :: 0 <= p < |l.owners| ==> l.owners[p] < l.numLogical)
    && (forall e :: 0 <= e < l.numLogical ==> e in l.owners)
  }

  function NumLocal(l: Layout): nat
    requires l.epSize > 0
  {
    |l.owners| / l.epSize
  }

  /** The rank of each physical slot: consecutive blocks of the same size. */
  function Ranks(l: Layout): (k: seq<nat>)
    requires l.epSize > 0 && NumLocal(l) > 0
    ensures |k| == |l.owners|
  {
    seq(|l.owners|, p requires 0 <= p < |l.owners| => p / NumLocal(l))
  }

  lemma BlocksDivide(l: Layout)
    requires ValidLayout(l)
    ensures NumLocal(l) > 0 && NumLocal(l) * l.epSize == |l.owners|
  {
  }

  lemma QuotientBelow(p: nat, a: nat, b: nat)
    requires p < a * b && a > 0
    ensures p / a < b
  {
  }

  lemma RanksInRange(l: Layout)
    requires ValidLayout(l)
    ensures NumLocal(l) > 0 && forall p :: 0 <= p < |l.owners| ==> Ranks(l)[p] < l.epSize
  {
    BlocksDivide(l);
    forall p | 0 <= p < |l.owners| ensures Ranks(l)[p] < l.epSize {
      QuotientBelow(p, NumLocal(l), l.epSize);
    }
  }

  /** What each rank carries. */
  function Loads(l: Layout, mass: seq<real>): seq<real>
    requires l.epSize > 0 && NumLocal(l) > 0 && |mass| == |l.owners|
  {
    Totals(mass, Ranks(l), l.epSize)
  }

  /** What each expert gets. */
  function Served(l: Layout, mass: seq<real>): seq<real>
    requires |mass| == |l.owners|
  {
    Totals(mass, l.owners, l.numLogical)
  }

  ghost predicate Nonnegative(xs: seq<real>) {
    forall i :: 0 <= i < |xs| ==> xs[i] >= 0.0
  }

  ghost predicate AtMost(xs: seq<real>, t: real) {
    forall i :: 0 <= i < |xs| ==> xs[i] <= t
  }

  // ---------- The program ----------

  /** The constraints: every demand met exactly, no rank above `t`, nothing negative. */
  ghost predicate Feasible(l: Layout, demand: seq<real>, mass: seq<real>, t: real)
    requires ValidLayout(l) && |demand| == l.numLogical
  {
    BlocksDivide(l);
    && |mass| == |l.owners| && Nonnegative(mass) && t >= 0.0
    && Served(l, mass) == demand && AtMost(Loads(l, mass), t)
  }

  ghost predicate Optimal(l: Layout, demand: seq<real>, mass: seq<real>, t: real)
    requires ValidLayout(l) && |demand| == l.numLogical
  {
    Feasible(l, demand, mass, t)
    && forall m, u :: Feasible(l, demand, m, u) ==> t <= u
  }

  // ---------- The uniform split is feasible ----------

  function Copies(l: Layout, e: nat): nat {
    CountIn(Group(l.owners, e), |l.owners|)
  }

  lemma {:induction false} CountPositive(s: set<nat>, n: nat, p: nat)
    requires p in s && p < n
    ensures CountIn(s, n) > 0
    decreases n
  {
    if p < n - 1 {
      CountPositive(s, n - 1, p);
    }
  }

  lemma HasCopy(l: Layout, e: nat)
    ensures Copies(l, e) > 0 <==> e in l.owners
  {
    if e in l.owners {
      var p :| 0 <= p < |l.owners| && l.owners[p] == e;
      CountPositive(Group(l.owners, e), |l.owners|, p);
    } else {
      assert Group(l.owners, e) == {};
      CountIsSize({}, |l.owners|);
    }
  }

  /** The demand of each slot's expert, divided among its copies. */
  function Uniform(l: Layout, demand: seq<real>): (u: seq<real>)
    requires ValidLayout(l) && |demand| == l.numLogical
    ensures |u| == |l.owners|
  {
    seq(|l.owners|, p requires 0 <= p < |l.owners| =>
      HasCopy(l, l.owners[p]);
      demand[l.owners[p]] / Copies(l, l.owners[p]) as real)
  }

  lemma UniformServes(l: Layout, demand: seq<real>)
    requires ValidLayout(l) && |demand| == l.numLogical && Nonnegative(demand)
    ensures Served(l, Uniform(l, demand)) == demand && Nonnegative(Uniform(l, demand))
  {
    var u := Uniform(l, demand);
    forall e | 0 <= e < l.numLogical ensures Served(l, u)[e] == demand[e] {
      HasCopy(l, e);
      SumConstant(u, Group(l.owners, e), |u|, demand[e] / Copies(l, e) as real);
    }
    forall p | 0 <= p < |u| ensures u[p] >= 0.0 {
      HasCopy(l, l.owners[p]);
      QuotientNonnegative(demand[l.owners[p]], Copies(l, l.owners[p]) as real);
    }
  }

  // ---------- The largest entry ----------

  function MaxOf(xs: seq<real>): (m: real)
    requires xs != []
    ensures m in xs && AtMost(xs, m)
  {
    if |xs| == 1 then xs[0]
    else
      var m := MaxOf(xs[..|xs| - 1]);
      if m >= xs[|xs| - 1] then m else xs[|xs| - 1]
  }

  lemma LoadsNonnegative(l: Layout, mass: seq<real>)
    requires ValidLayout(l) && |mass| == |l.owners| && Nonnegative(mass)
    ensures NumLocal(l) > 0 && Nonnegative(Loads(l, mass))
  {
    BlocksDivide(l);
    forall r | 0 <= r < l.epSize ensures Loads(l, mass)[r] >= 0.0 {
      SumEmpty(mass, |mass|);
      SumMonotone(mass, {}, mass, Group(Ranks(l), r), |mass|);
    }
  }

  lemma MaxFeasible(l: Layout, demand: seq<real>, mass: seq<real>)
    requires ValidLayout(l) && |demand| == l.numLogical && |mass| == |l.owners|
    requires Nonnegative(mass) && Served(l, mass) == demand
    ensures NumLocal(l) > 0 && Feasible(l, demand, mass, MaxOf(Loads(l, mass)))
  {
    BlocksDivide(l);
    LoadsNonnegative(l, mass);
  }

  /** The program always has a solution, and an exact minimiser is no worse than the uniform split. */
  lemma UniformIsFeasible(l: Layout, demand: seq<real>)
    requires ValidLayout(l) && |demand| == l.numLogical && Nonnegative(demand)
    ensures NumLocal(l) > 0 && Feasible(l, demand, Uniform(l, demand), MaxOf(Loads(l, Uniform(l, demand))))
    ensures forall m, t :: Optimal(l, demand, m, t) ==>
              t == MaxOf(Loads(l, m)) <= MaxOf(Loads(l, Uniform(l, demand)))
  {
    UniformServes(l, demand);
    MaxFeasible(l, demand, Uniform(l, demand));
    forall m, t | Optimal(l, demand, m, t)
      ensures t == MaxOf(Loads(l, m)) <= MaxOf(Loads(l, Uniform(l, demand)))
    {
      MaxFeasible(l, demand, m);
      assert MaxOf(Loads(l, m)) in Loads(l, m);
    }
  }

  // ---------- The lower bound ----------

  /** All replicas of `e` are on ranks of `rs`. */
  ghost predicate Confined(l: Layout, rs: set<nat>, e: nat)
    requires l.epSize > 0 && NumLocal(l) > 0
  {
    forall p :: 0 <= p < |l.owners| && l.owners[p] == e ==> Ranks(l)[p] in rs
  }

  ghost function ConfinedExperts(l: Layout, rs: set<nat>): set<nat>
    requires l.epSize > 0 && NumLocal(l) > 0
  {
    set e | 0 <= e < l.numLogical && Confined(l, rs, e)
  }

  /** Demand that no layout of mass can move off the ranks of `rs`. */
  ghost function ConfinedDemand(l: Layout, demand: seq<real>, rs: set<nat>): real
    requires l.epSize > 0 && NumLocal(l) > 0 && |demand| == l.numLogical
  {
    SumIn(demand, ConfinedExperts(l, rs), l.numLogical)
  }

  /** The ranks of `rs` carry at least what their confined experts are served. */
  lemma RanksCarryConfined(l: Layout, mass: seq<real>, rs: set<nat>)
    requires ValidLayout(l) && |mass| == |l.owners| && Nonnegative(mass)
    ensures NumLocal(l) > 0
    ensures SumIn(Served(l, mass), ConfinedExperts(l, rs), l.numLogical) <= SumIn(Loads(l, mass), rs, l.epSize)
  {
    RanksInRange(l);
    var es := ConfinedExperts(l, rs);
    SumOfTotals(mass, l.owners, l.numLogical, es, l.numLogical);
    SumOfTotals(mass, Ranks(l), l.epSize, rs, l.epSize);
    forall p | 0 <= p < |mass|
      ensures p in Members(l.owners, es, l.numLogical) ==> p in Members(Ranks(l), rs, l.epSize)
    {
      if p in Members(l.owners, es, l.numLogical) {
        assert Confined(l, rs, l.owners[p]);
      }
    }
    SumMonotone(mass, Members(l.owners, es, l.numLogical), mass, Members(Ranks(l), rs, l.epSize), |mass|);
  }

  ghost predicate RankSet(l: Layout, rs: set<nat>) {
    rs != {} && forall r :: r in rs ==> r < l.epSize
  }

  lemma LoadsAtMost(l: Layout, mass: seq<real>, rs: set<nat>, t: real)
    requires ValidLayout(l) && |mass| == |l.owners| && RankSet(l, rs)
    requires NumLocal(l) > 0 && AtMost(Loads(l, mass), t)
    ensures SumIn(Loads(l, mass), rs, l.epSize) <= t * |rs| as real
  {
    SumAtMost(Loads(l, mass), rs, l.epSize, t);
    CountIsSize(rs, l.epSize);
  }

  /** No solution does better than the confined demand per rank, for any set of ranks. */
  lemma ConfinedDemandBound(l: Layout, demand: seq<real>, mass: seq<real>, t: real, rs: set<nat>)
    requires ValidLayout(l) && |demand| == l.numLogical && RankSet(l, rs)
    requires Feasible(l, demand, mass, t)
    ensures NumLocal(l) > 0 && ConfinedDemand(l, demand, rs) <= t * |rs| as real
  {
    RanksCarryConfined(l, mass, rs);
    LoadsAtMost(l, mass, rs, t);
  }

  // ---------- The bound is attained ----------

  /** No set of ranks has more demand confined to it than `t` per rank. */
  ghost predicate EnoughPerRank(l: Layout, demand: seq<real>, t: real)
    requires l.epSize > 0 && NumLocal(l) > 0 && |demand| == l.numLogical
  {
    forall rs :: RankSet(l, rs) ==> ConfinedDemand(l, demand, rs) <= t * |rs| as real
  }

  ghost function NetOf(l: Layout): (net: Net)
    requires ValidLayout(l)
    ensures ValidNet(net)
  {
    RanksInRange(l);
    Net(l.owners, Ranks(l), l.numLogical, l.epSize)
  }

  /** The same room on every rank. */
  function Level(n: nat, t: real): (cap: seq<real>)
    ensures |cap| == n && forall r :: 0 <= r < n ==> cap[r] == t
  {
    seq(n, _ => t)
  }

  lemma HeldIsConfined(l: Layout, demand: seq<real>, cap: seq<real>, rs: set<nat>)
    requires ValidLayout(l) && Sized(NetOf(l), |l.owners|, demand, cap) && NumLocal(l) > 0
    ensures Need(NetOf(l), |l.owners|, demand, cap, rs) == ConfinedDemand(l, demand, rs)
    ensures rs == {} ==> ConfinedDemand(l, demand, rs) == 0.0
  {
    assert HeldBy(NetOf(l), |l.owners|, rs) == ConfinedExperts(l, rs);
    if rs == {} {
      forall e | 0 <= e < l.numLogical ensures !Confined(l, rs, e) {
        assert e in l.owners;
        var p :| 0 <= p < |l.owners| && l.owners[p] == e;
      }
      assert ConfinedExperts(l, rs) == {};
      SumEmpty(demand, l.numLogical);
    }
  }

  lemma RoomPerRank(l: Layout, demand: seq<real>, t: real)
    requires ValidLayout(l) && |demand| == l.numLogical && Nonnegative(demand) && NumLocal(l) > 0
    requires EnoughPerRank(l, demand, t)
    ensures var cap := Level(l.epSize, t);
            Sized(NetOf(l), |l.owners|, demand, cap) && HasRoom(NetOf(l), |l.owners|, demand, cap)
  {
    var cap := Level(l.epSize, t);
    hide Need, SumIn, CountIn, NumLocal, Ranks, ConfinedDemand;
    forall rs | Within(rs, l.epSize)
      ensures Need(NetOf(l), |l.owners|, demand, cap, rs) <= SumIn(cap, rs, |cap|)
    {
      HeldIsConfined(l, demand, cap, rs);
      SumConstant(cap, rs, |cap|, t);
      CountIsSize(rs, |cap|);
    }
  }

  /** A mass that fills the slots of a layout meets the constraints. */
  lemma FilledIsFeasible(l: Layout, demand: seq<real>, mass: seq<real>, t: real)
    requires ValidLayout(l) && |demand| == l.numLogical && t >= 0.0
    requires var cap := Level(l.epSize, t);
             Sized(NetOf(l), |l.owners|, demand, cap) && Fills(NetOf(l), |l.owners|, demand, cap, mass)
    ensures Feasible(l, demand, mass, t)
  {
    BlocksDivide(l);
    assert forall e :: 0 <= e < l.numLogical ==> Served(l, mass)[e] == demand[e];
    assert forall r :: 0 <= r < l.epSize ==> Loads(l, mass)[r] <= Level(l.epSize, t)[r];
  }

  /** A common bound can be met exactly when every set of ranks allows it. */
  lemma FeasibleIff(l: Layout, demand: seq<real>, t: real)
    requires ValidLayout(l) && |demand| == l.numLogical && Nonnegative(demand)
    ensures NumLocal(l) > 0
    ensures (exists mass :: Feasible(l, demand, mass, t)) <==> t >= 0.0 && EnoughPerRank(l, demand, t)
  {
    BlocksDivide(l);
    hide NumLocal, Ranks, SumIn, ConfinedDemand;
    if t >= 0.0 && EnoughPerRank(l, demand, t) {
      RoomPerRank(l, demand, t);
      var mass := Fill(NetOf(l), |l.owners|, demand, Level(l.epSize, t));
      FilledIsFeasible(l, demand, mass, t);
    }
    forall mass, rs | Feasible(l, demand, mass, t) && RankSet(l, rs)
      ensures ConfinedDemand(l, demand, rs) <= t * |rs| as real
    {
      ConfinedDemandBound(l, demand, mass, t, rs);
    }
  }

  /** The confined demand per rank; the empty set counts below every other. */
  ghost function PerRank(l: Layout, demand: seq<real>, rs: set<nat>): real {
    if ValidLayout(l) && |demand| == l.numLogical && rs != {} then
      BlocksDivide(l);
      ConfinedDemand(l, demand, rs) / |rs| as real
    else -1.0
  }

  lemma PerRankTimes(l: Layout, demand: seq<real>, rs: set<nat>, t: real)
    requires ValidLayout(l) && |demand| == l.numLogical && rs != {} && NumLocal(l) > 0
    ensures PerRank(l, demand, rs) <= t <==> ConfinedDemand(l, demand, rs) <= t * |rs| as real
    ensures PerRank(l, demand, rs) == t <==> ConfinedDemand(l, demand, rs) == t * |rs| as real
  {
    QuotientCompares(ConfinedDemand(l, demand, rs), |rs| as real, t);
  }

  lemma ConfinedNonnegative(l: Layout, demand: seq<real>, rs: set<nat>)
    requires l.epSize > 0 && NumLocal(l) > 0 && |demand| == l.numLogical && Nonnegative(demand)
    ensures ConfinedDemand(l, demand, rs) >= 0.0
  {
    SumEmpty(demand, l.numLogical);
    SumMonotone(demand, {}, demand, ConfinedExperts(l, rs), l.numLogical);
  }

  /** The largest share over all sets of ranks. */
  ghost function WorstShare(l: Layout, demand: seq<real>): real {
    Largest(rs => PerRank(l, demand, rs), {}, l.epSize)
  }

  lemma ShareBounded(l: Layout, demand: seq<real>, rs: set<nat>)
    requires Within(rs, l.epSize)
    ensures PerRank(l, demand, rs) <= WorstShare(l, demand)
  {
    hide PerRank;
    LargestBounds(ss => PerRank(l, demand, ss), {}, l.epSize, rs);
    assert {} + rs == rs;
  }

  lemma ShareAttained(l: Layout, demand: seq<real>) returns (rs: set<nat>)
    ensures Within(rs, l.epSize) && PerRank(l, demand, rs) == WorstShare(l, demand)
  {
    hide PerRank;
    rs := LargestAttained(ss => PerRank(l, demand, ss), {}, l.epSize);
    assert {} + rs == rs;
  }

  /** The worst share bounds every set of ranks, and some set has it. */
  lemma WorstPerRank(l: Layout, demand: seq<real>) returns (rs: set<nat>)
    requires ValidLayout(l) && |demand| == l.numLogical && Nonnegative(demand)
    ensures NumLocal(l) > 0 && WorstShare(l, demand) >= 0.0 && EnoughPerRank(l, demand, WorstShare(l, demand))
    ensures RankSet(l, rs) && WorstShare(l, demand) * |rs| as real == ConfinedDemand(l, demand, rs)
  {
    BlocksDivide(l);
    var t := WorstShare(l, demand);
    assert PerRank(l, demand, {}) == -1.0;
    hide NumLocal, ConfinedDemand, PerRank, WorstShare;
    rs := ShareAttained(l, demand);
    SingleShare(l, demand);
    PerRankTimes(l, demand, rs, t);
    forall ss | RankSet(l, ss) ensures ConfinedDemand(l, demand, ss) <= t * |ss| as real {
      ShareBounded(l, demand, ss);
      PerRankTimes(l, demand, ss, t);
    }
  }

  lemma SingleShare(l: Layout, demand: seq<real>)
    requires ValidLayout(l) && |demand| == l.numLogical && Nonnegative(demand)
    ensures WorstShare(l, demand) >= 0.0
  {
    BlocksDivide(l);
    ShareBounded(l, demand, {0});
    ConfinedNonnegative(l, demand, {0});
    hide WorstShare, ConfinedDemand;
  }

  /**
   The program has an exact minimiser, and its value is the worst confined demand per rank:
   the lower bound is met for some set of ranks.
   */
  lemma MinimumIsConfinedDemand(l: Layout, demand: seq<real>) returns (mass: seq<real>, t: real, rs: set<nat>)
    requires ValidLayout(l) && |demand| == l.numLogical && Nonnegative(demand)
    ensures Optimal(l, demand, mass, t) && t == WorstShare(l, demand)
    ensures NumLocal(l) > 0 && RankSet(l, rs) && t * |rs| as real == ConfinedDemand(l, demand, rs)
    ensures EnoughPerRank(l, demand, t)
  {
    t := WorstShare(l, demand);
    rs := WorstPerRank(l, demand);
    hide WorstShare, NumLocal, ConfinedDemand, EnoughPerRank, Feasible;
    FeasibleIff(l, demand, t);
    mass :| Feasible(l, demand, mass, t);
    forall m, u | Feasible(l, demand, m, u) ensures t <= u {
      ConfinedDemandBound(l, demand, m, u, rs);
      PerRankTimes(l, demand, rs, t);
      PerRankTimes(l, demand, rs, u);
    }
  }

  lemma ServedNonnegative(l: Layout, mass: seq<real>)
    requires |mass| == |l.owners| && Nonnegative(mass)
    ensures Nonnegative(Served(l, mass))
  {
    forall e | 0 <= e < l.numLogical ensures Served(l, mass)[e] >= 0.0 {
      SumEmpty(mass, |mass|);
      SumMonotone(mass, {}, mass, Group(l.owners, e), |mass|);
    }
  }

  lemma OptimalValue(l: Layout, demand: seq<real>, mass: seq<real>, t: real)
    requires ValidLayout(l) && |demand| == l.numLogical && Optimal(l, demand, mass, t)
    ensures t == WorstShare(l, demand) && Nonnegative(demand)
  {
    ServedNonnegative(l, mass);
    var m, u, _ := MinimumIsConfinedDemand(l, demand);
    hide Feasible, WorstShare;
    assert Feasible(l, demand, mass, t) && Feasible(l, demand, m, u);
  }

  /** Any exact minimiser has that value. */
  lemma OptimumIsConfinedDemand(l: Layout, demand: seq<real>, mass: seq<real>, t: real)
    returns (rs: set<nat>)
    requires ValidLayout(l) && |demand| == l.numLogical && Optimal(l, demand, mass, t)
    ensures NumLocal(l) > 0 && RankSet(l, rs) && t * |rs| as real == ConfinedDemand(l, demand, rs)
    ensures forall ss :: RankSet(l, ss) ==> ConfinedDemand(l, demand, ss) <= t * |ss| as real
  {
    OptimalValue(l, demand, mass, t);
    hide WorstShare, Optimal, ConfinedDemand, NumLocal;
    rs := WorstPerRank(l, demand);
  }

  // ---------- Accepted results, within tolerance ----------

  const TOLERANCE: real := 0.0000001

  /** What the residual and sign tests let through. */
  ghost predicate Accepted(l: Layout, demand: seq<real>, mass: seq<real>)
    requires |demand| == l.numLogical
  {
    && |mass| == |l.owners| && Nonnegative(mass)
    && forall e :: 0 <= e < l.numLogical ==> -TOLERANCE <= Served(l, mass)[e] - demand[e] <= TOLERANCE
  }

  lemma {:induction false} ServedNearDemand(l: Layout, demand: seq<real>, mass: seq<real>, es: set<nat>, n: nat)
    requires |demand| == l.numLogical && Accepted(l, demand, mass) && n <= l.numLogical
    ensures -TOLERANCE * CountIn(es, n) as real <= SumIn(Served(l, mass), es, n) - SumIn(demand, es, n)
    ensures SumIn(Served(l, mass), es, n) - SumIn(demand, es, n) <= TOLERANCE * CountIn(es, n) as real
    decreases n
  {
    if n > 0 {
      ServedNearDemand(l, demand, mass, es, n - 1);
    }
  }

  lemma BusiestCarries(l: Layout, mass: seq<real>, rs: set<nat>)
    requires ValidLayout(l) && |mass| == |l.owners| && RankSet(l, rs) && NumLocal(l) > 0
    ensures |Loads(l, mass)| == l.epSize
    ensures SumIn(Loads(l, mass), rs, l.epSize) <= MaxOf(Loads(l, mass)) * |rs| as real
  {
    assert |Loads(l, mass)| == l.epSize;
    hide SumIn, Loads;
    LoadsAtMost(l, mass, rs, MaxOf(Loads(l, mass)));
  }

  /** The bound survives the tolerance, at one tolerance per confined expert. */
  lemma AcceptedBound(l: Layout, demand: seq<real>, mass: seq<real>, rs: set<nat>)
    requires ValidLayout(l) && |demand| == l.numLogical && RankSet(l, rs) && Accepted(l, demand, mass)
    ensures NumLocal(l) > 0
    ensures ConfinedDemand(l, demand, rs) - TOLERANCE * |ConfinedExperts(l, rs)| as real
            <= MaxOf(Loads(l, mass)) * |rs| as real
  {
    assert |mass| == |l.owners| && Nonnegative(mass);
    hide SumIn, CountIn, Loads, Served, ConfinedExperts, Accepted;
    RanksCarryConfined(l, mass, rs);
    BusiestCarries(l, mass, rs);
    ServedNearDemand(l, demand, mass, ConfinedExperts(l, rs), l.numLogical);
    ConfinedCount(l, rs);
  }

  lemma ConfinedCount(l: Layout, rs: set<nat>)
    requires l.epSize > 0 && NumLocal(l) > 0
    ensures CountIn(ConfinedExperts(l, rs), l.numLogical) == |ConfinedExperts(l, rs)|
  {
    CountIsSize(ConfinedExperts(l, rs), l.numLogical);
  }

  /** Every index below `n`. */
  function Below(n: nat): (s: set<nat>)
    ensures forall i: nat :: i in s <==> i < n
  {
    if n == 0 then {} else Below(n - 1) + {n - 1}
  }

  lemma {:induction false} SumIsSumIn(xs: seq<real>, s: set<nat>, n: nat)
    requires n <= |xs| && forall i :: 0 <= i < n ==> i in s
    ensures Total(xs[..n]) == SumIn(xs, s, n)
    ensures CountIn(s, n) == n
    decreases n
  {
    if n > 0 {
      SumIsSumIn(xs, s, n - 1);
      assert xs[..n][..n - 1] == xs[..n - 1];
    }
  }

  lemma AllServed(l: Layout, mass: seq<real>)
    requires ValidLayout(l) && |mass| == |l.owners|
    ensures SumIn(Served(l, mass), Below(l.numLogical), l.numLogical) == Total(mass)
  {
    var all := Below(l.numLogical);
    SumOfTotals(mass, l.owners, l.numLogical, all, l.numLogical);
    SumIsSumIn(mass, Below(|mass|), |mass|);
    assert mass[..|mass|] == mass;
    assert Members(l.owners, all, l.numLogical) == Below(|mass|);
  }

  lemma AllDemanded(demand: seq<real>)
    ensures SumIn(demand, Below(|demand|), |demand|) == Total(demand)
    ensures CountIn(Below(|demand|), |demand|) == |demand| == |Below(|demand|)|
  {
    SumIsSumIn(demand, Below(|demand|), |demand|);
    CountIsSize(Below(|demand|), |demand|);
    assert demand[..|demand|] == demand;
  }

  /** On all ranks together, every expert is confined. */
  lemma AllConfined(l: Layout)
    requires ValidLayout(l)
    ensures NumLocal(l) > 0 && RankSet(l, Below(l.epSize)) && |Below(l.epSize)| == l.epSize
    ensures ConfinedExperts(l, Below(l.epSize)) == Below(l.numLogical)
  {
    RanksInRange(l);
    assert 0 in Below(l.epSize);
    forall e | 0 <= e < l.numLogical ensures Confined(l, Below(l.epSize), e) {
    }
    SumIsSumIn(seq(l.epSize, _ => 0.0), Below(l.epSize), l.epSize);
    CountIsSize(Below(l.epSize), l.epSize);
  }

  /** With demands that sum to 1, the accepted mass is within the tolerances of 1, and so is the fair share. */
  lemma AcceptedTotal(l: Layout, demand: seq<real>, mass: seq<real>)
    requires ValidLayout(l) && |demand| == l.numLogical && Accepted(l, demand, mass) && Total(demand) == 1.0
    ensures NumLocal(l) > 0
    ensures -TOLERANCE * l.numLogical as real <= Total(mass) - 1.0 <= TOLERANCE * l.numLogical as real
    ensures 1.0 - TOLERANCE * l.numLogical as real <= MaxOf(Loads(l, mass)) * l.epSize as real
  {
    hide SumIn, CountIn, Loads, Served, ConfinedExperts, Total, Below, ValidLayout;
    assert |mass| == |l.owners|;
    ServedNearDemand(l, demand, mass, Below(l.numLogical), l.numLogical);
    AllServed(l, mass);
    AllDemanded(demand);
    AllConfined(l);
    AcceptedBound(l, demand, mass, Below(l.epSize));
  }
}
