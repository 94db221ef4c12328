/**
 The preparation script around the program (benchmark/eplb/prepare_static_lp.py): validation,
 the constraint matrices written in place, and the per-layer loop with its checks.
 */
module StaticLp {
  import opened Arithmetic
  import opened Options
  import opened Sums
  import opened ReplicaLp
  import opened LayerPrograms

  datatype Error =
    | EmptyDimensions
    | LayerMismatch
    | UnevenRanks
    | OwnerOutOfRange
    | NegativeCounts
    | NoReplica(layer: nat)
    | SolverFailed(layer: nat)
    | InvalidResult(layer: nat)

  // ---------- Demands ----------

  /** What the shares add up to once scaled back: the sum of the counts, or their number if nothing was counted. */
  function Weight(counts: seq<real>): real {
    if Total(counts) != 0.0 then Total(counts) else |counts| as real
  }

  /** What expert `e` is owed on that scale. */
  function Owed(counts: seq<real>, e: nat): real
    requires e < |counts|
  {
    if Total(counts) != 0.0 then counts[e] else 1.0
  }

  /** A share on the scale of the counts. */
  function OnScale(share: real, counts: seq<real>): real { share * Weight(counts) }

  ghost predicate Shares(counts: seq<real>, d: seq<real>) {
    |d| == |counts| && forall e :: 0 <= e < |counts| ==> OnScale(d[e], counts) == Owed(counts, e)
  }

  /** Counts as shares of their sum; equal shares when nothing was counted. */
  function Demand(counts: seq<real>): (d: seq<real>)
    requires counts != []
    ensures Shares(counts, d)
  {
    if Total(counts) != 0.0 then seq(|counts|, e requires 0 <= e < |counts| => counts[e] / Total(counts))
    else seq(|counts|, e requires 0 <= e < |counts| => 1.0 / |counts| as real)
  }

  lemma {:induction false} SumDivided(xs: seq<real>, ys: seq<real>, d: real, n: nat)
    requires d != 0.0 && n <= |xs| && n <= |ys| && forall i :: 0 <= i < n ==> ys[i] == xs[i] / d
    ensures Total(ys[..n]) == Total(xs[..n]) / d
    decreases n
  {
    if n > 0 {
      SumDivided(xs, ys, d, n - 1);
      assert xs[..n][..n - 1] == xs[..n - 1] && ys[..n][..n - 1] == ys[..n - 1];
    }
  }

  lemma {:induction false} SumOnes(n: nat)
    ensures Total(seq(n, _ => 1.0)) == n as real
    decreases n
  {
    if n > 0 {
      SumOnes(n - 1);
      assert seq(n, _ => 1.0)[..n - 1] == seq(n - 1, _ => 1.0);
    }
  }

  lemma {:induction false} SumNonnegative(xs: seq<real>)
    requires Nonnegative(xs)
    ensures Total(xs) >= 0.0
    decreases |xs|
  {
    if xs != [] {
      SumNonnegative(xs[..|xs| - 1]);
    }
  }

  lemma DemandIsDistribution(counts: seq<real>)
    requires counts != [] && Nonnegative(counts)
    ensures Nonnegative(Demand(counts)) && Total(Demand(counts)) == 1.0
  {
    var d, n := Demand(counts), |counts|;
    SumNonnegative(counts);
    assert d[..n] == d && counts[..n] == counts;
    if Total(counts) != 0.0 {
      SumDivided(counts, d, Total(counts), n);
      QuotientOne(Total(counts));
      forall e | 0 <= e < n ensures d[e] >= 0.0 {
        QuotientNonnegative(counts[e], Total(counts));
      }
    } else {
      var ones := seq(n, _ => 1.0);
      SumOnes(n);
      assert ones[..n] == ones;
      SumDivided(ones, d, n as real, n);
      QuotientOne(n as real);
    }
  }

  // ---------- Reshaping into ranks ----------

  function BlockSum(xs: seq<real>, lo: nat, hi: nat): real
    requires lo <= hi <= |xs|
  {
    if lo == hi then 0.0 else BlockSum(xs, lo, hi - 1) + xs[hi - 1]
  }

  lemma {:induction false} SumOfBlock(xs: seq<real>, s: set<nat>, lo: nat, hi: nat, n: nat)
    requires lo <= hi <= |xs| && n <= |xs| && forall i :: 0 <= i < n ==> (i in s <==> lo <= i < hi)
    ensures SumIn(xs, s, n) == if n <= lo then 0.0 else BlockSum(xs, lo, if n < hi then n else hi)
    decreases n
  {
    if n > 0 {
      SumOfBlock(xs, s, lo, hi, n - 1);
    }
  }

  lemma QuotientIs(p: nat, a: nat, r: nat)
    requires a > 0
    ensures p / a == r <==> r * a <= p < r * a + a
  {
    var q := p / a;
    assert q * a <= p < q * a + a;
    if q < r {
      assert (q + 1) * a <= r * a;
    } else if r < q {
      assert (r + 1) * a <= q * a;
    }
  }

  lemma BlockEnd(a: nat, b: nat, r: nat)
    requires r < b
    ensures r * a + a <= b * a
  {
    assert (r + 1) * a <= b * a;
  }

  /** Row `r` of the mass reshaped to (ranks, local slots) sums to the load of rank `r`. */
  lemma ReshapeIsLoad(l: Layout, mass: seq<real>, r: nat)
    requires ValidLayout(l) && |mass| == |l.owners| && r < l.epSize
    ensures NumLocal(l) > 0 && r * NumLocal(l) + NumLocal(l) <= |mass|
    ensures Loads(l, mass)[r] == BlockSum(mass, r * NumLocal(l), r * NumLocal(l) + NumLocal(l))
  {
    BlocksDivide(l);
    var k := NumLocal(l);
    BlockEnd(k, l.epSize, r);
    forall i | 0 <= i < |mass| ensures i in Group(Ranks(l), r) <==> r * k <= i < r * k + k {
      QuotientIs(i, k, r);
    }
    SumOfBlock(mass, Group(Ranks(l), r), r * k, r * k + k, |mass|);
  }

  method RankShare(mass: seq<real>, lo: nat, hi: nat) returns (sum: real)
    requires lo <= hi <= |mass|
    ensures sum == BlockSum(mass, lo, hi)
  {
    sum := 0.0;
    for k := lo to hi
      invariant sum == BlockSum(mass, lo, k)
    {
      sum := sum + mass[k];
    }
  }

  method MaxRankShare(l: Layout, mass: seq<real>) returns (share: real)
    requires ValidLayout(l) && |mass| == |l.owners|
    ensures NumLocal(l) > 0 && share in Loads(l, mass) && AtMost(Loads(l, mass), share)
  {
    BlocksDivide(l);
    ghost var loads := Loads(l, mass);
    assert |loads| == l.epSize;
    ReshapeIsLoad(l, mass, 0);
    share := RankShare(mass, 0, NumLocal(l));
    for r := 1 to l.epSize
      invariant share in loads && forall s :: 0 <= s < r ==> loads[s] <= share
    {
      ReshapeIsLoad(l, mass, r);
      var sum := RankShare(mass, r * NumLocal(l), r * NumLocal(l) + NumLocal(l));
      assert sum == loads[r];
      if sum > share {
        share := sum;
      }
    }
  }

  // ---------- One layer ----------

  datatype Row = Row(mass: seq<real>, maxLp: real, maxUniform: real, residual: real)

  function Abs(x: real): real { if x >= 0.0 then x else -x }

  /** Validation, without the check that every expert has a replica. */
  ghost predicate Shaped(l: Layout) {
    && l.epSize > 0 && l.numLogical > 0 && |l.owners| > 0 && |l.owners| % l.epSize == 0
    && (forall p :: 0 <= p < |l.owners| ==> l.owners[p] < l.numLogical)
  }

  /** Counts the replicas of every logical expert. */
  method BinCount(l: Layout) returns (copies: seq<nat>)
    requires Shaped(l)
    ensures |copies| == l.numLogical && forall e :: 0 <= e < l.numLogical ==> copies[e] == Copies(l, e)
  {
    copies := seq(l.numLogical, _ => 0);
    for p := 0 to |l.owners|
      invariant |copies| == l.numLogical
      invariant forall e :: 0 <= e < l.numLogical ==> copies[e] == CountIn(Group(l.owners, e), p)
    {
      copies := copies[l.owners[p] := copies[l.owners[p]] + 1];
    }
  }

  /** By how much each demand is missed. */
  function Gaps(l: Layout, demand: seq<real>, mass: seq<real>): (gaps: seq<real>)
    requires |demand| == l.numLogical && |mass| == |l.owners|
    ensures |gaps| == l.numLogical
    ensures forall e :: 0 <= e < l.numLogical ==> gaps[e] == Abs(Served(l, mass)[e] - demand[e])
  {
    seq(l.numLogical, e requires 0 <= e < l.numLogical => Abs(Served(l, mass)[e] - demand[e]))
  }

  /** A row of a matrix times a vector. */
  method MultiplyRow(a: array2<real>, r: nat, x: seq<real>) returns (sum: real)
    requires r < a.Length0 && |x| <= a.Length1
    ensures sum == Dot(RowOf(a, r), x, |x|)
  {
    sum := 0.0;
    for j := 0 to |x|
      invariant sum == Dot(RowOf(a, r), x, j)
    {
      sum := sum + a[r, j] * x[j];
    }
  }

  /** The largest gap between the product with the matrix and the demand. */
  method Residual(equality: array2<real>, ghost l: Layout, demand: seq<real>, mass: seq<real>) returns (residual: real)
    requires l.numLogical > 0 && |demand| == l.numLogical && |mass| == |l.owners|
    requires EqualityRows(equality, l.owners, l.numLogical)
    ensures residual == MaxOf(Gaps(l, demand, mass))
  {
    hide Served, EqualityRow, Dot;
    EqualityDot(l, mass, 0.0, 0);
    var product := MultiplyRow(equality, 0, mass);
    residual := Abs(product - demand[0]);
    ghost var gaps := Gaps(l, demand, mass);
    for e := 1 to |demand|
      invariant residual in gaps && forall k :: 0 <= k < e ==> gaps[k] <= residual
    {
      EqualityDot(l, mass, 0.0, e);
      product := MultiplyRow(equality, e, mass);
      var gap := Abs(product - demand[e]);
      assert gap == gaps[e];
      if gap > residual {
        residual := gap;
      }
    }
    MaxUnique(gaps, residual);
  }

  lemma ResidualAccepts(l: Layout, demand: seq<real>, mass: seq<real>)
    requires l.numLogical > 0 && |demand| == l.numLogical && |mass| == |l.owners|
    ensures Accepted(l, demand, mass) <==> Nonnegative(mass) && MaxOf(Gaps(l, demand, mass)) <= TOLERANCE
  {
    var gaps := Gaps(l, demand, mass);
    assert gaps[0] <= MaxOf(gaps);
    if Accepted(l, demand, mass) {
      assert MaxOf(gaps) in gaps;
    } else if Nonnegative(mass) {
      var e :| 0 <= e < l.numLogical && !(-TOLERANCE <= Served(l, mass)[e] - demand[e] <= TOLERANCE);
      assert gaps[e] <= MaxOf(gaps);
    }
  }

  lemma MaxUnique(xs: seq<real>, m: real)
    requires xs != [] && m in xs && AtMost(xs, m)
    ensures m == MaxOf(xs)
  {
  }

  lemma ReplicaForEach(l: Layout, copies: seq<nat>)
    requires Shaped(l) && |copies| == l.numLogical
    requires forall e :: 0 <= e < l.numLogical ==> copies[e] == Copies(l, e)
    ensures (forall e :: 0 <= e < l.numLogical ==> copies[e] != 0) <==> ValidLayout(l)
  {
    forall e | 0 <= e < l.numLogical ensures copies[e] != 0 <==> e in l.owners {
      HasCopy(l, e);
    }
    if ValidLayout(l) {
    } else {
      assert exists e :: 0 <= e < l.numLogical && e !in l.owners;
    }
  }

  /** What the solver answers for a layer. */
  function Answer(l: Layout, counts: seq<real>, solver: Solver): Solution
    requires l.epSize > 0 && NumLocal(l) > 0 && |counts| == l.numLogical > 0
  {
    solver(LayerProgram(l, Demand(counts)))
  }

  /** What the loop over the layers is given. */
  ghost predicate LayerReady(l: Layout, counts: seq<real>) {
    Shaped(l) && |counts| == l.numLogical && Nonnegative(counts)
  }

  /** The complaint about a layer, if any. */
  ghost function Complaint(l: Layout, layer: nat, counts: seq<real>, solver: Solver): Option<Error>
    requires LayerReady(l, counts) && AnswersFit(solver)
  {
    if !ValidLayout(l) then Some(NoReplica(layer))
    else
      BlocksDivide(l);
      var answer := Answer(l, counts, solver);
      if answer.Failed? then Some(SolverFailed(layer))
      else if !Accepted(l, Demand(counts), answer.x[..|l.owners|]) then Some(InvalidResult(layer))
      else None
  }

  /** No residual, and a largest load equal to the worst share, no more than for the uniform split. */
  ghost predicate Best(l: Layout, demand: seq<real>, mass: seq<real>)
    requires ValidLayout(l) && NumLocal(l) > 0 && |demand| == l.numLogical
  {
    && Accepted(l, demand, mass) && MaxOf(Gaps(l, demand, mass)) == 0.0
    && MaxOf(Loads(l, mass)) == WorstShare(l, demand) <= MaxOf(Loads(l, Uniform(l, demand)))
  }

  // ---------- In terms of the counts ----------

  /** By how much an expert's mass, on the scale of the counts, misses what it is owed. */
  function CountGap(l: Layout, counts: seq<real>, mass: seq<real>, e: nat): real
    requires |mass| == |l.owners| && |counts| == l.numLogical && e < l.numLogical
  {
    Abs(OnScale(Served(l, mass)[e], counts) - Owed(counts, e))
  }

  /** What is owed to an expert is split evenly over its replicas. */
  ghost predicate SplitsEvenly(l: Layout, counts: seq<real>, u: seq<real>)
    requires |counts| == l.numLogical && forall p :: 0 <= p < |l.owners| ==> l.owners[p] < l.numLogical
  {
    && |u| == |l.owners|
    && forall p :: 0 <= p < |u| ==>
         if Total(counts) != 0.0 then u[p] * Copies(l, l.owners[p]) as real * Total(counts) == counts[l.owners[p]]
         else u[p] * Copies(l, l.owners[p]) as real * |counts| as real == 1.0
  }

  lemma WeightPositive(counts: seq<real>)
    requires counts != [] && Nonnegative(counts)
    ensures Weight(counts) > 0.0
  {
    SumNonnegative(counts);
  }

  lemma OnScaleCompares(x: real, y: real, counts: seq<real>)
    requires Weight(counts) > 0.0
    ensures x <= y <==> OnScale(x, counts) <= OnScale(y, counts)
  {
    hide Weight;
    ScaleCompares(x, y, Weight(counts));
  }

  lemma OnScaleGap(x: real, y: real, counts: seq<real>)
    requires Weight(counts) > 0.0
    ensures OnScale(Abs(x - y), counts) == Abs(OnScale(x, counts) - OnScale(y, counts))
  {
    OnScaleCompares(x, y, counts);
    hide Weight;
    assert (x - y) * Weight(counts) == x * Weight(counts) - y * Weight(counts);
    assert (y - x) * Weight(counts) == y * Weight(counts) - x * Weight(counts);
  }

  lemma GapScales(l: Layout, counts: seq<real>, mass: seq<real>, e: nat)
    requires |mass| == |l.owners| && |counts| == l.numLogical && e < l.numLogical && Nonnegative(counts)
    ensures OnScale(Gaps(l, Demand(counts), mass)[e], counts) == CountGap(l, counts, mass, e)
    ensures Weight(counts) > 0.0
  {
    hide Demand, Weight, Owed, OnScale, Abs;
    WeightPositive(counts);
    OnScaleGap(Served(l, mass)[e], Demand(counts)[e], counts);
  }

  /** A mass is accepted exactly when no expert misses what it is owed by more than the tolerance. */
  lemma AcceptedCounts(l: Layout, counts: seq<real>, mass: seq<real>)
    requires |mass| == |l.owners| && |counts| == l.numLogical > 0 && Nonnegative(counts)
    ensures Accepted(l, Demand(counts), mass) <==>
            Nonnegative(mass)
            && forall e :: 0 <= e < l.numLogical ==> CountGap(l, counts, mass, e) <= OnScale(TOLERANCE, counts)
  {
    var gaps := Gaps(l, Demand(counts), mass);
    hide Demand, Weight, CountGap, Accepted, OnScale, MaxOf;
    ResidualAccepts(l, Demand(counts), mass);
    forall e | 0 <= e < l.numLogical
      ensures gaps[e] <= TOLERANCE <==> CountGap(l, counts, mass, e) <= OnScale(TOLERANCE, counts)
    {
      GapScales(l, counts, mass, e);
      OnScaleCompares(gaps[e], TOLERANCE, counts);
    }
    LargestWithin(gaps, TOLERANCE);
  }

  lemma LargestWithin(xs: seq<real>, bound: real)
    requires xs != []
    ensures MaxOf(xs) <= bound <==> forall i :: 0 <= i < |xs| ==> xs[i] <= bound
  {
    assert MaxOf(xs) in xs && AtMost(xs, MaxOf(xs));
  }

  /** The row speaks about the counts: nobody misses more than the residual, and somebody that much. */
  ghost predicate ReportsCounts(l: Layout, counts: seq<real>, row: Row)
    requires ValidLayout(l) && |counts| == l.numLogical && NumLocal(l) > 0
  {
    && |row.mass| == |l.owners| && Nonnegative(row.mass) && row.residual <= TOLERANCE
    && (forall e :: 0 <= e < l.numLogical ==> CountGap(l, counts, row.mass, e) <= OnScale(row.residual, counts))
    && (exists e :: 0 <= e < l.numLogical && CountGap(l, counts, row.mass, e) == OnScale(row.residual, counts))
    && (exists u :: SplitsEvenly(l, counts, u) && row.maxUniform == MaxOf(Loads(l, u)))
  }

  lemma UniformAt(l: Layout, demand: seq<real>, p: nat)
    requires ValidLayout(l) && |demand| == l.numLogical && p < |l.owners|
    ensures Uniform(l, demand)[p] * Copies(l, l.owners[p]) as real == demand[l.owners[p]]
  {
    HasCopy(l, l.owners[p]);
    QuotientTimes(demand[l.owners[p]], Copies(l, l.owners[p]) as real);
  }

  lemma UniformSplits(l: Layout, counts: seq<real>)
    requires ValidLayout(l) && |counts| == l.numLogical
    ensures SplitsEvenly(l, counts, Uniform(l, Demand(counts)))
  {
    var d := Demand(counts);
    var u := Uniform(l, d);
    hide Demand, Uniform, Copies, ValidLayout, Total;
    forall p | 0 <= p < |u|
      ensures u[p] * Copies(l, l.owners[p]) as real == d[l.owners[p]]
      ensures OnScale(d[l.owners[p]], counts) == Owed(counts, l.owners[p])
    {
      hide OnScale, Owed;
      UniformAt(l, d, p);
    }
  }

  lemma ResidualReports(l: Layout, counts: seq<real>, mass: seq<real>, e: nat)
    requires |mass| == |l.owners| && |counts| == l.numLogical && e < l.numLogical && Nonnegative(counts)
    ensures var residual := MaxOf(Gaps(l, Demand(counts), mass));
            && CountGap(l, counts, mass, e) <= OnScale(residual, counts)
            && (Gaps(l, Demand(counts), mass)[e] == residual ==>
                  CountGap(l, counts, mass, e) == OnScale(residual, counts))
  {
    hide Demand, Weight, CountGap, OnScale, MaxOf;
    var gaps := Gaps(l, Demand(counts), mass);
    GapScales(l, counts, mass, e);
    OnScaleCompares(gaps[e], MaxOf(gaps), counts);
  }

  /**
   Each expert's share times the sum of the counts is its count, but for `slack`; without counts,
   times their number it is 1.
   */
  ghost predicate ServesCounts(l: Layout, counts: seq<real>, mass: seq<real>, slack: real)
    requires |mass| == |l.owners| && |counts| == l.numLogical
  {
    forall e :: 0 <= e < l.numLogical ==>
      if Total(counts) != 0.0 then
        -(slack * Total(counts)) <= Served(l, mass)[e] * Total(counts) - counts[e] <= slack * Total(counts)
      else
        -(slack * |counts| as real) <= Served(l, mass)[e] * |counts| as real - 1.0 <= slack * |counts| as real
  }

  lemma GapsServe(l: Layout, counts: seq<real>, mass: seq<real>, slack: real)
    requires |mass| == |l.owners| && |counts| == l.numLogical
    requires forall e :: 0 <= e < l.numLogical ==> CountGap(l, counts, mass, e) <= OnScale(slack, counts)
    ensures ServesCounts(l, counts, mass, slack)
  {
    forall e | 0 <= e < l.numLogical
      ensures -OnScale(slack, counts) <= OnScale(Served(l, mass)[e], counts) - Owed(counts, e) <= OnScale(slack, counts)
    {
      hide OnScale, Owed;
      assert CountGap(l, counts, mass, e) <= OnScale(slack, counts);
    }
  }

  lemma WorstExpert(l: Layout, demand: seq<real>, mass: seq<real>) returns (k: nat)
    requires l.numLogical > 0 && |demand| == l.numLogical && |mass| == |l.owners|
    ensures k < l.numLogical && Gaps(l, demand, mass)[k] == MaxOf(Gaps(l, demand, mass))
  {
    var gaps := Gaps(l, demand, mass);
    assert MaxOf(gaps) in gaps;
    k :| 0 <= k < |gaps| && gaps[k] == MaxOf(gaps);
  }

  lemma RowReportsCounts(l: Layout, counts: seq<real>, row: Row)
    requires ValidLayout(l) && |counts| == l.numLogical && NumLocal(l) > 0 && Nonnegative(counts)
    requires |row.mass| == |l.owners| && Nonnegative(row.mass) && row.residual <= TOLERANCE
    requires row.residual == MaxOf(Gaps(l, Demand(counts), row.mass))
    requires row.maxUniform == MaxOf(Loads(l, Uniform(l, Demand(counts))))
    ensures ReportsCounts(l, counts, row)
  {
    UniformSplits(l, counts);
    var k := WorstExpert(l, Demand(counts), row.mass);
    hide Demand, OnScale, CountGap, Loads, Uniform, SplitsEvenly, NumLocal, Gaps, MaxOf, ValidLayout;
    forall e | 0 <= e < l.numLogical ensures CountGap(l, counts, row.mass, e) <= OnScale(row.residual, counts) {
      ResidualReports(l, counts, row.mass, e);
    }
    ResidualReports(l, counts, row.mass, k);
  }

  lemma RowServes(l: Layout, counts: seq<real>, row: Row)
    requires ValidLayout(l) && |counts| == l.numLogical && NumLocal(l) > 0 && ReportsCounts(l, counts, row)
    ensures ServesCounts(l, counts, row.mass, row.residual)
  {
    hide CountGap, OnScale, ServesCounts, SplitsEvenly, Loads, NumLocal;
    GapsServe(l, counts, row.mass, row.residual);
  }

  /** What a row of the report promises. */
  ghost predicate RowOk(l: Layout, counts: seq<real>, solver: Solver, row: Row)
    requires ValidLayout(l) && |counts| == l.numLogical && AnswersFit(solver)
  {
    BlocksDivide(l);
    var demand := Demand(counts);
    var answer := Answer(l, counts, solver);
    && answer.Solved? && row.mass == answer.x[..|l.owners|] && Accepted(l, demand, row.mass)
    && row.residual == MaxOf(Gaps(l, demand, row.mass))
    && row.maxLp == MaxOf(Loads(l, row.mass))
    && row.maxUniform == MaxOf(Loads(l, Uniform(l, demand)))
    && (Minimises(LayerProgram(l, demand), answer.x) ==> Best(l, demand, row.mass) && row.residual == 0.0)
    && ReportsCounts(l, counts, row)
  }

  lemma BestResidual(l: Layout, demand: seq<real>, mass: seq<real>)
    requires ValidLayout(l) && NumLocal(l) > 0 && |demand| == l.numLogical && |mass| == |l.owners|
    requires Best(l, demand, mass)
    ensures MaxOf(Gaps(l, demand, mass)) == 0.0
  {
  }

  /** A minimiser of the program is best. */
  lemma MinimiserIsBest(l: Layout, demand: seq<real>, mass: seq<real>, t: real)
    requires ValidLayout(l) && NumLocal(l) > 0 && |demand| == l.numLogical && Nonnegative(demand)
    requires |mass| == |l.owners| && Minimises(LayerProgram(l, demand), mass + [t])
    ensures Best(l, demand, mass)
  {
    hide Best, Minimises, Optimal, LayerProgram, NumLocal;
    ProgramMinimises(l, demand, mass, t);
    OptimalIsBest(l, demand, mass, t);
  }

  lemma AnswerIsBest(l: Layout, demand: seq<real>, x: seq<real>)
    requires ValidLayout(l) && NumLocal(l) > 0 && |demand| == l.numLogical && Nonnegative(demand)
    requires |x| == |l.owners| + 1 && Minimises(LayerProgram(l, demand), x)
    ensures Best(l, demand, x[..|l.owners|])
  {
    hide Best, Minimises, LayerProgram, NumLocal, Nonnegative;
    assert x == x[..|l.owners|] + [x[|l.owners|]];
    MinimiserIsBest(l, demand, x[..|l.owners|], x[|l.owners|]);
  }

  lemma OptimalIsBest(l: Layout, demand: seq<real>, mass: seq<real>, t: real)
    requires ValidLayout(l) && NumLocal(l) > 0 && |demand| == l.numLogical && Nonnegative(demand)
    requires Optimal(l, demand, mass, t)
    ensures Best(l, demand, mass)
  {
    hide WorstShare, NumLocal, Loads;
    UniformIsFeasible(l, demand);
    OptimalValue(l, demand, mass, t);
    assert MaxOf(Gaps(l, demand, mass)) in Gaps(l, demand, mass);
  }

  ghost predicate Refused(l: Layout, layer: nat, counts: seq<real>, solver: Solver, error: Error) {
    LayerReady(l, counts) && AnswersFit(solver) && Complaint(l, layer, counts, solver) == Some(error)
  }

  ghost predicate Clean(l: Layout, layer: nat, counts: seq<real>, solver: Solver) {
    LayerReady(l, counts) && AnswersFit(solver) && Complaint(l, layer, counts, solver).None?
  }

  ghost predicate RowGood(l: Layout, counts: seq<real>, solver: Solver, row: Row) {
    && ValidLayout(l) && |counts| == l.numLogical && AnswersFit(solver) && RowOk(l, counts, solver, row)
    && |row.mass| == |l.owners| && row.residual <= TOLERANCE && ServesCounts(l, counts, row.mass, row.residual)
  }

  /** The matrices are the layer's program. */
  lemma BuiltProgram(l: Layout, demand: seq<real>, upper: array2<real>, equality: array2<real>)
    requires UpperRows(upper, |l.owners|, l.epSize) && EqualityRows(equality, l.owners, l.numLogical)
    requires l.epSize > 0 && NumLocal(l) > 0 && |demand| == l.numLogical
    ensures Program(Objective(|l.owners|), RowsOf(upper), RowsOf(equality), demand) == LayerProgram(l, demand)
  {
    assert RowsOf(upper) == LayerProgram(l, demand).upper;
    assert RowsOf(equality) == LayerProgram(l, demand).equality;
  }

  method PrepareLayer(l: Layout, layer: nat, counts: seq<real>, upper: array2<real>, solver: Solver)
    returns (r: Result<Row, Error>)
    requires LayerReady(l, counts) && AnswersFit(solver) && UpperRows(upper, |l.owners|, l.epSize)
    ensures r.Ok? ==> Clean(l, layer, counts, solver) && RowGood(l, counts, solver, r.value)
    ensures r.Err? ==> Refused(l, layer, counts, solver, r.error)
  {
    var demand := Demand(counts);
    var copies := BinCount(l);
    ReplicaForEach(l, copies);
    if exists e :: 0 <= e < l.numLogical && copies[e] == 0 {
      return Err(NoReplica(layer));
    }
    var equality := BuildEquality(l.owners, l.numLogical);
    var solution := solver(Program(Objective(|l.owners|), RowsOf(upper), RowsOf(equality), demand));
    BuiltProgram(l, demand, upper, equality);
    if solution.Failed? {
      return Err(SolverFailed(layer));
    }
    assert |solution.x| == |l.owners| + 1;
    var mass := solution.x[..|solution.x| - 1];
    hide LayerProgram, UpperRows, EqualityRows, NumLocal, Loads, Best, Minimises, Accepted, Demand, AnswersFit,
         ReportsCounts, ServesCounts;
    var residual := Residual(equality, l, demand, mass);
    ResidualAccepts(l, demand, mass);
    if (exists p :: 0 <= p < |mass| && mass[p] < 0.0) || residual > TOLERANCE {
      return Err(InvalidResult(layer));
    }
    var maxLp := MaxRankShare(l, mass);
    var maxUniform := MaxRankShare(l, Uniform(l, demand));
    MaxUnique(Loads(l, mass), maxLp);
    MaxUnique(Loads(l, Uniform(l, demand)), maxUniform);
    if Minimises(LayerProgram(l, demand), solution.x) {
      DemandIsDistribution(counts);
      AnswerIsBest(l, demand, solution.x);
      BestResidual(l, demand, mass);
    }
    RowReportsCounts(l, counts, Row(mass, maxLp, maxUniform, residual));
    RowServes(l, counts, Row(mass, maxLp, maxUniform, residual));
    r := Ok(Row(mass, maxLp, maxUniform, residual));
  }

  // ---------- All layers ----------

  /** A table with one row per layer, all of the same width. */
  ghost predicate Rectangular<T>(rows: seq<seq<T>>, width: nat) {
    forall i :: 0 <= i < |rows| ==> |rows[i]| == width
  }

  /** Counts per layer, or per step and layer. */
  datatype Counts = PerLayer(rows: seq<seq<real>>) | PerStep(steps: seq<seq<seq<real>>>, layers: nat)

  ghost predicate CountsShaped(counts: Counts, numLogical: nat) {
    match counts
    case PerLayer(rows) => Rectangular(rows, numLogical)
    case PerStep(steps, layers) => Rectangular(steps, layers)
                                   && forall k :: 0 <= k < |steps| ==> Rectangular(steps[k], numLogical)
  }

  ghost predicate RowsNonnegative(rows: seq<seq<real>>) {
    forall i :: 0 <= i < |rows| ==> Nonnegative(rows[i])
  }

  ghost predicate CountsOk(counts: Counts) {
    match counts
    case PerLayer(rows) => RowsNonnegative(rows)
    case PerStep(steps, _) => forall k :: 0 <= k < |steps| ==> RowsNonnegative(steps[k])
  }

  /** The counts of one layer and expert over the first `k` steps. */
  function StepTotal(steps: seq<seq<seq<real>>>, i: nat, e: nat, k: nat): real
    requires k <= |steps| && forall j :: 0 <= j < k ==> i < |steps[j]| && e < |steps[j][i]|
  {
    if k == 0 then 0.0 else StepTotal(steps, i, e, k - 1) + steps[k - 1][i][e]
  }

  /** Summed over the steps, if there are any. */
  function Aggregate(counts: Counts, numLogical: nat): (rows: seq<seq<real>>)
    requires CountsShaped(counts, numLogical)
    ensures Rectangular(rows, numLogical)
  {
    match counts
    case PerLayer(rows) => rows
    case PerStep(steps, layers) =>
      seq(layers, i requires 0 <= i < layers =>
        seq(numLogical, e requires 0 <= e < numLogical => StepTotal(steps, i, e, |steps|)))
  }

  lemma {:induction false} StepTotalNonnegative(steps: seq<seq<seq<real>>>, i: nat, e: nat, k: nat)
    requires k <= |steps| && forall j :: 0 <= j < k ==> i < |steps[j]| && e < |steps[j][i]|
    requires forall j :: 0 <= j < k ==> RowsNonnegative(steps[j])
    ensures StepTotal(steps, i, e, k) >= 0.0
    decreases k
  {
    if k > 0 {
      StepTotalNonnegative(steps, i, e, k - 1);
      assert RowsNonnegative(steps[k - 1]) && Nonnegative(steps[k - 1][i]);
    }
  }

  /** Every count summed over all steps. */
  lemma {:induction false} StepTotalIs(steps: seq<seq<seq<real>>>, i: nat, e: nat, k: nat, xs: seq<real>)
    requires k <= |steps| && forall j :: 0 <= j < k ==> i < |steps[j]| && e < |steps[j][i]|
    requires |xs| == k && forall j :: 0 <= j < k ==> xs[j] == steps[j][i][e]
    ensures StepTotal(steps, i, e, k) == Total(xs)
    decreases k
  {
    if k > 0 {
      StepTotalIs(steps, i, e, k - 1, xs[..k - 1]);
    }
  }

  /** What one expert of one layer was counted at in every step. */
  function OverSteps(steps: seq<seq<seq<real>>>, i: nat, e: nat): (xs: seq<real>)
    requires forall k :: 0 <= k < |steps| ==> i < |steps[k]| && e < |steps[k][i]|
    ensures |xs| == |steps| && forall k :: 0 <= k < |xs| ==> xs[k] == steps[k][i][e]
  {
    seq(|steps|, k requires 0 <= k < |steps| => steps[k][i][e])
  }

  /** The table of counts as it is, or the sums over all steps. */
  lemma AggregateIsTotal(counts: Counts, numLogical: nat)
    requires CountsShaped(counts, numLogical)
    ensures counts.PerLayer? ==> Aggregate(counts, numLogical) == counts.rows
    ensures counts.PerStep? ==>
              && |Aggregate(counts, numLogical)| == counts.layers
              && forall i, e :: 0 <= i < counts.layers && 0 <= e < numLogical ==>
                   Aggregate(counts, numLogical)[i][e] == Total(OverSteps(counts.steps, i, e))
  {
    if counts.PerStep? {
      forall i, e | 0 <= i < counts.layers && 0 <= e < numLogical
        ensures Aggregate(counts, numLogical)[i][e] == Total(OverSteps(counts.steps, i, e))
      {
        StepTotalIs(counts.steps, i, e, |counts.steps|, OverSteps(counts.steps, i, e));
      }
    }
  }

  lemma AggregateNonnegative(counts: Counts, numLogical: nat)
    requires CountsShaped(counts, numLogical) && CountsOk(counts)
    ensures RowsNonnegative(Aggregate(counts, numLogical))
  {
    if counts.PerStep? {
      forall i, e | 0 <= i < counts.layers && 0 <= e < numLogical
        ensures Aggregate(counts, numLogical)[i][e] >= 0.0
      {
        StepTotalNonnegative(counts.steps, i, e, |counts.steps|);
      }
    }
  }

  ghost predicate OwnersOk(mapping: seq<seq<int>>, numLogical: nat) {
    forall i, p :: 0 <= i < |mapping| && 0 <= p < |mapping[i]| ==> 0 <= mapping[i][p] < numLogical
  }

  predicate AnyNegative(rows: seq<seq<real>>) {
    exists i, e :: 0 <= i < |rows| && 0 <= e < |rows[i]| && rows[i][e] < 0.0
  }

  lemma NegativeIsNotOk(rows: seq<seq<real>>)
    ensures AnyNegative(rows) <==> !RowsNonnegative(rows)
  {
    if !RowsNonnegative(rows) {
      var i :| 0 <= i < |rows| && !Nonnegative(rows[i]);
      var e :| 0 <= e < |rows[i]| && rows[i][e] < 0.0;
    }
  }

  lemma NegativeCountsAre(counts: Counts)
    ensures CountsOk(counts) <==>
            match counts
            case PerLayer(rows) => !AnyNegative(rows)
            case PerStep(steps, _) => forall k :: 0 <= k < |steps| ==> !AnyNegative(steps[k])
  {
    match counts
    case PerLayer(rows) => NegativeIsNotOk(rows);
    case PerStep(steps, _) =>
      forall k | 0 <= k < |steps| ensures AnyNegative(steps[k]) <==> !RowsNonnegative(steps[k]) {
        NegativeIsNotOk(steps[k]);
      }
  }

  ghost predicate NonemptyDimensions(mapping: seq<seq<int>>, numPhysical: nat, numLogical: nat) {
    |mapping| > 0 && numPhysical > 0 && numLogical > 0
  }

  ghost predicate EvenRanks(numPhysical: nat, epSize: int) {
    epSize > 0 && numPhysical % epSize == 0
  }

  /** The first complaint of the validation, in its own order. */
  function Validate(mapping: seq<seq<int>>, numPhysical: nat, counts: Counts, numLogical: nat, epSize: int):
    (r: Result<seq<seq<real>>, Error>)
    requires Rectangular(mapping, numPhysical) && CountsShaped(counts, numLogical)
    ensures r.Ok? <==>
            (&& CountsOk(counts) && NonemptyDimensions(mapping, numPhysical, numLogical)
             && |Aggregate(counts, numLogical)| == |mapping| && EvenRanks(numPhysical, epSize)
             && OwnersOk(mapping, numLogical))
    ensures r.Ok? ==> r.value == Aggregate(counts, numLogical) && RowsNonnegative(r.value)
    ensures r.Err? ==>
              match r.error
              case NegativeCounts => !CountsOk(counts)
              case EmptyDimensions => CountsOk(counts) && !NonemptyDimensions(mapping, numPhysical, numLogical)
              case LayerMismatch => CountsOk(counts) && NonemptyDimensions(mapping, numPhysical, numLogical)
                                    && |Aggregate(counts, numLogical)| != |mapping|
              case UnevenRanks => CountsOk(counts) && NonemptyDimensions(mapping, numPhysical, numLogical)
                                  && |Aggregate(counts, numLogical)| == |mapping| && !EvenRanks(numPhysical, epSize)
              case OwnerOutOfRange => CountsOk(counts) && NonemptyDimensions(mapping, numPhysical, numLogical)
                                      && |Aggregate(counts, numLogical)| == |mapping|
                                      && EvenRanks(numPhysical, epSize) && !OwnersOk(mapping, numLogical)
              case _ => false
  {
    NegativeCountsAre(counts);
    if (match counts
        case PerLayer(rows) => AnyNegative(rows)
        case PerStep(steps, _) => exists k :: 0 <= k < |steps| && AnyNegative(steps[k]))
    then Err(NegativeCounts)
    else
      AggregateNonnegative(counts, numLogical);
      var rows := Aggregate(counts, numLogical);
      if |mapping| == 0 || numPhysical == 0 || numLogical == 0 then Err(EmptyDimensions)
      else if |rows| != |mapping| then Err(LayerMismatch)
      else if epSize <= 0 || numPhysical % epSize != 0 then Err(UnevenRanks)
      else if exists i, p :: 0 <= i < |mapping| && 0 <= p < |mapping[i]|
                             && (mapping[i][p] < 0 || mapping[i][p] >= numLogical) then Err(OwnerOutOfRange)
      else Ok(rows)
  }

  function LayerLayout(owners: seq<int>, numLogical: nat, epSize: nat): (l: Layout)
    requires forall p :: 0 <= p < |owners| ==> 0 <= owners[p]
    ensures |l.owners| == |owners| && forall p :: 0 <= p < |owners| ==> l.owners[p] == owners[p]
    ensures l.numLogical == numLogical && l.epSize == epSize
  {
    Layout(seq(|owners|, p requires 0 <= p < |owners| => owners[p] as nat), numLogical, epSize)
  }

  lemma LayerIsShaped(owners: seq<int>, numLogical: nat, epSize: nat)
    requires numLogical > 0 && epSize > 0 && |owners| > 0 && |owners| % epSize == 0
    requires forall p :: 0 <= p < |owners| ==> 0 <= owners[p] < numLogical
    ensures Shaped(LayerLayout(owners, numLogical, epSize))
  {
  }

  function Layouts(mapping: seq<seq<int>>, numLogical: nat, epSize: nat): (ls: seq<Layout>)
    requires OwnersOk(mapping, numLogical)
    ensures |ls| == |mapping|
    ensures forall i :: 0 <= i < |mapping| ==> ls[i] == LayerLayout(mapping[i], numLogical, epSize)
  {
    seq(|mapping|, i requires 0 <= i < |mapping| => LayerLayout(mapping[i], numLogical, epSize))
  }

  /** What the loop is given for every layer: the same number of slots and of ranks. */
  ghost predicate LayersReady(layouts: seq<Layout>, counts: seq<seq<real>>, numPhysical: nat, epSize: nat) {
    && epSize > 0 && numPhysical > 0 && numPhysical % epSize == 0 && |layouts| == |counts|
    && forall i :: 0 <= i < |layouts| ==>
         LayerReady(layouts[i], counts[i]) && |layouts[i].owners| == numPhysical && layouts[i].epSize == epSize
  }

  /** One good row per layer when no layer has a complaint; otherwise the complaint of the first that has one. */
  ghost predicate Reported(layouts: seq<Layout>, counts: seq<seq<real>>, solver: Solver, r: Result<seq<Row>, Error>)
    requires |layouts| == |counts|
  {
    match r
    case Ok(rows) =>
      && |rows| == |layouts|
      && forall i :: 0 <= i < |layouts| ==>
           Clean(layouts[i], i, counts[i], solver) && RowGood(layouts[i], counts[i], solver, rows[i])
    case Err(error) =>
      exists i :: 0 <= i < |layouts| && Refused(layouts[i], i, counts[i], solver, error)
                  && forall k :: 0 <= k < i ==> Clean(layouts[k], k, counts[k], solver)
  }

  method PrepareLayers(layouts: seq<Layout>, counts: seq<seq<real>>, numPhysical: nat, epSize: nat, solver: Solver)
    returns (r: Result<seq<Row>, Error>)
    requires LayersReady(layouts, counts, numPhysical, epSize) && AnswersFit(solver)
    ensures Reported(layouts, counts, solver, r)
  {
    hide LayerReady, AnswersFit, UpperRows, Clean, RowGood, Refused;
    var upper := BuildUpper(numPhysical, epSize);
    var rows: seq<Row> := [];
    for i := 0 to |layouts|
      invariant |rows| == i && UpperRows(upper, numPhysical, epSize)
      invariant forall k :: 0 <= k < i ==> Clean(layouts[k], k, counts[k], solver)
      invariant forall k :: 0 <= k < i ==> RowGood(layouts[k], counts[k], solver, rows[k])
    {
      var row := PrepareLayer(layouts[i], i, counts[i], upper, solver);
      if row.Err? {
        return Err(row.error);
      }
      rows := rows + [row.value];
    }
    return Ok(rows);
  }

  /** After validation, the report on all layers. */
  method Prepare(mapping: seq<seq<int>>, numPhysical: nat, counts: Counts, numLogical: nat, epSize: int, solver: Solver)
    returns (r: Result<seq<Row>, Error>)
    requires Rectangular(mapping, numPhysical) && CountsShaped(counts, numLogical) && AnswersFit(solver)
    ensures var check := Validate(mapping, numPhysical, counts, numLogical, epSize);
            && (check.Err? ==> r == Err(check.error))
            && (check.Ok? ==> Reported(Layouts(mapping, numLogical, epSize), check.value, solver, r))
  {
    var check := Validate(mapping, numPhysical, counts, numLogical, epSize);
    if check.Err? {
      return Err(check.error);
    }
    var layouts := Layouts(mapping, numLogical, epSize);
    forall i | 0 <= i < |layouts| ensures LayerReady(layouts[i], check.value[i]) {
      LayerIsShaped(mapping[i], numLogical, epSize);
    }
    r := PrepareLayers(layouts, check.value, numPhysical, epSize, solver);
  }

  /** With a solver that finds minimisers, a layer with all its replicas is never refused. */
  lemma ExactSolverSucceeds(l: Layout, layer: nat, counts: seq<real>, solver: Solver)
    requires LayerReady(l, counts) && AnswersFit(solver) && Exact(solver)
    ensures Complaint(l, layer, counts, solver).None? <==> ValidLayout(l)
    ensures ValidLayout(l) ==>
              NumLocal(l) > 0 && Answer(l, counts, solver).Solved?
              && Minimises(LayerProgram(l, Demand(counts)), Answer(l, counts, solver).x)
  {
    if ValidLayout(l) {
      BlocksDivide(l);
      var lp := LayerProgram(l, Demand(counts));
      DemandIsDistribution(counts);
      MinimiserExists(l, Demand(counts));
      assert Minimises(lp, solver(lp).x);
      assert |lp.objective| == |l.owners| + 1;
      hide Minimises, LayerProgram;
      AnswerIsBest(l, Demand(counts), Answer(l, counts, solver).x);
    }
  }
}
