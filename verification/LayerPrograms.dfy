/**
 The linear program of a layer as the solver gets it (benchmark/eplb/prepare_static_lp.py):
 matrices written in place, and what a vector that satisfies or minimises them is.
 */
module LayerPrograms {
  import opened Arithmetic
  import opened Sums
  import opened ReplicaLp

  // ---------- Linear programs ----------

  /** Minimise the objective with every upper row at most 0 and every equality row at its demand. */
  datatype Program = Program(objective: seq<real>, upper: seq<seq<real>>, equality: seq<seq<real>>, demand: seq<real>)

  datatype Solution = Solved(x: seq<real>) | Failed

  type Solver = Program -> Solution

  /** A row of a matrix times a vector. */
  function Dot(row: seq<real>, x: seq<real>, n: nat): real
    requires n <= |row| && n <= |x|
  {
    if n == 0 then 0.0 else Dot(row, x, n - 1) + row[n - 1] * x[n - 1]
  }

  ghost predicate WellFormed(lp: Program) {
    && (forall r :: 0 <= r < |lp.upper| ==> |lp.upper[r]| == |lp.objective|)
    && |lp.equality| == |lp.demand|
    && (forall e :: 0 <= e < |lp.equality| ==> |lp.equality[e]| == |lp.objective|)
  }

  ghost predicate Satisfies(lp: Program, x: seq<real>)
    requires WellFormed(lp)
  {
    && |x| == |lp.objective| && Nonnegative(x)
    && (forall r :: 0 <= r < |lp.upper| ==> Dot(lp.upper[r], x, |x|) <= 0.0)
    && (forall e :: 0 <= e < |lp.equality| ==> Dot(lp.equality[e], x, |x|) == lp.demand[e])
  }

  ghost predicate Minimises(lp: Program, x: seq<real>)
    requires WellFormed(lp)
  {
    && Satisfies(lp, x)
    && forall y :: Satisfies(lp, y) ==> Dot(lp.objective, x, |x|) <= Dot(lp.objective, y, |y|)
  }

  /** A solver answers with one value per column. */
  ghost predicate AnswersFit(solver: Solver) {
    forall lp :: solver(lp).Solved? ==> |solver(lp).x| == |lp.objective|
  }

  /** A solver that finds a minimiser whenever there is one. */
  ghost predicate Exact(solver: Solver) {
    forall lp :: WellFormed(lp) && (exists x :: Minimises(lp, x)) ==>
                   solver(lp).Solved? && Minimises(lp, solver(lp).x)
  }

  // ---------- The matrices ----------

  /** Ones at the slots of rank `r`, and minus one for the common bound. */
  function UpperRow(numPhysical: nat, numLocal: nat, r: nat): (row: seq<real>)
    requires numLocal > 0
    ensures |row| == numPhysical + 1
  {
    seq(numPhysical + 1, j requires 0 <= j <= numPhysical =>
      if j == numPhysical then -1.0 else if j / numLocal == r then 1.0 else 0.0)
  }

  /** Ones at the replicas of expert `e`. */
  function EqualityRow(owners: seq<nat>, e: nat): (row: seq<real>)
    ensures |row| == |owners| + 1
  {
    seq(|owners| + 1, j requires 0 <= j <= |owners| => if j < |owners| && owners[j] == e then 1.0 else 0.0)
  }

  /** Only the bound counts. */
  function Objective(numPhysical: nat): (row: seq<real>)
    ensures |row| == numPhysical + 1
  {
    seq(numPhysical + 1, j requires 0 <= j <= numPhysical => if j == numPhysical then 1.0 else 0.0)
  }

  /** The program of a layer. */
  function LayerProgram(l: Layout, demand: seq<real>): (lp: Program)
    requires l.epSize > 0 && NumLocal(l) > 0 && |demand| == l.numLogical
    ensures WellFormed(lp)
  {
    Program(Objective(|l.owners|), seq(l.epSize, r requires 0 <= r < l.epSize => UpperRow(|l.owners|, NumLocal(l), r)),
            seq(l.numLogical, e requires 0 <= e < l.numLogical => EqualityRow(l.owners, e)), demand)
  }

  function RowOf(a: array2<real>, r: nat): (row: seq<real>)
    requires r < a.Length0
    reads a
    ensures |row| == a.Length1 && forall j :: 0 <= j < |row| ==> row[j] == a[r, j]
  {
    seq(a.Length1, j requires 0 <= j < a.Length1 reads a => a[r, j])
  }

  function RowsOf(a: array2<real>): (rows: seq<seq<real>>)
    reads a
    ensures |rows| == a.Length0 && forall r :: 0 <= r < |rows| ==> rows[r] == RowOf(a, r)
  {
    seq(a.Length0, r requires 0 <= r < a.Length0 reads a => RowOf(a, r))
  }

  /** The rows of all ranks. */
  ghost predicate UpperRows(upper: array2<real>, numPhysical: nat, epSize: nat)
    reads upper
  {
    && epSize > 0 && numPhysical / epSize > 0 && upper.Length0 == epSize && upper.Length1 == numPhysical + 1
    && forall r :: 0 <= r < epSize ==> RowOf(upper, r) == UpperRow(numPhysical, numPhysical / epSize, r)
  }

  /** The rows of all experts. */
  ghost predicate EqualityRows(equality: array2<real>, owners: seq<nat>, numLogical: nat)
    reads equality
  {
    && equality.Length0 == numLogical && equality.Length1 == |owners| + 1
    && forall e :: 0 <= e < numLogical ==> RowOf(equality, e) == EqualityRow(owners, e)
  }

  method BuildUpper(numPhysical: nat, epSize: nat) returns (upper: array2<real>)
    requires epSize > 0 && numPhysical > 0 && numPhysical % epSize == 0
    ensures UpperRows(upper, numPhysical, epSize)
  {
    var n, numLocal := numPhysical, numPhysical / epSize;
    assert numLocal * epSize == n && numLocal > 0;
    upper := new real[epSize, n + 1]((_, _) => 0.0);
    for p := 0 to n
      invariant forall r, j :: 0 <= r < epSize && 0 <= j <= n ==>
                  upper[r, j] == if j < p && j / numLocal == r then 1.0 else 0.0
    {
      QuotientBelow(p, numLocal, epSize);
      upper[p / numLocal, p] := 1.0;
    }
    for r := 0 to epSize
      invariant forall s, j :: 0 <= s < epSize && 0 <= j < n ==>
                  upper[s, j] == if j / numLocal == s then 1.0 else 0.0
      invariant forall s :: 0 <= s < r ==> upper[s, n] == -1.0
    {
      upper[r, n] := -1.0;
    }
    forall r | 0 <= r < epSize ensures RowOf(upper, r) == UpperRow(n, numLocal, r) {
    }
  }

  method BuildEquality(owners: seq<nat>, numLogical: nat) returns (equality: array2<real>)
    requires forall p :: 0 <= p < |owners| ==> owners[p] < numLogical
    ensures EqualityRows(equality, owners, numLogical)
  {
    var n := |owners|;
    equality := new real[numLogical, n + 1]((_, _) => 0.0);
    for p := 0 to n
      invariant forall e, j :: 0 <= e < numLogical && 0 <= j <= n ==>
                  equality[e, j] == if j < p && owners[j] == e then 1.0 else 0.0
    {
      equality[owners[p], p] := 1.0;
    }
    forall e | 0 <= e < numLogical ensures RowOf(equality, e) == EqualityRow(owners, e) {
    }
  }

  /** Ones at the members of `s`, zeros elsewhere. */
  ghost predicate Indicates(row: seq<real>, s: set<nat>, n: nat) {
    n <= |row| && forall j :: 0 <= j < n ==> row[j] == if j in s then 1.0 else 0.0
  }

  lemma {:induction false} IndicatorRow(row: seq<real>, s: set<nat>, x: seq<real>, n: nat)
    requires n <= |x| && Indicates(row, s, n)
    ensures Dot(row, x, n) == SumIn(x, s, n)
    decreases n
  {
    if n > 0 {
      IndicatorRow(row, s, x, n - 1);
    }
  }

  lemma {:induction false} DotPrefix(row: seq<real>, x: seq<real>, y: seq<real>, n: nat)
    requires n <= |row| && n <= |x| && x <= y
    ensures Dot(row, x, n) == Dot(row, y, n)
    decreases n
  {
    if n > 0 {
      DotPrefix(row, x, y, n - 1);
    }
  }

  lemma UpperDot(l: Layout, mass: seq<real>, t: real, r: nat)
    requires l.epSize > 0 && NumLocal(l) > 0 && |mass| == |l.owners| && r < l.epSize
    ensures Dot(UpperRow(|l.owners|, NumLocal(l), r), mass + [t], |l.owners| + 1) == Loads(l, mass)[r] - t
  {
    var row := UpperRow(|l.owners|, NumLocal(l), r);
    DotPrefix(row, mass, mass + [t], |mass|);
    IndicatorRow(row, Group(Ranks(l), r), mass, |mass|);
  }

  /** The bound has a zero in every equality row, so it may be left off. */
  lemma EqualityDot(l: Layout, mass: seq<real>, t: real, e: nat)
    requires |mass| == |l.owners| && e < l.numLogical
    ensures Dot(EqualityRow(l.owners, e), mass, |mass|) == Served(l, mass)[e]
    ensures Dot(EqualityRow(l.owners, e), mass + [t], |mass| + 1) == Served(l, mass)[e]
  {
    DotPrefix(EqualityRow(l.owners, e), mass, mass + [t], |mass|);
    IndicatorRow(EqualityRow(l.owners, e), Group(l.owners, e), mass, |mass|);
  }

  lemma ObjectiveDot(mass: seq<real>, t: real)
    ensures Dot(Objective(|mass|), mass + [t], |mass| + 1) == t
  {
    DotPrefix(Objective(|mass|), mass, mass + [t], |mass|);
    IndicatorRow(Objective(|mass|), {}, mass, |mass|);
    SumEmpty(mass, |mass|);
  }

  /** What the matrices say of a vector: exactly the constraints on replica mass. */
  lemma MatricesAreConstraints(l: Layout, demand: seq<real>, mass: seq<real>, t: real)
    requires ValidLayout(l) && NumLocal(l) > 0 && |demand| == l.numLogical && |mass| == |l.owners|
    ensures Satisfies(LayerProgram(l, demand), mass + [t]) <==> Feasible(l, demand, mass, t)
  {
    var x := mass + [t];
    hide Dot, UpperRow, EqualityRow, Objective, NumLocal;
    forall r | 0 <= r < l.epSize ensures Dot(LayerProgram(l, demand).upper[r], x, |x|) == Loads(l, mass)[r] - t {
      UpperDot(l, mass, t, r);
    }
    forall e | 0 <= e < l.numLogical ensures Dot(LayerProgram(l, demand).equality[e], x, |x|) == Served(l, mass)[e] {
      EqualityDot(l, mass, t, e);
    }
    SignsOf(mass, t);
    assert Served(l, mass) == demand <==> forall e :: 0 <= e < l.numLogical ==> Served(l, mass)[e] == demand[e];
  }

  lemma SignsOf(mass: seq<real>, t: real)
    ensures Nonnegative(mass + [t]) <==> Nonnegative(mass) && t >= 0.0
  {
    var x := mass + [t];
    if Nonnegative(x) {
      assert forall i :: 0 <= i < |mass| ==> mass[i] == x[i];
      assert x[|mass|] == t;
    }
  }

  /** The program at a vector: its constraints and its objective. */
  lemma ProgramAt(l: Layout, demand: seq<real>, mass: seq<real>, t: real)
    requires ValidLayout(l) && NumLocal(l) > 0 && |demand| == l.numLogical && |mass| == |l.owners|
    ensures Satisfies(LayerProgram(l, demand), mass + [t]) <==> Feasible(l, demand, mass, t)
    ensures |LayerProgram(l, demand).objective| == |mass + [t]|
    ensures Dot(LayerProgram(l, demand).objective, mass + [t], |mass + [t]|) == t
  {
    MatricesAreConstraints(l, demand, mass, t);
    ObjectiveDot(mass, t);
  }

  /** Minimising the program is placing the mass with the least largest load. */
  lemma ProgramMinimises(l: Layout, demand: seq<real>, mass: seq<real>, t: real)
    requires ValidLayout(l) && NumLocal(l) > 0 && |demand| == l.numLogical && |mass| == |l.owners|
    ensures Minimises(LayerProgram(l, demand), mass + [t]) <==> Optimal(l, demand, mass, t)
  {
    hide Satisfies, Feasible, Dot, LayerProgram, NumLocal, WellFormed;
    ProgramAt(l, demand, mass, t);
    if Minimises(LayerProgram(l, demand), mass + [t]) {
      forall m, u | Feasible(l, demand, m, u) ensures t <= u {
        FeasibleFits(l, demand, m, u);
        ProgramAt(l, demand, m, u);
      }
    }
    if Optimal(l, demand, mass, t) {
      forall y | Satisfies(LayerProgram(l, demand), y)
        ensures |y| == |LayerProgram(l, demand).objective| && t <= Dot(LayerProgram(l, demand).objective, y, |y|)
      {
        SatisfyingFits(l, demand, y);
        var m, u := y[..|l.owners|], y[|l.owners|];
        assert y == m + [u];
        ProgramAt(l, demand, m, u);
      }
    }
  }

  lemma FeasibleFits(l: Layout, demand: seq<real>, mass: seq<real>, t: real)
    requires ValidLayout(l) && |demand| == l.numLogical && Feasible(l, demand, mass, t)
    ensures |mass| == |l.owners|
  {
  }

  lemma SatisfyingFits(l: Layout, demand: seq<real>, x: seq<real>)
    requires l.epSize > 0 && NumLocal(l) > 0 && |demand| == l.numLogical && Satisfies(LayerProgram(l, demand), x)
    ensures |x| == |l.owners| + 1
  {
  }

  /** There is a minimiser. */
  lemma MinimiserExists(l: Layout, demand: seq<real>)
    requires ValidLayout(l) && NumLocal(l) > 0 && |demand| == l.numLogical && Nonnegative(demand)
    ensures exists x :: Minimises(LayerProgram(l, demand), x)
  {
    var mass, t, _ := MinimumIsConfinedDemand(l, demand);
    FeasibleFits(l, demand, mass, t);
    hide Minimises, LayerProgram, NumLocal, WorstShare;
    ProgramMinimises(l, demand, mass, t);
    assert Minimises(LayerProgram(l, demand), mass + [t]);
  }
}
