/**
 The gateway pass of the layout (scripts/convert_otel_2_perfetto.py): spans of one pid,
 sorted by start.  Sticky first-fit then opens as few slots as any layout could.
 */
module GatewayLayout {
  import opened Census
  import opened LinePacking
  import opened TraceLayout
  import Sorting

  // ---------- Counting what is open at a time ----------

  predicate Holds(x: Interval, t: int) { x.start <= t < x.end }

  function OpenAt(xs: seq<Interval>, t: int): nat {
    if xs == [] then 0 else (if Holds(xs[0], t) then 1 else 0) + OpenAt(xs[1..], t)
  }

  function OpenIn(lines: seq<Line>, t: int): nat {
    if lines == [] then 0 else OpenAt(lines[0], t) + OpenIn(lines[1..], t)
  }

  lemma {:induction false} OpenAtConcat(xs: seq<Interval>, ys: seq<Interval>, t: int)
    ensures OpenAt(xs + ys, t) == OpenAt(xs, t) + OpenAt(ys, t)
    decreases |xs|
  {
    if xs == [] {
      assert xs + ys == ys;
    } else {
      OpenAtConcat(xs[1..], ys, t);
      assert (xs + ys)[1..] == xs[1..] + ys;
    }
  }

  lemma OpenAtInsort(line: Line, x: Interval, t: int)
    ensures OpenAt(Insort(line, x), t) == OpenAt(line, t) + OpenAt([x], t)
  {
    var p := Position(line, At(x.start, x.end));
    OpenAtConcat(line[..p] + [x], line[p..], t);
    OpenAtConcat(line[..p], [x], t);
    OpenAtConcat(line[..p], line[p..], t);
    assert line[..p] + line[p..] == line;
  }

  lemma {:induction false} OpenInConcat(xs: seq<Line>, ys: seq<Line>, t: int)
    ensures OpenIn(xs + ys, t) == OpenIn(xs, t) + OpenIn(ys, t)
    decreases |xs|
  {
    if xs == [] {
      assert xs + ys == ys;
    } else {
      OpenInConcat(xs[1..], ys, t);
      assert (xs + ys)[1..] == xs[1..] + ys;
    }
  }

  lemma {:induction false} OpenInUpdate(lines: seq<Line>, k: nat, line: Line, t: int)
    requires k < |lines|
    ensures OpenIn(lines[k := line], t) == OpenIn(lines, t) - OpenAt(lines[k], t) + OpenAt(line, t)
    decreases k
  {
    hide OpenAt;
    if k == 0 {
      assert lines[k := line][1..] == lines[1..];
    } else {
      OpenInUpdate(lines[1..], k - 1, line, t);
      assert lines[k := line][1..] == lines[1..][k - 1 := line];
    }
  }

  /** A placement opens its span on one line and changes nothing else. */
  lemma OpenInPut(lines: seq<Line>, line: nat, x: Interval, t: int)
    requires 1 <= line <= |lines| + 1
    ensures OpenIn(PutOn(lines, line, x), t) == OpenIn(lines, t) + OpenAt([x], t)
  {
    var more := WithSlot(lines, line);
    OpenInConcat(lines, [[]], t);
    OpenInUpdate(more, line - 1, Insort(more[line - 1], x), t);
    OpenAtInsort(more[line - 1], x, t);
  }

  // ---------- At most one open span per line ----------

  lemma {:induction false} NoneOpen(xs: seq<Interval>, t: int)
    requires forall i :: 0 <= i < |xs| ==> !Holds(xs[i], t)
    ensures OpenAt(xs, t) == 0
    decreases |xs|
  {
    if xs != [] {
      NoneOpen(xs[1..], t);
    }
  }

  lemma {:induction false} ChainedHoldsOne(line: Line, t: int)
    requires Chained(line)
    ensures OpenAt(line, t) <= 1
    decreases |line|
  {
    if line != [] {
      if Holds(line[0], t) {
        NoneOpen(line[1..], t);
      } else {
        ChainedHoldsOne(line[1..], t);
      }
    }
  }

  lemma {:induction false} OneOpenCounts(xs: seq<Interval>, i: nat, t: int)
    requires i < |xs| && Holds(xs[i], t)
    ensures OpenAt(xs, t) >= 1
    decreases |xs|
  {
    if i > 0 {
      OneOpenCounts(xs[1..], i - 1, t);
    }
  }

  lemma {:induction false} OpenInAtMost(lines: seq<Line>, t: int)
    requires LinesChained(lines)
    ensures OpenIn(lines, t) <= |lines|
    decreases |lines|
  {
    if lines != [] {
      ChainedHoldsOne(lines[0], t);
      OpenInAtMost(lines[1..], t);
    }
  }

  lemma {:induction false} OpenInAtLeast(lines: seq<Line>, t: int)
    requires forall k :: 0 <= k < |lines| ==> OpenAt(lines[k], t) >= 1
    ensures OpenIn(lines, t) >= |lines|
    decreases |lines|
  {
    if lines != [] {
      OpenInAtLeast(lines[1..], t);
    }
  }

  // ---------- The pass ----------

  ghost predicate PositiveLengths(xs: seq<Interval>) {
    forall i :: 0 <= i < |xs| ==> xs[i].start < xs[i].end
  }

  ghost predicate ByStart(xs: seq<Interval>) { Sorting.Ordered(xs, StartOf) }

  function Puts(xs: seq<Interval>): (steps: seq<Step>)
    ensures |steps| == |xs|
    ensures forall i :: 0 <= i < |xs| ==> steps[i] == Put(Span(Gateway, xs[i]))
  {
    seq(|xs|, i requires 0 <= i < |xs| => Put(Span(Gateway, xs[i])))
  }

  /** The engine pass, a fresh status, then the gateway spans. */
  function Pass(engine: seq<Step>, xs: seq<Interval>): seq<Step> {
    engine + [NextRequest] + Puts(xs)
  }

  function GatewayLines(engine: seq<Step>, xs: seq<Interval>): seq<Line> {
    Lines(Run(Pass(engine, xs)).graph, Gateway)
  }

  predicate EngineOnly(steps: seq<Step>) {
    forall k :: 0 <= k < |steps| && steps[k].Put? ==> steps[k].span.pid.Engine?
  }

  lemma {:induction false} EngineLeavesGatewayAlone(engine: seq<Step>)
    requires EngineOnly(engine)
    ensures Gateway !in Run(engine).graph
    decreases |engine|
  {
    if engine != [] {
      EngineLeavesGatewayAlone(engine[..|engine| - 1]);
    }
  }

  lemma PutsThen(xs: seq<Interval>, x: Interval)
    ensures Puts(xs + [x]) == Puts(xs) + [Put(Span(Gateway, x))]
  {
  }

  lemma PassStep(engine: seq<Step>, xs: seq<Interval>, x: Interval)
    ensures Run(Pass(engine, xs + [x])) == Next(Run(Pass(engine, xs)), Put(Span(Gateway, x)))
  {
    hide Run, Next;
    PutsThen(xs, x);
    RunThen(Pass(engine, xs), Put(Span(Gateway, x)));
    assert Pass(engine, xs + [x]) == Pass(engine, xs) + [Put(Span(Gateway, x))];
  }

  lemma PassStart(engine: seq<Step>)
    requires EngineOnly(engine)
    ensures GatewayLines(engine, []) == []
  {
    EngineLeavesGatewayAlone(engine);
    assert Pass(engine, []) == engine + [NextRequest];
    RunThen(engine, NextRequest);
  }

  /** The lines hold intervals of `xs` only. */
  ghost predicate Within(lines: seq<Line>, xs: seq<Interval>) {
    forall k, y :: 0 <= k < |lines| && y in lines[k] ==> y in xs
  }

  lemma PutWithin(lines: seq<Line>, line: nat, xs: seq<Interval>, x: Interval)
    requires 1 <= line <= |lines| + 1 && Within(lines, xs)
    ensures Within(PutOn(lines, line, x), xs + [x])
  {
    InsortHolds(WithSlot(lines, line)[line - 1], x);
  }

  /** A taken line has a span open when `x` starts, since spans come in start order. */
  lemma TakenIsOpen(line: Line, x: Interval)
    requires Sorted(line) && Chained(line) && NeighbourTest(line, x.start, x.end)
    requires forall y :: y in line ==> y.start <= x.start && y.start < y.end
    ensures OpenAt(line, x.start) >= 1
  {
    NeighbourTestIsScan(line, x.start, x.end);
    var i :| 0 <= i < |line| && Blocks(line[i], x.start, x.end);
    assert line[i] in line;
    OneOpenCounts(line, i, x.start);
  }

  lemma EarlierStarts(xs: seq<Interval>, x: Interval, y: Interval)
    requires ByStart(xs + [x]) && PositiveLengths(xs + [x]) && y in xs
    ensures y.start <= x.start && y.start < y.end
  {
    var j :| 0 <= j < |xs| && xs[j] == y;
    assert (xs + [x])[j] == xs[j] && (xs + [x])[|xs|] == x;
  }

  lemma AllTakenAllOpen(lines: seq<Line>, xs: seq<Interval>, x: Interval)
    requires LinesSorted(lines) && LinesChained(lines) && Within(lines, xs)
    requires ByStart(xs + [x]) && PositiveLengths(xs + [x])
    requires FirstFree(lines, x.start, x.end) == |lines|
    ensures OpenIn(lines, x.start) >= |lines|
  {
    forall k | 0 <= k < |lines| ensures OpenAt(lines[k], x.start) >= 1 {
      forall y | y in lines[k] ensures y.start <= x.start && y.start < y.end {
        EarlierStarts(xs, x, y);
      }
      TakenIsOpen(lines[k], x);
    }
    OpenInAtLeast(lines, x.start);
  }

  /** Some time has as many spans of `xs` open as there are lines. */
  ghost predicate Attained(lines: seq<Line>, xs: seq<Interval>) {
    lines == [] || exists t :: OpenAt(xs, t) >= |lines|
  }

  lemma AttainedStep(lines: seq<Line>, xs: seq<Interval>, x: Interval, line: nat)
    requires LinesSorted(lines) && LinesChained(lines) && Within(lines, xs)
    requires ByStart(xs + [x]) && PositiveLengths(xs + [x]) && Attained(lines, xs)
    requires forall t :: OpenIn(lines, t) == OpenAt(xs, t)
    requires 1 <= line <= |lines| + 1
    requires line == |lines| + 1 ==> FirstFree(lines, x.start, x.end) == |lines|
    ensures Attained(PutOn(lines, line, x), xs + [x])
  {
    if line == |lines| + 1 {
      AllTakenAllOpen(lines, xs, x);
      OpenAtConcat(xs, [x], x.start);
      assert (xs + [x])[|xs|] == x;
      assert OpenAt(xs + [x], x.start) >= |lines| + 1;
    } else {
      var t :| OpenAt(xs, t) >= |lines|;
      OpenAtConcat(xs, [x], t);
    }
  }

  ghost predicate PassInv(lines: seq<Line>, xs: seq<Interval>) {
    && LinesSorted(lines) && LinesChained(lines) && Within(lines, xs) && Attained(lines, xs)
    && forall t :: OpenIn(lines, t) == OpenAt(xs, t)
  }

  lemma PassInvStep(s: State, xs: seq<Interval>, x: Interval)
    requires StatusInRange(s.graph, s.status) && PassInv(Lines(s.graph, Gateway), xs)
    requires ByStart(xs + [x]) && PositiveLengths(xs + [x])
    ensures PassInv(Lines(Next(s, Put(Span(Gateway, x))).graph, Gateway), xs + [x])
  {
    var lines := Lines(s.graph, Gateway);
    var line := FindLine(s.graph, s.status, Span(Gateway, x));
    assert (xs + [x])[|xs|] == x;
    PutSorted(lines, line, x);
    NextChained(s, Span(Gateway, x));
    PutWithin(lines, line, xs, x);
    AttainedStep(lines, xs, x, line);
    forall t ensures OpenIn(PutOn(lines, line, x), t) == OpenAt(xs + [x], t) {
      OpenInPut(lines, line, x, t);
      OpenAtConcat(xs, [x], t);
    }
  }

  lemma {:induction false} PassKeepsInv(engine: seq<Step>, xs: seq<Interval>)
    requires EngineOnly(engine) && ByStart(xs) && PositiveLengths(xs)
    ensures PassInv(GatewayLines(engine, xs), xs)
    decreases |xs|
  {
    if xs == [] {
      PassStart(engine);
    } else {
      var before, x := xs[..|xs| - 1], xs[|xs| - 1];
      assert before + [x] == xs;
      PassKeepsInv(engine, before);
      PassInvStep(Run(Pass(engine, before)), before, x);
      PassStep(engine, before, x);
    }
  }

  // ---------- Sorting by start ----------

  function StartOf(x: Interval): int { x.start }

  function SortByStart(xs: seq<Interval>): seq<Interval> { Sorting.SortBy(xs, StartOf) }

  lemma {:induction false} OpenAtInsert(x: Interval, xs: seq<Interval>, t: int)
    ensures OpenAt(Sorting.InsertBy(x, xs, StartOf), t) == OpenAt([x], t) + OpenAt(xs, t)
    decreases |xs|
  {
    if xs == [] || x.start <= xs[0].start {
      OpenAtConcat([x], xs, t);
    } else {
      OpenAtInsert(x, xs[1..], t);
      OpenAtConcat([xs[0]], Sorting.InsertBy(x, xs[1..], StartOf), t);
      OpenAtConcat([xs[0]], xs[1..], t);
      assert [xs[0]] + xs[1..] == xs;
    }
  }

  lemma {:induction false} OpenAtSorted(xs: seq<Interval>, t: int)
    ensures OpenAt(SortByStart(xs), t) == OpenAt(xs, t)
    decreases |xs|
  {
    if xs != [] {
      OpenAtSorted(xs[1..], t);
      OpenAtInsert(xs[0], SortByStart(xs[1..]), t);
      OpenAtConcat([xs[0]], xs[1..], t);
      assert [xs[0]] + xs[1..] == xs;
    }
  }

  /** The sorted list has the same intervals, in order of their starts. */
  lemma SortKeeps(xs: seq<Interval>, t: int)
    ensures ByStart(SortByStart(xs)) && multiset(SortByStart(xs)) == multiset(xs)
    ensures OpenAt(SortByStart(xs), t) == OpenAt(xs, t)
  {
    Sorting.SortOrders(xs, StartOf);
    Sorting.SortKeeps(xs, StartOf);
    OpenAtSorted(xs, t);
  }

  lemma SortPositive(xs: seq<Interval>)
    requires PositiveLengths(xs)
    ensures PositiveLengths(SortByStart(xs))
  {
    var sorted := SortByStart(xs);
    SortKeeps(xs, 0);
    forall i | 0 <= i < |sorted| ensures sorted[i].start < sorted[i].end {
      assert sorted[i] in multiset(sorted);
      assert sorted[i] in xs;
    }
  }

  // ---------- Any layout needs as many slots as are open at once ----------

  /** A layout of `xs` on slots 0 .. m - 1 without overlaps. */
  ghost predicate ValidLayout(xs: seq<Interval>, slots: seq<nat>, m: nat) {
    && |slots| == |xs|
    && (forall i :: 0 <= i < |xs| ==> slots[i] < m)
    && (forall i, j :: 0 <= i < j < |xs| && slots[i] == slots[j] ==> Disjoint(xs[i], xs[j]))
  }

  lemma {:induction false} OpenNeedsSlots(xs: seq<Interval>, slots: seq<nat>, m: nat, t: int) returns (used: set<nat>)
    requires ValidLayout(xs, slots, m)
    ensures |used| == OpenAt(xs, t)
    ensures forall c :: c in used <==> exists i :: 0 <= i < |xs| && Holds(xs[i], t) && slots[i] == c
    decreases |xs|
  {
    used := {};
    if xs != [] {
      var rest := OpenNeedsSlots(xs[1..], slots[1..], m, t);
      used := if Holds(xs[0], t) then rest + {slots[0]} else rest;
      forall c | c in rest ensures Holds(xs[0], t) ==> c != slots[0] {
        var i :| 0 <= i < |xs[1..]| && Holds(xs[1..][i], t) && slots[1..][i] == c;
        assert xs[i + 1] == xs[1..][i] && slots[i + 1] == c;
      }
      forall c ensures c in used <==> exists i :: 0 <= i < |xs| && Holds(xs[i], t) && slots[i] == c {
        if i :| 0 <= i < |xs| && Holds(xs[i], t) && slots[i] == c {
          if i > 0 {
            assert Holds(xs[1..][i - 1], t) && slots[1..][i - 1] == c;
          }
        }
        if c in rest {
          var i :| 0 <= i < |xs[1..]| && Holds(xs[1..][i], t) && slots[1..][i] == c;
          assert Holds(xs[i + 1], t) && slots[i + 1] == c;
        }
      }
    }
  }

  lemma LayoutNeedsOpen(xs: seq<Interval>, slots: seq<nat>, m: nat, t: int)
    requires ValidLayout(xs, slots, m)
    ensures OpenAt(xs, t) <= m
  {
    var used := OpenNeedsSlots(xs, slots, m, t);
    BoundedSet(used, m);
  }

  /**
   The gateway pass opens exactly as many slots as there are spans open at once, at the
   worst time; so no layout of the same spans uses fewer.
   */
  lemma GatewayPassIsOptimal(engine: seq<Step>, spans: seq<Interval>)
    requires EngineOnly(engine) && PositiveLengths(spans)
    ensures var slotsOpened := |GatewayLines(engine, SortByStart(spans))|;
            && (forall t :: OpenAt(spans, t) <= slotsOpened)
            && (slotsOpened > 0 ==> exists t :: OpenAt(spans, t) == slotsOpened)
            && (forall slots, m :: ValidLayout(spans, slots, m) ==> slotsOpened <= m)
  {
    var sorted := SortByStart(spans);
    var lines := GatewayLines(engine, sorted);
    SortKeeps(spans, 0);
    SortPositive(spans);
    PassKeepsInv(engine, sorted);
    forall t ensures OpenAt(spans, t) == OpenAt(sorted, t) <= |lines| {
      SortKeeps(spans, t);
      OpenInAtMost(lines, t);
    }
    if |lines| > 0 {
      var t :| OpenAt(sorted, t) >= |lines|;
      assert OpenAt(spans, t) == |lines|;
      forall slots, m | ValidLayout(spans, slots, m) ensures |lines| <= m {
        LayoutNeedsOpen(spans, slots, m, t);
      }
    }
  }

  /**
   The lengths must be positive: any span that is not, followed by one that starts with it,
   takes two slots where one is enough.
   */
  lemma NonpositiveSpanWastesSlot(engine: seq<Step>, z: Interval)
    requires EngineOnly(engine) && z.end <= z.start
    ensures var spans := [z, Interval(z.start, z.start + 1)];
            |GatewayLines(engine, SortByStart(spans))| == 2 && ValidLayout(spans, [0, 0], 1)
  {
    var y := Interval(z.start, z.start + 1);
    hide Run, Next, NeighbourTest, SortByStart;
    SortOfTwo(z, y);
    FirstOfPass(engine, z);
    PassStep(engine, [z], y);
    assert [z] + [y] == [z, y];
    AloneBlocks(z, y);
    TakenOpensSlot(Run(Pass(engine, [z])), [z], y);
  }

  lemma TakenOpensSlot(s: State, line: Line, x: Interval)
    requires StatusInRange(s.graph, s.status) && Lines(s.graph, Gateway) == [line]
    requires x.start < x.end && NeighbourTest(line, x.start, x.end)
    ensures |Lines(Next(s, Put(Span(Gateway, x))).graph, Gateway)| == 2
  {
    hide NeighbourTest;
    assert Gateway in s.graph;
    assert FirstFree([line], x.start, x.end) == 1;
  }

  lemma SortOfTwo(z: Interval, y: Interval)
    requires z.start <= y.start
    ensures SortByStart([z, y]) == [z, y]
  {
    var none: seq<Interval> := [];
    assert [y][1..] == none && [z, y][1..] == [y];
    assert SortByStart([y]) == Sorting.InsertBy(y, SortByStart(none), StartOf) == [y];
    assert SortByStart([z, y]) == Sorting.InsertBy(z, SortByStart([z, y][1..]), StartOf);
  }

  lemma FirstOpensSlot(s: State, z: Interval)
    requires StatusInRange(s.graph, s.status) && Lines(s.graph, Gateway) == []
    ensures Lines(Next(s, Put(Span(Gateway, z))).graph, Gateway) == [[z]]
  {
    hide NeighbourTest;
    assert FindLine(s.graph, s.status, Span(Gateway, z)) == 1;
    assert Insort([], z) == [z];
    assert PutOn([], 1, z) == [[z]];
  }

  lemma FirstOfPass(engine: seq<Step>, z: Interval)
    requires EngineOnly(engine)
    ensures GatewayLines(engine, [z]) == [[z]]
  {
    hide Run, Next, Pass, EngineOnly;
    PassStart(engine);
    PassStep(engine, [], z);
    assert [] + [z] == [z];
    FirstOpensSlot(Run(Pass(engine, [])), z);
  }

  lemma AloneBlocks(z: Interval, y: Interval)
    requires z.start == y.start < y.end
    ensures NeighbourTest([z], y.start, y.end)
  {
  }
}
