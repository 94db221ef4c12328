/**
 The layout as the converter runs it (scripts/convert_otel_2_perfetto.py): containers that
 are updated in place, a graph of containers, and the loops over requests and gateway spans.
 */
module LayoutObjects {
  import opened LinePacking
  import opened TraceLayout
  import opened GatewayLayout

  /** Bisection to the left in a sorted line. */
  method BisectLeft(line: Line, k: Key) returns (p: nat)
    requires Sorted(line)
    ensures p == Position(line, k)
  {
    PositionSplits(line, k);
    var lo, hi := 0, |line|;
    while lo < hi
      invariant 0 <= lo <= Position(line, k) <= hi <= |line|
    {
      var mid := (lo + hi) / 2;
      if Below(line[mid], k) {
        lo := mid + 1;
      } else {
        hi := mid;
      }
    }
    p := lo;
  }

  class SpanLayoutContainer {
    var intervals: Line
    /** The pid and slot index this container serves. */
    ghost const home: (Pid, nat)

    constructor (ghost home: (Pid, nat))
      ensures intervals == [] && this.home == home
    {
      intervals := [];
      this.home := home;
    }

    method CheckOverlap(start: int, end: int) returns (overlap: bool)
      requires Sorted(intervals)
      ensures overlap == NeighbourTest(intervals, start, end)
      ensures Chained(intervals) ==>
                (overlap <==> exists i :: 0 <= i < |intervals| && Blocks(intervals[i], start, end))
    {
      var idx := BisectLeft(intervals, Floor(start));
      if Chained(intervals) {
        NeighbourTestIsScan(intervals, start, end);
      }
      if idx > 0 {
        if intervals[idx - 1].end > start {
          return true;
        }
      }
      if idx < |intervals| {
        if intervals[idx].start < end {
          return true;
        }
      }
      return false;
    }

    method InsertSpan(start: int, end: int)
      requires Sorted(intervals)
      modifies this
      ensures intervals == Insort(old(intervals), Interval(start, end)) && Sorted(intervals)
    {
      InsortSorted(intervals, Interval(start, end));
      var p := BisectLeft(intervals, At(start, end));
      intervals := intervals[..p] + [Interval(start, end)] + intervals[p..];
    }
  }

  function RequestSteps(spans: seq<Span>): (steps: seq<Step>)
    ensures |steps| == |spans| + 1 && steps[0] == NextRequest
    ensures forall i :: 0 <= i < |spans| ==> steps[i + 1] == Put(spans[i])
  {
    [NextRequest] + seq(|spans|, i requires 0 <= i < |spans| => Put(spans[i]))
  }

  function EngineSteps(requests: seq<seq<Span>>): seq<Step> {
    if requests == [] then []
    else EngineSteps(requests[..|requests| - 1]) + RequestSteps(requests[|requests| - 1])
  }

  function GatewaySpans(xs: seq<Interval>): (spans: seq<Span>)
    ensures |spans| == |xs| && forall i :: 0 <= i < |xs| ==> spans[i] == Span(Gateway, xs[i])
  {
    seq(|xs|, i requires 0 <= i < |xs| => Span(Gateway, xs[i]))
  }

  /** The state once the first `i` spans of a request are placed. */
  ghost function After(before: seq<Step>, spans: seq<Span>, i: nat): (s: State)
    requires i <= |spans|
    ensures StatusInRange(s.graph, s.status)
  {
    Run(before + RequestSteps(spans[..i]))
  }

  lemma AfterStart(before: seq<Step>, spans: seq<Span>)
    ensures After(before, spans, 0) == Run(before).(status := map[])
  {
    assert spans[..0] == [] && RequestSteps([]) == [NextRequest];
    RunThen(before, NextRequest);
  }

  lemma AfterNext(before: seq<Step>, spans: seq<Span>, i: nat)
    requires i < |spans|
    ensures After(before, spans, i + 1) == Next(After(before, spans, i), Put(spans[i]))
  {
    assert before + RequestSteps(spans[..i + 1]) == (before + RequestSteps(spans[..i])) + [Put(spans[i])];
    RunThen(before + RequestSteps(spans[..i]), Put(spans[i]));
  }

  lemma AfterAll(before: seq<Step>, spans: seq<Span>)
    ensures After(before, spans, |spans|) == Run(before + RequestSteps(spans))
  {
    assert spans[..|spans|] == spans;
  }

  /** Opening the slot and then inserting is one step of the layout. */
  lemma PutIsUpdate(s: State, x: Span, line: nat)
    requires StatusInRange(s.graph, s.status) && line == TraceLayout.FindLine(s.graph, s.status, x)
    ensures var more := WithSlot(Lines(s.graph, x.pid), line);
            Next(s, Put(x)) ==
            State(s.graph[x.pid := more][x.pid := more[line - 1 := Insort(more[line - 1], x.iv)]],
                  s.status[x.pid := line], s.placed + [Placed(x, line)])
  {
    var more := WithSlot(Lines(s.graph, x.pid), line);
    var put := more[line - 1 := Insort(more[line - 1], x.iv)];
    assert s.graph[x.pid := more][x.pid := put] == s.graph[x.pid := put];
  }

  class SpanLayout {
    var graph: map<Pid, seq<SpanLayoutContainer>>
    /** The slot given to each span, in the order of placement. */
    var placed: seq<Placed>
    /** What the containers hold. */
    ghost var lines: Graph
    ghost var Repr: set<SpanLayoutContainer>

    ghost predicate Valid()
      reads this, Repr
    {
      && graph.Keys == lines.Keys
      && (forall p :: p in graph ==> |graph[p]| == |lines[p]|)
      && (forall p, i :: p in graph && 0 <= i < |graph[p]| ==> Serves(graph[p][i], p, i))
    }

    ghost predicate Serves(c: SpanLayoutContainer, p: Pid, i: nat)
      requires p in lines && i < |lines[p]|
      reads this, Repr
    {
      c in Repr && c.home == (p, i) && c.intervals == lines[p][i] && Sorted(c.intervals)
    }

    constructor ()
      ensures Valid() && lines == map[] && placed == [] && Repr == {}
    {
      graph, placed, lines, Repr := map[], [], map[], {};
    }

    /** Adds an empty slot to `pid`. */
    method OpenSlot(pid: Pid)
      requires Valid()
      modifies this
      ensures Valid() && Repr >= old(Repr) && fresh(Repr - old(Repr)) && placed == old(placed)
      ensures lines == old(lines)[pid := Lines(old(lines), pid) + [[]]]
    {
      var slots := if pid in graph then graph[pid] else [];
      var c := new SpanLayoutContainer((pid, |slots|));
      graph := graph[pid := slots + [c]];
      lines := lines[pid := Lines(lines, pid) + [[]]];
      Repr := Repr + {c};
      forall p, i | p in graph && 0 <= i < |graph[p]| ensures Serves(graph[p][i], p, i) {
        if p == pid && i == |slots| {
          assert graph[p][i] == c;
        } else {
          assert old(Serves(graph[p][i], p, i));
        }
      }
    }

    /** Looks through the slots of `pid` in order. */
    method FirstFreeSlot(pid: Pid, start: int, end: int) returns (k: nat)
      requires Valid() && pid in graph
      ensures k == FirstFree(lines[pid], start, end)
    {
      k := 0;
      while k < |graph[pid]|
        invariant 0 <= k <= |graph[pid]|
        invariant forall i :: 0 <= i < k ==> NeighbourTest(lines[pid][i], start, end)
      {
        assert Serves(graph[pid][k], pid, k);
        var overlap := graph[pid][k].CheckOverlap(start, end);
        if !overlap {
          return;
        }
        k := k + 1;
      }
    }

    /** Whether the last slot of the request still fits. */
    method StickySlot(status: Status, x: Span) returns (sticks: bool)
      requires Valid() && StatusInRange(lines, status)
      ensures sticks == Sticks(lines, status, x)
    {
      if x.pid !in status {
        return false;
      }
      if x.iv.start == x.iv.end {
        return true;
      }
      var line := status[x.pid];
      assert Serves(graph[x.pid][line - 1], x.pid, line - 1);
      var overlap := graph[x.pid][line - 1].CheckOverlap(x.iv.start, x.iv.end);
      return !overlap;
    }

    /** The slot for a span, opening one if need be; `status` is the request's last slot per pid. */
    method FindLine(status: Status, x: Span) returns (line: nat, status': Status)
      requires Valid() && StatusInRange(lines, status)
      modifies this
      ensures Valid() && Repr >= old(Repr) && fresh(Repr - old(Repr)) && placed == old(placed)
      ensures line == TraceLayout.FindLine(old(lines), status, x) && status' == status[x.pid := line]
      ensures lines == old(lines)[x.pid := WithSlot(Lines(old(lines), x.pid), line)]
    {
      var sticks := StickySlot(status, x);
      if sticks {
        return status[x.pid], status;
      }
      if x.pid !in graph {
        line := 1;
        OpenSlot(x.pid);
      } else {
        var k := FirstFreeSlot(x.pid, x.iv.start, x.iv.end);
        line := k + 1;
        if k == |graph[x.pid]| {
          OpenSlot(x.pid);
        }
      }
      status' := status[x.pid := line];
    }

    /** Inserts the span on an open slot and records the slot. */
    method InsertOn(x: Span, line: nat)
      requires Valid() && x.pid in graph && 1 <= line <= |graph[x.pid]|
      modifies this`lines, this`placed, graph[x.pid][line - 1]
      ensures Valid() && placed == old(placed) + [Placed(x, line)]
      ensures var slots := old(lines)[x.pid];
              lines == old(lines)[x.pid := slots[line - 1 := Insort(slots[line - 1], x.iv)]]
    {
      var pid, k := x.pid, line - 1;
      assert Serves(graph[pid][k], pid, k);
      graph[pid][k].InsertSpan(x.iv.start, x.iv.end);
      lines := lines[pid := lines[pid][k := graph[pid][k].intervals]];
      placed := placed + [Placed(x, line)];
      forall p, i | p in graph && 0 <= i < |graph[p]| ensures Serves(graph[p][i], p, i) {
        assert old(Serves(graph[p][i], p, i));
      }
    }

    /** Finds a slot, inserts the span there and records the slot. */
    method Place(status: Status, x: Span) returns (status': Status)
      requires Valid() && StatusInRange(lines, status)
      modifies this, Repr
      ensures Valid() && Repr >= old(Repr) && fresh(Repr - old(Repr))
      ensures State(lines, status', placed) == Next(old(State(lines, status, placed)), Put(x))
    {
      hide Insort, NeighbourTest, FirstFree, Sorted, TraceLayout.FindLine, Next, Valid;
      ghost var before := State(lines, status, placed);
      var line;
      line, status' := FindLine(status, x);
      SlotServes(x.pid, line - 1);
      InsertOn(x, line);
      PutIsUpdate(before, x, line);
    }

    lemma SlotServes(pid: Pid, k: nat)
      requires Valid() && pid in lines && k < |lines[pid]|
      ensures pid in graph && k < |graph[pid]| && graph[pid][k] in Repr
    {
      assert Serves(graph[pid][k], pid, k);
    }

    /** Places the spans of one request, or of the gateway, with a fresh status. */
    method PlaceAll(spans: seq<Span>, ghost before: seq<Step>)
      requires Valid() && State(lines, map[], placed) == After(before, spans, 0)
      modifies this, Repr
      ensures Valid() && Repr >= old(Repr) && fresh(Repr - old(Repr))
      ensures exists status :: State(lines, status, placed) == After(before, spans, |spans|)
    {
      var status: Status := map[];
      for i := 0 to |spans|
        invariant Valid() && Repr >= old(Repr) && fresh(Repr - old(Repr))
        invariant State(lines, status, placed) == After(before, spans, i)
      {
        AfterNext(before, spans, i);
        status := Place(status, spans[i]);
      }
    }

    /** Lays out the engine requests, each with a fresh status. */
    method LayoutEngine(requests: seq<seq<Span>>)
      requires Valid() && lines == map[] && placed == []
      modifies this, Repr
      ensures Valid() && Repr >= old(Repr) && fresh(Repr - old(Repr))
      ensures lines == Run(EngineSteps(requests)).graph && placed == Run(EngineSteps(requests)).placed
    {
      for r := 0 to |requests|
        invariant Valid() && Repr >= old(Repr) && fresh(Repr - old(Repr))
        invariant lines == Run(EngineSteps(requests[..r])).graph
        invariant placed == Run(EngineSteps(requests[..r])).placed
      {
        assert requests[..r + 1][..r] == requests[..r];
        AfterStart(EngineSteps(requests[..r]), requests[r]);
        PlaceAll(requests[r], EngineSteps(requests[..r]));
        AfterAll(EngineSteps(requests[..r]), requests[r]);
      }
      assert requests[..|requests|] == requests;
    }

    /** Lays out the gateway spans, sorted by start, with a fresh status. */
    method LayoutGateway(gateway: seq<Interval>, ghost engine: seq<Step>)
      requires Valid() && lines == Run(engine).graph && placed == Run(engine).placed
      modifies this, Repr
      ensures Valid()
      ensures lines == Run(Pass(engine, SortByStart(gateway))).graph
      ensures placed == Run(Pass(engine, SortByStart(gateway))).placed
    {
      var sorted := SortByStart(gateway);
      assert engine + RequestSteps(GatewaySpans(sorted)) == Pass(engine, sorted);
      AfterStart(engine, GatewaySpans(sorted));
      PlaceAll(GatewaySpans(sorted), engine);
      AfterAll(engine, GatewaySpans(sorted));
    }
  }

  /** The whole layout: engine requests, then gateway spans. */
  method GenerateLayout(requests: seq<seq<Span>>, gateway: seq<Interval>) returns (placed: seq<Placed>)
    ensures placed == Run(Pass(EngineSteps(requests), SortByStart(gateway))).placed
    ensures NoOverlap(placed) <==> NeverBad(Pass(EngineSteps(requests), SortByStart(gateway)))
  {
    var layout := new SpanLayout();
    layout.LayoutEngine(requests);
    layout.LayoutGateway(gateway, EngineSteps(requests));
    placed := layout.placed;
    LayoutIsDisjoint(Pass(EngineSteps(requests), SortByStart(gateway)));
  }
}
