/**
 The slot layout over whole traces (scripts/convert_otel_2_perfetto.py): the sticky
 first-fit choice of a slot, run over any sequence of requests and spans.
 */
module TraceLayout {
  import opened LinePacking

  datatype Pid = Engine(id: int) | Gateway

  datatype Span = Span(pid: Pid, iv: Interval)

  type Graph = map<Pid, seq<Line>>

  /** The slot each pid used last, numbered from 1. */
  type Status = map<Pid, nat>

  datatype Placed = Placed(span: Span, tid: nat)

  datatype State = State(graph: Graph, status: Status, placed: seq<Placed>)

  datatype Step = NextRequest | Put(span: Span)

  const Start := State(map[], map[], [])

  function Lines(g: Graph, pid: Pid): seq<Line> {
    if pid in g then g[pid] else []
  }

  predicate StatusInRange(g: Graph, st: Status) {
    forall pid :: pid in st ==> 1 <= st[pid] <= |Lines(g, pid)|
  }

  function FirstFree(lines: seq<Line>, start: int, end: int): (k: nat)
    ensures k <= |lines|
    ensures forall i :: 0 <= i < k ==> NeighbourTest(lines[i], start, end)
    ensures k < |lines| ==> !NeighbourTest(lines[k], start, end)
  {
    if lines == [] || !NeighbourTest(lines[0], start, end) then 0
    else 1 + FirstFree(lines[1..], start, end)
  }

  predicate Sticks(g: Graph, st: Status, x: Span)
    requires StatusInRange(g, st)
  {
    x.pid in st &&
    (x.iv.start == x.iv.end || !NeighbourTest(g[x.pid][st[x.pid] - 1], x.iv.start, x.iv.end))
  }

  /** The slot for `x`, numbered from 1; one past the last slot when all are taken. */
  function FindLine(g: Graph, st: Status, x: Span): (line: nat)
    requires StatusInRange(g, st)
    ensures 1 <= line <= |Lines(g, x.pid)| + 1
  {
    if Sticks(g, st, x) then st[x.pid]
    else FirstFree(Lines(g, x.pid), x.iv.start, x.iv.end) + 1
  }

  function WithSlot(lines: seq<Line>, line: nat): (r: seq<Line>)
    requires 1 <= line <= |lines| + 1
    ensures line <= |r| && lines <= r
    ensures |lines| < |r| ==> r == lines + [[]]
  {
    if line == |lines| + 1 then lines + [[]] else lines
  }

  function PutOn(lines: seq<Line>, line: nat, x: Interval): seq<Line>
    requires 1 <= line <= |lines| + 1
  {
    var more := WithSlot(lines, line);
    more[line - 1 := Insort(more[line - 1], x)]
  }

  function Next(s: State, step: Step): (s': State)
    requires StatusInRange(s.graph, s.status)
    ensures StatusInRange(s'.graph, s'.status)
  {
    match step
    case NextRequest => s.(status := map[])
    case Put(x) =>
      var line := FindLine(s.graph, s.status, x);
      State(s.graph[x.pid := PutOn(Lines(s.graph, x.pid), line, x.iv)],
            s.status[x.pid := line],
            s.placed + [Placed(x, line)])
  }

  function Run(steps: seq<Step>): (s: State)
    ensures StatusInRange(s.graph, s.status)
  {
    if steps == [] then Start else Next(Run(steps[..|steps| - 1]), steps[|steps| - 1])
  }

  lemma RunThen(steps: seq<Step>, step: Step)
    ensures Run(steps + [step]) == Next(Run(steps), step)
  {
    assert (steps + [step])[..|steps|] == steps;
  }

  // ---------- What every run keeps ----------

  ghost predicate LinesSorted(lines: seq<Line>) {
    forall k :: 0 <= k < |lines| ==> Sorted(lines[k])
  }

  ghost predicate LinesChained(lines: seq<Line>) {
    forall k :: 0 <= k < |lines| ==> Chained(lines[k])
  }

  ghost predicate AllSorted(g: Graph) {
    forall pid :: pid in g ==> LinesSorted(g[pid])
  }

  ghost predicate AllChained(g: Graph) {
    forall pid :: pid in g ==> LinesChained(g[pid])
  }

  ghost predicate OnLine(g: Graph, p: Placed) {
    p.span.pid in g && 1 <= p.tid <= |g[p.span.pid]| && p.span.iv in g[p.span.pid][p.tid - 1]
  }

  /** The lines hold exactly the placed spans. */
  ghost predicate Records(s: State) {
    forall p :: OnLine(s.graph, p) <==> p in s.placed
  }

  /** No two spans on one (pid, slot) overlap. */
  ghost predicate NoOverlap(placed: seq<Placed>) {
    forall i, j :: 0 <= i < j < |placed| && placed[i].span.pid == placed[j].span.pid && placed[i].tid == placed[j].tid
      ==> Disjoint(placed[i].span.iv, placed[j].span.iv)
  }

  /** A zero-length span skips the test and lands strictly inside an interval of its sticky slot. */
  ghost predicate BadShortcut(s: State, x: Span)
    requires StatusInRange(s.graph, s.status)
  {
    x.pid in s.status && x.iv.start == x.iv.end &&
    exists y :: y in s.graph[x.pid][s.status[x.pid] - 1] && y.start < x.iv.start < y.end
  }

  ghost predicate NeverBad(steps: seq<Step>) {
    steps == [] ||
    (var before := steps[..|steps| - 1];
     var last := steps[|steps| - 1];
     NeverBad(before) && !(last.Put? && BadShortcut(Run(before), last.span)))
  }

  lemma InsortHolds(line: Line, x: Interval)
    ensures forall y :: y in Insort(line, x) <==> y in line || y == x
  {
    var p := Position(line, At(x.start, x.end));
    assert line == line[..p] + line[p..];
  }

  lemma PutHolds(g: Graph, x: Span, line: nat, p: Placed)
    requires 1 <= line <= |Lines(g, x.pid)| + 1
    ensures OnLine(g[x.pid := PutOn(Lines(g, x.pid), line, x.iv)], p) <==>
            OnLine(g, p) || p == Placed(x, line)
  {
    InsortHolds(WithSlot(Lines(g, x.pid), line)[line - 1], x.iv);
  }

  lemma NextRecords(s: State, x: Span)
    requires StatusInRange(s.graph, s.status) && Records(s)
    ensures Records(Next(s, Put(x)))
  {
    forall p ensures OnLine(Next(s, Put(x)).graph, p) <==> p in Next(s, Put(x)).placed {
      PutHolds(s.graph, x, FindLine(s.graph, s.status, x), p);
    }
  }

  lemma PutSorted(lines: seq<Line>, line: nat, x: Interval)
    requires 1 <= line <= |lines| + 1 && LinesSorted(lines)
    ensures LinesSorted(PutOn(lines, line, x))
  {
    InsortSorted(WithSlot(lines, line)[line - 1], x);
  }

  lemma EmptyLineFree(start: int, end: int)
    ensures !NeighbourTest([], start, end)
  {
  }

  /** Outside the bad shortcut, nothing on the chosen slot stands in the way. */
  lemma ChosenSlotIsFree(s: State, x: Span)
    requires StatusInRange(s.graph, s.status) && !BadShortcut(s, x)
    requires LinesSorted(Lines(s.graph, x.pid)) && LinesChained(Lines(s.graph, x.pid))
    ensures var line := FindLine(s.graph, s.status, x);
            !NeighbourTest(WithSlot(Lines(s.graph, x.pid), line)[line - 1], x.iv.start, x.iv.end)
  {
    hide NeighbourTest, Sorted, Chained;
    EmptyLineFree(x.iv.start, x.iv.end);
    if Sticks(s.graph, s.status, x) && x.iv.start == x.iv.end {
      NeighbourTestIsScan(s.graph[x.pid][s.status[x.pid] - 1], x.iv.start, x.iv.end);
    }
  }

  lemma NextChained(s: State, x: Span)
    requires StatusInRange(s.graph, s.status) && !BadShortcut(s, x)
    requires LinesSorted(Lines(s.graph, x.pid)) && LinesChained(Lines(s.graph, x.pid))
    ensures LinesChained(Lines(Next(s, Put(x)).graph, x.pid))
  {
    hide NeighbourTest, Insort, Chained, Sorted, FindLine;
    var line := FindLine(s.graph, s.status, x);
    ChosenSlotIsFree(s, x);
    InsortChained(WithSlot(Lines(s.graph, x.pid), line)[line - 1], x.iv);
  }

  lemma NextDisjoint(s: State, x: Span, p: Placed)
    requires StatusInRange(s.graph, s.status) && !BadShortcut(s, x) && Records(s)
    requires LinesSorted(Lines(s.graph, x.pid)) && LinesChained(Lines(s.graph, x.pid))
    requires p in s.placed && p.span.pid == x.pid && p.tid == FindLine(s.graph, s.status, x)
    ensures Disjoint(p.span.iv, x.iv)
  {
    assert OnLine(s.graph, p);
    var l := s.graph[x.pid][p.tid - 1];
    hide NeighbourTest, Sorted, Chained, FindLine;
    ChosenSlotIsFree(s, x);
    NeighbourTestIsScan(l, x.iv.start, x.iv.end);
    var i :| 0 <= i < |l| && l[i] == p.span.iv;
    assert !Blocks(l[i], x.iv.start, x.iv.end);
  }

  lemma BadOverlaps(s: State, x: Span)
    requires StatusInRange(s.graph, s.status) && Records(s) && BadShortcut(s, x)
    ensures !NoOverlap(Next(s, Put(x)).placed)
  {
    var line := s.status[x.pid];
    var y :| y in s.graph[x.pid][line - 1] && y.start < x.iv.start < y.end;
    assert OnLine(s.graph, Placed(Span(x.pid, y), line));
    var i :| 0 <= i < |s.placed| && s.placed[i] == Placed(Span(x.pid, y), line);
    var placed := Next(s, Put(x)).placed;
    assert placed[i] == s.placed[i] && placed[|s.placed|] == Placed(x, line);
  }

  lemma NextNoOverlap(s: State, x: Span)
    requires StatusInRange(s.graph, s.status) && AllSorted(s.graph) && AllChained(s.graph) && Records(s)
    requires !BadShortcut(s, x) && NoOverlap(s.placed)
    ensures NoOverlap(Next(s, Put(x)).placed)
  {
    forall i | 0 <= i < |s.placed| && s.placed[i].span.pid == x.pid
               && s.placed[i].tid == FindLine(s.graph, s.status, x)
      ensures Disjoint(s.placed[i].span.iv, x.iv)
    {
      NextDisjoint(s, x, s.placed[i]);
    }
  }

  lemma NextKeepsShape(s: State, x: Span)
    requires StatusInRange(s.graph, s.status) && AllSorted(s.graph)
    ensures AllSorted(Next(s, Put(x)).graph)
    ensures AllChained(s.graph) && !BadShortcut(s, x) ==> AllChained(Next(s, Put(x)).graph)
  {
    PutSorted(Lines(s.graph, x.pid), FindLine(s.graph, s.status, x), x.iv);
    if AllChained(s.graph) && !BadShortcut(s, x) {
      NextChained(s, x);
    }
  }

  lemma {:induction false} RunKeepsShape(steps: seq<Step>)
    ensures Records(Run(steps)) && AllSorted(Run(steps).graph)
    ensures NeverBad(steps) ==> AllChained(Run(steps).graph)
    decreases |steps|
  {
    if steps != [] {
      var before, last := steps[..|steps| - 1], steps[|steps| - 1];
      RunKeepsShape(before);
      if last.Put? {
        NextRecords(Run(before), last.span);
        NextKeepsShape(Run(before), last.span);
      }
    }
  }

  /** Over any run, the layout is free of overlaps exactly when no placement was a bad shortcut. */
  lemma {:induction false} LayoutIsDisjoint(steps: seq<Step>)
    ensures NoOverlap(Run(steps).placed) <==> NeverBad(steps)
    decreases |steps|
  {
    if steps != [] {
      var before, last := steps[..|steps| - 1], steps[|steps| - 1];
      LayoutIsDisjoint(before);
      RunKeepsShape(before);
      var s := Run(before);
      if last.Put? {
        if BadShortcut(s, last.span) {
          BadOverlaps(s, last.span);
        } else if NeverBad(before) {
          NextNoOverlap(s, last.span);
        } else {
          assert Run(steps).placed[..|s.placed|] == s.placed;
        }
      }
    }
  }

  /** A span whose ends differ never takes the shortcut. */
  lemma {:induction false} NonemptySpansNeverOverlap(steps: seq<Step>)
    requires forall k :: 0 <= k < |steps| && steps[k].Put? ==> steps[k].span.iv.start != steps[k].span.iv.end
    ensures NeverBad(steps) && NoOverlap(Run(steps).placed)
    decreases |steps|
  {
    LayoutIsDisjoint(steps);
    if steps != [] {
      NonemptySpansNeverOverlap(steps[..|steps| - 1]);
    }
  }

  const LONG := Span(Engine(1), Interval(0, 10))
  const EMPTY := Span(Engine(1), Interval(5, 5))
  const INNER := Span(Engine(1), Interval(7, 8))

  const ALONE := State(map[Engine(1) := [[LONG.iv]]], map[Engine(1) := 1], [Placed(LONG, 1)])

  lemma LongAlone()
    ensures Run([Put(LONG)]) == ALONE
  {
    assert Insort([], LONG.iv) == [LONG.iv];
    assert PutOn([], 1, LONG.iv) == [[LONG.iv]];
    assert Next(Start, Put(LONG)) == ALONE;
    RunThen([], Put(LONG));
    assert [] + [Put(LONG)] == [Put(LONG)];
  }

  lemma EmptyComesSecond()
    ensures PutOn([[LONG.iv]], 1, EMPTY.iv) == [[LONG.iv, EMPTY.iv]]
  {
    assert Position([LONG.iv], At(5, 5)) == 1;
    assert Insort([LONG.iv], EMPTY.iv) == [LONG.iv, EMPTY.iv];
  }

  /** The slot after the long and the empty span. */
  lemma EmptyOnLong()
    ensures Run([Put(LONG), Put(EMPTY)]) ==
            State(map[Engine(1) := [[LONG.iv, EMPTY.iv]]], map[Engine(1) := 1], [Placed(LONG, 1), Placed(EMPTY, 1)])
  {
    LongAlone();
    EmptyComesSecond();
    hide Run, PutOn, Insort, NeighbourTest, FirstFree;
    RunThen([Put(LONG)], Put(EMPTY));
    assert [Put(LONG)] + [Put(EMPTY)] == [Put(LONG), Put(EMPTY)];
  }

  /** The test sees only the empty span before the inner one, and finds the slot free. */
  lemma EmptyHidesLong()
    ensures !NeighbourTest([LONG.iv, EMPTY.iv], 7, 8)
  {
    assert [LONG.iv, EMPTY.iv][1..] == [EMPTY.iv];
    assert Position([EMPTY.iv], Floor(7)) == 1;
    assert Position([LONG.iv, EMPTY.iv], Floor(7)) == 2;
  }

  /** One zero-length span hides the interval around it: two long spans then share a slot. */
  lemma ZeroLengthSpanHidesInterval()
    ensures Run([Put(LONG), Put(EMPTY), Put(INNER)]).placed == [Placed(LONG, 1), Placed(EMPTY, 1), Placed(INNER, 1)]
    ensures !Disjoint(LONG.iv, INNER.iv)
  {
    EmptyOnLong();
    EmptyHidesLong();
    hide NeighbourTest, Insort, Run;
    RunThen([Put(LONG), Put(EMPTY)], Put(INNER));
    assert [Put(LONG), Put(EMPTY)] + [Put(INNER)] == [Put(LONG), Put(EMPTY), Put(INNER)];
  }
}
