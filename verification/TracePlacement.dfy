/**
 Which slot a span gets (scripts/convert_otel_2_perfetto.py), said of the placements alone: a
 request stays on its slot of a pid while nothing there is in the way, and otherwise takes the
 lowest slot on which nothing is.
 */
module TracePlacement {
  import opened Options
  import opened LinePacking
  import opened TraceLayout

  /** The slot of the request's last span of `pid`, from the steps and what was placed in them. */
  function LastSlot(steps: seq<Step>, placed: seq<Placed>, pid: Pid): Option<nat> {
    if steps == [] || placed == [] then None
    else
      var step, last := steps[|steps| - 1], |placed| - 1;
      if step.NextRequest? then None
      else if step.span.pid == pid then Some(placed[last].tid)
      else LastSlot(steps[..|steps| - 1], placed[..last], pid)
  }

  /** Nothing placed on the slot is in the way of the interval. */
  ghost predicate FreeOn(placed: seq<Placed>, pid: Pid, tid: nat, iv: Interval) {
    forall i :: 0 <= i < |placed| && placed[i].span.pid == pid && placed[i].tid == tid ==>
      !Blocks(placed[i].span.iv, iv.start, iv.end)
  }

  /** The slot the rule gives to a span after the steps. */
  ghost predicate ByRule(steps: seq<Step>, placed: seq<Placed>, x: Span, tid: nat) {
    var last := LastSlot(steps, placed, x.pid);
    if last.Some? && (x.iv.start == x.iv.end || FreeOn(placed, x.pid, last.value, x.iv)) then tid == last.value
    else tid >= 1 && FreeOn(placed, x.pid, tid, x.iv)
         && forall u :: 1 <= u < tid ==> !FreeOn(placed, x.pid, u, x.iv)
  }

  // ---------- The status is the last slot of the request ----------

  lemma {:induction false} StatusIsLastSlot(steps: seq<Step>, pid: Pid)
    ensures var s := Run(steps);
            LastSlot(steps, s.placed, pid) == if pid in s.status then Some(s.status[pid]) else None
    decreases |steps|
  {
    if steps != [] {
      var n := |steps| - 1;
      StatusIsLastSlot(steps[..n], pid);
      hide FindLine, PutOn;
      if steps[n].Put? {
        var before, after := Run(steps[..n]).placed, Run(steps).placed;
        assert after[..|before|] == before;
        EmptyIsNone(steps[..n], before, pid);
      }
    }
  }

  lemma EmptyIsNone(steps: seq<Step>, placed: seq<Placed>, pid: Pid)
    ensures placed == [] ==> LastSlot(steps, placed, pid).None?
  {
  }

  // ---------- The test is the absence of anything in the way ----------

  /** On an open slot the test finds what is placed there, if the slot is chained. */
  lemma SlotTest(s: State, pid: Pid, tid: nat, iv: Interval)
    requires Records(s) && pid in s.graph && 1 <= tid <= |s.graph[pid]| && Sorted(s.graph[pid][tid - 1])
    ensures FreeOn(s.placed, pid, tid, iv) ==> !NeighbourTest(s.graph[pid][tid - 1], iv.start, iv.end)
    ensures Chained(s.graph[pid][tid - 1]) ==>
              (FreeOn(s.placed, pid, tid, iv) <==> !NeighbourTest(s.graph[pid][tid - 1], iv.start, iv.end))
  {
    var line := s.graph[pid][tid - 1];
    if NeighbourTest(line, iv.start, iv.end) {
      var y := TestFindsBlocker(line, iv.start, iv.end);
      var p := Placed(Span(pid, y), tid);
      assert OnLine(s.graph, p);
      assert p in s.placed;
    }
    if Chained(line) && !FreeOn(s.placed, pid, tid, iv) {
      var i :| 0 <= i < |s.placed| && s.placed[i].span.pid == pid && s.placed[i].tid == tid
               && Blocks(s.placed[i].span.iv, iv.start, iv.end);
      assert s.placed[i] in s.placed;
      assert OnLine(s.graph, s.placed[i]);
      NeighbourTestIsScan(line, iv.start, iv.end);
    }
  }

  /** What the test reports is really in the way, chained or not. */
  lemma TestFindsBlocker(line: Line, start: int, end: int) returns (y: Interval)
    requires Sorted(line) && NeighbourTest(line, start, end)
    ensures y in line && Blocks(y, start, end)
  {
    var idx := Position(line, Floor(start));
    PositionSplits(line, Floor(start));
    y := if idx > 0 && line[idx - 1].end > start then line[idx - 1] else line[idx];
  }

  lemma UnusedIsFree(s: State, pid: Pid, tid: nat, iv: Interval)
    requires Records(s) && tid > |Lines(s.graph, pid)|
    ensures FreeOn(s.placed, pid, tid, iv)
  {
    forall i | 0 <= i < |s.placed| ensures OnLine(s.graph, s.placed[i]) {
      assert s.placed[i] in s.placed;
    }
  }

  // ---------- The rule ----------

  /** A slot number is free exactly if it is not open yet or its test passes. */
  lemma FreeIff(s: State, pid: Pid, tid: nat, iv: Interval)
    requires Records(s) && AllSorted(s.graph) && AllChained(s.graph) && tid >= 1
    ensures FreeOn(s.placed, pid, tid, iv) <==>
            tid > |Lines(s.graph, pid)| || !NeighbourTest(Lines(s.graph, pid)[tid - 1], iv.start, iv.end)
  {
    hide Records, FreeOn, NeighbourTest, Sorted, Chained;
    if tid > |Lines(s.graph, pid)| {
      UnusedIsFree(s, pid, tid, iv);
    } else {
      SlotTest(s, pid, tid, iv);
    }
  }

  ghost predicate Shaped(s: State) {
    Records(s) && AllSorted(s.graph) && AllChained(s.graph) && StatusInRange(s.graph, s.status)
  }

  lemma SticksIff(s: State, x: Span)
    requires Shaped(s)
    ensures Sticks(s.graph, s.status, x) <==>
            x.pid in s.status && (x.iv.start == x.iv.end || FreeOn(s.placed, x.pid, s.status[x.pid], x.iv))
  {
    hide Records, FreeOn, NeighbourTest, AllSorted, AllChained;
    if x.pid in s.status {
      FreeIff(s, x.pid, s.status[x.pid], x.iv);
    }
  }

  lemma FirstFreeIsLowest(s: State, x: Span, u: nat)
    requires Shaped(s) && u >= 1
    ensures var first := FirstFree(Lines(s.graph, x.pid), x.iv.start, x.iv.end) + 1;
            && (u == first ==> FreeOn(s.placed, x.pid, u, x.iv))
            && (u < first ==> !FreeOn(s.placed, x.pid, u, x.iv))
  {
    hide Records, FreeOn, NeighbourTest, AllSorted, AllChained;
    FreeIff(s, x.pid, u, x.iv);
  }

  lemma ChosenByRule(steps: seq<Step>, x: Span)
    requires NeverBad(steps)
    ensures var s := Run(steps); ByRule(steps, s.placed, x, FindLine(s.graph, s.status, x))
  {
    var s := Run(steps);
    RunKeepsShape(steps);
    StatusIsLastSlot(steps, x.pid);
    assert Shaped(s);
    hide Run, NeverBad, FreeOn, LastSlot, Shaped, FirstFree, Sticks;
    SticksIff(s, x);
    var first := FirstFree(Lines(s.graph, x.pid), x.iv.start, x.iv.end) + 1;
    FirstFreeIsLowest(s, x, first);
    forall u | 1 <= u < first ensures !FreeOn(s.placed, x.pid, u, x.iv) {
      FirstFreeIsLowest(s, x, u);
    }
  }

  /**
   Over any run without a bad shortcut, every span goes where the rule says: to the slot of its
   request's last span of that pid, if it has no length or nothing placed there is in its way,
   and otherwise to the lowest slot on which nothing placed is.
   */
  lemma PlacementRule(steps: seq<Step>, x: Span)
    requires NeverBad(steps)
    ensures var placed, after := Run(steps).placed, Run(steps + [Put(x)]).placed;
            && |after| == |placed| + 1 && after[..|placed|] == placed && after[|placed|].span == x
            && ByRule(steps, placed, x, after[|placed|].tid)
  {
    hide Run, NeverBad, ByRule;
    RunThen(steps, Put(x));
    ChosenByRule(steps, x);
  }

  /** Whatever happened before, a request stays on its slot while nothing placed there is in the way. */
  lemma StaysWhileFree(steps: seq<Step>, x: Span)
    ensures var placed, after := Run(steps).placed, Run(steps + [Put(x)]).placed;
            && |after| == |placed| + 1
            && var last := LastSlot(steps, placed, x.pid);
               last.Some? && FreeOn(placed, x.pid, last.value, x.iv) ==> after[|placed|].tid == last.value
  {
    var s := Run(steps);
    RunKeepsShape(steps);
    StatusIsLastSlot(steps, x.pid);
    hide Run, Records, FreeOn, NeighbourTest, LastSlot;
    RunThen(steps, Put(x));
    if x.pid in s.status {
      SlotTest(s, x.pid, s.status[x.pid], x.iv);
    }
  }

  // ---------- In terms of overlap ----------

  ghost predicate AllPositive(steps: seq<Step>) {
    forall k :: 0 <= k < |steps| && steps[k].Put? ==> steps[k].span.iv.start < steps[k].span.iv.end
  }

  lemma {:induction false} PlacedPositive(steps: seq<Step>)
    requires AllPositive(steps)
    ensures forall i :: 0 <= i < |Run(steps).placed| ==>
              Run(steps).placed[i].span.iv.start < Run(steps).placed[i].span.iv.end
    decreases |steps|
  {
    if steps != [] {
      hide FindLine, PutOn;
      PlacedPositive(steps[..|steps| - 1]);
    }
  }

  ghost predicate NothingOverlaps(placed: seq<Placed>, pid: Pid, tid: nat, iv: Interval) {
    forall i :: 0 <= i < |placed| && placed[i].span.pid == pid && placed[i].tid == tid ==>
      Disjoint(placed[i].span.iv, iv)
  }

  /** For spans of positive length, being free is overlapping nothing placed there. */
  lemma FreeIsDisjoint(placed: seq<Placed>, pid: Pid, tid: nat, iv: Interval)
    requires iv.start < iv.end && forall i :: 0 <= i < |placed| ==> placed[i].span.iv.start < placed[i].span.iv.end
    ensures FreeOn(placed, pid, tid, iv) <==> NothingOverlaps(placed, pid, tid, iv)
  {
    forall i | 0 <= i < |placed|
      ensures Blocks(placed[i].span.iv, iv.start, iv.end) <==> !Disjoint(placed[i].span.iv, iv)
    {
      BlocksIsOverlap(placed[i].span.iv, iv.start, iv.end);
    }
  }

  /** With positive lengths, in every run: the slot of the request's last span, or the lowest without an overlap. */
  lemma OrdinaryPlacement(steps: seq<Step>, x: Span)
    requires AllPositive(steps + [Put(x)])
    ensures var placed, after := Run(steps).placed, Run(steps + [Put(x)]).placed;
            && |after| == |placed| + 1 && after[|placed|].span == x
            && var last, tid := LastSlot(steps, placed, x.pid), after[|placed|].tid;
               if last.Some? && NothingOverlaps(placed, x.pid, last.value, x.iv) then tid == last.value
               else tid >= 1 && NothingOverlaps(placed, x.pid, tid, x.iv)
                    && forall u :: 1 <= u < tid ==> !NothingOverlaps(placed, x.pid, u, x.iv)
  {
    var all := steps + [Put(x)];
    assert all[|steps|] == Put(x);
    assert forall k :: 0 <= k < |steps| ==> steps[k] == all[k];
    hide Run, NeverBad, FreeOn, NothingOverlaps, LastSlot;
    NonemptySpansNeverOverlap(steps);
    PlacementRule(steps, x);
    PlacedPositive(steps);
    forall tid: nat ensures FreeOn(Run(steps).placed, x.pid, tid, x.iv) <==>
        NothingOverlaps(Run(steps).placed, x.pid, tid, x.iv)
    {
      FreeIsDisjoint(Run(steps).placed, x.pid, tid, x.iv);
    }
  }
}
