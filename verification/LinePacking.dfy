/**
 Packing spans into slots (scripts/convert_otel_2_perfetto.py): what one slot holds, the
 neighbour-only overlap test on it, and what an insertion does to it.
 */
module LinePacking {

  datatype Interval = Interval(start: int, end: int)

  type Line = seq<Interval>

  /** A bisection key: an interval, or a start paired with minus infinity. */
  datatype Key = At(start: int, end: int) | Floor(start: int)

  predicate Below(x: Interval, k: Key) {
    x.start < k.start || (k.At? && x.start == k.start && x.end < k.end)
  }

  predicate Leq(x: Interval, y: Interval) {
    x.start < y.start || (x.start == y.start && x.end <= y.end)
  }

  ghost predicate Sorted(line: Line) {
    forall i, j :: 0 <= i < j < |line| ==> Leq(line[i], line[j])
  }

  /** Each interval ends before the ones after it start. */
  ghost predicate Chained(line: Line) {
    forall i, j :: 0 <= i < j < |line| ==> line[i].end <= line[j].start
  }

  predicate Disjoint(x: Interval, y: Interval) {
    x.end <= y.start || y.end <= x.start
  }

  /** Where bisection to the left of `k` lands: after the leading intervals below `k`. */
  function Position(line: Line, k: Key): (p: nat)
    ensures p <= |line|
    ensures forall i :: 0 <= i < p ==> Below(line[i], k)
    ensures p < |line| ==> !Below(line[p], k)
  {
    if line == [] || !Below(line[0], k) then 0 else 1 + Position(line[1..], k)
  }

  lemma PositionSplits(line: Line, k: Key)
    requires Sorted(line)
    ensures forall i :: Position(line, k) <= i < |line| ==> !Below(line[i], k)
  {
    forall i | Position(line, k) <= i < |line| ensures !Below(line[i], k) {
      if Position(line, k) < i {
        assert Leq(line[Position(line, k)], line[i]);
      }
    }
  }

  function Insort(line: Line, x: Interval): Line {
    var p := Position(line, At(x.start, x.end));
    line[..p] + [x] + line[p..]
  }

  /** The test as coded: only the two intervals next to the bisection point are inspected. */
  predicate NeighbourTest(line: Line, start: int, end: int) {
    var idx := Position(line, Floor(start));
    (idx > 0 && line[idx - 1].end > start) || (idx < |line| && line[idx].start < end)
  }

  /** One placed interval stands in the way of a new one. */
  predicate Blocks(x: Interval, start: int, end: int) {
    x.start < start < x.end || start <= x.start < end
  }

  /** On intervals of positive length, standing in the way is overlapping. */
  lemma BlocksIsOverlap(x: Interval, start: int, end: int)
    requires x.start < x.end && start < end
    ensures Blocks(x, start, end) <==> !Disjoint(x, Interval(start, end))
  {
  }

  /** The two neighbours answer for the whole line. */
  lemma NeighbourTestIsScan(line: Line, start: int, end: int)
    requires Sorted(line) && Chained(line)
    ensures NeighbourTest(line, start, end) <==> exists i :: 0 <= i < |line| && Blocks(line[i], start, end)
  {
    var idx := Position(line, Floor(start));
    PositionSplits(line, Floor(start));
    if NeighbourTest(line, start, end) {
      if idx > 0 && line[idx - 1].end > start {
        assert Blocks(line[idx - 1], start, end);
      } else {
        assert Blocks(line[idx], start, end);
      }
    }
    forall i | 0 <= i < |line| && Blocks(line[i], start, end) ensures NeighbourTest(line, start, end) {
      if i < idx - 1 {
        assert line[i].end <= line[idx - 1].start;
      } else if idx < i {
        assert Leq(line[idx], line[i]);
      }
    }
  }

  lemma InsortSorted(line: Line, x: Interval)
    requires Sorted(line)
    ensures Sorted(Insort(line, x))
  {
    PositionSplits(line, At(x.start, x.end));
  }

  /** A span that the test lets through keeps the line chained, whatever its length. */
  lemma InsortChained(line: Line, x: Interval)
    requires Sorted(line) && Chained(line) && !NeighbourTest(line, x.start, x.end)
    ensures Chained(Insort(line, x))
  {
    var k := At(x.start, x.end);
    var p := Position(line, k);
    PositionSplits(line, k);
    forall i | 0 <= i < |line|
      ensures i < p ==> line[i].end <= x.start
      ensures p <= i ==> x.end <= line[i].start
    {
      NeighbourTestIsScan(line, x.start, x.end);
      assert !Blocks(line[i], x.start, x.end);
    }
  }
}
