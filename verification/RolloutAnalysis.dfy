/**
 Token rates over time windows (benchmark/agentic-rollout/plot.py): every increment of a
 request's token count goes to the window in which it arrived.
 */
module RolloutAnalysis {
  import opened Arithmetic
  import opened Rollout
  import opened Tables

  /** A successful request: when it was submitted and what arrived when after that. */
  datatype Row = Row(submittedAt: real, arrivals: seq<Arrival>)

  function WindowOf(row: Row, at: real, start: real, window: real): int
    requires window > 0.0
  {
    ((row.submittedAt + at - start) / window).Floor
  }

  /** Window `w` is the time from `w` windows after the start up to `w + 1` windows after it. */
  lemma WindowCovers(row: Row, at: real, start: real, window: real, w: int)
    requires window > 0.0
    ensures w == WindowOf(row, at, start, window) <==>
            w as real * window <= row.submittedAt + at - start < (w + 1) as real * window
  {
    FloorBetween(row.submittedAt + at - start, window, w);
  }

  lemma FloorBetween(since: real, window: real, w: int)
    requires window > 0.0
    ensures w == (since / window).Floor <==> w as real * window <= since < (w + 1) as real * window
  {
    QuotientCompares(since, window, (w + 1) as real);
    QuotientCompares(since, window, w as real);
  }

  /** The increment that came with arrival `k`. */
  function Increment(arrivals: seq<Arrival>, k: nat): int
    requires k < |arrivals|
  {
    arrivals[k].count - if k == 0 then 0 else arrivals[k - 1].count
  }

  /** Tokens among the first `k` arrivals of a row that fall in window `w`. */
  function RowTokens(row: Row, start: real, window: real, w: int, k: nat): int
    requires window > 0.0 && k <= |row.arrivals|
  {
    if k == 0 then 0
    else RowTokens(row, start, window, w, k - 1)
         + if WindowOf(row, row.arrivals[k - 1].at, start, window) == w then Increment(row.arrivals, k - 1) else 0
  }

  function WindowTokens(rows: seq<Row>, start: real, window: real, w: int): int
    requires window > 0.0
  {
    if rows == [] then 0
    else
      var n := |rows| - 1;
      WindowTokens(rows[..n], start, window, w) + RowTokens(rows[n], start, window, w, |rows[n].arrivals|)
  }

  function LastCount(arrivals: seq<Arrival>): int {
    if arrivals == [] then 0 else arrivals[|arrivals| - 1].count
  }

  /** All tokens generated. */
  function TotalTokens(rows: seq<Row>): int {
    if rows == [] then 0 else TotalTokens(rows[..|rows| - 1]) + LastCount(rows[|rows| - 1].arrivals)
  }

  // ---------- The tally ----------

  /** Adds one row to the table of rates. */
  method TallyRow(rates: map<int, int>, row: Row, start: real, window: real, ghost total: int)
    returns (r: map<int, int>)
    requires window > 0.0 && SumsTo(rates, total)
    ensures forall w :: At(r, w) == At(rates, w) + RowTokens(row, start, window, w, |row.arrivals|)
    ensures SumsTo(r, total + LastCount(row.arrivals))
  {
    r := rates;
    var previousCount := 0;
    for k := 0 to |row.arrivals|
      invariant previousCount == if k == 0 then 0 else row.arrivals[k - 1].count
      invariant forall w :: At(r, w) == At(rates, w) + RowTokens(row, start, window, w, k)
      invariant SumsTo(r, total + previousCount)
    {
      hide SumsTo;
      var w := WindowOf(row, row.arrivals[k].at, start, window);
      SumsToAdd(r, total + previousCount, w, row.arrivals[k].count - previousCount);
      r := r[w := At(r, w) + (row.arrivals[k].count - previousCount)];
      previousCount := row.arrivals[k].count;
    }
  }

  /** Each window gets its own tokens, and together the windows get them all. */
  method Tally(rows: seq<Row>, start: real, window: real) returns (rates: map<int, int>)
    requires window > 0.0
    ensures forall w :: At(rates, w) == WindowTokens(rows, start, window, w)
    ensures SumsTo(rates, TotalTokens(rows))
  {
    rates := map[];
    EmptySumsToZero();
    for i := 0 to |rows|
      invariant forall w :: At(rates, w) == WindowTokens(rows[..i], start, window, w)
      invariant SumsTo(rates, TotalTokens(rows[..i]))
    {
      assert rows[..i + 1][..i] == rows[..i];
      rates := TallyRow(rates, rows[i], start, window, TotalTokens(rows[..i]));
    }
    assert rows[..|rows|] == rows;
  }

  lemma {:induction false} RowTokensNonnegative(row: Row, start: real, window: real, w: int, k: nat)
    requires window > 0.0 && k <= |row.arrivals| && Growing(row.arrivals, LastCount(row.arrivals))
    ensures RowTokens(row, start, window, w, k) >= 0
    decreases k
  {
    if k > 0 {
      RowTokensNonnegative(row, start, window, w, k - 1);
    }
  }

  ghost predicate AllGrowing(rows: seq<Row>) {
    forall i :: 0 <= i < |rows| ==> Growing(rows[i].arrivals, LastCount(rows[i].arrivals))
  }

  /** On the client's own records no window has a negative rate. */
  lemma {:induction false} WindowTokensNonnegative(rows: seq<Row>, start: real, window: real, w: int)
    requires window > 0.0 && AllGrowing(rows)
    ensures WindowTokens(rows, start, window, w) >= 0
    decreases |rows|
  {
    if rows != [] {
      var n := |rows| - 1;
      WindowTokensNonnegative(rows[..n], start, window, w);
      RowTokensNonnegative(rows[n], start, window, w, |rows[n].arrivals|);
    }
  }

  // ---------- The table by time ----------

  /** A reported window has started before the end of the run. */
  predicate Reported(w: int, window: real, duration: real) {
    0 <= w && w as real * window < duration
  }

  /** Tokens of the first `n` windows that are reported. */
  function ReportedTokens(rows: seq<Row>, start: real, window: real, duration: real, n: nat): int
    requires window > 0.0
  {
    if n == 0 then 0
    else ReportedTokens(rows, start, window, duration, n - 1)
         + if Reported(n - 1, window, duration) then WindowTokens(rows, start, window, n - 1) else 0
  }

  datatype ByTime = ByTime(elapsed: real, duration: real, tokensPerSecond: real)

  lemma TableThen(table: seq<ByTime>, elapsed: real, duration: real, tokens: int)
    requires duration > 0.0
    ensures TableTokens(table + [ByTime(elapsed, duration, tokens as real / duration)]) ==
            TableTokens(table) + tokens as real
  {
    var entry := ByTime(elapsed, duration, tokens as real / duration);
    assert (table + [entry])[..|table|] == table;
    QuotientTimes(tokens as real, duration);
  }

  /** How long window `index` lasts within a run. */
  function WindowDuration(index: nat, window: real, total: real): real {
    var left := total - index as real * window;
    if window <= left then window else left
  }

  lemma DurationIsReported(index: nat, window: real, total: real)
    requires window > 0.0
    ensures WindowDuration(index, window, total) > 0.0 <==> Reported(index, window, total)
    ensures WindowDuration(index, window, total) <= window
    ensures WindowDuration(index, window, total) ==
            if (index + 1) as real * window <= total then window else total - index as real * window
  {
    assert (index + 1) as real * window == index as real * window + window;
  }

  lemma ReportedThen(rows: seq<Row>, start: real, window: real, total: real, index: nat)
    requires window > 0.0
    ensures ReportedTokens(rows, start, window, total, 0) == 0
    ensures ReportedTokens(rows, start, window, total, index + 1) == ReportedTokens(rows, start, window, total, index)
            + if Reported(index, window, total) then WindowTokens(rows, start, window, index) else 0
  {
  }

  /** The entry of a window: when it starts, how long it lasts within the run, and its own tokens as a rate. */
  ghost predicate Reports(entry: ByTime, rows: seq<Row>, start: real, window: real, total: real, index: nat)
    requires window > 0.0
  {
    && entry.elapsed == index as real * window
    && entry.duration == WindowDuration(index, window, total) && 0.0 < entry.duration <= window
    && entry.duration == (if (index + 1) as real * window <= total then window else total - index as real * window)
    && entry.tokensPerSecond * entry.duration == WindowTokens(rows, start, window, index) as real
  }

  /** The reported windows are the first `n`. */
  ghost predicate OnlyFirstReported(n: nat, window: real, total: real) {
    forall w :: Reported(w, window, total) <==> 0 <= w < n
  }

  lemma ReportedDown(v: int, w: int, window: real, total: real)
    requires window > 0.0 && 0 <= v <= w && Reported(w, window, total)
    ensures Reported(v, window, total)
  {
    ScaleMonotone(v as real, w as real, window);
  }

  /** No window after those visited starts before the end. */
  lemma ReportedVisited(w: int, window: real, total: real)
    requires window > 0.0 && total >= 0.0 && Reported(w, window, total)
    ensures w < WindowCount(total, window)
  {
    if w >= WindowCount(total, window) {
      ScaleMonotone(total / window, w as real, window);
      QuotientTimes(total, window);
    }
  }

  /** The table: one entry per window that starts before the end of the run, in order. */
  method TableByTime(rows: seq<Row>, start: real, finish: real, window: real) returns (table: seq<ByTime>)
    requires window > 0.0 && start <= finish
    ensures OnlyFirstReported(|table|, window, finish - start)
    ensures forall i :: 0 <= i < |table| ==> Reports(table[i], rows, start, window, finish - start, i)
    ensures TableTokens(table) ==
            ReportedTokens(rows, start, window, finish - start, WindowCount(finish - start, window)) as real
  {
    hide TableTokens, WindowTokens, WindowCount, WindowDuration, Reported, ReportedTokens, SumsTo, TotalTokens;
    var rates := Tally(rows, start, window);
    var total := finish - start;
    table := [];
    NoRows();
    ReportedThen(rows, start, window, total, 0);
    for index := 0 to WindowCount(total, window)
      invariant |table| <= index && TableTokens(table) == ReportedTokens(rows, start, window, total, index) as real
      invariant forall w :: 0 <= w < index ==> (Reported(w, window, total) <==> w < |table|)
      invariant forall i :: 0 <= i < |table| ==> Reports(table[i], rows, start, window, total, i)
    {
      var duration := WindowDuration(index, window, total);
      DurationIsReported(index, window, total);
      ReportedThen(rows, start, window, total, index);
      if duration > 0.0 {
        if |table| < index {
          ReportedDown(|table|, index, window, total);
        }
        TableThen(table, index as real * window, duration, At(rates, index));
        QuotientTimes(At(rates, index) as real, duration);
        table := table + [ByTime(index as real * window, duration, At(rates, index) as real / duration)];
      }
    }
    forall w | Reported(w, window, total) ensures 0 <= w < WindowCount(total, window) {
      ReportedVisited(w, window, total);
      ReportedFrom0(w, window, total);
    }
  }

  lemma ReportedFrom0(w: int, window: real, total: real)
    requires Reported(w, window, total)
    ensures 0 <= w
  {
  }

  lemma NoRows()
    ensures TableTokens([]) == 0.0
  {
  }

  /** How many windows the loop visits. */
  function WindowCount(duration: real, window: real): nat
    requires window > 0.0 && duration >= 0.0
  {
    QuotientNonnegative(duration, window);
    (duration / window).Floor + 1
  }

  /** What a table accounts for: rate times duration, summed. */
  function TableTokens(table: seq<ByTime>): real {
    if table == [] then 0.0
    else
      var last := table[|table| - 1];
      TableTokens(table[..|table| - 1]) + last.tokensPerSecond * last.duration
  }

  // ---------- What the table misses ----------

  /** Tokens among the first `k` arrivals of a row whose window is not reported. */
  function RowMissed(row: Row, start: real, window: real, duration: real, k: nat): int
    requires window > 0.0 && k <= |row.arrivals|
  {
    if k == 0 then 0
    else RowMissed(row, start, window, duration, k - 1)
         + if Reported(WindowOf(row, row.arrivals[k - 1].at, start, window), window, duration) then 0
           else Increment(row.arrivals, k - 1)
  }

  function Missed(rows: seq<Row>, start: real, window: real, duration: real): int
    requires window > 0.0
  {
    if rows == [] then 0
    else
      var n := |rows| - 1;
      Missed(rows[..n], start, window, duration) + RowMissed(rows[n], start, window, duration, |rows[n].arrivals|)
  }

  /** Tokens among the first `k` arrivals of a row in the first `n` windows that are reported. */
  function RowReported(row: Row, start: real, window: real, duration: real, k: nat, n: nat): int
    requires window > 0.0 && k <= |row.arrivals|
    decreases n
  {
    if n == 0 then 0
    else RowReported(row, start, window, duration, k, n - 1)
         + if Reported(n - 1, window, duration) then RowTokens(row, start, window, n - 1, k) else 0
  }

  lemma {:induction false} NoArrivals(row: Row, start: real, window: real, duration: real, n: nat)
    requires window > 0.0
    ensures RowReported(row, start, window, duration, 0, n) == 0
    decreases n
  {
    if n > 0 {
      NoArrivals(row, start, window, duration, n - 1);
    }
  }

  lemma {:induction false} OneMoreArrival(row: Row, start: real, window: real, duration: real, k: nat, n: nat)
    requires window > 0.0 && 0 < k <= |row.arrivals|
    ensures var w := WindowOf(row, row.arrivals[k - 1].at, start, window);
            RowReported(row, start, window, duration, k, n) == RowReported(row, start, window, duration, k - 1, n)
            + if Reported(w, window, duration) && w < n then Increment(row.arrivals, k - 1) else 0
    decreases n
  {
    if n > 0 {
      OneMoreArrival(row, start, window, duration, k, n - 1);
    }
  }

  lemma ReportedIsVisited(w: int, window: real, duration: real)
    requires window > 0.0 && duration >= 0.0 && Reported(w, window, duration)
    ensures w < WindowCount(duration, window)
  {
    QuotientBelow(w as real, window, duration);
  }

  lemma QuotientBelow(w: real, window: real, duration: real)
    requires window > 0.0 && w * window < duration
    ensures w < duration / window
  {
    assert duration / window * window == duration;
  }

  lemma {:induction false} RowSplits(row: Row, start: real, window: real, duration: real, k: nat)
    requires window > 0.0 && duration >= 0.0 && k <= |row.arrivals|
    ensures RowReported(row, start, window, duration, k, WindowCount(duration, window))
            + RowMissed(row, start, window, duration, k) == if k == 0 then 0 else row.arrivals[k - 1].count
    decreases k
  {
    var n := WindowCount(duration, window);
    if k == 0 {
      NoArrivals(row, start, window, duration, n);
    } else {
      RowSplits(row, start, window, duration, k - 1);
      OneMoreArrival(row, start, window, duration, k, n);
      var w := WindowOf(row, row.arrivals[k - 1].at, start, window);
      if Reported(w, window, duration) {
        ReportedIsVisited(w, window, duration);
      }
    }
  }

  lemma {:induction false} OneMoreRow(rows: seq<Row>, start: real, window: real, duration: real, n: nat)
    requires window > 0.0 && rows != []
    ensures var last := rows[|rows| - 1];
            ReportedTokens(rows, start, window, duration, n) ==
            ReportedTokens(rows[..|rows| - 1], start, window, duration, n)
            + RowReported(last, start, window, duration, |last.arrivals|, n)
    decreases n
  {
    if n > 0 {
      OneMoreRow(rows, start, window, duration, n - 1);
    }
  }

  lemma {:induction false} NoRowsReported(start: real, window: real, duration: real, n: nat)
    requires window > 0.0
    ensures ReportedTokens([], start, window, duration, n) == 0
    decreases n
  {
    if n > 0 {
      NoRowsReported(start, window, duration, n - 1);
    }
  }

  /** Reported and missed tokens are all there are. */
  lemma {:induction false} TokensConserved(rows: seq<Row>, start: real, window: real, duration: real)
    requires window > 0.0 && duration >= 0.0
    ensures ReportedTokens(rows, start, window, duration, WindowCount(duration, window))
            + Missed(rows, start, window, duration) == TotalTokens(rows)
    decreases |rows|
  {
    var n := WindowCount(duration, window);
    if rows == [] {
      NoRowsReported(start, window, duration, n);
    } else {
      var last := rows[|rows| - 1];
      TokensConserved(rows[..|rows| - 1], start, window, duration);
      OneMoreRow(rows, start, window, duration, n);
      RowSplits(last, start, window, duration, |last.arrivals|);
    }
  }

  ghost predicate RowSeen(row: Row, start: real, window: real, duration: real, k: nat)
    requires window > 0.0 && k <= |row.arrivals|
  {
    forall j :: 0 <= j < k ==> Reported(WindowOf(row, row.arrivals[j].at, start, window), window, duration)
  }

  /** Every arrival falls in a window that is reported. */
  ghost predicate AllSeen(rows: seq<Row>, start: real, window: real, duration: real)
    requires window > 0.0
  {
    forall i :: 0 <= i < |rows| ==> RowSeen(rows[i], start, window, duration, |rows[i].arrivals|)
  }

  lemma {:induction false} RowMissesNothing(row: Row, start: real, window: real, duration: real, k: nat)
    requires window > 0.0 && k <= |row.arrivals| && Growing(row.arrivals, LastCount(row.arrivals))
    ensures RowMissed(row, start, window, duration, k) >= 0
    ensures RowMissed(row, start, window, duration, k) == 0 <==> RowSeen(row, start, window, duration, k)
    decreases k
  {
    if k > 0 {
      RowMissesNothing(row, start, window, duration, k - 1);
      assert Increment(row.arrivals, k - 1) > 0;
    }
  }

  lemma {:induction false} MissesNothing(rows: seq<Row>, start: real, window: real, duration: real)
    requires window > 0.0 && AllGrowing(rows)
    ensures Missed(rows, start, window, duration) >= 0
    ensures Missed(rows, start, window, duration) == 0 <==> AllSeen(rows, start, window, duration)
    decreases |rows|
  {
    if rows != [] {
      var n := |rows| - 1;
      MissesNothing(rows[..n], start, window, duration);
      RowMissesNothing(rows[n], start, window, duration, |rows[n].arrivals|);
      assert rows == rows[..n] + [rows[n]];
    }
  }

  /** The table accounts for every token exactly when every arrival falls in a reported window. */
  lemma TableIsCompleteIff(rows: seq<Row>, start: real, finish: real, window: real)
    requires window > 0.0 && start <= finish && AllGrowing(rows)
    ensures ReportedTokens(rows, start, window, finish - start, WindowCount(finish - start, window)) ==
            TotalTokens(rows)
            <==> AllSeen(rows, start, window, finish - start)
  {
    TokensConserved(rows, start, window, finish - start);
    MissesNothing(rows, start, window, finish - start);
  }

  /** Arrivals from the start to before the end are always seen. */
  lemma InsideIsSeen(row: Row, at: real, start: real, window: real, duration: real)
    requires window > 0.0 && 0.0 <= row.submittedAt + at - start < duration
    ensures Reported(WindowOf(row, at, start, window), window, duration)
  {
    var x := row.submittedAt + at - start;
    QuotientNonnegative(x, window);
    var w := (x / window).Floor as real;
    assert w <= x / window;
    ScaleMonotone(w, x / window, window);
    QuotientTimes(x, window);
  }

  /** An arrival at the very end of a run of whole windows is missed. */
  lemma LastInstantIsMissed()
    ensures var rows := [Row(0.0, [Arrival(1.0, 5)])];
            && AllGrowing(rows) && TotalTokens(rows) == 5
            && ReportedTokens(rows, 0.0, 1.0, 1.0, WindowCount(1.0, 1.0)) == 0
  {
    var row := Row(0.0, [Arrival(1.0, 5)]);
    var rows := [row];
    assert WindowOf(row, 1.0, 0.0, 1.0) == 1;
    assert !Reported(1, 1.0, 1.0);
    assert rows[..0] == [];
    assert RowMissed(row, 0.0, 1.0, 1.0, 1) == 5;
    assert Missed(rows, 0.0, 1.0, 1.0) == 5;
    TokensConserved(rows, 0.0, 1.0, 1.0);
  }
}
