/**
 Label-aware cache measurements (benchmark/agentic-rollout/metrics.py): counter rates between
 two scrapes, and hit percentages regrouped by worker.  Samples are finite, as the parser
 keeps no others.
 */
module Metrics {
  import opened Arithmetic
  import opened Options

  type Labels = map<string, string>

  datatype Key = Key(name: string, labels: Labels)

  type Samples = map<Key, real>

  // ---------- Sums over keys ----------

  ghost function SumOver<K(!new)>(f: map<K, real>, keys: set<K>): real
    requires keys <= f.Keys
    decreases keys
  {
    if keys == {} then 0.0
    else
      var k :| k in keys;
      f[k] + SumOver(f, keys - {k})
  }

  lemma {:induction false} SumWithout<K(!new)>(f: map<K, real>, keys: set<K>, k: K)
    requires keys <= f.Keys && k in keys
    ensures SumOver(f, keys) == f[k] + SumOver(f, keys - {k})
    decreases keys
  {
    var j :| j in keys && SumOver(f, keys) == f[j] + SumOver(f, keys - {j});
    if j != k {
      SumWithout(f, keys - {j}, k);
      SumWithout(f, keys - {k}, j);
      assert keys - {j} - {k} == keys - {k} - {j};
    }
  }

  lemma {:induction false} SumAdds<K(!new)>(f: map<K, real>, g: map<K, real>, h: map<K, real>, keys: set<K>)
    requires keys <= f.Keys && keys <= g.Keys && keys <= h.Keys
    requires forall k :: k in keys ==> h[k] == f[k] + g[k]
    ensures SumOver(h, keys) == SumOver(f, keys) + SumOver(g, keys)
    decreases keys
  {
    if keys != {} {
      var k :| k in keys;
      SumWithout(f, keys, k);
      SumWithout(g, keys, k);
      SumWithout(h, keys, k);
      SumAdds(f, g, h, keys - {k});
    }
  }

  lemma {:induction false} SumNonnegative<K(!new)>(f: map<K, real>, keys: set<K>)
    requires keys <= f.Keys && forall k :: k in keys ==> f[k] >= 0.0
    ensures SumOver(f, keys) >= 0.0
    decreases keys
  {
    if keys != {} {
      var k :| k in keys;
      SumWithout(f, keys, k);
      SumNonnegative(f, keys - {k});
    }
  }

  lemma {:induction false} SumDisjoint<K(!new)>(f: map<K, real>, a: set<K>, b: set<K>)
    requires a <= f.Keys && b <= f.Keys && a !! b
    ensures a + b <= f.Keys && SumOver(f, a + b) == SumOver(f, a) + SumOver(f, b)
    decreases a
  {
    if a == {} {
      assert a + b == b;
    } else {
      var k :| k in a;
      SumWithout(f, a, k);
      SumWithout(f, a + b, k);
      assert a + b - {k} == (a - {k}) + b;
      SumDisjoint(f, a - {k}, b);
    }
  }

  // ---------- Counter rates ----------

  function Series(m: Samples, name: string): set<Key> {
    set k | k in m && k.name == name
  }

  /** The increases from one scrape to the next. */
  function Increase(previous: Samples, current: Samples): map<Key, real> {
    map k | k in previous && k in current :: current[k] - previous[k]
  }

  /** A series is missing on one side, or went back. */
  predicate Gap(previous: Samples, current: Samples, k: Key) {
    k !in previous || k !in current || current[k] < previous[k]
  }

  ghost function CounterRate(previous: Samples, current: Samples, name: string, seconds: real): Option<real> {
    var keys := Series(previous, name) + Series(current, name);
    if keys == {} || seconds <= 0.0 then None
    else if exists k :: k in keys && Gap(previous, current, k) then None
    else
      assert forall k :: k in keys ==> !Gap(previous, current, k);
      Some(SumOver(Increase(previous, current), keys) / seconds)
  }

  /** The metric has series, the same on both sides, and none of them went back. */
  ghost predicate CountsOn(previous: Samples, current: Samples, name: string) {
    && (exists k :: k in current && k.name == name)
    && (forall k :: k in current && k.name == name ==> k in previous && previous[k] <= current[k])
    && (forall k :: k in previous && k.name == name ==> k in current)
  }

  lemma CountsOnIff(previous: Samples, current: Samples, name: string)
    ensures CountsOn(previous, current, name) <==>
            (&& Series(previous, name) == Series(current, name) != {}
             && forall k :: k in Series(current, name) && k in previous ==> previous[k] <= current[k])
  {
    if CountsOn(previous, current, name) {
      var k :| k in current && k.name == name;
      assert k in Series(current, name);
      assert Series(previous, name) == Series(current, name);
    } else if Series(previous, name) == Series(current, name) != {} {
      var k :| k in Series(current, name);
      assert k in current && k.name == name;
      assert forall j :: j in previous && j.name == name ==> j in Series(previous, name);
      assert forall j :: j in current && j.name == name ==> j in Series(current, name);
    }
  }

  /** A rate exists exactly when both scrapes have the same series, none of which went back. */
  lemma RateExistsIff(previous: Samples, current: Samples, name: string, seconds: real)
    ensures CounterRate(previous, current, name, seconds).Some? <==>
            (&& seconds > 0.0 && Series(previous, name) == Series(current, name) != {}
             && forall k :: k in Series(current, name) && k in previous ==> previous[k] <= current[k])
    ensures CounterRate(previous, current, name, seconds).Some? <==>
            seconds > 0.0 && CountsOn(previous, current, name)
    ensures CounterRate(previous, current, name, seconds).Some? ==>
              CounterRate(previous, current, name, seconds).value >= 0.0
  {
    CountsOnIff(previous, current, name);
    hide CountsOn;
    var before, after := Series(previous, name), Series(current, name);
    if CounterRate(previous, current, name, seconds).Some? {
      forall k | k in before + after ensures k in before && k in after && previous[k] <= current[k] {
        assert !Gap(previous, current, k);
      }
      assert before == after;
      SumNonnegative(Increase(previous, current), before + after);
      QuotientNonnegative(SumOver(Increase(previous, current), before + after), seconds);
    } else if seconds > 0.0 && before == after && before != {} {
      assert before + after == before;
      var k :| k in before + after && Gap(previous, current, k);
      assert k in after && k in previous && previous[k] > current[k];
    }
  }

  /** Rate times time. */
  ghost function Volume(previous: Samples, current: Samples, name: string, seconds: real): real
    requires CounterRate(previous, current, name, seconds).Some?
  {
    CounterRate(previous, current, name, seconds).value * seconds
  }

  /** What the series of a metric count together. */
  ghost function Counted(m: Samples, name: string): real {
    SumOver(m, Series(m, name))
  }

  /** Rate times time is the total increase. */
  lemma VolumeIsIncrease(previous: Samples, current: Samples, name: string, seconds: real)
    requires CounterRate(previous, current, name, seconds).Some?
    ensures Series(previous, name) == Series(current, name) <= Increase(previous, current).Keys
    ensures Volume(previous, current, name, seconds) == SumOver(Increase(previous, current), Series(current, name))
    ensures Volume(previous, current, name, seconds) == Counted(current, name) - Counted(previous, name)
  {
    RateExistsIff(previous, current, name, seconds);
    var keys := Series(current, name);
    assert Series(previous, name) + keys == keys;
    QuotientTimes(SumOver(Increase(previous, current), keys), seconds);
    SumAdds(Increase(previous, current), previous, current, keys);
  }

  lemma JoinedExists(a: Samples, b: Samples, c: Samples, name: string, s: real, t: real)
    requires CounterRate(a, b, name, s).Some? && CounterRate(b, c, name, t).Some?
    ensures CounterRate(a, c, name, s + t).Some?
  {
    RateExistsIff(a, b, name, s);
    RateExistsIff(b, c, name, t);
    forall k | k in Series(c, name) && k in a ensures a[k] <= c[k] {
      assert k in Series(a, name) && k in Series(b, name);
    }
    RateExistsIff(a, c, name, s + t);
  }

  /** Joined intervals have a rate when both parts do, and rate times time adds up exactly. */
  lemma RatesTelescope(a: Samples, b: Samples, c: Samples, name: string, s: real, t: real)
    requires CounterRate(a, b, name, s).Some? && CounterRate(b, c, name, t).Some?
    ensures CounterRate(a, c, name, s + t).Some?
    ensures Volume(a, c, name, s + t) == Volume(a, b, name, s) + Volume(b, c, name, t)
  {
    hide CounterRate, Volume;
    JoinedExists(a, b, c, name, s, t);
    VolumeIsIncrease(a, b, name, s);
    VolumeIsIncrease(b, c, name, t);
    VolumeIsIncrease(a, c, name, s + t);
    SumAdds(Increase(a, b), Increase(b, c), Increase(a, c), Series(c, name));
  }

  // ---------- Hit percentages: labels ----------

  datatype Mode = Device | Host | Storage | Input

  /** The mode label, if there is one and it is known. */
  function ModeOf(labels: Labels): Option<Mode> {
    if "mode" !in labels then None
    else if labels["mode"] == "device_hit" then Some(Device)
    else if labels["mode"] == "host_hit" then Some(Host)
    else if labels["mode"] == "storage_hit" then Some(Storage)
    else if labels["mode"] == "input" then Some(Input)
    else None
  }

  const MODES := {"device_hit", "host_hit", "storage_hit", "input"}

  function NameOf(m: Mode): string {
    match m
    case Device => "device_hit"
    case Host => "host_hit"
    case Storage => "storage_hit"
    case Input => "input"
  }

  lemma ModeIsNamed(labels: Labels, m: Mode)
    ensures ModeOf(labels) == Some(m) <==> "mode" in labels && labels["mode"] == NameOf(m)
    ensures ModeOf(labels).Some? <==> "mode" in labels && labels["mode"] in MODES
  {
    assert |"device_hit"| == 10 && |"host_hit"| == 8 && |"storage_hit"| == 11 && |"input"| == 5;
  }

  /** The labels without the mode. */
  function Worker(labels: Labels): Labels { labels - {"mode"} }

  /** Worker and mode determine the label set, so two series never share a cell. */
  lemma CellsAreDistinct(k: Labels, l: Labels)
    requires ModeOf(k).Some? && ModeOf(k) == ModeOf(l) && Worker(k) == Worker(l)
    ensures k == l
  {
    assert k["mode"] == l["mode"];
    forall x ensures x in k <==> x in l {
      assert x != "mode" ==> (x in Worker(k) <==> x in k) && (x in Worker(l) <==> x in l);
    }
    forall x | x in k ensures k[x] == l[x] {
      assert x != "mode" ==> Worker(k)[x] == k[x] && Worker(l)[x] == l[x];
    }
  }

  /** The series of one metric, by label set. */
  function Values(m: Samples, name: string): (values: map<Labels, real>)
    ensures forall l :: l in values <==> Key(name, l) in m
    ensures forall l :: l in values ==> values[l] == m[Key(name, l)]
  {
    map labels | labels in (set k | k in m && k.name == name :: k.labels) :: m[Key(name, labels)]
  }

  /** Increases by label set. */
  function Deltas(before: map<Labels, real>, after: map<Labels, real>): map<Labels, real>
    requires before.Keys == after.Keys
  {
    map l | l in after :: after[l] - before[l]
  }

  // ---------- Hit percentages: regrouping ----------

  type Table = map<Labels, map<Mode, real>>

  function Cell(table: Table, w: Labels, m: Mode): Option<real> {
    if w in table && m in table[w] then Some(table[w][m]) else None
  }

  /** A usable series: a known mode and no step back. */
  predicate Usable(deltas: map<Labels, real>, l: Labels) {
    l in deltas && ModeOf(l).Some? && deltas[l] >= 0.0
  }

  ghost predicate InCell(table: Table, deltas: map<Labels, real>, l: Labels) {
    Usable(deltas, l) && Cell(table, Worker(l), ModeOf(l).value) == Some(deltas[l])
  }

  ghost predicate Belongs(l: Labels, w: Labels, m: Mode) {
    Worker(l) == w && ModeOf(l) == Some(m)
  }

  /** The table holds the increases of the label sets in `done`, each in its own cell, and nothing else. */
  ghost predicate Regrouped(table: Table, deltas: map<Labels, real>, done: set<Labels>) {
    && (forall l :: l in done ==> InCell(table, deltas, l))
    && (forall w, m :: Cell(table, w, m).Some? ==> exists l :: l in done && Belongs(l, w, m))
    && (forall w :: w in table ==> table[w] != map[])
  }

  function PutCell(table: Table, w: Labels, m: Mode, v: real): Table {
    table[w := (if w in table then table[w] else map[])[m := v]]
  }

  lemma PutCellCells(table: Table, w: Labels, m: Mode, v: real, x: Labels, y: Mode)
    ensures Cell(PutCell(table, w, m, v), x, y) == if x == w && y == m then Some(v) else Cell(table, x, y)
  {
  }

  lemma RegroupOne(table: Table, deltas: map<Labels, real>, done: set<Labels>, l: Labels)
    requires Regrouped(table, deltas, done) && Usable(deltas, l) && l !in done
    ensures Regrouped(PutCell(table, Worker(l), ModeOf(l).value, deltas[l]), deltas, done + {l})
  {
    hide ModeOf, Worker, Cell;
    var w, m := Worker(l), ModeOf(l).value;
    var t := PutCell(table, w, m, deltas[l]);
    forall k | k in done + {l} ensures InCell(t, deltas, k) {
      if k != l {
        assert InCell(table, deltas, k);
        if Worker(k) == w && ModeOf(k).value == m {
          CellsAreDistinct(k, l);
        }
      }
      PutCellCells(table, w, m, deltas[l], Worker(k), ModeOf(k).value);
    }
    forall x, y | Cell(t, x, y).Some? ensures exists k :: k in done + {l} && Belongs(k, x, y) {
      PutCellCells(table, w, m, deltas[l], x, y);
      if x == w && y == m {
        assert Belongs(l, x, y);
      } else {
        var k :| k in done && Belongs(k, x, y);
        assert k in done + {l};
      }
    }
    forall x | x in t ensures t[x] != map[] {
      if x == w {
        assert m in t[x];
      }
    }
  }

  /** Groups the increases by worker and mode; fails on a bad mode or a counter that went back. */
  method Regroup(deltas: map<Labels, real>) returns (table: Option<Table>)
    ensures table.Some? <==> forall l :: l in deltas ==> Usable(deltas, l)
    ensures table.Some? ==> Regrouped(table.value, deltas, deltas.Keys)
  {
    hide ModeOf, Worker, PutCell;
    var workers: Table := map[];
    var rest, done: set<Labels> := deltas.Keys, {};
    while rest != {}
      invariant rest + done == deltas.Keys && rest !! done && Regrouped(workers, deltas, done)
      decreases rest
    {
      var l :| l in rest;
      if !Usable(deltas, l) {
        return None;
      }
      RegroupOne(workers, deltas, done, l);
      workers := PutCell(workers, Worker(l), ModeOf(l).value, deltas[l]);
      rest, done := rest - {l}, done + {l};
    }
    assert done == deltas.Keys;
    assert forall l :: l in done ==> InCell(workers, deltas, l);
    table := Some(workers);
  }

  /** Every worker reports every mode. */
  ghost predicate Complete(table: Table) {
    forall w, m :: w in table ==> Cell(table, w, m).Some?
  }

  function Column(table: Table, m: Mode): map<Labels, real> {
    map w | w in table && Cell(table, w, m).Some? :: Cell(table, w, m).value
  }

  /** The label sets of one mode whose worker is in `ws`. */
  function OfMode(keys: set<Labels>, m: Mode, ws: set<Labels>): set<Labels> {
    set l | l in keys && ModeOf(l) == Some(m) && Worker(l) in ws
  }

  lemma OneWorkerLess(keys: set<Labels>, m: Mode, ws: set<Labels>, w: Labels, l: Labels)
    requires w in ws && l in keys && Belongs(l, w, m)
    ensures l in OfMode(keys, m, ws) && OfMode(keys, m, ws) - {l} == OfMode(keys, m, ws - {w})
  {
    hide ModeOf, Worker;
    forall k ensures k in OfMode(keys, m, ws) - {l} <==> k in OfMode(keys, m, ws - {w}) {
      if k in OfMode(keys, m, ws) && Worker(k) == w {
        CellsAreDistinct(k, l);
      }
    }
  }

  lemma NoWorkers(keys: set<Labels>, m: Mode)
    ensures OfMode(keys, m, {}) == {}
    ensures forall ws :: OfMode(keys, m, ws) <= keys
  {
  }

  /** Summing a mode over workers is summing the increases of that mode. */
  lemma {:induction false} ColumnOfWorkers(table: Table, deltas: map<Labels, real>, m: Mode, ws: set<Labels>)
    requires Complete(table) && Regrouped(table, deltas, deltas.Keys) && ws <= table.Keys
    ensures ws <= Column(table, m).Keys
    ensures SumOver(Column(table, m), ws) == SumOver(deltas, OfMode(deltas.Keys, m, ws))
    decreases ws
  {
    hide ModeOf, Worker, OfMode;
    NoWorkers(deltas.Keys, m);
    if ws != {} {
      var w :| w in ws;
      assert Cell(table, w, m).Some?;
      var l :| l in deltas.Keys && Belongs(l, w, m);
      assert InCell(table, deltas, l);
      OneWorkerLess(deltas.Keys, m, ws, w, l);
      ColumnOfWorkers(table, deltas, m, ws - {w});
      SumWithout(Column(table, m), ws, w);
      SumWithout(deltas, OfMode(deltas.Keys, m, ws), l);
    }
  }

  /** All label sets of one mode. */
  function ModeKeys(keys: set<Labels>, m: Mode): set<Labels> {
    set l | l in keys && ModeOf(l) == Some(m)
  }

  lemma WorkerInTable(table: Table, deltas: map<Labels, real>, l: Labels)
    requires Regrouped(table, deltas, deltas.Keys) && l in deltas
    ensures Worker(l) in table && deltas[l] >= 0.0 && ModeOf(l).Some?
  {
    assert InCell(table, deltas, l);
  }

  lemma ColumnIsMode(table: Table, deltas: map<Labels, real>, m: Mode)
    requires Complete(table) && Regrouped(table, deltas, deltas.Keys)
    ensures table.Keys <= Column(table, m).Keys
    ensures SumOver(Column(table, m), table.Keys) == SumOver(deltas, ModeKeys(deltas.Keys, m))
    ensures SumOver(Column(table, m), table.Keys) >= 0.0
  {
    hide ModeOf, Worker, Regrouped, Complete, Cell, SumOver;
    ColumnOfWorkers(table, deltas, m, table.Keys);
    forall l | l in deltas.Keys ensures Worker(l) in table && deltas[l] >= 0.0 {
      WorkerInTable(table, deltas, l);
    }
    assert OfMode(deltas.Keys, m, table.Keys) == ModeKeys(deltas.Keys, m);
    SumNonnegative(deltas, ModeKeys(deltas.Keys, m));
  }

  /** The four modes share out all increases. */
  lemma ModesPartition(deltas: map<Labels, real>)
    requires forall l :: l in deltas ==> Usable(deltas, l)
    ensures SumOver(deltas, ModeKeys(deltas.Keys, Device)) + SumOver(deltas, ModeKeys(deltas.Keys, Host))
            + SumOver(deltas, ModeKeys(deltas.Keys, Storage)) + SumOver(deltas, ModeKeys(deltas.Keys, Input))
            == SumOver(deltas, deltas.Keys)
  {
    hide ModeOf, SumOver;
    var d, h := ModeKeys(deltas.Keys, Device), ModeKeys(deltas.Keys, Host);
    var s, i := ModeKeys(deltas.Keys, Storage), ModeKeys(deltas.Keys, Input);
    SumDisjoint(deltas, d, h);
    SumDisjoint(deltas, d + h, s);
    SumDisjoint(deltas, d + h + s, i);
    forall l | l in deltas.Keys ensures l in d + h + s + i {
      assert Usable(deltas, l);
      match ModeOf(l).value {
        case Device => assert l in d;
        case Host => assert l in h;
        case Storage => assert l in s;
        case Input => assert l in i;
      }
    }
    assert d + h + s + i == deltas.Keys;
  }

  // ---------- Hit percentages: the result ----------

  function Percent(used: real, capacity: real): Option<real> {
    if capacity > 0.0 then Some(100.0 * used / capacity) else None
  }

  /** Device, host and total hit percentages. */
  datatype Hits = Hits(device: Option<real>, host: Option<real>, total: Option<real>)

  const NO_HITS := Hits(None, None, None)

  const COUNTER := "sglang:prefill_effective_tokens_total"

  /** When the counters of two scrapes can be compared: same series, known modes, no step back. */
  ghost predicate Comparable(before: map<Labels, real>, after: map<Labels, real>) {
    && before.Keys == after.Keys != {}
    && forall l :: l in after ==> "mode" in l && l["mode"] in MODES && before[l] <= after[l]
  }

  lemma ComparableIff(before: map<Labels, real>, after: map<Labels, real>)
    ensures Comparable(before, after) <==>
            before.Keys == after.Keys != {} && forall l :: l in after ==> Usable(Deltas(before, after), l)
  {
    hide ModeOf;
    if before.Keys == after.Keys {
      forall l | l in after
        ensures Usable(Deltas(before, after), l) <==> "mode" in l && l["mode"] in MODES && before[l] <= after[l]
      {
        ModeIsNamed(l, Input);
      }
    }
  }

  /** For every worker in the counters, all four modes are there. */
  ghost predicate AllModes(keys: set<Labels>) {
    forall l, name :: l in keys && name in MODES ==> l["mode" := name] in keys
  }

  ghost predicate Reports(keys: set<Labels>, w: Labels, m: Mode) {
    exists k :: k in keys && Belongs(k, w, m)
  }

  ghost predicate AllReport(keys: set<Labels>) {
    forall l, m :: l in keys ==> Reports(keys, Worker(l), m)
  }

  lemma ReportsIff(keys: set<Labels>, l: Labels, m: Mode)
    ensures Reports(keys, Worker(l), m) <==> l["mode" := NameOf(m)] in keys
  {
    var k := l["mode" := NameOf(m)];
    ModeIsNamed(k, m);
    assert Worker(k) == Worker(l);
    hide ModeOf, Worker;
    if j :| j in keys && Belongs(j, Worker(l), m) {
      CellsAreDistinct(j, k);
    }
    if k in keys {
      assert Belongs(k, Worker(l), m);
    }
  }

  lemma AllReportIff(keys: set<Labels>)
    ensures AllReport(keys) <==> AllModes(keys)
  {
    hide Reports, Worker;
    forall l, m | l in keys ensures Reports(keys, Worker(l), m) <==> l["mode" := NameOf(m)] in keys {
      ReportsIff(keys, l, m);
    }
    if AllReport(keys) {
      forall l, name | l in keys && name in MODES ensures l["mode" := name] in keys {
        NamesCover(name);
        var m :| NameOf(m) == name;
        assert Reports(keys, Worker(l), m);
      }
    }
    if AllModes(keys) {
      forall l, m | l in keys ensures Reports(keys, Worker(l), m) {
        NamesCover(NameOf(m));
        assert l["mode" := NameOf(m)] in keys;
      }
    }
  }

  lemma NamesCover(name: string)
    ensures name in MODES <==> exists m :: NameOf(m) == name
  {
    if name in MODES {
      assert NameOf(Device) == name || NameOf(Host) == name || NameOf(Storage) == name || NameOf(Input) == name;
    }
  }

  lemma CellIffReports(table: Table, deltas: map<Labels, real>, w: Labels, m: Mode)
    requires Regrouped(table, deltas, deltas.Keys)
    ensures Cell(table, w, m).Some? <==> Reports(deltas.Keys, w, m)
  {
    hide ModeOf, Worker;
    if Reports(deltas.Keys, w, m) {
      var k :| k in deltas.Keys && Belongs(k, w, m);
      assert InCell(table, deltas, k);
    }
  }

  lemma CompleteIff(table: Table, deltas: map<Labels, real>)
    requires Regrouped(table, deltas, deltas.Keys)
    ensures Complete(table) <==> AllReport(deltas.Keys)
  {
    hide ModeOf, Worker, Reports, Cell;
    if Complete(table) {
      forall l, m | l in deltas.Keys ensures Reports(deltas.Keys, Worker(l), m) {
        WorkerInTable(table, deltas, l);
        CellIffReports(table, deltas, Worker(l), m);
      }
    }
    if AllReport(deltas.Keys) {
      forall w, m | w in table ensures Cell(table, w, m).Some? {
        WorkerHasCell(table, w);
        var n :| Cell(table, w, n).Some?;
        var l :| l in deltas.Keys && Belongs(l, w, n);
        CellIffReports(table, deltas, w, m);
      }
    }
  }

  lemma WorkerHasCell(table: Table, w: Labels)
    requires w in table && table[w] != map[]
    ensures exists m :: Cell(table, w, m).Some?
  {
    var m :| m in table[w];
    assert Cell(table, w, m).Some?;
  }

  /** What the percentages are computed from: the increases of each mode, over all series. */
  ghost function ModeTotal(deltas: map<Labels, real>, m: Mode): real {
    SumOver(deltas, ModeKeys(deltas.Keys, m))
  }

  ghost function HitsSpec(deltas: map<Labels, real>): Hits {
    var all := SumOver(deltas, deltas.Keys);
    Hits(Percent(ModeTotal(deltas, Device), all), Percent(ModeTotal(deltas, Host), all),
         Percent(all - ModeTotal(deltas, Input), all))
  }

  method SumColumn(table: Table, m: Mode) returns (sum: real)
    requires Complete(table)
    ensures table.Keys <= Column(table, m).Keys && sum == SumOver(Column(table, m), table.Keys)
  {
    sum := 0.0;
    assert forall w :: w in table ==> Cell(table, w, m).Some?;
    var rest, done: set<Labels> := table.Keys, {};
    while rest != {}
      invariant rest + done == table.Keys && rest !! done && sum == SumOver(Column(table, m), done)
      decreases rest
    {
      var w :| w in rest;
      SumWithout(Column(table, m), done + {w}, w);
      assert done + {w} - {w} == done;
      sum := sum + Cell(table, w, m).value;
      rest, done := rest - {w}, done + {w};
    }
    assert done == table.Keys;
  }

  predicate FullRow(row: map<Mode, real>) {
    Device in row && Host in row && Storage in row && Input in row
  }

  lemma FullRowsComplete(table: Table)
    ensures Complete(table) <==> forall w :: w in table ==> FullRow(table[w])
  {
    if Complete(table) {
      forall w | w in table ensures FullRow(table[w]) {
        assert Cell(table, w, Device).Some? && Cell(table, w, Host).Some?;
        assert Cell(table, w, Storage).Some? && Cell(table, w, Input).Some?;
      }
    }
    if forall w :: w in table ==> FullRow(table[w]) {
      forall w, m | w in table ensures Cell(table, w, m).Some? {
        assert FullRow(table[w]);
        match m {
          case Device =>
          case Host =>
          case Storage =>
          case Input =>
        }
      }
    }
  }

  lemma ModeNonnegative(deltas: map<Labels, real>, m: Mode)
    requires forall l :: l in deltas ==> Usable(deltas, l)
    ensures ModeTotal(deltas, m) >= 0.0
  {
    SumNonnegative(deltas, ModeKeys(deltas.Keys, m));
  }

  lemma PercentMonotone(a: real, b: real, d: real)
    requires d > 0.0
    ensures a <= b ==> Percent(a, d).value <= Percent(b, d).value
    ensures Percent(a, d).value + Percent(b, d).value == Percent(a + b, d).value
    ensures Percent(0.0, d).value == 0.0 && Percent(d, d).value == 100.0
  {
  }

  /** None at all, or hits of both tiers within the total, and the total within 100. */
  ghost predicate HitsInRange(h: Hits) {
    h == NO_HITS
    || (&& h.device.Some? && h.host.Some? && h.total.Some? && 0.0 <= h.device.value && 0.0 <= h.host.value
        && h.device.value + h.host.value <= h.total.value <= 100.0)
  }

  /** Percentages exist once anything was counted; hits of both tiers are within the total, the total within 100. */
  lemma HitsBounded(deltas: map<Labels, real>)
    requires forall l :: l in deltas ==> Usable(deltas, l)
    ensures HitsSpec(deltas) == NO_HITS <==> SumOver(deltas, deltas.Keys) <= 0.0
    ensures HitsInRange(HitsSpec(deltas))
  {
    hide SumOver, ModeTotal;
    var all := SumOver(deltas, deltas.Keys);
    var device, host, input := ModeTotal(deltas, Device), ModeTotal(deltas, Host), ModeTotal(deltas, Input);
    ModeNonnegative(deltas, Device);
    ModeNonnegative(deltas, Host);
    ModeNonnegative(deltas, Storage);
    ModeNonnegative(deltas, Input);
    assert device + host + ModeTotal(deltas, Storage) + input == all by {
      ModesPartition(deltas);
      ModeTotals(deltas);
    }
    if all > 0.0 {
      PercentMonotone(0.0, device, all);
      PercentMonotone(0.0, host, all);
      PercentMonotone(device, host, all);
      PercentMonotone(device + host, all - input, all);
      PercentMonotone(all - input, all, all);
      hide Percent;
    }
  }

  lemma ModeTotals(deltas: map<Labels, real>)
    ensures forall m :: ModeTotal(deltas, m) == SumOver(deltas, ModeKeys(deltas.Keys, m))
  {
  }

  /** The label sets with one value of the mode label. */
  function Labelled(keys: set<Labels>, name: string): set<Labels> {
    set l | l in keys && "mode" in l && l["mode"] == name
  }

  /** What the series with one mode label gained together. */
  ghost function Gained(before: map<Labels, real>, after: map<Labels, real>, name: string): real {
    SumOver(after, Labelled(after.Keys, name)) - SumOver(before, Labelled(before.Keys, name))
  }

  /** None if nothing was gained; otherwise the gains of each tier, and of all tiers, out of all gains. */
  ghost predicate OutOf(r: Hits, all: real, device: real, host: real, storage: real) {
    if all <= 0.0 then r == NO_HITS
    else
      && r.device.Some? && r.device.value * all == 100.0 * device
      && r.host.Some? && r.host.value * all == 100.0 * host
      && r.total.Some? && r.total.value * all == 100.0 * (device + host + storage)
  }

  ghost predicate HitsAre(r: Hits, before: map<Labels, real>, after: map<Labels, real>) {
    OutOf(r, SumOver(after, after.Keys) - SumOver(before, before.Keys), Gained(before, after, "device_hit"),
          Gained(before, after, "host_hit"), Gained(before, after, "storage_hit"))
  }

  lemma GainIs(before: map<Labels, real>, after: map<Labels, real>, keys: set<Labels>)
    requires keys <= before.Keys == after.Keys
    ensures SumOver(Deltas(before, after), keys) == SumOver(after, keys) - SumOver(before, keys)
  {
    SumAdds(Deltas(before, after), before, after, keys);
  }

  lemma ModeGains(before: map<Labels, real>, after: map<Labels, real>, m: Mode)
    requires before.Keys == after.Keys
    ensures ModeTotal(Deltas(before, after), m) == Gained(before, after, NameOf(m))
  {
    hide ModeOf;
    var keys := after.Keys;
    forall l | l in keys ensures l in ModeKeys(keys, m) <==> l in Labelled(keys, NameOf(m)) {
      ModeIsNamed(l, m);
    }
    assert ModeKeys(keys, m) == Labelled(keys, NameOf(m)) && Deltas(before, after).Keys == keys;
    GainIs(before, after, Labelled(keys, NameOf(m)));
  }

  lemma PercentTimes(part: real, all: real)
    ensures Percent(part, all).Some? <==> all > 0.0
    ensures all > 0.0 ==> Percent(part, all).value * all == 100.0 * part
  {
  }

  lemma PercentsAre(all: real, device: real, host: real, storage: real, input: real)
    requires device + host + storage + input == all
    ensures OutOf(Hits(Percent(device, all), Percent(host, all), Percent(all - input, all)),
                  all, device, host, storage)
  {
    PercentTimes(device, all);
    PercentTimes(host, all);
    PercentTimes(all - input, all);
    hide Percent;
    assert all - input == device + host + storage;
  }

  lemma ModesAdd(deltas: map<Labels, real>)
    requires forall l :: l in deltas ==> Usable(deltas, l)
    ensures ModeTotal(deltas, Device) + ModeTotal(deltas, Host) + ModeTotal(deltas, Storage) + ModeTotal(deltas, Input)
            == SumOver(deltas, deltas.Keys)
  {
    hide Usable, SumOver, ModeKeys;
    ModesPartition(deltas);
  }

  lemma HitsSpecIs(deltas: map<Labels, real>)
    ensures var all := SumOver(deltas, deltas.Keys);
            HitsSpec(deltas) == Hits(Percent(ModeTotal(deltas, Device), all), Percent(ModeTotal(deltas, Host), all),
                                     Percent(all - ModeTotal(deltas, Input), all))
  {
  }

  lemma HitsAreIs(r: Hits, before: map<Labels, real>, after: map<Labels, real>)
    requires OutOf(r, SumOver(after, after.Keys) - SumOver(before, before.Keys), Gained(before, after, NameOf(Device)),
                   Gained(before, after, NameOf(Host)), Gained(before, after, NameOf(Storage)))
    ensures HitsAre(r, before, after)
  {
  }

  lemma ModesGain(before: map<Labels, real>, after: map<Labels, real>)
    requires before.Keys == after.Keys
    ensures var deltas := Deltas(before, after);
            && SumOver(deltas, deltas.Keys) == SumOver(after, after.Keys) - SumOver(before, before.Keys)
            && ModeTotal(deltas, Device) == Gained(before, after, NameOf(Device))
            && ModeTotal(deltas, Host) == Gained(before, after, NameOf(Host))
            && ModeTotal(deltas, Storage) == Gained(before, after, NameOf(Storage))
  {
    hide SumOver, ModeTotal, Gained, NameOf;
    assert Deltas(before, after).Keys == after.Keys;
    GainIs(before, after, after.Keys);
    ModeGains(before, after, Device);
    ModeGains(before, after, Host);
    ModeGains(before, after, Storage);
  }

  lemma SpecIsGains(before: map<Labels, real>, after: map<Labels, real>)
    requires Comparable(before, after)
    ensures HitsAre(HitsSpec(Deltas(before, after)), before, after)
  {
    hide *;
    ComparableIff(before, after);
    var deltas := Deltas(before, after);
    UsableDeltas(before, after);
    ModesAdd(deltas);
    ModesGain(before, after);
    PercentsAre(SumOver(deltas, deltas.Keys), ModeTotal(deltas, Device), ModeTotal(deltas, Host),
                ModeTotal(deltas, Storage), ModeTotal(deltas, Input));
    HitsSpecIs(deltas);
    HitsAreIs(HitsSpec(deltas), before, after);
  }

  lemma UsableDeltas(before: map<Labels, real>, after: map<Labels, real>)
    requires before.Keys == after.Keys
    requires forall l :: l in after ==> Usable(Deltas(before, after), l)
    ensures forall l :: l in Deltas(before, after) ==> Usable(Deltas(before, after), l)
  {
  }

  /**
   The percentages exist only for comparable counters with all modes of every worker, and are
   then those of the plain totals: regrouping loses and overwrites nothing.
   */
  method HitPercentages(before: Samples, after: Samples) returns (r: Hits)
    ensures var earlier, later := Values(before, COUNTER), Values(after, COUNTER);
            && (!Comparable(earlier, later) || !AllModes(later.Keys) ==> r == NO_HITS)
            && (Comparable(earlier, later) && AllModes(later.Keys) ==>
                  && HitsAre(r, earlier, later) && r == HitsSpec(Deltas(earlier, later))
                  && (r == NO_HITS <==> SumOver(Deltas(earlier, later), later.Keys) <= 0.0))
    ensures HitsInRange(r)
  {
    var earlier, later := Values(before, COUNTER), Values(after, COUNTER);
    hide Values, ModeOf, Worker, Percent, SumOver, Complete, Regrouped, AllModes, AllReport, FullRow, Column, ModeKeys,
      Usable, Comparable, HitsAre;
    ComparableIff(earlier, later);
    if earlier.Keys == {} || earlier.Keys != later.Keys {
      return NO_HITS;
    }
    var deltas := Deltas(earlier, later);
    assert deltas.Keys == later.Keys;
    AllReportIff(later.Keys);
    var table := Regroup(deltas);
    if table.None? {
      return NO_HITS;
    }
    CompleteIff(table.value, deltas);
    FullRowsComplete(table.value);
    if !(forall w :: w in table.value ==> FullRow(table.value[w])) {
      return NO_HITS;
    }
    var device := SumColumn(table.value, Device);
    var host := SumColumn(table.value, Host);
    var storage := SumColumn(table.value, Storage);
    var input := SumColumn(table.value, Input);
    ColumnIsMode(table.value, deltas, Device);
    ColumnIsMode(table.value, deltas, Host);
    ColumnIsMode(table.value, deltas, Storage);
    ColumnIsMode(table.value, deltas, Input);
    ModesPartition(deltas);
    var denominator := device + host + storage + input;
    HitsBounded(deltas);
    SpecIsGains(earlier, later);
    r := Hits(Percent(device, denominator), Percent(host, denominator), Percent(denominator - input, denominator));
  }
}
