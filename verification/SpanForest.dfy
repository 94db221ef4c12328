/**
 The span forest of the trace converter (scripts/convert_otel_2_perfetto.py): children are
 attached by parent ids that nobody has checked, so the links may dangle, repeat or form
 cycles.  Conversion starts two links below a root, and every span is below one such top at most.
 */
module SpanForest {
  import opened Census
  import opened Options

  type Attributes = map<string, string>

  /** The trace entry of a span; times in microseconds. */
  datatype Perfetto = Perfetto(pid: int, tid: nat, ts: real, dur: real, args: Attributes)

  /** The part of a span that conversion rewrites. */
  datatype Content = Content(end: int, attributes: Attributes, host: Option<string>, perfetto: Option<Perfetto>)

  /** What the converter reads from the attributes of roots and threads. */
  datatype Origin = Origin(pid: int, host: string, rid: string, room: string)

  class Span {
    const spanId: string
    const parentSpanId: string
    const moduleName: string
    const linkIds: seq<string>
    const origin: Origin
    const start: int
    var child: seq<Span>
    var links: seq<Span>
    var content: Content

    constructor (spanId: string, parentSpanId: string, moduleName: string, linkIds: seq<string>, origin: Origin,
                 start: int, end: int, attributes: Attributes)
    {
      this.spanId, this.parentSpanId, this.moduleName := spanId, parentSpanId, moduleName;
      this.linkIds, this.origin, this.start := linkIds, origin, start;
      child, links, content := [], [], Content(end, attributes, None, None);
    }

    predicate IsRoot() {
      moduleName == "sglang::request" || moduleName == "sglang::mooncake"
    }
  }

  // ---------- Parents, from the ids alone ----------

  /** The span with each id; the last one wins. */
  function ById(spans: seq<Span>): (m: map<string, Span>)
    ensures forall id :: id in m ==> m[id] in spans && m[id].spanId == id
  {
    if spans == [] then map[]
    else
      var last := spans[|spans| - 1];
      ById(spans[..|spans| - 1])[last.spanId := last]
  }

  function ParentOf(all: seq<Span>, x: Span): (p: Span?)
    ensures p == null || p in all
  {
    if !x.IsRoot() && x.parentSpanId in ById(all) then ById(all)[x.parentSpanId] else null
  }

  /** Those of `xs` whose parent is `p`, in order. */
  function ChildrenIn(all: seq<Span>, xs: seq<Span>, p: Span): (cs: seq<Span>)
    ensures forall c :: c in cs ==> c in xs && ParentOf(all, c) == p
  {
    if xs == [] then []
    else
      var last := xs[|xs| - 1];
      ChildrenIn(all, xs[..|xs| - 1], p) + if ParentOf(all, last) == p then [last] else []
  }

  lemma {:induction false} ChildrenComplete(all: seq<Span>, xs: seq<Span>, p: Span, c: Span)
    requires c in xs && ParentOf(all, c) == p
    ensures c in ChildrenIn(all, xs, p)
    decreases |xs|
  {
    if c != xs[|xs| - 1] {
      ChildrenComplete(all, xs[..|xs| - 1], p, c);
    }
  }

  function RootsIn(xs: seq<Span>): (rs: seq<Span>)
    ensures forall r :: r in rs ==> r in xs && r.IsRoot()
    ensures forall r :: r in xs && r.IsRoot() ==> r in rs
  {
    if xs == [] then []
    else
      var last := xs[|xs| - 1];
      RootsIn(xs[..|xs| - 1]) + if last.IsRoot() then [last] else []
  }

  /** Every child list holds what the ids say. */
  ghost predicate Linked(all: seq<Span>)
    reads all`child
  {
    forall x :: x in all ==> x.child == ChildrenIn(all, all, x)
  }

  method IndexById(spans: seq<Span>) returns (m: map<string, Span>)
    ensures m == ById(spans)
  {
    m := map[];
    for i := 0 to |spans|
      invariant m == ById(spans[..i])
    {
      assert spans[..i + 1][..i] == spans[..i];
      m := m[spans[i].spanId := spans[i]];
    }
    assert spans[..|spans|] == spans;
  }

  method ClearChildren(spans: seq<Span>)
    modifies spans`child
    ensures forall x :: x in spans ==> x.child == []
  {
    for i := 0 to |spans|
      invariant forall k :: 0 <= k < i ==> spans[k].child == []
    {
      spans[i].child := [];
    }
  }

  lemma OneMoreSpan(all: seq<Span>, xs: seq<Span>, i: nat, p: Span)
    requires i < |xs|
    ensures ChildrenIn(all, xs[..i + 1], p) ==
            ChildrenIn(all, xs[..i], p) + if ParentOf(all, xs[i]) == p then [xs[i]] else []
    ensures RootsIn(xs[..i + 1]) == RootsIn(xs[..i]) + if xs[i].IsRoot() then [xs[i]] else []
  {
    assert xs[..i + 1][..i] == xs[..i];
  }

  /** The spans that the ids name, in order; ids of no span are dropped. */
  function Resolved(m: map<string, Span>, ids: seq<string>): (found: seq<Span>)
  {
    if ids == [] then []
    else
      var last := ids[|ids| - 1];
      Resolved(m, ids[..|ids| - 1]) + if last in m then [m[last]] else []
  }

  /** Every link list holds what the ids say. */
  ghost predicate LinksResolved(all: seq<Span>)
    reads all`links
  {
    forall x :: x in all ==> x.links == Resolved(ById(all), x.linkIds)
  }

  method ResolveLinks(m: map<string, Span>, ids: seq<string>) returns (found: seq<Span>)
    ensures found == Resolved(m, ids)
  {
    found := [];
    for i := 0 to |ids|
      invariant found == Resolved(m, ids[..i])
    {
      assert ids[..i + 1][..i] == ids[..i];
      if ids[i] in m {
        found := found + [m[ids[i]]];
      }
    }
    assert ids[..|ids|] == ids;
  }

  /** A link survives exactly when its id names a span, and then it is to a span with that id. */
  lemma {:induction false} ResolvedLinks(spans: seq<Span>, ids: seq<string>, y: Span)
    ensures y in Resolved(ById(spans), ids) <==>
            y.spanId in ids && y.spanId in ById(spans) && ById(spans)[y.spanId] == y
    decreases |ids|
  {
    if ids != [] {
      ResolvedLinks(spans, ids[..|ids| - 1], y);
      assert ids == ids[..|ids| - 1] + [ids[|ids| - 1]];
    }
  }

  /** Appends one span to the child list of its parent, if it has one, and resolves its links. */
  method Attach(all: seq<Span>, span: Span, spanIdMap: map<string, Span>)
    requires span in all && spanIdMap == ById(all)
    modifies all`child, span`links
    ensures forall x :: x in all ==>
              x.child == old(x.child) + if ParentOf(all, span) == x then [span] else []
    ensures span.links == Resolved(spanIdMap, span.linkIds)
  {
    hide Resolved;
    if !span.IsRoot() && span.parentSpanId in spanIdMap {
      var parent := spanIdMap[span.parentSpanId];
      parent.child := parent.child + [span];
    }
    span.links := ResolveLinks(spanIdMap, span.linkIds);
  }

  /** The roots, every other span on the child list of the parent its id names, and the links resolved. */
  method BuildSpanTree(spans: seq<Span>) returns (roots: seq<Span>)
    modifies spans`child, spans`links
    ensures Linked(spans) && LinksResolved(spans)
    ensures roots == RootsIn(spans)
  {
    hide Resolved, ById, ParentOf, ChildrenIn;
    var spanIdMap := IndexById(spans);
    ClearChildren(spans);
    roots := [];
    forall x ensures ChildrenIn(spans, spans[..0], x) == [] {
      NoSpans(spans, x);
    }
    for i := 0 to |spans|
      invariant roots == RootsIn(spans[..i])
      invariant forall x :: x in spans ==> x.child == ChildrenIn(spans, spans[..i], x)
      invariant forall k :: 0 <= k < i ==> spans[k].links == Resolved(spanIdMap, spans[k].linkIds)
    {
      forall x | x in spans ensures ChildrenIn(spans, spans[..i + 1], x) ==
          ChildrenIn(spans, spans[..i], x) + if ParentOf(spans, spans[i]) == x then [spans[i]] else []
      {
        OneMoreSpan(spans, spans, i, x);
      }
      OneMoreSpan(spans, spans, i, spans[i]);
      if spans[i].IsRoot() {
        roots := roots + [spans[i]];
      }
      Attach(spans, spans[i], spanIdMap);
    }
    assert spans[..|spans|] == spans;
  }

  lemma NoSpans(all: seq<Span>, p: Span)
    ensures ChildrenIn(all, all[..0], p) == []
  {
  }

  // ---------- Ancestors ----------

  /** The ancestor `k` links up, or null. */
  ghost function Up(all: seq<Span>, x: Span, k: nat): (a: Span?)
    requires x in all
    ensures a == null || a in all
    decreases k
  {
    if k == 0 then x
    else
      var p := Up(all, x, k - 1);
      if p == null then null else ParentOf(all, p)
  }

  /** Some chain of parents leads from `x` to `y`. */
  ghost predicate Under(all: seq<Span>, x: Span, y: Span)
    requires x in all
  {
    exists k: nat :: Up(all, x, k) == y
  }

  /** The chain of parents ends, as it does below a root. */
  ghost predicate Grounded(all: seq<Span>, x: Span)
    requires x in all
  {
    exists d: nat :: Up(all, x, d) == null
  }

  lemma {:induction false} UpAdds(all: seq<Span>, x: Span, y: Span, i: nat, j: nat)
    requires x in all && y in all && Up(all, x, i) == y
    ensures Up(all, x, i + j) == Up(all, y, j)
    decreases j
  {
    if j > 0 {
      UpAdds(all, x, y, i, j - 1);
    }
  }

  lemma {:induction false} NullStays(all: seq<Span>, x: Span, d: nat, k: nat)
    requires x in all && Up(all, x, d) == null && d <= k
    ensures Up(all, x, k) == null
    decreases k
  {
    if d < k {
      NullStays(all, x, d, k - 1);
    }
  }

  /** On a cycle the chain of parents never ends. */
  lemma {:induction false} CycleNeverEnds(all: seq<Span>, x: Span, p: nat, k: nat)
    requires x in all && Up(all, x, p) == x && p > 0
    ensures Up(all, x, k) != null
    decreases k
  {
    if k >= p {
      CycleNeverEnds(all, x, p, k - p);
      UpAdds(all, x, x, p, k - p);
    } else if Up(all, x, k) == null {
      NullStays(all, x, k, p);
    }
  }

  /** A span below a root is on no cycle. */
  lemma GroundedIsAcyclic(all: seq<Span>, x: Span, p: nat)
    requires x in all && Grounded(all, x) && p > 0
    ensures Up(all, x, p) != x
  {
    if Up(all, x, p) == x {
      var d: nat :| Up(all, x, d) == null;
      CycleNeverEnds(all, x, p, d);
    }
  }

  lemma ChildGrounded(all: seq<Span>, c: Span, y: Span)
    requires c in all && y in all && ParentOf(all, c) == y && Grounded(all, y)
    ensures Grounded(all, c)
  {
    var d: nat :| Up(all, y, d) == null;
    assert Up(all, c, 0) == c;
    UpAdds(all, c, y, 1, d);
    assert Up(all, c, 1 + d) == null;
  }

  /** The trees below two children of one span share nothing. */
  lemma SiblingsShareNothing(all: seq<Span>, x: Span, c1: Span, c2: Span, y: Span, k1: nat, k2: nat)
    requires x in all && c1 in all && c2 in all && y in all && Grounded(all, y)
    requires ParentOf(all, c1) == y && ParentOf(all, c2) == y
    requires Up(all, x, k1) == c1 && Up(all, x, k2) == c2 && k1 <= k2
    ensures c1 == c2
  {
    if k1 < k2 {
      UpAdds(all, x, y, k1 + 1, k2 - k1);
      assert Up(all, x, k2 + 1) == y;
      GroundedIsAcyclic(all, y, k2 - k1);
    }
  }

  lemma UnderOneChild(all: seq<Span>, x: Span, c1: Span, c2: Span, y: Span)
    requires x in all && c1 in all && c2 in all && y in all && Grounded(all, y)
    requires ParentOf(all, c1) == y && ParentOf(all, c2) == y
    requires Under(all, x, c1) && Under(all, x, c2)
    ensures c1 == c2
  {
    var k1: nat :| Up(all, x, k1) == c1;
    var k2: nat :| Up(all, x, k2) == c2;
    if k1 <= k2 {
      SiblingsShareNothing(all, x, c1, c2, y, k1, k2);
    } else {
      SiblingsShareNothing(all, x, c2, c1, y, k2, k1);
    }
  }

  /** The tree below `y` is `y` and the trees below its children. */
  lemma UnderSplits(all: seq<Span>, x: Span, y: Span)
    requires x in all && y in all
    ensures Under(all, x, y) <==>
            x == y || exists c :: c in all && ParentOf(all, c) == y && Under(all, x, c)
  {
    if Under(all, x, y) {
      var k: nat :| Up(all, x, k) == y;
      if k > 0 {
        assert Up(all, x, k - 1) in all;
        assert Under(all, x, Up(all, x, k - 1));
      }
    }
    if x == y {
      assert Up(all, x, 0) == y;
    }
    forall c | c in all && ParentOf(all, c) == y && Under(all, x, c) ensures Under(all, x, y) {
      var k: nat :| Up(all, x, k) == c;
      assert Up(all, x, k + 1) == y;
    }
  }

  ghost function Tree(all: seq<Span>, y: Span): set<Span> {
    set x | x in all && Under(all, x, y)
  }

  lemma ChildTreeSmaller(all: seq<Span>, c: Span, y: Span)
    requires c in all && y in all && ParentOf(all, c) == y && Grounded(all, y)
    ensures Tree(all, c) < Tree(all, y)
  {
    forall x | x in Tree(all, c) ensures x in Tree(all, y) {
      UnderSplits(all, x, y);
    }
    UnderSplits(all, y, y);
    if y in Tree(all, c) {
      var k: nat :| Up(all, y, k) == c;
      GroundedIsAcyclic(all, y, k + 1);
    }
    assert y in Tree(all, y);
  }

  // ---------- Child by child ----------

  lemma {:induction false} ChildrenDistinct(all: seq<Span>, xs: seq<Span>, p: Span)
    requires Distinct(xs)
    ensures Distinct(ChildrenIn(all, xs, p))
    decreases |xs|
  {
    if xs != [] {
      ChildrenDistinct(all, xs[..|xs| - 1], p);
    }
  }

  /** `y` and the trees below its first `i` children. */
  ghost function Walked(all: seq<Span>, y: Span, i: nat): set<Span>
    requires i <= |ChildrenIn(all, all, y)|
  {
    set x | x in all && (x == y || exists j :: 0 <= j < i && Under(all, x, ChildrenIn(all, all, y)[j]))
  }

  lemma ChildAt(all: seq<Span>, y: Span, i: nat)
    requires i < |ChildrenIn(all, all, y)|
    ensures var c := ChildrenIn(all, all, y)[i]; c in all && ParentOf(all, c) == y
  {
    assert ChildrenIn(all, all, y)[i] in ChildrenIn(all, all, y);
  }

  lemma NextTreeIsFresh(all: seq<Span>, y: Span, i: nat, x: Span)
    requires Distinct(all) && y in all && Grounded(all, y) && i < |ChildrenIn(all, all, y)|
    requires x in all && Under(all, x, ChildrenIn(all, all, y)[i])
    ensures x !in Walked(all, y, i)
  {
    var cs := ChildrenIn(all, all, y);
    ChildAt(all, y, i);
    if x == y {
      var k: nat :| Up(all, y, k) == cs[i];
      GroundedIsAcyclic(all, y, k + 1);
    } else {
      ChildrenDistinct(all, all, y);
      forall j | 0 <= j < i && Under(all, x, cs[j]) ensures false {
        ChildAt(all, y, j);
        UnderOneChild(all, x, cs[i], cs[j], y);
      }
    }
  }

  lemma WalkNext(all: seq<Span>, y: Span, i: nat)
    requires Distinct(all) && y in all && Grounded(all, y) && i < |ChildrenIn(all, all, y)|
    ensures Tree(all, ChildrenIn(all, all, y)[i]) !! Walked(all, y, i)
    ensures Walked(all, y, i + 1) == Walked(all, y, i) + Tree(all, ChildrenIn(all, all, y)[i])
  {
    var cs := ChildrenIn(all, all, y);
    forall x | x in Tree(all, cs[i]) ensures x !in Walked(all, y, i) {
      NextTreeIsFresh(all, y, i, x);
    }
    forall x | x in all ensures x in Walked(all, y, i + 1) <==> x in Walked(all, y, i) + Tree(all, cs[i]) {
      if j :| 0 <= j < i + 1 && Under(all, x, cs[j]) {
        assert j < i || j == i;
      }
    }
  }

  lemma WalkedAll(all: seq<Span>, y: Span)
    requires y in all
    ensures Walked(all, y, |ChildrenIn(all, all, y)|) == Tree(all, y)
    ensures Walked(all, y, 0) == {y}
  {
    var cs := ChildrenIn(all, all, y);
    forall x | x in all ensures x in Walked(all, y, |cs|) <==> x in Tree(all, y) {
      UnderSplits(all, x, y);
      if c :| c in all && ParentOf(all, c) == y && Under(all, x, c) {
        ChildrenComplete(all, all, y, c);
        var j :| 0 <= j < |cs| && cs[j] == c;
        assert Under(all, x, cs[j]);
      }
      forall j | 0 <= j < |cs| && Under(all, x, cs[j]) ensures x in Tree(all, y) {
        assert cs[j] in cs;
      }
    }
  }

  // ---------- Tops: two links below a root ----------

  /** The spans whose parents are `threads`, thread by thread. */
  function SpansOfThreads(all: seq<Span>, threads: seq<Span>): seq<Span> {
    if threads == [] then []
    else SpansOfThreads(all, threads[..|threads| - 1]) + ChildrenIn(all, all, threads[|threads| - 1])
  }

  lemma {:induction false} SpansOfThreadsAre(all: seq<Span>, threads: seq<Span>, s: Span)
    ensures s in SpansOfThreads(all, threads) <==> s in all && ParentOf(all, s) in threads
    decreases |threads|
  {
    if threads != [] {
      var n := |threads| - 1;
      SpansOfThreadsAre(all, threads[..n], s);
      assert threads == threads[..n] + [threads[n]];
      if s in all && ParentOf(all, s) == threads[n] {
        ChildrenComplete(all, all, threads[n], s);
      }
    }
  }

  function Grandparent(all: seq<Span>, s: Span): (g: Span?)
    ensures g == null || g in all
  {
    var p := ParentOf(all, s);
    if p == null then null else ParentOf(all, p)
  }

  /** The spans two links below one root. */
  function SpansOfRequest(all: seq<Span>, root: Span): seq<Span> {
    SpansOfThreads(all, ChildrenIn(all, all, root))
  }

  lemma SpansOfRequestAre(all: seq<Span>, root: Span, s: Span)
    ensures s in SpansOfRequest(all, root) <==> s in all && Grandparent(all, s) == root
  {
    SpansOfThreadsAre(all, ChildrenIn(all, all, root), s);
    if s in all && Grandparent(all, s) == root {
      ChildrenComplete(all, all, root, ParentOf(all, s));
    }
  }

  /** The spans two links below `roots`, root by root. */
  function TopSpans(all: seq<Span>, roots: seq<Span>): seq<Span> {
    if roots == [] then []
    else TopSpans(all, roots[..|roots| - 1]) + SpansOfRequest(all, roots[|roots| - 1])
  }

  lemma {:induction false} TopSpansAre(all: seq<Span>, roots: seq<Span>, s: Span)
    ensures s in TopSpans(all, roots) <==> s in all && Grandparent(all, s) != null && Grandparent(all, s) in roots
    decreases |roots|
  {
    if roots != [] {
      var n := |roots| - 1;
      TopSpansAre(all, roots[..n], s);
      SpansOfRequestAre(all, roots[n], s);
      assert roots == roots[..n] + [roots[n]];
    }
  }

  /** A span that hangs from a thread of a root. */
  ghost predicate IsTop(all: seq<Span>, s: Span) {
    s in all && Grandparent(all, s) != null && Grandparent(all, s).IsRoot()
  }

  /** The chain of parents ends below a root. */
  lemma TopGrounded(all: seq<Span>, s: Span)
    requires IsTop(all, s)
    ensures Grounded(all, s)
  {
    TopChain(all, s);
  }

  lemma TopSpansNext(all: seq<Span>, roots: seq<Span>, i: nat)
    requires i < |roots|
    ensures TopSpans(all, roots[..i + 1]) == TopSpans(all, roots[..i]) + SpansOfRequest(all, roots[i])
  {
    assert roots[..i + 1][..i] == roots[..i];
  }

  // ---------- No span is below two tops ----------

  /** The chain of parents of a top has exactly three spans. */
  lemma TopChain(all: seq<Span>, s: Span)
    requires IsTop(all, s)
    ensures Up(all, s, 2) == Grandparent(all, s) && Up(all, s, 3) == null
  {
    assert Up(all, s, 0) == s;
    assert Up(all, s, 1) == ParentOf(all, s);
  }

  lemma TopEndsChain(all: seq<Span>, x: Span, s: Span, i: nat)
    requires x in all && IsTop(all, s) && Up(all, x, i) == s
    ensures Up(all, x, i + 2) != null && Up(all, x, i + 3) == null
  {
    TopChain(all, s);
    UpAdds(all, x, s, i, 2);
    UpAdds(all, x, s, i, 3);
  }

  /** No span is below two tops. */
  lemma OneTop(all: seq<Span>, x: Span, s: Span, t: Span)
    requires x in all && IsTop(all, s) && IsTop(all, t) && Under(all, x, s) && Under(all, x, t)
    ensures s == t
  {
    var i: nat :| Up(all, x, i) == s;
    var j: nat :| Up(all, x, j) == t;
    hide Up, IsTop;
    TopEndsChain(all, x, s, i);
    TopEndsChain(all, x, t, j);
    if i < j {
      NullStays(all, x, i + 3, j + 2);
    } else if j < i {
      NullStays(all, x, j + 3, i + 2);
    }
  }

  lemma {:induction false} RootsDistinct(xs: seq<Span>)
    requires Distinct(xs)
    ensures Distinct(RootsIn(xs))
    decreases |xs|
  {
    if xs != [] {
      RootsDistinct(xs[..|xs| - 1]);
    }
  }

  lemma ConcatDistinct(xs: seq<Span>, ys: seq<Span>)
    requires Distinct(xs) && Distinct(ys) && forall x :: x in xs ==> x !in ys
    ensures Distinct(xs + ys)
  {
    forall i, j | 0 <= i < j < |xs + ys| ensures (xs + ys)[i] != (xs + ys)[j] {
      if i < |xs| <= j {
        assert xs[i] in xs && ys[j - |xs|] in ys;
      }
    }
  }

  lemma {:induction false} SpansOfThreadsDistinct(all: seq<Span>, threads: seq<Span>)
    requires Distinct(all) && Distinct(threads)
    ensures Distinct(SpansOfThreads(all, threads))
    decreases |threads|
  {
    if threads != [] {
      var n := |threads| - 1;
      SpansOfThreadsDistinct(all, threads[..n]);
      ChildrenDistinct(all, all, threads[n]);
      hide Distinct;
      forall x | x in SpansOfThreads(all, threads[..n]) ensures x !in ChildrenIn(all, all, threads[n]) {
        SpansOfThreadsAre(all, threads[..n], x);
        LastIsNew(threads);
      }
      ConcatDistinct(SpansOfThreads(all, threads[..n]), ChildrenIn(all, all, threads[n]));
    }
  }

  lemma LastIsNew(xs: seq<Span>)
    requires Distinct(xs) && xs != []
    ensures xs[|xs| - 1] !in xs[..|xs| - 1]
  {
  }

  lemma {:induction false} TopSpansDistinct(all: seq<Span>, roots: seq<Span>)
    requires Distinct(all) && Distinct(roots)
    ensures Distinct(TopSpans(all, roots))
    decreases |roots|
  {
    if roots != [] {
      var n := |roots| - 1;
      TopSpansDistinct(all, roots[..n]);
      ChildrenDistinct(all, all, roots[n]);
      SpansOfThreadsDistinct(all, ChildrenIn(all, all, roots[n]));
      hide Distinct, ParentOf, Grandparent;
      forall x | x in TopSpans(all, roots[..n]) ensures x !in SpansOfRequest(all, roots[n]) {
        TopSpansAre(all, roots[..n], x);
        SpansOfRequestAre(all, roots[n], x);
        LastIsNew(roots);
      }
      ConcatDistinct(TopSpans(all, roots[..n]), SpansOfRequest(all, roots[n]));
    }
  }

  /** The tops that the walk visits are all the tops there are. */
  lemma TopSpansAreTops(all: seq<Span>, s: Span)
    ensures s in TopSpans(all, RootsIn(all)) <==> IsTop(all, s)
  {
    TopSpansAre(all, RootsIn(all), s);
  }
}
