/**
 The converter from spans to trace entries (scripts/convert_otel_2_perfetto.py): the forest is
 built, converted, sorted, laid out on slots, and gathered.
 */
module TraceConverter {
  import opened Census
  import opened Options
  import opened SpanForest
  import opened SpanWalk
  import opened Sorting
  import LinePacking
  import Layout = TraceLayout
  import GatewayLayout
  import LayoutObjects

  // ---------- Sorting, by start and by first start ----------

  function SpanStart(s: Span): int { s.start }

  function FirstStart(xs: seq<Span>): int { if xs == [] then 0 else xs[0].start }

  /** The spans of each root. */
  function RootLists(all: seq<Span>): (lists: seq<seq<Span>>)
    ensures |lists| == |RootsIn(all)|
    ensures forall i :: 0 <= i < |lists| ==> lists[i] == SpansOfRequest(all, RootsIn(all)[i])
  {
    seq(|RootsIn(all)|, i requires 0 <= i < |RootsIn(all)| => SpansOfRequest(all, RootsIn(all)[i]))
  }

  function SortEach(lists: seq<seq<Span>>): (r: seq<seq<Span>>)
    ensures |r| == |lists| && forall i :: 0 <= i < |lists| ==> r[i] == SortBy(lists[i], SpanStart)
  {
    seq(|lists|, i requires 0 <= i < |lists| => SortBy(lists[i], SpanStart))
  }

  /** Root by root, the spans of each by start: the order of the entries. */
  function ByRoot(all: seq<Span>): seq<seq<Span>> { SortEach(RootLists(all)) }

  /** The same lists by first start: the order of placement. */
  function ByTime(all: seq<Span>): seq<seq<Span>> { SortBy(ByRoot(all), FirstStart) }

  ghost predicate ByStart(xs: seq<Span>) {
    forall i, j :: 0 <= i < j < |xs| ==> xs[i].start <= xs[j].start
  }

  /** A request that comes before another one starts no later. */
  ghost predicate EarliestFirst(lists: seq<seq<Span>>) {
    forall i, j :: 0 <= i < j < |lists| && lists[i] != [] && lists[j] != [] ==> lists[i][0].start <= lists[j][0].start
  }

  /** The spans of each root, all of them, by start. */
  lemma ByRootOrdered(all: seq<Span>, i: nat)
    requires i < |RootsIn(all)|
    ensures |ByRoot(all)| == |RootsIn(all)| && ByStart(ByRoot(all)[i])
    ensures multiset(ByRoot(all)[i]) == multiset(SpansOfRequest(all, RootsIn(all)[i]))
  {
    var spans := SpansOfRequest(all, RootsIn(all)[i]);
    SortOrders(spans, SpanStart);
    SortKeeps(spans, SpanStart);
    hide SortBy, RootsIn, SpansOfRequest;
    StartsOrdered(ByRoot(all)[i]);
  }

  lemma StartsOrdered(xs: seq<Span>)
    requires Ordered(xs, SpanStart)
    ensures ByStart(xs)
  {
    forall i, j | 0 <= i < j < |xs| ensures xs[i].start <= xs[j].start {
      assert SpanStart(xs[i]) <= SpanStart(xs[j]);
    }
  }

  /** The requests come by first start, and the spans of each by start. */
  lemma ByTimeOrdered(all: seq<Span>)
    ensures multiset(ByTime(all)) == multiset(ByRoot(all)) && EarliestFirst(ByTime(all))
    ensures forall i :: 0 <= i < |ByTime(all)| ==> ByStart(ByTime(all)[i])
  {
    SortKeeps(ByRoot(all), FirstStart);
    SortOrders(ByRoot(all), FirstStart);
    hide SortBy;
    forall i, j | 0 <= i < j < |ByTime(all)| && ByTime(all)[i] != [] && ByTime(all)[j] != []
      ensures ByTime(all)[i][0].start <= ByTime(all)[j][0].start
    {
      assert FirstStart(ByTime(all)[i]) <= FirstStart(ByTime(all)[j]);
    }
    forall i | 0 <= i < |ByTime(all)| ensures ByStart(ByTime(all)[i]) {
      SortHolds(ByRoot(all), FirstStart, ByTime(all)[i]);
      var k :| 0 <= k < |ByRoot(all)| && ByRoot(all)[k] == ByTime(all)[i];
      ByRootOrdered(all, k);
    }
  }

  lemma {:induction false} SortEachKeeps(lists: seq<seq<Span>>)
    ensures multiset(Flatten(SortEach(lists))) == multiset(Flatten(lists))
    decreases |lists|
  {
    if lists != [] {
      SortKeeps(lists[0], SpanStart);
      SortEachKeeps(lists[1..]);
      assert SortEach(lists)[1..] == SortEach(lists[1..]);
    }
  }

  lemma {:induction false} RootListsAreTops(all: seq<Span>, roots: seq<Span>, lists: seq<seq<Span>>)
    requires |lists| == |roots| && forall i :: 0 <= i < |roots| ==> lists[i] == SpansOfRequest(all, roots[i])
    ensures Flatten(lists) == TopSpans(all, roots)
    decreases |roots|
  {
    if roots != [] {
      var n := |roots| - 1;
      RootListsAreTops(all, roots[..n], lists[..n]);
      FlattenLast(lists);
    }
  }

  // ---------- Each top once ----------

  lemma SameSpansDistinct(xs: seq<Span>, ys: seq<Span>)
    requires Distinct(xs) && multiset(xs) == multiset(ys)
    ensures Distinct(ys)
  {
    forall i, j | 0 <= i < j < |ys| ensures ys[i] != ys[j] {
      if ys[i] == ys[j] {
        TwiceCounted(ys, i, j);
        OnceCounted(xs, ys[i]);
      }
    }
  }

  lemma TwiceCounted(ys: seq<Span>, i: nat, j: nat)
    requires i < j < |ys| && ys[i] == ys[j]
    ensures multiset(ys)[ys[i]] >= 2
  {
    assert ys == ys[..i] + [ys[i]] + ys[i + 1..j] + [ys[j]] + ys[j + 1..];
  }

  lemma {:induction false} OnceCounted(xs: seq<Span>, x: Span)
    requires Distinct(xs)
    ensures multiset(xs)[x] <= 1
    decreases |xs|
  {
    if xs != [] {
      var n := |xs| - 1;
      OnceCounted(xs[..n], x);
      assert xs == xs[..n] + [xs[n]];
      if xs[n] == x {
        assert x !in xs[..n];
      }
    }
  }

  /** All tops, each once. */
  ghost predicate TopsInOrder(all: seq<Span>, order: seq<Span>) {
    && AreTops(all, order) && (forall i :: 0 <= i < |order| ==> order[i] in all)
    && forall s :: s in all ==> (IsTop(all, s) <==> s in order)
  }

  lemma SameMembers(xs: seq<Span>, ys: seq<Span>, s: Span)
    requires multiset(xs) == multiset(ys)
    ensures s in xs <==> s in ys
  {
    assert s in xs <==> s in multiset(xs);
    assert s in ys <==> s in multiset(ys);
  }

  /** However the tops are sorted, they are the tops of the forest, each once. */
  lemma SortedTops(all: seq<Span>, order: seq<Span>)
    requires Distinct(all) && multiset(order) == multiset(TopSpans(all, RootsIn(all)))
    ensures TopsInOrder(all, order)
  {
    var tops := TopSpans(all, RootsIn(all));
    TopsOfRoots(all);
    SameSpansDistinct(tops, order);
    hide TopSpans, RootsIn, Grandparent, Distinct;
    forall i | 0 <= i < |order| ensures IsTop(all, order[i]) {
      SameMembers(order, tops, order[i]);
    }
    forall s | s in all ensures IsTop(all, s) <==> s in order {
      SameMembers(order, tops, s);
    }
  }

  /** Both orders have every top of the forest once. */
  lemma BothOrders(all: seq<Span>)
    requires Distinct(all)
    ensures TopsInOrder(all, Flatten(ByRoot(all))) && TopsInOrder(all, Flatten(ByTime(all)))
  {
    hide Distinct, TopSpans, SpansOfRequest, TopsInOrder, Flatten, SortBy, RootsIn;
    RootListsAreTops(all, RootsIn(all), RootLists(all));
    SortEachKeeps(RootLists(all));
    FlattenSorted(ByRoot(all), FirstStart);
    SortedTops(all, Flatten(ByRoot(all)));
    SortedTops(all, Flatten(ByTime(all)));
  }

  // ---------- Placement ----------

  /** The spans that the steps place. */
  function PutSpans(steps: seq<Layout.Step>): seq<Layout.Span> {
    if steps == [] then []
    else
      var last := steps[|steps| - 1];
      PutSpans(steps[..|steps| - 1]) + if last.Put? then [last.span] else []
  }

  /** A run places its spans in order. */
  ghost predicate PlacedAre(placed: seq<Layout.Placed>, xs: seq<Layout.Span>) {
    |placed| == |xs| && forall i :: 0 <= i < |xs| ==> placed[i].span == xs[i]
  }

  lemma {:induction false} RunPlacesInOrder(steps: seq<Layout.Step>)
    ensures PlacedAre(Layout.Run(steps).placed, PutSpans(steps))
    decreases |steps|
  {
    if steps != [] {
      hide Layout.FindLine, Layout.PutOn;
      RunPlacesInOrder(steps[..|steps| - 1]);
    }
  }

  lemma {:induction false} PutSpansConcat(a: seq<Layout.Step>, b: seq<Layout.Step>)
    ensures PutSpans(a + b) == PutSpans(a) + PutSpans(b)
    decreases |b|
  {
    if b == [] {
      assert a + b == a;
    } else {
      PutSpansConcat(a, b[..|b| - 1]);
      assert (a + b)[..|a + b| - 1] == a + b[..|b| - 1];
    }
  }

  lemma PutSpansThen(steps: seq<Layout.Step>, x: Layout.Span)
    ensures PutSpans(steps + [Layout.Put(x)]) == PutSpans(steps) + [x]
  {
    assert (steps + [Layout.Put(x)])[..|steps|] == steps;
  }

  lemma {:induction false} PutSpansOfRequest(xs: seq<Layout.Span>)
    ensures PutSpans(LayoutObjects.RequestSteps(xs)) == xs
    decreases |xs|
  {
    var steps := LayoutObjects.RequestSteps(xs);
    if xs == [] {
      assert steps == [Layout.NextRequest];
    } else {
      var init, last := xs[..|xs| - 1], xs[|xs| - 1];
      PutSpansOfRequest(init);
      assert steps == LayoutObjects.RequestSteps(init) + [Layout.Put(last)];
      hide PutSpans, LayoutObjects.RequestSteps;
      PutSpansThen(LayoutObjects.RequestSteps(init), last);
    }
  }

  lemma {:induction false} PutSpansOfEngine(requests: seq<seq<Layout.Span>>)
    ensures PutSpans(LayoutObjects.EngineSteps(requests)) == Flatten(requests)
    decreases |requests|
  {
    if requests != [] {
      var n := |requests| - 1;
      PutSpansOfEngine(requests[..n]);
      FlattenLast(requests);
      PutSpansOfRequest(requests[n]);
      PutSpansConcat(LayoutObjects.EngineSteps(requests[..n]), LayoutObjects.RequestSteps(requests[n]));
    }
  }

  /** The steps of a trace without gateway spans. */
  function Steps(requests: seq<seq<Layout.Span>>): seq<Layout.Step> {
    GatewayLayout.Pass(LayoutObjects.EngineSteps(requests), GatewayLayout.SortByStart([]))
  }

  lemma StepsPut(requests: seq<seq<Layout.Span>>)
    ensures PutSpans(Steps(requests)) == Flatten(requests)
  {
    var engine := LayoutObjects.EngineSteps(requests);
    assert Steps(requests) == engine + [Layout.NextRequest];
    PutSpansOfEngine(requests);
    PutSpansConcat(engine, [Layout.NextRequest]);
    assert PutSpans([Layout.NextRequest]) == [];
  }

  lemma StepsPlaceRequests(requests: seq<seq<Layout.Span>>)
    ensures PlacedAre(Layout.Run(Steps(requests)).placed, Flatten(requests))
  {
    RunPlacesInOrder(Steps(requests));
    StepsPut(requests);
  }

  method PlaceRequests(requests: seq<seq<Layout.Span>>) returns (placed: seq<Layout.Placed>)
    ensures placed == Layout.Run(Steps(requests)).placed && PlacedAre(placed, Flatten(requests))
    ensures Layout.NoOverlap(placed) <==> Layout.NeverBad(Steps(requests))
  {
    placed := LayoutObjects.GenerateLayout(requests, []);
    StepsPlaceRequests(requests);
  }

  // ---------- What the layout is given ----------

  /** The place a top asks for: the pid of its thread, and its interval once converted. */
  ghost function Wish(all: seq<Span>, was: map<Span, Content>, s: Span): Layout.Span
    requires IsTop(all, s) && s in was
  {
    Layout.Span(Layout.Engine(ParentOf(all, s).origin.pid), LinePacking.Interval(s.start, was[s].end - 1000))
  }

  ghost predicate CanWish(all: seq<Span>, was: map<Span, Content>, xs: seq<Span>) {
    forall i :: 0 <= i < |xs| ==> IsTop(all, xs[i]) && xs[i] in was
  }

  ghost function Wishes(all: seq<Span>, was: map<Span, Content>, xs: seq<Span>): (ws: seq<Layout.Span>)
    requires CanWish(all, was, xs)
    ensures |ws| == |xs| && forall i :: 0 <= i < |xs| ==> ws[i] == Wish(all, was, xs[i])
  {
    seq(|xs|, i requires 0 <= i < |xs| => Wish(all, was, xs[i]))
  }

  ghost predicate AllCanWish(all: seq<Span>, was: map<Span, Content>, lists: seq<seq<Span>>) {
    forall r :: 0 <= r < |lists| ==> CanWish(all, was, lists[r])
  }

  /** What the layout is asked, one list per request. */
  ghost function Requests(all: seq<Span>, was: map<Span, Content>, lists: seq<seq<Span>>):
    (requests: seq<seq<Layout.Span>>)
    requires AllCanWish(all, was, lists)
    ensures |requests| == |lists| && forall r :: 0 <= r < |lists| ==> requests[r] == Wishes(all, was, lists[r])
  {
    seq(|lists|, r requires 0 <= r < |lists| => Wishes(all, was, lists[r]))
  }

  lemma WishesConcat(all: seq<Span>, was: map<Span, Content>, xs: seq<Span>, ys: seq<Span>)
    requires CanWish(all, was, xs + ys)
    ensures CanWish(all, was, xs) && CanWish(all, was, ys)
    ensures Wishes(all, was, xs + ys) == Wishes(all, was, xs) + Wishes(all, was, ys)
  {
    hide IsTop, Wish;
    assert forall i :: 0 <= i < |xs| ==> (xs + ys)[i] == xs[i];
    assert forall i :: 0 <= i < |ys| ==> (xs + ys)[|xs| + i] == ys[i];
  }

  /** The requests together ask for what the spans together ask for. */
  lemma {:induction false} FlattenRequests(all: seq<Span>, was: map<Span, Content>, lists: seq<seq<Span>>)
    requires CanWish(all, was, Flatten(lists))
    ensures AllCanWish(all, was, lists)
    ensures Flatten(Requests(all, was, lists)) == Wishes(all, was, Flatten(lists))
    decreases |lists|
  {
    if lists != [] {
      hide CanWish, Wish;
      WishesConcat(all, was, lists[0], Flatten(lists[1..]));
      FlattenRequests(all, was, lists[1..]);
      assert forall r :: 1 <= r < |lists| ==> lists[r] == lists[1..][r - 1];
      assert Requests(all, was, lists)[1..] == Requests(all, was, lists[1..]);
    }
  }

  /** A converted top shows what it asks for. */
  ghost predicate Shows(all: seq<Span>, was: map<Span, Content>, s: Span, c: Content) {
    && IsTop(all, s) && s in was && c.perfetto.Some?
    && Wish(all, was, s) == Layout.Span(Layout.Engine(c.perfetto.value.pid), LinePacking.Interval(s.start, c.end))
  }

  lemma TopShows(all: seq<Span>, baseline: int, was: map<Span, Content>, s: Span, now: Content)
    requires IsTop(all, s) && s in was && ConvertedOnce(all, baseline, s, was[s], now)
    ensures Shows(all, was, s, now)
  {
    assert Up(all, s, 0) == s;
    assert Under(all, s, s);
  }

  /** Reads pid and interval off the converted spans. */
  method Ask(ghost all: seq<Span>, ghost was: map<Span, Content>, xs: seq<Span>) returns (ws: seq<Layout.Span>)
    requires CanWish(all, was, xs) && forall i :: 0 <= i < |xs| ==> Shows(all, was, xs[i], xs[i].content)
    ensures ws == Wishes(all, was, xs)
  {
    hide IsTop, Wish;
    ws := [];
    for i := 0 to |xs|
      invariant |ws| == i && forall k :: 0 <= k < i ==> ws[k] == Wish(all, was, xs[k])
    {
      assert Shows(all, was, xs[i], xs[i].content);
      ws := ws + [Layout.Span(Layout.Engine(xs[i].content.perfetto.value.pid),
                              LinePacking.Interval(xs[i].start, xs[i].content.end))];
    }
  }

  method AskAll(ghost all: seq<Span>, ghost was: map<Span, Content>, lists: seq<seq<Span>>)
    returns (requests: seq<seq<Layout.Span>>)
    requires AllCanWish(all, was, lists)
    requires forall r, i :: 0 <= r < |lists| && 0 <= i < |lists[r]| ==>
               Shows(all, was, lists[r][i], lists[r][i].content)
    ensures requests == Requests(all, was, lists)
  {
    hide Shows, CanWish;
    requests := [];
    for r := 0 to |lists|
      invariant |requests| == r && forall k :: 0 <= k < r ==> requests[k] == Wishes(all, was, lists[k])
    {
      var ws := Ask(all, was, lists[r]);
      requests := requests + [ws];
    }
  }

  // ---------- The whole conversion ----------

  /** What comes out: the slot of every top in the order of placement, and the entries. */
  datatype Trace = Trace(placed: seq<Layout.Placed>, elems: seq<Span>)

  /** Converted and given the slot of the top it is below, if there is one; otherwise untouched. */
  ghost predicate Finished(all: seq<Span>, baseline: int, x: Span, was: Content, now: Content, order: seq<Span>,
                           lines: seq<nat>)
    requires x in all && |lines| == |order| && AreTops(all, order)
  {
    && (forall i :: 0 <= i < |order| && Under(all, x, order[i]) ==>
          Entered(x.start, was, now, baseline, ParentOf(all, order[i]).origin, Grandparent(all, order[i]).origin,
                  lines[i]))
    && ((forall i :: 0 <= i < |order| ==> !Under(all, x, order[i])) ==> now == was)
  }

  ghost predicate AllFinished(all: seq<Span>, baseline: int, was: map<Span, Content>, now: map<Span, Content>,
                              order: seq<Span>, lines: seq<nat>)
    requires |lines| == |order| && AreTops(all, order)
  {
    forall x :: x in all ==> x in was && x in now && Finished(all, baseline, x, was[x], now[x], order, lines)
  }

  lemma BothOnce(all: seq<Span>, baseline: int, x: Span, was: Content, mid: Content, now: Content, order: seq<Span>,
                 lines: seq<nat>)
    requires x in all && TopsInOrder(all, order) && |lines| == |order|
    requires ConvertedOnce(all, baseline, x, was, mid) && SlottedOnce(all, x, mid, now, order, lines)
    ensures Finished(all, baseline, x, was, now, order, lines)
  {
    hide Under, Entered, Reslotted;
    forall i | 0 <= i < |order| && Under(all, x, order[i])
      ensures Entered(x.start, was, now, baseline, ParentOf(all, order[i]).origin,
                      Grandparent(all, order[i]).origin, lines[i])
    {
      EnteredThenSlotted(x.start, was, mid, now, baseline, ParentOf(all, order[i]).origin,
                         Grandparent(all, order[i]).origin, lines[i]);
    }
  }

  lemma EnteredThenSlotted(start: int, was: Content, mid: Content, now: Content, baseline: int, thread: Origin,
                           root: Origin, tid: nat)
    requires Entered(start, was, mid, baseline, thread, root, 0) && Reslotted(mid, now, tid)
    ensures Entered(start, was, now, baseline, thread, root, tid)
  {
  }

  lemma AllOnce(all: seq<Span>, baseline: int, was: map<Span, Content>, mid: map<Span, Content>,
                now: map<Span, Content>, order: seq<Span>, lines: seq<nat>)
    requires TopsInOrder(all, order) && |lines| == |order|
    requires AllConvertedOnce(all, baseline, was, mid) && Slotted(all, order, lines, mid, now)
    ensures AllFinished(all, baseline, was, now, order, lines)
  {
    hide Finished, ConvertedOnce, SlottedOnce;
    forall x | x in all ensures Finished(all, baseline, x, was[x], now[x], order, lines) {
      BothOnce(all, baseline, x, was[x], mid[x], now[x], order, lines);
    }
  }

  function Tids(placed: seq<Layout.Placed>): (lines: seq<nat>)
    ensures |lines| == |placed| && forall i :: 0 <= i < |placed| ==> lines[i] == placed[i].tid
  {
    seq(|placed|, i requires 0 <= i < |placed| => placed[i].tid)
  }

  /** Some request has no span, so there is nothing to sort it by. */
  ghost predicate Unsortable(all: seq<Span>) {
    exists root :: root in RootsIn(all) && SpansOfRequest(all, root) == []
  }

  lemma UnsortableIff(all: seq<Span>)
    ensures Unsortable(all) <==> exists i :: 0 <= i < |ByRoot(all)| && ByRoot(all)[i] == []
  {
    forall i | 0 <= i < |ByRoot(all)| ensures ByRoot(all)[i] == [] <==> RootLists(all)[i] == [] {
      SortKeeps(RootLists(all)[i], SpanStart);
    }
    if root :| root in RootsIn(all) && SpansOfRequest(all, root) == [] {
      var i :| 0 <= i < |RootsIn(all)| && RootsIn(all)[i] == root;
      assert ByRoot(all)[i] == [];
    }
    if i :| 0 <= i < |ByRoot(all)| && ByRoot(all)[i] == [] {
      assert RootsIn(all)[i] in RootsIn(all) && SpansOfRequest(all, RootsIn(all)[i]) == [];
    }
  }

  /** Builds the forest, converts it, and sorts the spans of each root; fails on a root without spans. */
  method ConvertAndSort(spans: seq<Span>, baseline: int) returns (r: Option<seq<seq<Span>>>)
    requires Distinct(spans)
    modifies spans`child, spans`links, spans`content
    ensures Linked(spans) && LinksResolved(spans)
    ensures AllConvertedOnce(spans, baseline, old(Contents(spans)), Contents(spans))
    ensures r == if Unsortable(spans) then None else Some(ByRoot(spans))
  {
    hide SortBy, AllConvertedOnce, Contents, Distinct, RootsIn, SpansOfRequest, Linked, LinksResolved, Unsortable;
    var roots, lists := ConvertTrace(spans, baseline);
    assert lists == RootLists(spans);
    var sorted := SortEach(lists);
    UnsortableIff(spans);
    if exists i :: 0 <= i < |sorted| && sorted[i] == [] {
      return None;
    }
    r := Some(sorted);
  }

  lemma OrderCanWish(all: seq<Span>, was: map<Span, Content>)
    requires Distinct(all) && forall x :: x in all ==> x in was
    ensures CanWish(all, was, Flatten(ByTime(all))) && AllCanWish(all, was, ByTime(all))
  {
    BothOrders(all);
    hide IsTop, ByTime, Distinct;
    FlattenRequests(all, was, ByTime(all));
  }

  /** What the layout is asked for a list of spans: a function of the spans as they came in. */
  ghost function InputRequests(all: seq<Span>, was: map<Span, Content>): seq<seq<Layout.Span>>
    requires Distinct(all) && forall x :: x in all ==> x in was
  {
    OrderCanWish(all, was);
    Requests(all, was, ByTime(all))
  }

  /** Sorts the requests and places them; each top asks for its converted interval on its thread's pid. */
  method PlaceTops(ghost all: seq<Span>, ghost baseline: int, ghost was: map<Span, Content>, byRoot: seq<seq<Span>>)
    returns (order: seq<Span>, placed: seq<Layout.Placed>)
    requires Distinct(all) && byRoot == ByRoot(all) && forall x :: x in all ==> x in was
    requires AllConvertedOnce(all, baseline, was, Contents(all))
    ensures order == Flatten(ByTime(all)) && |placed| == |order|
    ensures placed == Layout.Run(Steps(InputRequests(all, was))).placed
    ensures Layout.NoOverlap(placed) <==> Layout.NeverBad(Steps(InputRequests(all, was)))
    ensures CanWish(all, was, order) && PlacedAre(placed, Wishes(all, was, order))
  {
    var sorted: seq<seq<Span>> := SortBy(byRoot, FirstStart);
    hide Steps, Layout.Run, Layout.NeverBad, Layout.NoOverlap, SortBy, ByRoot, Distinct, ConvertedOnce, Shows;
    OrderCanWish(all, was);
    forall r, i | 0 <= r < |sorted| && 0 <= i < |sorted[r]|
      ensures Shows(all, was, sorted[r][i], sorted[r][i].content)
    {
      TopShows(all, baseline, was, sorted[r][i], sorted[r][i].content);
    }
    var requests := AskAll(all, was, sorted);
    placed := PlaceRequests(requests);
    FlattenRequests(all, was, sorted);
    order := Flatten(sorted);
  }

  // ---------- No short tops, no overlaps ----------

  lemma {:induction false} PutIsPlaced(steps: seq<Layout.Step>, k: nat)
    requires k < |steps| && steps[k].Put?
    ensures steps[k].span in PutSpans(steps)
    decreases |steps|
  {
    if k < |steps| - 1 {
      PutIsPlaced(steps[..|steps| - 1], k);
    }
  }

  /** No top lasts exactly as long as the conversion takes off its end. */
  ghost predicate NoTopOfLength1000(all: seq<Span>, was: map<Span, Content>)
    requires forall x :: x in all ==> x in was
  {
    forall s :: s in all && IsTop(all, s) ==> was[s].end - s.start != 1000
  }

  /** Then no top takes the shortcut, and no two tops on one slot overlap. */
  lemma LongTopsNeverOverlap(all: seq<Span>, was: map<Span, Content>)
    requires Distinct(all) && (forall x :: x in all ==> x in was) && NoTopOfLength1000(all, was)
    ensures Layout.NeverBad(Steps(InputRequests(all, was)))
    ensures Layout.NoOverlap(Layout.Run(Steps(InputRequests(all, was))).placed)
  {
    var requests, order := InputRequests(all, was), Flatten(ByTime(all));
    var steps := Steps(requests);
    OrderCanWish(all, was);
    hide ByTime, SortBy, Distinct, Layout.NeverBad, Layout.NoOverlap, Layout.Run, PutSpans, IsTop;
    FlattenRequests(all, was, ByTime(all));
    StepsPut(requests);
    hide Steps;
    forall k | 0 <= k < |steps| && steps[k].Put? ensures steps[k].span.iv.start != steps[k].span.iv.end {
      PutIsPlaced(steps, k);
      var i :| 0 <= i < |order| && Wishes(all, was, order)[i] == steps[k].span;
      TopInAll(all, order[i]);
    }
    Layout.NonemptySpansNeverOverlap(steps);
  }

  lemma TopInAll(all: seq<Span>, s: Span)
    requires IsTop(all, s)
    ensures s in all
  {
  }

  // ---------- Everything together ----------

  /** What the result is, in terms of the spans as they came in. */
  ghost predicate TraceOk(all: seq<Span>, was: map<Span, Content>, t: Trace)
    requires Distinct(all) && forall x :: x in all ==> x in was
  {
    var order, byRoot, steps := Flatten(ByTime(all)), Flatten(ByRoot(all)), Steps(InputRequests(all, was));
    && TopsInOrder(all, order) && CanWish(all, was, order) && PlacedAre(t.placed, Wishes(all, was, order))
    && t.placed == Layout.Run(steps).placed && (Layout.NoOverlap(t.placed) <==> Layout.NeverBad(steps))
    && (NoTopOfLength1000(all, was) ==> Layout.NoOverlap(t.placed))
    && EarliestFirst(ByTime(all)) && (forall i :: 0 <= i < |ByTime(all)| ==> ByStart(ByTime(all)[i]))
    && TopsInOrder(all, byRoot) && t.elems == Preorders(all, byRoot) && Lists(t.elems, Trees(all, byRoot))
  }

  /**
   Any list of span objects, with dangling, repeated or cyclic ids.  It fails exactly when a
   request has no span to sort by.  Otherwise the tops are placed request by request in order
   of time, every span below a top is converted once and carries the slot of that top, the
   entries list those spans root by root in preorder, each exactly once, and no other span
   changes or appears.  Tops on one slot overlap only if a shortcut went wrong, which takes a
   top that conversion leaves without length.
   */
  method Convert(spans: seq<Span>, baseline: int) returns (r: Option<Trace>)
    requires Distinct(spans)
    modifies spans`child, spans`links, spans`content
    ensures r.None? <==> Unsortable(spans)
    ensures r.Some? ==>
              && TraceOk(spans, old(Contents(spans)), r.value)
              && AllFinished(spans, baseline, old(Contents(spans)), Contents(spans), Flatten(ByTime(spans)),
                             Tids(r.value.placed))
  {
    hide AllFinished, AllConvertedOnce, Slotted, Distinct, Trees, Lists, Steps, ByRoot, ByTime, Unsortable, Flatten,
         Layout.Run, Layout.NeverBad, Layout.NoOverlap, Linked, LinksResolved, IsTop, InputRequests;
    ghost var was := Contents(spans);
    var byRoot := ConvertAndSort(spans, baseline);
    if byRoot.None? {
      return None;
    }
    ghost var mid := Contents(spans);
    BothOrders(spans);
    ByTimeOrdered(spans);
    var order, placed := PlaceTops(spans, baseline, was, byRoot.value);
    SetTids(spans, order, Tids(placed));
    AllOnce(spans, baseline, was, mid, Contents(spans), order, Tids(placed));
    var elems := GatherAll(spans, Flatten(byRoot.value));
    if NoTopOfLength1000(spans, was) {
      LongTopsNeverOverlap(spans, was);
    }
    r := Some(Trace(placed, elems));
  }
}
