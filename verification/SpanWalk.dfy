/**
 The walks over the span forest (scripts/convert_otel_2_perfetto.py): conversion shifts each
 end time by 1000, slots are copied down, and the entries are gathered.  Each must visit every
 span below a top exactly once, and no other.
 */
module SpanWalk {
  import opened Census
  import opened Options
  import opened SpanForest

  // ---------- Work on one span ----------

  /** What conversion passes down unchanged. */
  datatype Passed = Passed(baseline: int, pid: int, rid: string, room: string, host: string)

  datatype Work = ToPerfetto(passed: Passed) | SetTid(line: nat)

  function Tagged(attributes: Attributes, passed: Passed): Attributes {
    var withRoom := if passed.room != "" then attributes["bootstrap_room" := passed.room] else attributes;
    if passed.rid != "" then withRoom["rid" := passed.rid] else withRoom
  }

  /** What the work makes of a span that starts at `start`. */
  function Done(work: Work, c: Content, start: int): Content {
    match work
    case ToPerfetto(passed) =>
      var attributes, end := Tagged(c.attributes, passed), c.end - 1000;
      var entry := Perfetto(passed.pid, 0, (start - passed.baseline) as real / 1000.0, (end - start) as real / 1000.0,
                            attributes);
      Content(end, attributes, if passed.host != "" then Some(passed.host) else c.host, Some(entry))
    case SetTid(line) =>
      if c.perfetto.None? then c else c.(perfetto := Some(c.perfetto.value.(tid := line)))
  }

  /** The attributes with the request's ids put in, where it has them, and otherwise as they were. */
  ghost predicate Relabelled(was: Attributes, now: Attributes, rid: string, room: string) {
    && (rid != "" ==> "rid" in now && now["rid"] == rid)
    && (room != "" ==> "bootstrap_room" in now && now["bootstrap_room"] == room)
    && forall k :: (k == "rid" ==> rid == "") && (k == "bootstrap_room" ==> room == "") ==>
         (k in now <==> k in was) && (k in was ==> now[k] == was[k])
  }

  /** A converted span below `thread` and `root`, field by field. */
  ghost predicate Entered(
    start: int, was: Content, now: Content, baseline: int, thread: Origin, root: Origin, tid: nat)
  {
    && now.end == was.end - 1000 && Relabelled(was.attributes, now.attributes, root.rid, root.room)
    && now.host == (if thread.host != "" then Some(thread.host) else was.host)
    && now.perfetto.Some? && now.perfetto.value.pid == thread.pid && now.perfetto.value.tid == tid
    && now.perfetto.value.ts * 1000.0 == (start - baseline) as real
    && now.perfetto.value.dur * 1000.0 == (now.end - start) as real
    && now.perfetto.value.args == now.attributes
  }

  /** A span with its entry on another slot, field by field. */
  ghost predicate Reslotted(was: Content, now: Content, tid: nat) {
    && now.end == was.end && now.attributes == was.attributes && now.host == was.host
    && (was.perfetto.None? ==> now.perfetto.None?)
    && (was.perfetto.Some? ==>
          && now.perfetto.Some? && now.perfetto.value.tid == tid && now.perfetto.value.pid == was.perfetto.value.pid
          && now.perfetto.value.ts == was.perfetto.value.ts && now.perfetto.value.dur == was.perfetto.value.dur
          && now.perfetto.value.args == was.perfetto.value.args)
  }

  /** What the work is for. */
  ghost predicate Worked(work: Work, start: int, was: Content, now: Content) {
    match work
    case ToPerfetto(p) =>
      Entered(start, was, now, p.baseline, Origin(p.pid, p.host, "", ""), Origin(0, "", p.rid, p.room), 0)
    case SetTid(line) => Reslotted(was, now, line)
  }

  lemma DoneWorks(work: Work, c: Content, start: int)
    ensures Worked(work, start, c, Done(work, c, start))
  {
  }

  // ---------- One tree ----------

  ghost function Contents(all: seq<Span>): map<Span, Content>
    reads all`content
  {
    map x | x in all :: x.content
  }

  /** Every span of `s` worked on once, every other one as it was. */
  ghost function DoneEach(was: map<Span, Content>, s: set<Span>, work: Work): map<Span, Content> {
    map x | x in was :: if x in s then Done(work, was[x], x.start) else was[x]
  }

  lemma DoneDisjoint(was: map<Span, Content>, s: set<Span>, t: set<Span>, work: Work)
    requires s !! t
    ensures DoneEach(DoneEach(was, s, work), t, work) == DoneEach(was, s + t, work)
  {
  }

  method WorkOnOne(all: seq<Span>, y: Span, work: Work)
    requires y in all
    modifies y`content
    ensures Contents(all) == DoneEach(old(Contents(all)), {y}, work)
  {
    y.content := Done(work, y.content, y.start);
  }

  /** The recursion ends and works on each span below `y` exactly once. */
  method WalkTree(all: seq<Span>, y: Span, work: Work)
    requires Distinct(all) && Linked(all) && y in all && Grounded(all, y)
    modifies all`content
    ensures Contents(all) == DoneEach(old(Contents(all)), Tree(all, y), work)
    decreases Tree(all, y)
  {
    hide Tree, Walked, DoneEach, Contents, Grounded, Distinct;
    ghost var was := Contents(all);
    var cs := y.child;
    assert cs == ChildrenIn(all, all, y);
    WalkedAll(all, y);
    WorkOnOne(all, y, work);
    for i := 0 to |cs|
      invariant Linked(all)
      invariant Contents(all) == DoneEach(was, Walked(all, y, i), work)
    {
      ChildAt(all, y, i);
      WalkNext(all, y, i);
      ChildGrounded(all, cs[i], y);
      ChildTreeSmaller(all, cs[i], y);
      DoneDisjoint(was, Walked(all, y, i), Tree(all, cs[i]), work);
      WalkTree(all, cs[i], work);
    }
  }

  // ---------- One tree after another ----------

  ghost function DoneTrees(all: seq<Span>, was: map<Span, Content>, tops: seq<Span>, works: seq<Work>):
    map<Span, Content>
    requires |tops| == |works|
  {
    if tops == [] then was
    else
      var n := |tops| - 1;
      DoneEach(DoneTrees(all, was, tops[..n], works[..n]), Tree(all, tops[n]), works[n])
  }

  lemma DoneTreesNext(all: seq<Span>, was: map<Span, Content>, tops: seq<Span>, works: seq<Work>, i: nat)
    requires |tops| == |works| && i < |tops|
    ensures DoneTrees(all, was, tops[..i + 1], works[..i + 1]) ==
            DoneEach(DoneTrees(all, was, tops[..i], works[..i]), Tree(all, tops[i]), works[i])
  {
    assert tops[..i + 1][..i] == tops[..i] && works[..i + 1][..i] == works[..i];
  }

  lemma {:induction false} DoneTreesConcat(all: seq<Span>, was: map<Span, Content>, ss: seq<Span>, us: seq<Work>,
                                           ts: seq<Span>, vs: seq<Work>)
    requires |ss| == |us| && |ts| == |vs|
    ensures DoneTrees(all, was, ss + ts, us + vs) == DoneTrees(all, DoneTrees(all, was, ss, us), ts, vs)
    decreases |ts|
  {
    if ts == [] {
      assert ss + ts == ss && us + vs == us;
    } else {
      var n := |ts| - 1;
      hide DoneEach, Tree;
      DoneTreesConcat(all, was, ss, us, ts[..n], vs[..n]);
      assert ss + ts == ss + ts[..n] + [ts[n]] && us + vs == us + vs[..n] + [vs[n]];
      DoneTreesLast(all, was, ss + ts[..n], us + vs[..n], ts[n], vs[n]);
    }
  }

  lemma DoneTreesLast(all: seq<Span>, was: map<Span, Content>, tops: seq<Span>, works: seq<Work>, top: Span, work: Work)
    requires |tops| == |works|
    ensures DoneTrees(all, was, tops + [top], works + [work]) ==
            DoneEach(DoneTrees(all, was, tops, works), Tree(all, top), work)
  {
    assert (tops + [top])[..|tops|] == tops && (works + [work])[..|works|] == works;
  }

  /** The content of a span once the trees are done: worked on for the top it is below, if any. */
  ghost predicate DoneOnce(all: seq<Span>, x: Span, was: Content, c: Content, tops: seq<Span>, works: seq<Work>)
    requires x in all && |tops| == |works|
  {
    && (forall i :: 0 <= i < |tops| && Under(all, x, tops[i]) ==> c == Done(works[i], was, x.start))
    && ((forall i :: 0 <= i < |tops| ==> !Under(all, x, tops[i])) ==> c == was)
  }

  ghost predicate AllTops(all: seq<Span>, tops: seq<Span>) {
    forall i :: 0 <= i < |tops| ==> IsTop(all, tops[i])
  }

  /** Tops, each once. */
  ghost predicate AreTops(all: seq<Span>, tops: seq<Span>) {
    Distinct(tops) && AllTops(all, tops)
  }

  lemma EarlierTops(all: seq<Span>, tops: seq<Span>)
    requires AreTops(all, tops) && tops != []
    ensures AreTops(all, tops[..|tops| - 1])
  {
  }

  lemma DoneOnceNext(all: seq<Span>, x: Span, was: Content, c: Content, tops: seq<Span>, works: seq<Work>)
    requires x in all && |tops| == |works| > 0 && AreTops(all, tops)
    requires var n := |tops| - 1; DoneOnce(all, x, was, c, tops[..n], works[..n])
    ensures var n := |tops| - 1;
            DoneOnce(all, x, was, if Under(all, x, tops[n]) then Done(works[n], c, x.start) else c, tops, works)
  {
    var n := |tops| - 1;
    hide Under, IsTop, Done;
    assert forall i :: 0 <= i < n ==> tops[i] == tops[..n][i] && works[i] == works[..n][i];
    if Under(all, x, tops[n]) {
      forall i | 0 <= i < n ensures !Under(all, x, tops[i]) {
        if Under(all, x, tops[i]) {
          OneTop(all, x, tops[i], tops[n]);
        }
      }
    }
  }

  /** Trees below different tops share nothing, so working on them in turn works on each span once. */
  lemma {:induction false} TreesDoneOnce(all: seq<Span>, was: map<Span, Content>, tops: seq<Span>, works: seq<Work>,
                                         x: Span)
    requires |tops| == |works| && AreTops(all, tops) && x in all && x in was
    ensures x in DoneTrees(all, was, tops, works)
    ensures DoneOnce(all, x, was[x], DoneTrees(all, was, tops, works)[x], tops, works)
    decreases |tops|
  {
    if tops != [] {
      var n := |tops| - 1;
      EarlierTops(all, tops);
      TreesDoneOnce(all, was, tops[..n], works[..n], x);
      hide DoneOnce, Done, AreTops;
      DoneOnceNext(all, x, was[x], DoneTrees(all, was, tops[..n], works[..n])[x], tops, works);
    }
  }

  /** Works on the trees below the tops in turn. */
  method WalkTrees(all: seq<Span>, tops: seq<Span>, works: seq<Work>)
    requires Distinct(all) && Linked(all) && |tops| == |works|
    requires forall i :: 0 <= i < |tops| ==> IsTop(all, tops[i])
    modifies all`content
    ensures Linked(all) && Contents(all) == DoneTrees(all, old(Contents(all)), tops, works)
  {
    hide DoneEach, Tree, Contents, DoneTrees, Distinct, Grandparent;
    ghost var was := Contents(all);
    NothingDone(all, was, tops, works);
    for i := 0 to |tops|
      invariant Linked(all) && Contents(all) == DoneTrees(all, was, tops[..i], works[..i])
    {
      TopGrounded(all, tops[i]);
      DoneTreesNext(all, was, tops, works, i);
      WalkTree(all, tops[i], works[i]);
    }
    assert tops[..|tops|] == tops && works[..|works|] == works;
  }

  lemma NothingDone(all: seq<Span>, was: map<Span, Content>, tops: seq<Span>, works: seq<Work>)
    requires |tops| == |works|
    ensures DoneTrees(all, was, tops[..0], works[..0]) == was
  {
  }

  // ---------- Conversion, from the roots down ----------

  /** What the walk passes down from thread and root. */
  function PassedTo(baseline: int, thread: Span, root: Span): Passed {
    Passed(baseline, thread.origin.pid, root.origin.rid, root.origin.room, thread.origin.host)
  }

  /** The conversion of what is below a top. */
  function Conversion(all: seq<Span>, baseline: int, s: Span): Work
    requires IsTop(all, s)
  {
    ToPerfetto(PassedTo(baseline, ParentOf(all, s), Grandparent(all, s)))
  }

  function Conversions(all: seq<Span>, baseline: int, tops: seq<Span>): (works: seq<Work>)
    requires forall i :: 0 <= i < |tops| ==> IsTop(all, tops[i])
    ensures |works| == |tops| && forall i :: 0 <= i < |tops| ==> works[i] == Conversion(all, baseline, tops[i])
  {
    seq(|tops|, i requires 0 <= i < |tops| => Conversion(all, baseline, tops[i]))
  }

  lemma ConversionsConcat(all: seq<Span>, was: map<Span, Content>, baseline: int, ss: seq<Span>, ts: seq<Span>)
    requires AllTops(all, ss) && AllTops(all, ts)
    ensures AllTops(all, ss + ts)
    ensures DoneTrees(all, was, ss + ts, Conversions(all, baseline, ss + ts)) ==
            DoneTrees(all, DoneTrees(all, was, ss, Conversions(all, baseline, ss)), ts, Conversions(all, baseline, ts))
  {
    hide IsTop, Conversion;
    DoneTreesConcat(all, was, ss, Conversions(all, baseline, ss), ts, Conversions(all, baseline, ts));
    assert Conversions(all, baseline, ss + ts) == Conversions(all, baseline, ss) + Conversions(all, baseline, ts);
  }

  /** The contents once the trees below the tops are converted. */
  ghost predicate Converted(all: seq<Span>, was: map<Span, Content>, baseline: int, tops: seq<Span>,
                            now: map<Span, Content>)
  {
    AllTops(all, tops) && now == DoneTrees(all, was, tops, Conversions(all, baseline, tops))
  }

  lemma ConvertedThen(all: seq<Span>, was: map<Span, Content>, baseline: int, ss: seq<Span>, then1: map<Span, Content>,
                      ts: seq<Span>, now: map<Span, Content>)
    requires Converted(all, was, baseline, ss, then1) && Converted(all, then1, baseline, ts, now)
    ensures Converted(all, was, baseline, ss + ts, now)
  {
    hide DoneTrees, Conversions, AllTops;
    ConversionsConcat(all, was, baseline, ss, ts);
  }

  lemma NothingConverted(all: seq<Span>, was: map<Span, Content>, baseline: int)
    ensures Converted(all, was, baseline, [], was)
  {
  }

  /** Converts the trees of one thread. */
  method ConvertThread(all: seq<Span>, baseline: int, thread: Span, root: Span) returns (spans: seq<Span>)
    requires Distinct(all) && Linked(all) && thread in all && ParentOf(all, thread) == root && root.IsRoot()
    modifies all`content
    ensures Linked(all) && spans == ChildrenIn(all, all, thread)
    ensures Converted(all, old(Contents(all)), baseline, spans, Contents(all))
  {
    spans := thread.child;
    assert spans == ChildrenIn(all, all, thread);
    hide DoneTrees, Contents, Distinct;
    forall i | 0 <= i < |spans|
      ensures IsTop(all, spans[i])
      ensures Conversion(all, baseline, spans[i]) == ToPerfetto(PassedTo(baseline, thread, root))
    {
      ChildAt(all, thread, i);
    }
    var works := seq(|spans|, _ => ToPerfetto(PassedTo(baseline, thread, root)));
    assert works == Conversions(all, baseline, spans);
    WalkTrees(all, spans, works);
  }

  lemma SpansOfNone(all: seq<Span>, threads: seq<Span>)
    ensures SpansOfThreads(all, threads[..0]) == []
  {
  }

  lemma SpansOfNext(all: seq<Span>, threads: seq<Span>, i: nat)
    requires i < |threads|
    ensures SpansOfThreads(all, threads[..i + 1]) ==
            SpansOfThreads(all, threads[..i]) + ChildrenIn(all, all, threads[i])
  {
    assert threads[..i + 1][..i] == threads[..i];
  }

  /** Converts the trees of one request and lists their tops. */
  method ConvertRequest(all: seq<Span>, baseline: int, root: Span) returns (spans: seq<Span>)
    requires Distinct(all) && Linked(all) && root in all && root.IsRoot()
    modifies all`content
    ensures Linked(all) && spans == SpansOfRequest(all, root)
    ensures Converted(all, old(Contents(all)), baseline, spans, Contents(all))
  {
    var threads := root.child;
    assert threads == ChildrenIn(all, all, root);
    hide Converted, Contents, Distinct, Linked, SpansOfThreads, ChildrenIn, ParentOf;
    ghost var was := Contents(all);
    spans := [];
    NothingConverted(all, was, baseline);
    SpansOfNone(all, threads);
    for i := 0 to |threads|
      invariant Linked(all)
      invariant spans == SpansOfThreads(all, threads[..i])
      invariant Converted(all, was, baseline, spans, Contents(all))
    {
      ChildAt(all, root, i);
      SpansOfNext(all, threads, i);
      ghost var between := Contents(all);
      var found := ConvertThread(all, baseline, threads[i], root);
      ConvertedThen(all, was, baseline, spans, between, found, Contents(all));
      spans := spans + found;
    }
    assert threads[..|threads|] == threads;
  }

  /** Converts everything below the roots and lists the tops of each request. */
  method ConvertRequests(all: seq<Span>, baseline: int, roots: seq<Span>) returns (lists: seq<seq<Span>>)
    requires Distinct(all) && Linked(all)
    requires forall i :: 0 <= i < |roots| ==> roots[i] in all && roots[i].IsRoot()
    modifies all`content
    ensures Linked(all)
    ensures |lists| == |roots| && forall i :: 0 <= i < |roots| ==> lists[i] == SpansOfRequest(all, roots[i])
    ensures Converted(all, old(Contents(all)), baseline, TopSpans(all, roots), Contents(all))
  {
    hide Contents, Linked, Converted, TopSpans, SpansOfRequest, Distinct;
    ghost var was := Contents(all);
    NoTops(all, roots);
    NothingConverted(all, was, baseline);
    lists := [];
    for i := 0 to |roots|
      invariant Linked(all)
      invariant |lists| == i && forall k :: 0 <= k < i ==> lists[k] == SpansOfRequest(all, roots[k])
      invariant Converted(all, was, baseline, TopSpans(all, roots[..i]), Contents(all))
    {
      TopSpansNext(all, roots, i);
      ghost var between := Contents(all);
      var spans := ConvertRequest(all, baseline, roots[i]);
      ConvertedThen(all, was, baseline, TopSpans(all, roots[..i]), between, spans, Contents(all));
      lists := lists + [spans];
    }
    assert roots[..|roots|] == roots;
  }

  lemma NoTops(all: seq<Span>, roots: seq<Span>)
    ensures TopSpans(all, roots[..0]) == []
  {
  }

  /** The tops of all requests, each once. */
  lemma TopsOfRoots(all: seq<Span>)
    requires Distinct(all)
    ensures AreTops(all, TopSpans(all, RootsIn(all)))
    ensures forall s :: s in all && IsTop(all, s) ==> s in TopSpans(all, RootsIn(all))
  {
    var tops := TopSpans(all, RootsIn(all));
    RootsDistinct(all);
    TopSpansDistinct(all, RootsIn(all));
    forall i | 0 <= i < |tops| ensures IsTop(all, tops[i]) {
      TopSpansAreTops(all, tops[i]);
    }
    forall s | s in all && IsTop(all, s) ensures s in tops {
      TopSpansAreTops(all, s);
    }
  }

  lemma ConversionEnters(all: seq<Span>, baseline: int, s: Span, c: Content, start: int)
    requires IsTop(all, s)
    ensures Entered(start, c, Done(Conversion(all, baseline, s), c, start), baseline, ParentOf(all, s).origin,
                    Grandparent(all, s).origin, 0)
  {
    DoneWorks(Conversion(all, baseline, s), c, start);
  }

  /** Converted for the top it is below, if it is below one; otherwise as it was. */
  ghost predicate ConvertedOnce(all: seq<Span>, baseline: int, x: Span, was: Content, now: Content)
    requires x in all
  {
    && (forall s :: s in all && IsTop(all, s) && Under(all, x, s) ==>
          Entered(x.start, was, now, baseline, ParentOf(all, s).origin, Grandparent(all, s).origin, 0))
    && ((forall s :: s in all && IsTop(all, s) ==> !Under(all, x, s)) ==> now == was)
  }

  ghost predicate AllConvertedOnce(all: seq<Span>, baseline: int, was: map<Span, Content>, now: map<Span, Content>) {
    forall x :: x in all ==> x in was && x in now && ConvertedOnce(all, baseline, x, was[x], now[x])
  }

  lemma EachConvertedOnce(all: seq<Span>, baseline: int, was: map<Span, Content>, now: map<Span, Content>, x: Span)
    requires Distinct(all) && Converted(all, was, baseline, TopSpans(all, RootsIn(all)), now)
    requires x in all && x in was
    ensures x in now && ConvertedOnce(all, baseline, x, was[x], now[x])
  {
    var tops := TopSpans(all, RootsIn(all));
    var works := Conversions(all, baseline, tops);
    TopsOfRoots(all);
    TreesDoneOnce(all, was, tops, works, x);
    hide Done, Under, TopSpans, DoneTrees, Entered;
    forall s | s in all && IsTop(all, s) && Under(all, x, s)
      ensures Entered(x.start, was[x], now[x], baseline, ParentOf(all, s).origin, Grandparent(all, s).origin, 0)
    {
      var i :| 0 <= i < |tops| && tops[i] == s;
      assert Under(all, x, tops[i]);
      ConversionEnters(all, baseline, s, was[x], x.start);
    }
  }

  /**
   The converter on any list of spans: it ends, and every span below a top loses 1000 from
   its end time and gets its trace entry exactly once; every other span stays as it was.
   */
  method ConvertTrace(spans: seq<Span>, baseline: int) returns (roots: seq<Span>, lists: seq<seq<Span>>)
    requires Distinct(spans)
    modifies spans`child, spans`links, spans`content
    ensures Linked(spans) && LinksResolved(spans) && roots == RootsIn(spans) && |lists| == |roots|
    ensures forall i :: 0 <= i < |roots| ==> lists[i] == SpansOfRequest(spans, roots[i])
    ensures AllConvertedOnce(spans, baseline, old(Contents(spans)), Contents(spans))
  {
    hide ConvertedOnce, Converted, Distinct, Linked, LinksResolved, RootsIn, SpansOfRequest, TopSpans;
    roots := BuildSpanTree(spans);
    ghost var was := Contents(spans);
    lists := ConvertRequests(spans, baseline, roots);
    ghost var now := Contents(spans);
    forall x | x in spans ensures x in now && ConvertedOnce(spans, baseline, x, was[x], now[x]) {
      EachConvertedOnce(spans, baseline, was, now, x);
    }
  }

  // ---------- Slots, copied down ----------

  function TidWorks(lines: seq<nat>): (works: seq<Work>)
    ensures |works| == |lines| && forall i :: 0 <= i < |lines| ==> works[i] == SetTid(lines[i])
  {
    seq(|lines|, i requires 0 <= i < |lines| => SetTid(lines[i]))
  }

  ghost predicate SlottedOnce(all: seq<Span>, x: Span, was: Content, now: Content, tops: seq<Span>, lines: seq<nat>)
    requires x in all && |lines| == |tops|
  {
    && (forall i :: 0 <= i < |tops| && Under(all, x, tops[i]) ==> Reslotted(was, now, lines[i]))
    && ((forall i :: 0 <= i < |tops| ==> !Under(all, x, tops[i])) ==> now == was)
  }

  lemma DoneSlots(all: seq<Span>, x: Span, was: Content, now: Content, tops: seq<Span>, lines: seq<nat>)
    requires x in all && |lines| == |tops| && DoneOnce(all, x, was, now, tops, TidWorks(lines))
    ensures SlottedOnce(all, x, was, now, tops, lines)
  {
    hide Under, Done, Reslotted;
    forall i | 0 <= i < |tops| && Under(all, x, tops[i]) ensures Reslotted(was, now, lines[i]) {
      DoneWorks(TidWorks(lines)[i], was, x.start);
    }
  }

  /** Every span below a top has the slot of that top; every other one is as it was. */
  ghost predicate Slotted(all: seq<Span>, tops: seq<Span>, lines: seq<nat>, was: map<Span, Content>,
                          now: map<Span, Content>)
    requires |lines| == |tops|
  {
    forall x :: x in all ==> x in was && x in now && SlottedOnce(all, x, was[x], now[x], tops, lines)
  }

  /** Copies the slot of each top to every span below it; no other span changes. */
  method SetTids(all: seq<Span>, tops: seq<Span>, lines: seq<nat>)
    requires Distinct(all) && Linked(all) && |lines| == |tops| && AreTops(all, tops)
    modifies all`content
    ensures Linked(all) && Slotted(all, tops, lines, old(Contents(all)), Contents(all))
  {
    ghost var was := Contents(all);
    WalkTrees(all, tops, TidWorks(lines));
    ghost var now := Contents(all);
    hide DoneOnce, Distinct, AreTops, DoneTrees, SlottedOnce;
    forall x | x in all ensures x in now && SlottedOnce(all, x, was[x], now[x], tops, lines) {
      TreesDoneOnce(all, was, tops, TidWorks(lines), x);
      DoneSlots(all, x, was[x], now[x], tops, lines);
    }
  }

  // ---------- Gathering ----------

  /** The spans of a list are those of a set, each once. */
  ghost predicate Lists(elems: seq<Span>, s: set<Span>) {
    Distinct(elems) && s == set x | x in elems
  }

  lemma ListsConcat(xs: seq<Span>, s: set<Span>, ys: seq<Span>, t: set<Span>)
    requires Lists(xs, s) && Lists(ys, t) && s !! t
    ensures Lists(xs + ys, s + t)
  {
    forall x | x in xs ensures x !in ys {
      assert x in s;
    }
    ConcatDistinct(xs, ys);
  }

  lemma ListsOne(y: Span)
    ensures Lists([y], {y})
  {
  }

  /** A span before its children, and one child's tree after the other. */
  ghost function Preorder(all: seq<Span>, y: Span): seq<Span>
    requires y in all && Grounded(all, y)
    decreases Tree(all, y), |ChildrenIn(all, all, y)| + 1
  {
    [y] + ChildTrees(all, y, |ChildrenIn(all, all, y)|)
  }

  /** The trees below the first `i` children. */
  ghost function ChildTrees(all: seq<Span>, y: Span, i: nat): seq<Span>
    requires y in all && Grounded(all, y) && i <= |ChildrenIn(all, all, y)|
    decreases Tree(all, y), i
  {
    if i == 0 then []
    else
      var c := ChildrenIn(all, all, y)[i - 1];
      ChildAt(all, y, i - 1);
      ChildGrounded(all, c, y);
      ChildTreeSmaller(all, c, y);
      ChildTrees(all, y, i - 1) + Preorder(all, c)
  }

  /** The recursion lists each span of the tree exactly once, in preorder. */
  method GatherTree(all: seq<Span>, y: Span) returns (elems: seq<Span>)
    requires Distinct(all) && Linked(all) && y in all && Grounded(all, y)
    ensures elems == Preorder(all, y) && Lists(elems, Tree(all, y))
    decreases Tree(all, y)
  {
    hide Tree, Walked, Grounded, Distinct, Lists;
    var cs := y.child;
    assert cs == ChildrenIn(all, all, y);
    WalkedAll(all, y);
    ListsOne(y);
    elems := [y];
    for i := 0 to |cs|
      invariant elems == [y] + ChildTrees(all, y, i)
      invariant Lists(elems, Walked(all, y, i))
    {
      ChildAt(all, y, i);
      WalkNext(all, y, i);
      ChildGrounded(all, cs[i], y);
      ChildTreeSmaller(all, cs[i], y);
      var below := GatherTree(all, cs[i]);
      ListsConcat(elems, Walked(all, y, i), below, Tree(all, cs[i]));
      elems := elems + below;
    }
  }

  /** What is below the tops. */
  ghost function Trees(all: seq<Span>, tops: seq<Span>): set<Span> {
    set x | x in all && exists i :: 0 <= i < |tops| && Under(all, x, tops[i])
  }

  lemma TreesNext(all: seq<Span>, tops: seq<Span>, i: nat)
    requires AreTops(all, tops) && i < |tops|
    ensures Trees(all, tops[..i]) !! Tree(all, tops[i])
    ensures Trees(all, tops[..i + 1]) == Trees(all, tops[..i]) + Tree(all, tops[i])
  {
    var before, after := tops[..i], tops[..i + 1];
    assert after == before + [tops[i]];
    hide Under, IsTop;
    forall x | x in Tree(all, tops[i]) ensures x !in Trees(all, before) {
      if k :| 0 <= k < |before| && Under(all, x, before[k]) {
        OneTop(all, x, before[k], tops[i]);
      }
    }
    forall x | x in Trees(all, before) ensures x in Trees(all, after) {
      var k :| 0 <= k < |before| && Under(all, x, before[k]);
      assert after[k] == before[k];
    }
    forall x | x in Tree(all, tops[i]) ensures x in Trees(all, after) {
      assert after[i] == tops[i];
    }
    forall x | x in Trees(all, after) ensures x in Trees(all, before) + Tree(all, tops[i]) {
      var k :| 0 <= k < |after| && Under(all, x, after[k]);
      assert k < i ==> before[k] == after[k];
    }
  }

  /** Top by top, each tree in preorder. */
  ghost function Preorders(all: seq<Span>, tops: seq<Span>): seq<Span>
    requires AllTops(all, tops)
  {
    if tops == [] then []
    else
      var n := |tops| - 1;
      TopGrounded(all, tops[n]);
      Preorders(all, tops[..n]) + Preorder(all, tops[n])
  }

  lemma PreordersNext(all: seq<Span>, tops: seq<Span>, i: nat)
    requires AllTops(all, tops) && i < |tops|
    ensures AllTops(all, tops[..i]) && AllTops(all, tops[..i + 1]) && tops[i] in all && Grounded(all, tops[i])
    ensures Preorders(all, tops[..i + 1]) == Preorders(all, tops[..i]) + Preorder(all, tops[i])
  {
    hide Preorder;
    TopGrounded(all, tops[i]);
    assert tops[..i + 1][..i] == tops[..i];
  }

  /** Everything below the tops in order, each span exactly once. */
  method GatherAll(all: seq<Span>, tops: seq<Span>) returns (elems: seq<Span>)
    requires Distinct(all) && Linked(all) && AreTops(all, tops)
    ensures elems == Preorders(all, tops) && Lists(elems, Trees(all, tops))
  {
    elems := [];
    assert Trees(all, tops[..0]) == {};
    hide Tree, Trees, Distinct, Lists, Preorder, IsTop;
    NothingGathered(all, tops);
    for i := 0 to |tops|
      invariant AllTops(all, tops[..i]) && elems == Preorders(all, tops[..i])
      invariant Lists(elems, Trees(all, tops[..i]))
    {
      PreordersNext(all, tops, i);
      TreesNext(all, tops, i);
      var below := GatherTree(all, tops[i]);
      ListsConcat(elems, Trees(all, tops[..i]), below, Tree(all, tops[i]));
      elems := elems + below;
    }
    assert tops[..|tops|] == tops;
  }

  lemma NothingGathered(all: seq<Span>, tops: seq<Span>)
    ensures AllTops(all, tops[..0]) && Preorders(all, tops[..0]) == [] && Lists([], {})
  {
  }
}
