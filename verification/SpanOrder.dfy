/**
 The order of things in the span forest (scripts/convert_otel_2_perfetto.py): which span an id
 names, the order of roots and children, and the order in which the entries are gathered.
 */
module SpanOrder {
  import opened Census
  import opened Sorting
  import opened SpanForest
  import opened SpanWalk

  // ---------- Ids ----------

  /** An id names a span exactly if some span has it. */
  lemma {:induction false} IdFound(spans: seq<Span>, id: string)
    ensures id in ById(spans) <==> exists i :: 0 <= i < |spans| && spans[i].spanId == id
    decreases |spans|
  {
    if spans != [] {
      var n := |spans| - 1;
      IdFound(spans[..n], id);
      if i :| 0 <= i < n && spans[i].spanId == id {
        assert spans[..n][i].spanId == id;
      }
    }
  }

  /** Of several spans with an id, it names the last. */
  lemma {:induction false} LastWins(spans: seq<Span>, i: nat)
    requires i < |spans| && forall j :: i < j < |spans| ==> spans[j].spanId != spans[i].spanId
    ensures spans[i].spanId in ById(spans) && ById(spans)[spans[i].spanId] == spans[i]
    decreases |spans|
  {
    var n := |spans| - 1;
    if i < n {
      assert spans[n].spanId != spans[i].spanId && spans[..n][i] == spans[i];
      LastWins(spans[..n], i);
    }
  }

  /** The parent of a span that is no root is the last span with its parent id; a root has none. */
  lemma ParentIsNamed(all: seq<Span>, x: Span, i: nat)
    requires i < |all| && all[i].spanId == x.parentSpanId
    requires forall j :: i < j < |all| ==> all[j].spanId != x.parentSpanId
    ensures ParentOf(all, x) == if x.moduleName in {"sglang::request", "sglang::mooncake"} then null else all[i]
  {
    LastWins(all, i);
  }

  lemma NoParent(all: seq<Span>, x: Span)
    requires forall j :: 0 <= j < |all| ==> all[j].spanId != x.parentSpanId
    ensures ParentOf(all, x) == null
  {
    IdFound(all, x.parentSpanId);
  }

  // ---------- Roots and children in the order of the list ----------

  function At(xs: seq<Span>, at: seq<nat>): seq<Span>
    requires forall k :: 0 <= k < |at| ==> at[k] < |xs|
  {
    seq(|at|, k requires 0 <= k < |at| => xs[at[k]])
  }

  function RootFlags(xs: seq<Span>): (flags: seq<bool>)
    ensures |flags| == |xs|
  {
    seq(|xs|, i requires 0 <= i < |xs| => xs[i].moduleName in {"sglang::request", "sglang::mooncake"})
  }

  function ChildFlags(all: seq<Span>, xs: seq<Span>, p: Span): (flags: seq<bool>)
    ensures |flags| == |xs|
  {
    seq(|xs|, i requires 0 <= i < |xs| => ParentOf(all, xs[i]) == p)
  }

  /** The roots are the spans with a request module, in the order of the list. */
  lemma {:induction false} RootsInOrder(xs: seq<Span>)
    ensures RootsIn(xs) == At(xs, Positions(RootFlags(xs)))
    decreases |xs|
  {
    if xs != [] {
      var n := |xs| - 1;
      RootsInOrder(xs[..n]);
      assert RootFlags(xs)[..n] == RootFlags(xs[..n]);
      AtPrefix(xs, n, Positions(RootFlags(xs[..n])));
    }
  }

  /** The children of a span are the spans whose parent it is, in the order of the list. */
  lemma {:induction false} ChildrenInOrder(all: seq<Span>, xs: seq<Span>, p: Span)
    ensures ChildrenIn(all, xs, p) == At(xs, Positions(ChildFlags(all, xs, p)))
    decreases |xs|
  {
    if xs != [] {
      var n := |xs| - 1;
      ChildrenInOrder(all, xs[..n], p);
      hide ParentOf;
      assert ChildFlags(all, xs, p)[..n] == ChildFlags(all, xs[..n], p);
      AtPrefix(xs, n, Positions(ChildFlags(all, xs[..n], p)));
    }
  }

  /** The spans that a list of ids names: one for every id that is found, in order. */
  lemma {:induction false} LinksInOrder(m: map<string, Span>, ids: seq<string>)
    ensures var at := Positions(FoundFlags(m, ids));
            && |Resolved(m, ids)| == |at|
            && forall k :: 0 <= k < |at| ==> ids[at[k]] in m && Resolved(m, ids)[k] == m[ids[at[k]]]
    decreases |ids|
  {
    if ids != [] {
      var n := |ids| - 1;
      LinksInOrder(m, ids[..n]);
      assert FoundFlags(m, ids)[..n] == FoundFlags(m, ids[..n]);
    }
  }

  function FoundFlags(m: map<string, Span>, ids: seq<string>): (flags: seq<bool>)
    ensures |flags| == |ids|
  {
    seq(|ids|, i requires 0 <= i < |ids| => ids[i] in m)
  }

  lemma AtPrefix(xs: seq<Span>, n: nat, at: seq<nat>)
    requires n < |xs| && forall k :: 0 <= k < |at| ==> at[k] < n
    ensures At(xs[..n], at) == At(xs, at) && At(xs, at + [n]) == At(xs, at) + [xs[n]]
  {
  }

  // ---------- The order of the entries ----------

  ghost predicate Before(elems: seq<Span>, a: Span, b: Span) {
    exists i, j :: 0 <= i < j < |elems| && elems[i] == a && elems[j] == b
  }

  lemma BeforeAcross(xs: seq<Span>, ys: seq<Span>, a: Span, b: Span)
    requires a in xs && b in ys
    ensures Before(xs + ys, a, b)
  {
    var i :| 0 <= i < |xs| && xs[i] == a;
    var j :| 0 <= j < |ys| && ys[j] == b;
    assert (xs + ys)[i] == a && (xs + ys)[|xs| + j] == b;
  }

  lemma BeforeInside(pre: seq<Span>, xs: seq<Span>, post: seq<Span>, a: Span, b: Span)
    requires Before(xs, a, b)
    ensures Before(pre + xs + post, a, b)
  {
    var i, j :| 0 <= i < j < |xs| && xs[i] == a && xs[j] == b;
    assert (pre + xs + post)[|pre| + i] == a && (pre + xs + post)[|pre| + j] == b;
  }

  lemma ChildReady(all: seq<Span>, y: Span, k: nat)
    requires y in all && Grounded(all, y) && k < |ChildrenIn(all, all, y)|
    ensures var c := ChildrenIn(all, all, y)[k];
            c in all && ParentOf(all, c) == y && Grounded(all, c) && Tree(all, c) < Tree(all, y)
  {
    ChildAt(all, y, k);
    ChildGrounded(all, ChildrenIn(all, all, y)[k], y);
    ChildTreeSmaller(all, ChildrenIn(all, all, y)[k], y);
  }

  /** The tree of child `k` is one piece of the list, after the trees of the children before it. */
  lemma {:induction false} ChildPiece(all: seq<Span>, y: Span, k: nat, n: nat) returns (post: seq<Span>)
    requires y in all && Grounded(all, y) && k < n <= |ChildrenIn(all, all, y)|
    ensures ChildrenIn(all, all, y)[k] in all && Grounded(all, ChildrenIn(all, all, y)[k])
    ensures ChildTrees(all, y, n) == ChildTrees(all, y, k) + Preorder(all, ChildrenIn(all, all, y)[k]) + post
    decreases n
  {
    hide Preorder, ChildTrees, Grounded, Tree, ChildrenIn, ParentOf;
    ChildTreesNext(all, y, k);
    ChildTreesNext(all, y, n - 1);
    if k == n - 1 {
      post := [];
    } else {
      var rest := ChildPiece(all, y, k, n - 1);
      var last := Preorder(all, ChildrenIn(all, all, y)[n - 1]);
      post := rest + last;
      Regroup(ChildTrees(all, y, k), Preorder(all, ChildrenIn(all, all, y)[k]), rest, last);
    }
  }

  lemma ChildTreesNext(all: seq<Span>, y: Span, i: nat)
    requires y in all && Grounded(all, y) && i < |ChildrenIn(all, all, y)|
    ensures ChildrenIn(all, all, y)[i] in all && Grounded(all, ChildrenIn(all, all, y)[i])
    ensures ChildTrees(all, y, i + 1) == ChildTrees(all, y, i) + Preorder(all, ChildrenIn(all, all, y)[i])
  {
    ChildReady(all, y, i);
    hide Preorder, Grounded, Tree, ParentOf;
  }

  lemma Regroup(a: seq<Span>, b: seq<Span>, c: seq<Span>, d: seq<Span>)
    ensures a + b + c + d == a + b + (c + d)
  {
  }

  /** The child whose tree a span is in. */
  lemma ChildAbove(all: seq<Span>, y: Span, x: Span) returns (k: nat)
    requires y in all && x in all && Under(all, x, y) && x != y
    ensures k < |ChildrenIn(all, all, y)| && Under(all, x, ChildrenIn(all, all, y)[k])
  {
    UnderSplits(all, x, y);
    var c :| c in all && ParentOf(all, c) == y && Under(all, x, c);
    ChildrenComplete(all, all, y, c);
    k :| 0 <= k < |ChildrenIn(all, all, y)| && ChildrenIn(all, all, y)[k] == c;
  }

  lemma {:induction false} PreorderHolds(all: seq<Span>, y: Span, x: Span)
    requires y in all && Grounded(all, y) && x in all && Under(all, x, y)
    ensures x in Preorder(all, y)
    decreases Tree(all, y)
  {
    if x != y {
      var n := |ChildrenIn(all, all, y)|;
      var k := ChildAbove(all, y, x);
      ChildReady(all, y, k);
      PreorderHolds(all, ChildrenIn(all, all, y)[k], x);
      var post := ChildPiece(all, y, k, n);
    }
  }

  /** The list of a tree has the list of each child's tree as a piece. */
  lemma PreorderPiece(all: seq<Span>, y: Span, k: nat) returns (post: seq<Span>)
    requires y in all && Grounded(all, y) && k < |ChildrenIn(all, all, y)|
    ensures ChildrenIn(all, all, y)[k] in all && Grounded(all, ChildrenIn(all, all, y)[k])
    ensures Preorder(all, y) == ([y] + ChildTrees(all, y, k)) + Preorder(all, ChildrenIn(all, all, y)[k]) + post
  {
    PreorderIs(all, y);
    hide Preorder, ChildTrees, Grounded, Tree, ChildrenIn;
    post := ChildPiece(all, y, k, |ChildrenIn(all, all, y)|);
    Regroup([y], ChildTrees(all, y, k), Preorder(all, ChildrenIn(all, all, y)[k]), post);
    assert [y] + (ChildTrees(all, y, k) + Preorder(all, ChildrenIn(all, all, y)[k]) + post) ==
           [y] + ChildTrees(all, y, k) + Preorder(all, ChildrenIn(all, all, y)[k]) + post;
  }

  lemma PreorderIs(all: seq<Span>, y: Span)
    requires y in all && Grounded(all, y)
    ensures Preorder(all, y) == [y] + ChildTrees(all, y, |ChildrenIn(all, all, y)|)
  {
  }

  lemma SelfUnder(all: seq<Span>, x: Span)
    requires x in all
    ensures Under(all, x, x)
  {
    assert Up(all, x, 0) == x;
  }

  /** Every span comes after its parent. */
  lemma {:induction false} ParentFirst(all: seq<Span>, y: Span, x: Span)
    requires y in all && Grounded(all, y) && x in all && Under(all, x, y) && x != y
    ensures ParentOf(all, x) != null && Before(Preorder(all, y), ParentOf(all, x), x)
    decreases Tree(all, y)
  {
    hide Preorder, Tree, Under, ChildrenIn;
    var k := ChildAbove(all, y, x);
    var c := ChildrenIn(all, all, y)[k];
    ChildReady(all, y, k);
    SelfUnder(all, c);
    var post := PreorderPiece(all, y, k);
    if x == c {
      PreorderHolds(all, c, c);
      BeforeAcross([y] + ChildTrees(all, y, k), Preorder(all, c) + post, y, c);
      assert ([y] + ChildTrees(all, y, k)) + (Preorder(all, c) + post) == Preorder(all, y);
    } else {
      ParentFirst(all, c, x);
      BeforeInside([y] + ChildTrees(all, y, k), Preorder(all, c), post, ParentOf(all, x), x);
    }
  }

  lemma FirstBorn(all: seq<Span>, y: Span, i: nat, j: nat, a: Span, b: Span)
    requires y in all && Grounded(all, y) && i < j < |ChildrenIn(all, all, y)| && a in all && b in all
    requires Under(all, a, ChildrenIn(all, all, y)[i]) && Under(all, b, ChildrenIn(all, all, y)[j])
    ensures Before(Preorder(all, y), a, b)
  {
    hide Preorder, ChildTrees, Under, Tree, ParentOf, ChildrenIn;
    var cs := ChildrenIn(all, all, y);
    ChildReady(all, y, i);
    ChildReady(all, y, j);
    PreorderHolds(all, cs[i], a);
    PreorderHolds(all, cs[j], b);
    var middle := ChildPiece(all, y, i, j);
    var post := PreorderPiece(all, y, j);
    assert a in ChildTrees(all, y, j);
    BeforeAcross([y] + ChildTrees(all, y, j), Preorder(all, cs[j]) + post, a, b);
    assert ([y] + ChildTrees(all, y, j)) + (Preorder(all, cs[j]) + post) == Preorder(all, y);
  }

  /** The tree below an earlier child comes before the tree below a later one. */
  lemma {:induction false} SiblingsInOrder(all: seq<Span>, y: Span, p: Span, i: nat, j: nat, a: Span, b: Span)
    requires y in all && Grounded(all, y) && p in all && Under(all, p, y)
    requires i < j < |ChildrenIn(all, all, p)| && a in all && b in all
    requires Under(all, a, ChildrenIn(all, all, p)[i]) && Under(all, b, ChildrenIn(all, all, p)[j])
    ensures Before(Preorder(all, y), a, b)
    decreases Tree(all, y)
  {
    hide Preorder, Under, Tree, ParentOf, ChildrenIn;
    if p == y {
      FirstBorn(all, y, i, j, a, b);
    } else {
      var k := ChildAbove(all, y, p);
      ChildReady(all, y, k);
      var c := ChildrenIn(all, all, y)[k];
      var post := PreorderPiece(all, y, k);
      SiblingsInOrder(all, c, p, i, j, a, b);
      BeforeInside([y] + ChildTrees(all, y, k), Preorder(all, c), post, a, b);
    }
  }

  /** The tree below an earlier top comes before the tree below a later one. */
  lemma {:induction false} TopsInSequence(all: seq<Span>, tops: seq<Span>, i: nat, j: nat, a: Span, b: Span)
    requires AllTops(all, tops) && i < j < |tops| && a in all && b in all
    requires Under(all, a, tops[i]) && Under(all, b, tops[j])
    ensures Before(Preorders(all, tops), a, b)
    decreases |tops|
  {
    hide Preorder, Preorders, Under, AllTops, Grounded;
    var n := |tops| - 1;
    PreordersLast(all, tops);
    if j == n {
      PreordersHold(all, tops[..n], i, a);
      PreorderHolds(all, tops[n], b);
      BeforeAcross(Preorders(all, tops[..n]), Preorder(all, tops[n]), a, b);
    } else {
      TopsInSequence(all, tops[..n], i, j, a, b);
      BeforeInside([], Preorders(all, tops[..n]), Preorder(all, tops[n]), a, b);
      assert [] + Preorders(all, tops[..n]) + Preorder(all, tops[n]) == Preorders(all, tops);
    }
  }

  lemma PreordersLast(all: seq<Span>, tops: seq<Span>)
    requires AllTops(all, tops) && tops != []
    ensures var n := |tops| - 1;
            && AllTops(all, tops[..n]) && tops[n] in all && Grounded(all, tops[n])
            && Preorders(all, tops) == Preorders(all, tops[..n]) + Preorder(all, tops[n])
  {
    hide Preorder;
    TopGrounded(all, tops[|tops| - 1]);
  }

  lemma {:induction false} PreordersHold(all: seq<Span>, tops: seq<Span>, i: nat, a: Span)
    requires AllTops(all, tops) && i < |tops| && a in all && Under(all, a, tops[i])
    ensures a in Preorders(all, tops)
    decreases |tops|
  {
    var n := |tops| - 1;
    TopGrounded(all, tops[n]);
    if i == n {
      PreorderHolds(all, tops[n], a);
    } else {
      PreordersHold(all, tops[..n], i, a);
    }
  }
}
