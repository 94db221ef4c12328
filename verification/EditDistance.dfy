/**
 The normalised edit distance of the OCR evaluator (benchmark/ocr/eval_utils.py).

 `Lev` is the textbook recurrence: a three-way minimum at every pair of prefixes.
 `EditCount` is the evaluator's one-row in-place loop, which takes the diagonal without a
 minimum when the characters match.  The lemmas tie both to the definition a user has in
 mind: the fewest single-character edits, at any positions, that turn one string into the other.
 */
module EditDistance {
  import opened Arithmetic

  // ---------- Edits at arbitrary positions ----------

  datatype Edit = Insert(at: nat, c: char) | Delete(at: nat) | Substitute(at: nat, c: char)

  predicate Applicable(s: string, e: Edit) {
    if e.Insert? then e.at <= |s| else e.at < |s|
  }

  function Apply(s: string, e: Edit): string
    requires Applicable(s, e)
  {
    match e
    case Insert(at, c) => s[..at] + [c] + s[at..]
    case Delete(at) => s[..at] + s[at + 1..]
    case Substitute(at, c) => s[..at] + [c] + s[at + 1..]
  }

  /** `script`, applied from left to right, turns `a` into `b`. */
  predicate Turns(a: string, script: seq<Edit>, b: string)
    decreases |script|
  {
    if script == [] then a == b
    else Applicable(a, script[0]) && Turns(Apply(a, script[0]), script[1..], b)
  }

  // ---------- The recurrence ----------

  function Init(s: string): string
    requires s != []
  {
    s[..|s| - 1]
  }

  function Last(s: string): char
    requires s != []
  {
    s[|s| - 1]
  }

  function Mismatch(x: char, y: char): nat { if x == y then 0 else 1 }

  function Lev(a: string, b: string): nat
    decreases |a| + |b|
  {
    if a == [] then |b|
    else if b == [] then |a|
    else
      Min(Lev(Init(a), Init(b)) + Mismatch(Last(a), Last(b)),
          1 + Min(Lev(Init(a), b), Lev(a, Init(b))))
  }

  // ---------- Metric laws ----------

  lemma {:induction false} LevBounds(a: string, b: string)
    ensures |a| - |b| <= Lev(a, b)
    ensures |b| - |a| <= Lev(a, b)
    ensures Lev(a, b) <= Max(|a|, |b|)
    decreases |a| + |b|
  {
    if a != [] && b != [] {
      LevBounds(Init(a), Init(b));
      LevBounds(Init(a), b);
      LevBounds(a, Init(b));
    }
  }

  lemma {:induction false} LevSymmetric(a: string, b: string)
    ensures Lev(a, b) == Lev(b, a)
    decreases |a| + |b|
  {
    if a != [] && b != [] {
      LevSymmetric(Init(a), Init(b));
      LevSymmetric(Init(a), b);
      LevSymmetric(a, Init(b));
    }
  }

  lemma {:induction false} LevZero(a: string, b: string)
    ensures Lev(a, b) == 0 <==> a == b
    decreases |a| + |b|
  {
    LevBounds(a, b);
    if a != [] && b != [] {
      LevZero(Init(a), Init(b));
      assert a == Init(a) + [Last(a)] && b == Init(b) + [Last(b)];
    }
  }

  lemma {:induction false} LevTriangle(a: string, b: string, c: string)
    ensures Lev(a, c) <= Lev(a, b) + Lev(b, c)
    decreases |a| + |b| + |c|
  {
    LevBounds(a, b);
    LevBounds(b, c);
    LevBounds(a, c);
    if a != [] && b != [] && c != [] {
      LevTriangle(Init(a), b, c);
      LevTriangle(a, b, Init(c));
      LevTriangle(a, Init(b), c);
      LevTriangle(a, Init(b), Init(c));
      LevTriangle(Init(a), Init(b), c);
      LevTriangle(Init(a), Init(b), Init(c));
    }
  }

  // ---------- Taking the diagonal on a match loses nothing ----------

  lemma OneMore(a: string, x: char)
    ensures Lev(a, a + [x]) == 1 == Lev(a + [x], a)
  {
    LevZero(a, a);
    LevBounds(a, a + [x]);
    assert Init(a + [x]) == a;
    LevSymmetric(a, a + [x]);
  }

  /** Adjacent cells of the table differ by at most one. */
  lemma AdjacentCells(a: string, b: string)
    requires b != []
    ensures Lev(a, Init(b)) - 1 <= Lev(a, b) <= Lev(a, Init(b)) + 1
  {
    assert Init(b) + [Last(b)] == b;
    OneMore(Init(b), Last(b));
    LevTriangle(a, Init(b), b);
    LevTriangle(a, b, Init(b));
  }

  lemma MatchTakesDiagonal(a: string, b: string)
    requires a != [] && b != [] && Last(a) == Last(b)
    ensures Lev(a, b) == Lev(Init(a), Init(b))
  {
    AdjacentCells(Init(a), b);
    AdjacentCells(Init(b), a);
    LevSymmetric(Init(b), Init(a));
    LevSymmetric(Init(b), a);
  }

  // ---------- Lev is the least number of edits ----------

  lemma MatchStep(a: string, b: string)
    requires a != [] && b != [] && Last(a) == Last(b)
    ensures Lev(a, b) <= Lev(Init(a), Init(b))
  {
  }

  lemma {:induction false} CommonSuffix(a: string, b: string, w: string)
    ensures Lev(a + w, b + w) <= Lev(a, b)
    decreases |w|
  {
    hide Lev;
    if w == [] {
      assert a + w == a && b + w == b;
    } else {
      CommonSuffix(a, b, Init(w));
      assert Init(a + w) == a + Init(w) && Init(b + w) == b + Init(w);
      MatchStep(a + w, b + w);
    }
  }

  lemma DiagonalStep(a: string, b: string)
    requires a != [] && b != []
    ensures Lev(a, b) <= Lev(Init(a), Init(b)) + 1
  {
  }

  /** One character in place of another, of none, or none in place of one. */
  lemma OneEditAtEnd(p: string, x: string, y: string)
    requires |x| <= 1 && |y| <= 1
    ensures Lev(p + x, p + y) <= 1
  {
    LevZero(p, p);
    if x == [] && y == [] {
      assert p + x == p;
    } else if x == [] {
      assert p + x == p && y == [y[0]];
      OneMore(p, y[0]);
    } else if y == [] {
      assert p + y == p && x == [x[0]];
      OneMore(p, x[0]);
    } else {
      assert Init(p + x) == p == Init(p + y);
      DiagonalStep(p + x, p + y);
    }
  }

  /** What an edit takes out, and what it puts in. */
  function Removed(s: string, e: Edit): string
    requires Applicable(s, e)
  {
    if e.Insert? then [] else [s[e.at]]
  }

  function Added(e: Edit): string {
    if e.Delete? then [] else [e.c]
  }

  lemma EditSplits(s: string, e: Edit)
    requires Applicable(s, e)
    ensures e.at + |Removed(s, e)| <= |s|
    ensures s == s[..e.at] + Removed(s, e) + s[e.at + |Removed(s, e)|..]
    ensures Apply(s, e) == s[..e.at] + Added(e) + s[e.at + |Removed(s, e)|..]
  {
    if e.Insert? {
      assert s == s[..e.at] + [] + s[e.at..];
    } else if e.Delete? {
      assert s[..e.at] + [] == s[..e.at];
    }
  }

  lemma OneEdit(s: string, e: Edit)
    requires Applicable(s, e)
    ensures Lev(s, Apply(s, e)) <= 1
  {
    hide Lev, Apply, Applicable, Removed, Added;
    EditSplits(s, e);
    var x, y, w := Removed(s, e), Added(e), s[e.at + |Removed(s, e)|..];
    ShortParts(s, e);
    OneEditAtEnd(s[..e.at], x, y);
    CommonSuffix(s[..e.at] + x, s[..e.at] + y, w);
  }

  lemma ShortParts(s: string, e: Edit)
    requires Applicable(s, e)
    ensures |Removed(s, e)| <= 1 && |Added(e)| <= 1
  {
  }

  /** No script beats the recurrence. */
  lemma {:induction false} NoShorterScript(a: string, script: seq<Edit>, b: string)
    requires Turns(a, script, b)
    ensures Lev(a, b) <= |script|
    decreases |script|
  {
    if script == [] {
      LevZero(a, b);
    } else {
      var next := Apply(a, script[0]);
      OneEdit(a, script[0]);
      NoShorterScript(next, script[1..], b);
      LevTriangle(a, next, b);
    }
  }

  lemma ApplyPrefix(a: string, e: Edit, w: string)
    requires Applicable(a, e)
    ensures Applicable(a + w, e) && Apply(a + w, e) == Apply(a, e) + w
  {
    assert (a + w)[..e.at] == a[..e.at];
    if e.Insert? {
      assert (a + w)[e.at..] == a[e.at..] + w;
    } else {
      assert (a + w)[e.at + 1..] == a[e.at + 1..] + w;
    }
  }

  /** Edits of a prefix leave what follows it alone. */
  lemma {:induction false} TurnsPrefix(a: string, script: seq<Edit>, b: string, w: string)
    requires Turns(a, script, b)
    ensures Turns(a + w, script, b + w)
    decreases |script|
  {
    if script != [] {
      TurnsPrefix(Apply(a, script[0]), script[1..], b, w);
      ApplyPrefix(a, script[0], w);
    }
  }

  lemma {:induction false} TurnsThen(a: string, script: seq<Edit>, b: string, e: Edit)
    requires Turns(a, script, b) && Applicable(b, e)
    ensures Turns(a, script + [e], Apply(b, e))
    decreases |script|
  {
    if script == [] {
      assert Turns(Apply(b, e), [], Apply(b, e));
    } else {
      TurnsThen(Apply(a, script[0]), script[1..], b, e);
      assert (script + [e])[1..] == script[1..] + [e];
    }
  }

  lemma {:induction false} DeleteAll(a: string) returns (script: seq<Edit>)
    ensures Turns(a, script, []) && |script| == |a|
  {
    script := [];
    if a != [] {
      var rest := DeleteAll(a[1..]);
      script := [Delete(0)] + rest;
      assert Apply(a, Delete(0)) == a[1..];
    }
  }

  lemma {:induction false} InsertAll(b: string) returns (script: seq<Edit>)
    ensures Turns([], script, b) && |script| == |b|
  {
    script := [];
    if b != [] {
      var rest := InsertAll(Init(b));
      TurnsThen([], rest, Init(b), Insert(|b| - 1, Last(b)));
      script := rest + [Insert(|b| - 1, Last(b))];
      assert Apply(Init(b), Insert(|b| - 1, Last(b))) == b;
    }
  }

  lemma {:induction false} AchievingScript(a: string, b: string) returns (script: seq<Edit>)
    ensures Turns(a, script, b) && |script| == Lev(a, b)
    decreases |a| + |b|
  {
    if a == [] {
      script := InsertAll(b);
    } else if b == [] {
      script := DeleteAll(a);
    } else {
      assert a == Init(a) + [Last(a)] && b == Init(b) + [Last(b)];
      if Lev(a, b) == Lev(Init(a), Init(b)) + Mismatch(Last(a), Last(b)) {
        script := AchievingScript(Init(a), Init(b));
        TurnsPrefix(Init(a), script, Init(b), [Last(a)]);
        if Last(a) != Last(b) {
          var e := Substitute(|b| - 1, Last(b));
          assert Apply(Init(b) + [Last(a)], e) == b;
          TurnsThen(a, script, Init(b) + [Last(a)], e);
          script := script + [e];
        }
      } else if Lev(a, b) == 1 + Lev(Init(a), b) {
        script := AchievingScript(Init(a), b);
        TurnsPrefix(Init(a), script, b, [Last(a)]);
        assert Apply(b + [Last(a)], Delete(|b|)) == b;
        TurnsThen(a, script, b + [Last(a)], Delete(|b|));
        script := script + [Delete(|b|)];
      } else {
        script := AchievingScript(a, Init(b));
        var e := Insert(|b| - 1, Last(b));
        assert Apply(Init(b), e) == b;
        TurnsThen(a, script, Init(b), e);
        script := script + [e];
      }
    }
  }

  // ---------- The evaluator's loop ----------

  /** `count` is the least number of single-character edits that turn `a` into `b`. */
  ghost predicate LeastEdits(a: string, b: string, count: nat) {
    && (exists script :: Turns(a, script, b) && |script| == count)
    && (forall script :: Turns(a, script, b) ==> count <= |script|)
  }

  lemma LevIsLeastEdits(a: string, b: string)
    ensures LeastEdits(a, b, Lev(a, b))
  {
    forall script | Turns(a, script, b) ensures Lev(a, b) <= |script| {
      NoShorterScript(a, script, b);
    }
    var _ := AchievingScript(a, b);
  }

  /** Row `i` of the table, up to column `n`. */
  function Cell(pred: string, ref: string, i: nat, j: nat): nat
    requires i <= |pred| && j <= |ref|
  {
    Lev(pred[..i], ref[..j])
  }

  lemma CellEdges(pred: string, ref: string, i: nat, j: nat)
    requires i <= |pred| && j <= |ref|
    ensures Cell(pred, ref, i, 0) == i && Cell(pred, ref, 0, j) == j
  {
  }

  /** How the loop fills a cell from its three neighbours. */
  lemma CellStep(pred: string, ref: string, i: nat, j: nat)
    requires 0 < i <= |pred| && 0 < j <= |ref|
    ensures Cell(pred, ref, i, j) ==
            if pred[i - 1] == ref[j - 1] then Cell(pred, ref, i - 1, j - 1)
            else 1 + Min(Cell(pred, ref, i - 1, j - 1), Min(Cell(pred, ref, i - 1, j), Cell(pred, ref, i, j - 1)))
  {
    assert Init(pred[..i]) == pred[..i - 1] && Init(ref[..j]) == ref[..j - 1];
    if pred[i - 1] == ref[j - 1] {
      MatchTakesDiagonal(pred[..i], ref[..j]);
    }
  }

  lemma LastCell(pred: string, ref: string)
    ensures Cell(pred, ref, |pred|, |ref|) == Lev(pred, ref)
  {
    assert pred[..|pred|] == pred && ref[..|ref|] == ref;
  }

  /** The one-row table: the least number of edits turning `pred` into `ref`. */
  method EditCount(pred: string, ref: string) returns (count: nat)
    ensures LeastEdits(pred, ref, count)
    ensures count == Lev(pred, ref)
  {
    hide Cell;
    var m, n := |pred|, |ref|;
    forall j | 0 <= j <= n ensures Cell(pred, ref, 0, j) == j {
      CellEdges(pred, ref, 0, j);
    }
    var dp := new nat[n + 1](j => j);
    for i := 1 to m + 1
      invariant forall j :: 0 <= j <= n ==> dp[j] == Cell(pred, ref, i - 1, j)
    {
      CellEdges(pred, ref, i, 0);
      var prev := dp[0];
      dp[0] := i;
      for j := 1 to n + 1
        invariant prev == Cell(pred, ref, i - 1, j - 1)
        invariant forall k :: 0 <= k < j ==> dp[k] == Cell(pred, ref, i, k)
        invariant forall k :: j <= k <= n ==> dp[k] == Cell(pred, ref, i - 1, k)
      {
        var temp := dp[j];
        CellStep(pred, ref, i, j);
        if pred[i - 1] == ref[j - 1] {
          dp[j] := prev;
        } else {
          dp[j] := 1 + Min(prev, Min(dp[j], dp[j - 1]));
        }
        prev := temp;
      }
    }
    count := dp[n];
    LastCell(pred, ref);
    LevIsLeastEdits(pred, ref);
  }

  /** What both the early exits and the division compute. */
  function Ratio(p: string, r: string): real {
    if p == [] && r == [] then 0.0 else Lev(p, r) as real / Max(|p|, |r|) as real
  }

  lemma QuotientLaws(n: nat, d: nat)
    requires n <= d && 0 < d
    ensures 0.0 <= n as real / d as real <= 1.0
    ensures n as real / d as real == 0.0 <==> n == 0
    ensures n == d ==> n as real / d as real == 1.0
  {
  }

  lemma RatioLaws(p: string, r: string)
    ensures 0.0 <= Ratio(p, r) <= 1.0
    ensures Ratio(p, r) == 0.0 <==> p == r
    ensures (p == []) != (r == []) ==> Ratio(p, r) == 1.0
  {
    LevBounds(p, r);
    LevZero(p, r);
    if p != [] || r != [] {
      QuotientLaws(Lev(p, r), Max(|p|, |r|));
    }
  }

  /** The distance times the longer length is the least number of edits; nothing is at distance 0 from nothing. */
  ghost predicate IsNormalized(p: string, r: string, distance: real) {
    && (p == [] && r == [] ==> distance == 0.0)
    && exists count: nat :: LeastEdits(p, r, count)
                            && distance * (if |p| >= |r| then |p| else |r|) as real == count as real
  }

  lemma RatioIsNormalized(p: string, r: string)
    ensures IsNormalized(p, r, Ratio(p, r))
  {
    LevIsLeastEdits(p, r);
    LevBounds(p, r);
    hide LeastEdits, Lev;
    if p != [] || r != [] {
      QuotientTimes(Lev(p, r) as real, Max(|p|, |r|) as real);
    }
    assert LeastEdits(p, r, Lev(p, r));
  }

  /** `clean` stands for stripping blanks and the Unicode normalisation. */
  method NormalizedEditDistance(pred: string, ref: string, clean: string -> string)
    returns (distance: real)
    ensures IsNormalized(clean(pred), clean(ref), distance)
    ensures distance == Ratio(clean(pred), clean(ref))
    ensures 0.0 <= distance <= 1.0
    ensures distance == 0.0 <==> clean(pred) == clean(ref)
  {
    var p, r := clean(pred), clean(ref);
    RatioLaws(p, r);
    RatioIsNormalized(p, r);
    hide IsNormalized;
    if r == [] && p == [] {
      return 0.0;
    }
    if r == [] || p == [] {
      return 1.0;
    }
    var count := EditCount(p, r);
    distance := count as real / Max(|p|, |r|) as real;
  }
}
