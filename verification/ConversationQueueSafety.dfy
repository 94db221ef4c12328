/**
 What every run of the multi-turn serving benchmark keeps (benchmark/hicache/bench_serving.py):
 one place per conversation, room in the queue, turns in order, and exact books.
 */
module ConversationQueueSafety {
  import opened Census
  import opened ConversationQueue

  // ---------- Places ----------

  lemma DispatchKeepsPlaces(cfg: Config, s: State, c: nat)
    requires Enabled(cfg, s, Dispatch)
    ensures Places(Next(cfg, s, Dispatch), c) == Places(s, c)
  {
    hide Times;
    TimesFirst(c, s.queue);
    TimesAdded(c, s.waiting, s.queue[0]);
  }

  lemma BeginKeepsPlaces(cfg: Config, s: State, i: nat, c: nat)
    requires Enabled(cfg, s, Begin(i))
    ensures Places(Next(cfg, s, Begin(i)), c) == Places(s, c)
  {
    hide Times;
    TimesRemoved(c, s.waiting, i);
    TimesAdded(c, s.running, s.waiting[i]);
  }

  lemma EndKeepsPlaces(cfg: Config, s: State, step: Step, c: nat)
    requires Enabled(cfg, s, step) && (step.Succeed? || step.Fail?)
    ensures Places(Next(cfg, s, step), c) == Places(s, c)
  {
    hide Times;
    var d := s.running[step.index];
    TimesRemoved(c, s.running, step.index);
    TimesAdded(c, s.queue, d);
    TimesAdded(c, s.done, d);
    TimesAdded(c, s.blocked, d);
    TimesAdded(c, s.failed, d);
  }

  lemma OnePlaceKept(cfg: Config, s: State, step: Step)
    requires Enabled(cfg, s, step) && OnePlace(|cfg.prompts|, s)
    ensures OnePlace(|cfg.prompts|, Next(cfg, s, step))
  {
    forall c: nat ensures Places(Next(cfg, s, step), c) == Places(s, c) {
      hide Places, Next;
      match step
      case Dispatch => DispatchKeepsPlaces(cfg, s, c);
      case GiveUp => GiveUpKeepsPlaces(cfg, s, c);
      case Begin(i) => BeginKeepsPlaces(cfg, s, i, c);
      case _ => EndKeepsPlaces(cfg, s, step, c);
    }
  }

  lemma GiveUpKeepsPlaces(cfg: Config, s: State, c: nat)
    requires Enabled(cfg, s, GiveUp)
    ensures Places(Next(cfg, s, GiveUp), c) == Places(s, c)
  {
  }

  lemma PlacedIsConv(n: nat, s: State, c: nat)
    requires OnePlace(n, s)
    requires c in s.queue || c in s.waiting || c in s.running || c in s.blocked || c in s.done || c in s.failed
    ensures c < n
  {
    assert Places(s, c) == if c < n then 1 else 0;
  }

  lemma RunningOnly(n: nat, s: State, c: nat)
    requires OnePlace(n, s) && c in s.running
    ensures c !in s.queue && c !in s.waiting && c !in s.blocked && c !in s.done && c !in s.failed
    ensures Times(c, s.running) == 1
  {
    assert Places(s, c) == if c < n then 1 else 0;
  }

  lemma WaitingOnly(n: nat, s: State, c: nat)
    requires OnePlace(n, s) && c in s.waiting
    ensures c !in s.queue && c !in s.running && c !in s.blocked && c !in s.done && c !in s.failed
    ensures Times(c, s.waiting) == 1
  {
    assert Places(s, c) == if c < n then 1 else 0;
  }

  lemma RemovedIsGone(xs: seq<nat>, i: nat)
    requires i < |xs| && Times(xs[i], xs) == 1
    ensures xs[i] !in RemoveAt(xs, i)
    ensures forall x :: x in RemoveAt(xs, i) ==> x in xs
  {
    TimesRemoved(xs[i], xs, i);
  }

  /** While a conversation is running, the queue has room for it. */
  lemma QueueHasRoom(n: nat, s: State, c: nat)
    requires OnePlace(n, s) && c in s.running
    ensures |s.queue| < n
  {
    PlacedIsConv(n, s, c);
    RunningOnly(n, s, c);
    forall d: nat ensures Times(d, s.queue) <= 1 {
      assert Places(s, d) <= 1;
    }
    OnceIsDistinct(s.queue);
    DistinctSize(s.queue);
    forall d | d in Elements(s.queue) + {c} ensures d < n {
      if d in s.queue {
        PlacedIsConv(n, s, d);
      }
    }
    BoundedSet(Elements(s.queue) + {c}, n);
  }

  // ---------- Conversations ----------

  lemma BeginAlternates(v: Conv)
    requires Alternates(v) && v.finished < |v.prompts| && |v.messages| == 2 * v.finished
    ensures Alternates(BeginConv(v)) && Begun(BeginConv(v)) == Begun(v) + 1 == v.finished + 1
  {
  }

  lemma FinishAlternates(v: Conv, text: string, tokens: nat)
    requires Alternates(v) && v.finished < |v.prompts| && |v.messages| == 2 * v.finished + 1
    ensures Alternates(FinishConv(v, text, tokens)) && Begun(FinishConv(v, text, tokens)) == Begun(v)
  {
  }

  lemma DispatchKeepsConv(cfg: Config, s: State, step: Step, c: nat)
    requires c < |cfg.prompts| == |s.convs| && ConvOk(cfg, s, c) && Enabled(cfg, s, step)
    requires step.Dispatch? || step.GiveUp?
    ensures ConvOk(cfg, Next(cfg, s, step), c)
  {
  }

  lemma BeginKeepsConv(cfg: Config, s: State, i: nat, c: nat)
    requires c < |cfg.prompts| && Inv(cfg, s) && Enabled(cfg, s, Begin(i))
    ensures ConvOk(cfg, Next(cfg, s, Begin(i)), c)
  {
    var d := s.waiting[i];
    WaitingOnly(|cfg.prompts|, s, d);
    RemovedIsGone(s.waiting, i);
    assert ConvOk(cfg, s, c);
    if c == d {
      BeginAlternates(s.convs[c]);
    }
  }

  lemma FailKeepsConv(cfg: Config, s: State, i: nat, c: nat)
    requires c < |cfg.prompts| && Inv(cfg, s) && Enabled(cfg, s, Fail(i))
    ensures ConvOk(cfg, Next(cfg, s, Fail(i)), c)
  {
    RunningOnly(|cfg.prompts|, s, s.running[i]);
    RemovedIsGone(s.running, i);
    assert ConvOk(cfg, s, c);
    hide Alternates, SamePrompts;
  }

  lemma FinishKeepsPrompts(ps: seq<Prompt>, v: Conv, text: string, tokens: nat)
    requires SamePrompts(ps, v.prompts) && v.finished < |v.prompts|
    ensures SamePrompts(ps, FinishConv(v, text, tokens).prompts)
    ensures FinishConv(v, text, tokens).finished < |FinishConv(v, text, tokens).prompts|
  {
  }

  /** The conversation that succeeds is where its turns say, and no other has moved. */
  lemma SucceedMoves(cfg: Config, s: State, step: Step, c: nat)
    requires OnePlace(|cfg.prompts|, s) && step.Succeed? && Enabled(cfg, s, step)
    ensures var d, t := s.running[step.index], Next(cfg, s, step);
            && (c != d ==> (c in t.queue ==> c in s.queue) && (c in t.blocked ==> c in s.blocked)
                           && (c in t.running ==> c in s.running) && (c in t.done ==> c in s.done))
            && (c == d ==> c !in t.running && c !in t.waiting && c !in t.failed
                           && (c in t.done <==> s.convs[d].finished + 1 == |s.convs[d].prompts|)
                           && (c in t.queue || c in t.blocked ==> s.convs[d].finished + 1 < |s.convs[d].prompts|))
            && t.waiting == s.waiting && t.failed == s.failed
            && t.convs == s.convs[d := FinishConv(s.convs[d], step.text, step.tokens)]
  {
    RunningOnly(|cfg.prompts|, s, s.running[step.index]);
    RemovedIsGone(s.running, step.index);
    hide OnePlace, FinishConv;
  }

  lemma SucceedKeepsConv(cfg: Config, s: State, step: Step, c: nat)
    requires c < |cfg.prompts| && Inv(cfg, s) && step.Succeed? && Enabled(cfg, s, step)
    ensures ConvOk(cfg, Next(cfg, s, step), c)
  {
    assert ConvOk(cfg, s, c);
    SucceedMoves(cfg, s, step, c);
    hide Alternates, SamePrompts, OnePlace, Convs, Books, LogOk, Next;
    if c == s.running[step.index] {
      assert c in s.running;
      FinishAlternates(s.convs[c], step.text, step.tokens);
      FinishKeepsPrompts(cfg.prompts[c], s.convs[c], step.text, step.tokens);
    }
  }

  lemma ConvsKept(cfg: Config, s: State, step: Step)
    requires Inv(cfg, s) && Enabled(cfg, s, step)
    ensures Convs(cfg, Next(cfg, s, step))
  {
    hide ConvOk, OnePlace, LogOk, Books;
    forall c | 0 <= c < |cfg.prompts| ensures ConvOk(cfg, Next(cfg, s, step), c) {
      match step
      case Begin(i) => BeginKeepsConv(cfg, s, i, c);
      case Succeed(_, _, _) => SucceedKeepsConv(cfg, s, step, c);
      case Fail(i) => FailKeepsConv(cfg, s, i, c);
      case _ => DispatchKeepsConv(cfg, s, step, c);
    }
  }

  // ---------- The log ----------

  lemma TurnsOfThen(log: seq<Sent>, e: Sent, c: nat)
    ensures TurnsOf(log + [e], c) == TurnsOf(log, c) + if e.conv == c then [e.turn] else []
  {
    assert (log + [e])[..|log|] == log;
  }

  lemma {:induction false} TurnTokensSame(ps: seq<Prompt>, qs: seq<Prompt>, k: nat)
    requires k <= |ps| && k <= |qs| && forall i :: 0 <= i < k ==> ps[i] == qs[i]
    ensures TurnTokens(ps, k) == TurnTokens(qs, k)
    decreases k
  {
    if k > 0 {
      TurnTokensSame(ps, qs, k - 1);
    }
  }

  lemma BeginKeepsEntry(convs: seq<Conv>, c: nat, e: Sent)
    requires c < |convs| && convs[c].finished < |convs[c].prompts| && EntryOk(convs, e)
    requires |convs[c].messages| == 2 * convs[c].finished
    ensures EntryOk(convs[c := BeginConv(convs[c])], e)
  {
  }

  lemma BeginBegun(v: Conv)
    requires v.finished < |v.prompts| && |v.messages| == 2 * v.finished
    ensures Begun(v) == v.finished && Begun(BeginConv(v)) == v.finished + 1
    ensures UpTo(v.finished + 1) == UpTo(v.finished) + [v.finished]
  {
  }

  lemma BeginFits(convs: seq<Conv>, log: seq<Sent>, c: nat)
    requires LogFits(convs, log) && c < |convs| && convs[c].finished < |convs[c].prompts|
    requires |convs[c].messages| == 2 * convs[c].finished
    ensures var v := convs[c];
            LogFits(convs[c := BeginConv(v)],
                    log + [Sent(c, v.finished, TurnTokens(v.prompts, v.finished) + v.prompts[v.finished].inputLen)])
  {
    var v := convs[c];
    var e := Sent(c, v.finished, TurnTokens(v.prompts, v.finished) + v.prompts[v.finished].inputLen);
    var after := convs[c := BeginConv(v)];
    assert EntryOk(after, e);
    BeginBegun(v);
    hide TurnTokens, TurnsOf, EntryOk, BeginConv, Begun;
    forall d | 0 <= d < |convs| ensures TurnsOf(log + [e], d) == UpTo(Begun(after[d])) {
      TurnsOfThen(log, e, d);
    }
    forall k | 0 <= k < |log| ensures EntryOk(after, log[k]) {
      BeginKeepsEntry(convs, c, log[k]);
    }
  }

  /** A conversation that is waiting to begin, or running, is ready for it. */
  lemma WaitingReady(cfg: Config, s: State, c: nat)
    requires Inv(cfg, s) && (c in s.waiting || c in s.running)
    ensures c < |s.convs| == |cfg.prompts| && s.convs[c].finished < |s.convs[c].prompts| && Alternates(s.convs[c])
    ensures |s.convs[c].messages| == 2 * s.convs[c].finished + if c in s.waiting then 0 else 1
  {
    PlacedIsConv(|cfg.prompts|, s, c);
    assert ConvOk(cfg, s, c);
  }

  lemma BeginKeepsLog(cfg: Config, s: State, i: nat)
    requires Inv(cfg, s) && Enabled(cfg, s, Begin(i))
    ensures LogOk(Next(cfg, s, Begin(i)))
  {
    hide OnePlace, Convs, Books, LogFits;
    WaitingReady(cfg, s, s.waiting[i]);
    BeginFits(s.convs, s.log, s.waiting[i]);
  }

  lemma FinishKeepsEntry(convs: seq<Conv>, c: nat, text: string, tokens: nat, e: Sent)
    requires c < |convs| && convs[c].finished < |convs[c].prompts| && EntryOk(convs, e)
    requires |convs[c].messages| == 2 * convs[c].finished + 1
    ensures EntryOk(convs[c := FinishConv(convs[c], text, tokens)], e)
  {
    if e.conv == c {
      TurnTokensSame(convs[c].prompts, FinishConv(convs[c], text, tokens).prompts, e.turn);
    }
  }

  lemma FinishFits(convs: seq<Conv>, log: seq<Sent>, c: nat, text: string, tokens: nat)
    requires LogFits(convs, log) && c < |convs| && convs[c].finished < |convs[c].prompts|
    requires |convs[c].messages| == 2 * convs[c].finished + 1
    ensures LogFits(convs[c := FinishConv(convs[c], text, tokens)], log)
  {
    forall k | 0 <= k < |log| ensures EntryOk(convs[c := FinishConv(convs[c], text, tokens)], log[k]) {
      FinishKeepsEntry(convs, c, text, tokens, log[k]);
    }
  }

  lemma SucceedKeepsLog(cfg: Config, s: State, step: Step)
    requires Inv(cfg, s) && step.Succeed? && Enabled(cfg, s, step)
    ensures LogOk(Next(cfg, s, step))
  {
    var d := s.running[step.index];
    WaitingReady(cfg, s, d);
    RunningOnly(|cfg.prompts|, s, d);
    hide OnePlace, Convs, Books, LogFits;
    FinishFits(s.convs, s.log, d, step.text, step.tokens);
  }

  lemma LogKept(cfg: Config, s: State, step: Step)
    requires Inv(cfg, s) && Enabled(cfg, s, step)
    ensures LogOk(Next(cfg, s, step))
  {
    match step
    case Begin(i) => BeginKeepsLog(cfg, s, i);
    case Succeed(_, _, _) => SucceedKeepsLog(cfg, s, step);
    case _ =>
  }

  // ---------- The books ----------

  lemma {:induction false} SumBegunUpdate(convs: seq<Conv>, c: nat, v: Conv)
    requires c < |convs|
    ensures SumBegun(convs[c := v]) == SumBegun(convs) - Begun(convs[c]) + Begun(v)
    decreases |convs|
  {
    if c > 0 {
      SumBegunUpdate(convs[1..], c - 1, v);
      assert convs[c := v][1..] == convs[1..][c - 1 := v];
    } else {
      assert convs[c := v][1..] == convs[1..];
    }
  }

  lemma BeginKeepsBooks(cfg: Config, s: State, i: nat)
    requires Inv(cfg, s) && Enabled(cfg, s, Begin(i))
    ensures Books(cfg, Next(cfg, s, Begin(i)))
  {
    var d := s.waiting[i];
    assert ConvOk(cfg, s, d);
    BeginAlternates(s.convs[d]);
    hide OnePlace, Convs, LogOk, Alternates;
    SumBegunUpdate(s.convs, d, BeginConv(s.convs[d]));
  }

  lemma SucceedKeepsBooks(cfg: Config, s: State, step: Step)
    requires Inv(cfg, s) && step.Succeed? && Enabled(cfg, s, step)
    ensures Books(cfg, Next(cfg, s, step))
  {
    var d := s.running[step.index];
    assert ConvOk(cfg, s, d);
    FinishAlternates(s.convs[d], step.text, step.tokens);
    QueueHasRoom(|cfg.prompts|, s, d);
    hide OnePlace, Convs, LogOk, Alternates;
    SumBegunUpdate(s.convs, d, FinishConv(s.convs[d], step.text, step.tokens));
  }

  lemma BooksKept(cfg: Config, s: State, step: Step)
    requires Inv(cfg, s) && Enabled(cfg, s, step)
    ensures Books(cfg, Next(cfg, s, step))
  {
    hide OnePlace, Convs, LogOk;
    match step
    case Begin(i) => BeginKeepsBooks(cfg, s, i);
    case Succeed(_, _, _) => SucceedKeepsBooks(cfg, s, step);
    case _ =>
  }

  // ---------- Every run ----------

  lemma InvKept(cfg: Config, s: State, step: Step)
    requires Inv(cfg, s) && Enabled(cfg, s, step)
    ensures Inv(cfg, Next(cfg, s, step))
  {
    hide OnePlace, Convs, LogOk, Books, Next;
    OnePlaceKept(cfg, s, step);
    ConvsKept(cfg, s, step);
    LogKept(cfg, s, step);
    BooksKept(cfg, s, step);
  }

  lemma {:induction false} NothingBegun(convs: seq<Conv>)
    requires forall c :: 0 <= c < |convs| ==> convs[c].messages == []
    ensures SumBegun(convs) == 0
    decreases |convs|
  {
    if convs != [] {
      NothingBegun(convs[1..]);
    }
  }

  lemma InitialInv(cfg: Config)
    requires ValidConfig(cfg)
    ensures Inv(cfg, Initial(cfg))
  {
    var s := Initial(cfg);
    forall c: nat ensures Places(s, c) == if c < |cfg.prompts| then 1 else 0 {
      TimesUpTo(|cfg.prompts|, c);
    }
    NothingBegun(s.convs);
  }

  lemma {:induction false} EveryRun(cfg: Config, steps: seq<Step>)
    requires ValidConfig(cfg)
    ensures Inv(cfg, After(cfg, steps))
    decreases |steps|
  {
    hide Inv;
    if steps == [] {
      InitialInv(cfg);
    } else {
      var n := |steps| - 1;
      EveryRun(cfg, steps[..n]);
      if Enabled(cfg, After(cfg, steps[..n]), steps[n]) {
        InvKept(cfg, After(cfg, steps[..n]), steps[n]);
      }
    }
  }

  // ---------- The promises ----------

  /** A put never blocks, and the queue stays within its capacity. */
  lemma PutsNeverBlock(cfg: Config, steps: seq<Step>)
    requires ValidConfig(cfg)
    ensures After(cfg, steps).blocked == []
    ensures |After(cfg, steps).queue| <= |cfg.prompts|
  {
    var s, n := After(cfg, steps), |cfg.prompts|;
    EveryRun(cfg, steps);
    forall d: nat ensures Times(d, s.queue) <= 1 {
      assert Places(s, d) <= 1;
    }
    OnceIsDistinct(s.queue);
    DistinctSize(s.queue);
    forall d | d in Elements(s.queue) ensures d < n {
      PlacedIsConv(n, s, d);
    }
    BoundedSet(Elements(s.queue), n);
  }

  /** The turns of a conversation are sent in order, each once; its messages alternate. */
  lemma TurnsInOrder(cfg: Config, steps: seq<Step>, c: nat)
    requires ValidConfig(cfg) && c < |cfg.prompts|
    ensures |After(cfg, steps).convs| == |cfg.prompts|
    ensures exists k :: 0 <= k <= |cfg.prompts[c]| && TurnsOf(After(cfg, steps).log, c) == UpTo(k)
    ensures Alternates(After(cfg, steps).convs[c])
    ensures SamePrompts(cfg.prompts[c], After(cfg, steps).convs[c].prompts)
  {
    var s := After(cfg, steps);
    EveryRun(cfg, steps);
    assert ConvOk(cfg, s, c);
    BegunAtMostAll(cfg, s, c);
    assert TurnsOf(s.log, c) == UpTo(Begun(s.convs[c]));
  }

  /** Every request is booked with the tokens of all turns before it, as generated, and its own input. */
  lemma ContextBooked(cfg: Config, steps: seq<Step>, k: nat)
    requires ValidConfig(cfg) && k < |After(cfg, steps).log|
    ensures var e := After(cfg, steps).log[k];
            && e.conv < |After(cfg, steps).convs|
            && var v := After(cfg, steps).convs[e.conv];
               && e.turn < |v.prompts|
               && e.promptLen == TurnTokens(v.prompts, e.turn) + v.prompts[e.turn].inputLen
  {
    EveryRun(cfg, steps);
    assert EntryOk(After(cfg, steps).convs, After(cfg, steps).log[k]);
  }

  lemma InSomePlace(cfg: Config, s: State, c: nat)
    requires Inv(cfg, s) && c < |cfg.prompts|
    ensures c in s.queue || c in s.waiting || c in s.running || c in s.done || c in s.failed
  {
    assert Places(s, c) == 1;
  }

  lemma BegunAtMostAll(cfg: Config, s: State, c: nat)
    requires Inv(cfg, s) && c < |cfg.prompts|
    ensures Begun(s.convs[c]) <= |cfg.prompts[c]|
    ensures c in s.queue || c in s.waiting ==> Begun(s.convs[c]) < |cfg.prompts[c]|
    ensures c in s.done ==> Begun(s.convs[c]) == |cfg.prompts[c]|
  {
    assert ConvOk(cfg, s, c);
    InSomePlace(cfg, s, c);
  }

  /** Turns not begun, summed over the conversations from `c` on. */
  function Unbegun(cfg: Config, s: State, c: nat): int
    requires c <= |cfg.prompts| == |s.convs|
    decreases |cfg.prompts| - c
  {
    if c == |cfg.prompts| then 0 else |cfg.prompts[c]| - Begun(s.convs[c]) + Unbegun(cfg, s, c + 1)
  }

  lemma {:induction false} UnbegunIsDifference(cfg: Config, s: State, c: nat)
    requires c <= |cfg.prompts| == |s.convs|
    ensures Unbegun(cfg, s, c) == TotalTurns(cfg.prompts[c..]) - SumBegun(s.convs[c..])
    decreases |cfg.prompts| - c
  {
    if c < |cfg.prompts| {
      UnbegunIsDifference(cfg, s, c + 1);
      assert cfg.prompts[c..][1..] == cfg.prompts[c + 1..] && s.convs[c..][1..] == s.convs[c + 1..];
    }
  }

  /** Conversations from `c` on that are queued or waiting. */
  ghost function Pending(cfg: Config, s: State, c: nat): set<nat> {
    set d | c <= d < |cfg.prompts| && (d in s.queue || d in s.waiting)
  }

  lemma {:induction false} PendingHaveTurns(cfg: Config, s: State, c: nat)
    requires Inv(cfg, s) && c <= |cfg.prompts|
    ensures Unbegun(cfg, s, c) >= |Pending(cfg, s, c)|
    decreases |cfg.prompts| - c
  {
    hide OnePlace, LogOk, Books, ConvOk, Begun;
    if c < |cfg.prompts| {
      PendingHaveTurns(cfg, s, c + 1);
      BegunAtMostAll(cfg, s, c);
      assert Pending(cfg, s, c) ==
             Pending(cfg, s, c + 1) + if c in s.queue || c in s.waiting then {c} else {};
    } else {
      assert Pending(cfg, s, c) == {};
    }
  }

  lemma PendingSize(cfg: Config, s: State)
    requires Inv(cfg, s)
    ensures |Pending(cfg, s, 0)| == |s.queue| + |s.waiting|
  {
    var both := s.queue + s.waiting;
    forall d: nat ensures Times(d, both) <= 1 {
      assert Places(s, d) <= 1;
    }
    OnceIsDistinct(both);
    DistinctSize(both);
    forall d: nat ensures d in Elements(both) <==> d in Pending(cfg, s, 0) {
      if d in both {
        PlacedIsConv(|cfg.prompts|, s, d);
      }
    }
    assert Elements(both) == Pending(cfg, s, 0);
  }

  /** Once all requests are dispatched, the queue is empty: the dispatcher left nothing behind. */
  lemma AllDispatchedLeavesNothing(cfg: Config, steps: seq<Step>)
    requires ValidConfig(cfg) && After(cfg, steps).yielded == TotalTurns(cfg.prompts)
    ensures After(cfg, steps).queue == []
    ensures After(cfg, steps).waiting == [] ==>
              forall c :: 0 <= c < |cfg.prompts| ==> TurnsOf(After(cfg, steps).log, c) == UpTo(|cfg.prompts[c]|)
  {
    var s := After(cfg, steps);
    EveryRun(cfg, steps);
    UnbegunIsDifference(cfg, s, 0);
    PendingHaveTurns(cfg, s, 0);
    PendingSize(cfg, s);
    assert cfg.prompts[0..] == cfg.prompts && s.convs[0..] == s.convs;
    if s.waiting == [] {
      forall c | 0 <= c < |cfg.prompts| ensures TurnsOf(s.log, c) == UpTo(|cfg.prompts[c]|) {
        NoneUnbegun(cfg, s, 0, c);
      }
    }
  }

  lemma {:induction false} UnbegunNonnegative(cfg: Config, s: State, c: nat)
    requires Inv(cfg, s) && c <= |cfg.prompts|
    ensures Unbegun(cfg, s, c) >= 0
    decreases |cfg.prompts| - c
  {
    hide OnePlace, LogOk, Books, ConvOk, Begun;
    if c < |cfg.prompts| {
      UnbegunNonnegative(cfg, s, c + 1);
      BegunAtMostAll(cfg, s, c);
    }
  }

  lemma {:induction false} NoneUnbegun(cfg: Config, s: State, from: nat, c: nat)
    requires Inv(cfg, s) && from <= c < |cfg.prompts| && Unbegun(cfg, s, from) == 0
    ensures Begun(s.convs[c]) == |cfg.prompts[c]|
    decreases c - from
  {
    hide OnePlace, LogOk, Books, ConvOk, Begun;
    BegunAtMostAll(cfg, s, from);
    UnbegunNonnegative(cfg, s, from + 1);
    if from < c {
      NoneUnbegun(cfg, s, from + 1, c);
    }
  }

  // ---------- Completion ----------

  /** No conversation is queued or at work. */
  ghost predicate Quiescent(s: State) {
    s.queue == [] && s.waiting == [] && s.running == []
  }

  /** Every failure hit the last turn of its conversation. */
  ghost predicate OnlyLastTurnsFailed(cfg: Config, s: State) {
    forall c :: c in s.failed ==> c < |cfg.prompts| == |s.convs| && Begun(s.convs[c]) == |cfg.prompts[c]|
  }

  lemma {:induction false} AllBegun(cfg: Config, s: State, c: nat)
    requires Inv(cfg, s) && c <= |cfg.prompts|
    requires forall d :: c <= d < |cfg.prompts| ==> Begun(s.convs[d]) == |cfg.prompts[d]|
    ensures Unbegun(cfg, s, c) == 0
    decreases |cfg.prompts| - c
  {
    hide OnePlace, LogOk, Books, ConvOk, Begun;
    if c < |cfg.prompts| {
      AllBegun(cfg, s, c + 1);
    }
  }

  /** No conversation is at work or about to be: all tasks are over and the dispatcher is done. */
  ghost predicate Ended(cfg: Config, s: State) {
    s.waiting == [] && s.running == [] && (s.stopped || s.yielded == TotalTurns(cfg.prompts))
  }

  lemma QuiescentCount(cfg: Config, s: State)
    requires Inv(cfg, s) && Quiescent(s)
    ensures s.yielded == |s.log|
    ensures s.yielded == TotalTurns(cfg.prompts) <==> OnlyLastTurnsFailed(cfg, s)
  {
    UnbegunIsDifference(cfg, s, 0);
    assert cfg.prompts[0..] == cfg.prompts && s.convs[0..] == s.convs;
    if OnlyLastTurnsFailed(cfg, s) {
      forall d | 0 <= d < |cfg.prompts| ensures Begun(s.convs[d]) == |cfg.prompts[d]| {
        BegunAtMostAll(cfg, s, d);
        InSomePlace(cfg, s, d);
      }
      AllBegun(cfg, s, 0);
    }
    if s.yielded == TotalTurns(cfg.prompts) {
      forall c | c in s.failed ensures c < |cfg.prompts| && Begun(s.convs[c]) == |cfg.prompts[c]| {
        PlacedIsConv(|cfg.prompts|, s, c);
        NoneUnbegun(cfg, s, 0, c);
      }
    }
  }

  /** Until the dispatcher gives up, nothing left to do means that only last turns can be missing. */
  lemma QuiescenceIsCompletion(cfg: Config, steps: seq<Step>)
    requires ValidConfig(cfg) && Quiescent(After(cfg, steps))
    ensures After(cfg, steps).yielded == |After(cfg, steps).log|
    ensures After(cfg, steps).yielded == TotalTurns(cfg.prompts) <==> OnlyLastTurnsFailed(cfg, After(cfg, steps))
  {
    EveryRun(cfg, steps);
    QuiescentCount(cfg, After(cfg, steps));
  }

  /**
   However the benchmark ends, every request was yielded exactly when the dispatcher did not
   give up; and exactly when nothing was put back after it stopped and only last turns failed.
   */
  lemma EndOfBenchmark(cfg: Config, steps: seq<Step>)
    requires ValidConfig(cfg) && Ended(cfg, After(cfg, steps))
    ensures var s := After(cfg, steps);
            && (s.yielded == TotalTurns(cfg.prompts) <==> !s.stopped)
            && (s.yielded == TotalTurns(cfg.prompts) <==> s.queue == [] && OnlyLastTurnsFailed(cfg, s))
            && s.yielded == |s.log|
  {
    var s := After(cfg, steps);
    EveryRun(cfg, steps);
    if s.yielded == TotalTurns(cfg.prompts) {
      AllDispatchedLeavesNothing(cfg, steps);
    }
    if s.queue == [] {
      QuiescentCount(cfg, s);
    }
  }

  /**
   All requests succeed, yet one turn is never sent: the dispatcher gives up while the first
   turn is still at work, and the conversation is put back to a queue nobody reads.
   */
  lemma LatePutIsLost(p: Prompt, q: Prompt)
    ensures var cfg := Config([[p, q]], NoLimit);
            var s := After(cfg, [Dispatch, GiveUp, Begin(0), Succeed(0, "a", 1)]);
            && Ended(cfg, s) && s.failed == [] && s.stopped
            && s.queue == [0] && s.yielded == 1 && TotalTurns(cfg.prompts) == 2
  {
    var cfg := Config([[p, q]], NoLimit);
    assert cfg.prompts[1..] == [];
    var v := Conv([p, q], [], 0);
    var s0 := State([v], [0], [], [], [], [], [], 0, false, []);
    assert UpTo(1) == [0];
    assert Initial(cfg).convs == [v];
    assert After(cfg, []) == s0;
    AfterThen(cfg, [], Dispatch);
    var s1 := s0.(queue := [], waiting := [0], yielded := 1);
    assert [] + [Dispatch] == [Dispatch];
    assert After(cfg, [Dispatch]) == s1;
    AfterThen(cfg, [Dispatch], GiveUp);
    assert [Dispatch] + [GiveUp] == [Dispatch, GiveUp];
    var s2 := s1.(stopped := true);
    assert After(cfg, [Dispatch, GiveUp]) == s2;
    AfterThen(cfg, [Dispatch, GiveUp], Begin(0));
    assert [Dispatch, GiveUp] + [Begin(0)] == [Dispatch, GiveUp, Begin(0)];
    var s3 := After(cfg, [Dispatch, GiveUp, Begin(0)]);
    assert s3 == Next(cfg, s2, Begin(0));
    assert s3.running == [0] && s3.waiting == [] && s3.queue == [] && s3.convs == [BeginConv(v)];
    AfterThen(cfg, [Dispatch, GiveUp, Begin(0)], Succeed(0, "a", 1));
    assert [Dispatch, GiveUp, Begin(0)] + [Succeed(0, "a", 1)] == [Dispatch, GiveUp, Begin(0), Succeed(0, "a", 1)];
    assert Enabled(cfg, s3, Succeed(0, "a", 1));
  }

  /** Falls with every step but the dispatcher's giving up. */
  function Rank(cfg: Config, s: State): int {
    10 * (TotalTurns(cfg.prompts) as int - |s.log|) + 3 * |s.queue| + 2 * |s.waiting| + 4 * |s.running|
  }

  lemma RankDrops(cfg: Config, s: State, step: Step)
    requires Inv(cfg, s) && Enabled(cfg, s, step) && !step.GiveUp?
    ensures 0 <= Rank(cfg, Next(cfg, s, step)) < Rank(cfg, s)
  {
    BooksKept(cfg, s, step);
  }

  /** Somebody has something to do: a task, or a dispatcher that has not given up. */
  ghost predicate Busy(s: State) {
    s.waiting != [] || s.running != [] || (!s.stopped && s.queue != [])
  }

  function Forward(s: State): Step {
    if s.running != [] then Succeed(0, "", 0) else if s.waiting != [] then Begin(0) else Dispatch
  }

  /** Work that is left can always move: there is no deadlock, before and after giving up. */
  lemma StepForward(cfg: Config, s: State)
    requires ValidConfig(cfg) && Inv(cfg, s) && Busy(s)
    ensures Enabled(cfg, s, Forward(s)) && !Forward(s).GiveUp?
    ensures Next(cfg, s, Forward(s)).stopped == s.stopped && Next(cfg, s, Forward(s)).failed == s.failed
  {
    if s.running != [] {
      PlacedIsConv(|cfg.prompts|, s, s.running[0]);
      assert ConvOk(cfg, s, s.running[0]);
    } else if s.waiting != [] {
      PlacedIsConv(|cfg.prompts|, s, s.waiting[0]);
      assert ConvOk(cfg, s, s.waiting[0]);
    } else {
      UnbegunIsDifference(cfg, s, 0);
      PendingHaveTurns(cfg, s, 0);
      PendingSize(cfg, s);
      assert cfg.prompts[0..] == cfg.prompts && s.convs[0..] == s.convs;
    }
  }

  lemma AfterThen(cfg: Config, steps: seq<Step>, step: Step)
    ensures After(cfg, steps + [step]) == Do(cfg, After(cfg, steps), step)
  {
    assert (steps + [step])[..|steps|] == steps;
  }

  /** Unless the dispatcher has given up, the run can go on until every conversation is over. */
  lemma {:induction false} RunsCanComplete(cfg: Config, steps: seq<Step>) returns (more: seq<Step>)
    requires ValidConfig(cfg) && !After(cfg, steps).stopped
    ensures Quiescent(After(cfg, steps + more))
    ensures After(cfg, steps).failed == [] ==> After(cfg, steps + more).yielded == TotalTurns(cfg.prompts)
    decreases Rank(cfg, After(cfg, steps))
  {
    hide Inv, Next, Rank, After, TotalTurns, Forward;
    var s := After(cfg, steps);
    EveryRun(cfg, steps);
    if Quiescent(s) {
      more := [];
      assert steps + more == steps;
      QuiescenceIsCompletion(cfg, steps);
    } else {
      StepForward(cfg, s);
      RankDrops(cfg, s, Forward(s));
      AfterThen(cfg, steps, Forward(s));
      var rest := RunsCanComplete(cfg, steps + [Forward(s)]);
      more := [Forward(s)] + rest;
      assert steps + more == steps + [Forward(s)] + rest;
    }
  }

  // ---------- Every run, with its steps counted ----------

  /** Steps of a run that did something other than give up. */
  function Progress(cfg: Config, steps: seq<Step>): nat {
    if steps == [] then 0
    else
      var n := |steps| - 1;
      Progress(cfg, steps[..n]) + if Enabled(cfg, After(cfg, steps[..n]), steps[n]) && !steps[n].GiveUp? then 1 else 0
  }

  /** No run makes more progress than the rank it starts with. */
  lemma {:induction false} ProgressBounded(cfg: Config, steps: seq<Step>)
    requires ValidConfig(cfg)
    ensures 0 <= Rank(cfg, After(cfg, steps))
    ensures Rank(cfg, After(cfg, steps)) + Progress(cfg, steps) <= Rank(cfg, Initial(cfg))
    decreases |steps|
  {
    EveryRun(cfg, steps);
    RankNonnegative(cfg, After(cfg, steps));
    if steps != [] {
      var n := |steps| - 1;
      var s := After(cfg, steps[..n]);
      ProgressBounded(cfg, steps[..n]);
      EveryRun(cfg, steps[..n]);
      hide Inv;
      if Enabled(cfg, s, steps[n]) && !steps[n].GiveUp? {
        RankDrops(cfg, s, steps[n]);
      }
    }
  }

  lemma RankNonnegative(cfg: Config, s: State)
    requires Inv(cfg, s)
    ensures Rank(cfg, s) >= 0
  {
  }

  /** While there is work, some step among any `w` in a row makes progress. */
  ghost predicate Fair(cfg: Config, steps: seq<Step>, w: nat) {
    forall i :: 0 <= i <= |steps| - w && Busy(After(cfg, steps[..i])) ==>
      Progress(cfg, steps[..i]) < Progress(cfg, steps[..i + w])
  }

  lemma {:induction false} FairProgress(cfg: Config, steps: seq<Step>, w: nat, j: nat)
    requires Fair(cfg, steps, w) && j * w <= |steps|
    requires forall i :: 0 <= i <= |steps| ==> Busy(After(cfg, steps[..i]))
    ensures Progress(cfg, steps[..j * w]) >= j
    decreases j
  {
    hide Busy, After, Progress;
    if j > 0 {
      assert (j - 1) * w + w == j * w;
      FairProgress(cfg, steps, w, j - 1);
      assert Busy(After(cfg, steps[..(j - 1) * w]));
    }
  }

  lemma IdleStep(cfg: Config, s: State, step: Step)
    requires !Busy(s)
    ensures !Busy(Do(cfg, s, step))
  {
  }

  lemma {:induction false} IdleStays(cfg: Config, steps: seq<Step>, i: nat)
    requires i <= |steps| && !Busy(After(cfg, steps[..i]))
    ensures !Busy(After(cfg, steps))
    decreases |steps|
  {
    hide Busy, Do;
    if i < |steps| {
      var n := |steps| - 1;
      assert steps[..n][..i] == steps[..i];
      IdleStays(cfg, steps[..n], i);
      IdleStep(cfg, After(cfg, steps[..n]), steps[n]);
    } else {
      assert steps[..i] == steps;
    }
  }

  lemma InitialRank(cfg: Config)
    requires ValidConfig(cfg)
    ensures Rank(cfg, Initial(cfg)) >= 0
  {
    InitialInv(cfg);
    RankNonnegative(cfg, Initial(cfg));
  }

  /** A fair run comes to its end within a number of steps known from the start. */
  lemma FairRunsEnd(cfg: Config, steps: seq<Step>, w: nat)
    requires ValidConfig(cfg) && Fair(cfg, steps, w) && |steps| >= (Rank(cfg, Initial(cfg)) + 1) * w
    ensures !Busy(After(cfg, steps))
  {
    hide Busy, After, Progress, Rank, Fair;
    InitialRank(cfg);
    var j := Rank(cfg, Initial(cfg)) + 1;
    if i :| 0 <= i <= |steps| && !Busy(After(cfg, steps[..i])) {
      IdleStays(cfg, steps, i);
    } else {
      FairProgress(cfg, steps, w, j);
      ProgressBounded(cfg, steps[..j * w]);
    }
  }

  /** Flattening for the shared-prefix option keeps the number of requests. */
  lemma {:induction false} FlattenKeepsTurns(prompts: seq<seq<Prompt>>)
    ensures TotalTurns(Flatten(prompts)) == TotalTurns(prompts) == |Flatten(prompts)|
    decreases |prompts|
  {
    if prompts != [] {
      FlattenKeepsTurns(prompts[1..]);
      SinglesTurns(prompts[0]);
      TotalTurnsConcat(Singles(prompts[0]), Flatten(prompts[1..]));
    }
  }

  lemma {:induction false} SinglesTurns(ps: seq<Prompt>)
    ensures TotalTurns(Singles(ps)) == |ps|
    decreases |ps|
  {
    if ps != [] {
      SinglesTurns(ps[1..]);
      assert Singles(ps)[1..] == Singles(ps[1..]);
    }
  }

  lemma {:induction false} TotalTurnsConcat(ps: seq<seq<Prompt>>, qs: seq<seq<Prompt>>)
    ensures TotalTurns(ps + qs) == TotalTurns(ps) + TotalTurns(qs)
    decreases |ps|
  {
    if ps == [] {
      assert ps + qs == qs;
    } else {
      TotalTurnsConcat(ps[1..], qs);
      assert (ps + qs)[1..] == ps[1..] + qs;
    }
  }
}
