/**
 The promises of the multi-turn workload generator (benchmark/hicache/bench_multiturn.py),
 for every run: order of rounds, bounded concurrency, exact books, and no lost work.
 */
module RoundBarrierTheorems {
  import opened Census
  import opened RoundBarrier
  import opened RoundBarrierSafety

  // ---------- Rounds as history ----------

  /** How many of the responses handled in a run were successes for client `c`. */
  function Successes(cfg: Config, steps: seq<Step>, c: nat): nat {
    if steps == [] then 0
    else
      var n := |steps| - 1;
      var before := After(cfg, steps[..n]);
      Successes(cfg, steps[..n], c) +
      if steps[n].Count? && before.handler == Got(Response(c, true)) then 1 else 0
  }

  lemma {:induction false} RoundIsSuccesses(cfg: Config, steps: seq<Step>, c: nat)
    requires ValidConfig(cfg) && c < |cfg.total|
    ensures |After(cfg, steps).round| == |cfg.total|
    ensures After(cfg, steps).round[c] == Successes(cfg, steps, c)
    decreases |steps|
  {
    EveryRun(cfg, steps);
    if steps != [] {
      var n := |steps| - 1;
      RoundIsSuccesses(cfg, steps[..n], c);
      EveryRun(cfg, steps[..n]);
      StepCountsSuccess(cfg, After(cfg, steps[..n]), steps[n], c);
    }
  }

  lemma StepCountsSuccess(cfg: Config, s: State, step: Step, c: nat)
    requires Inv(cfg, s) && c < |cfg.total|
    ensures |Do(cfg, s, step).round| == |cfg.total|
    ensures Do(cfg, s, step).round[c] ==
            s.round[c] + if step.Count? && s.handler == Got(Response(c, true)) then 1 else 0
  {
    if step.Count? && s.handler.Got? {
      GotHasRoundsLeft(cfg, s);
    }
  }

  /**
   With the barrier on, a request of round r + 1 exists only if every client with more than
   r rounds has had its round-r response handled successfully.
   */
  lemma BarrierOrdersRounds(cfg: Config, steps: seq<Step>, c: nat, d: nat, r: nat)
    requires ValidConfig(cfg) && cfg.barrier && d < |cfg.total|
    requires InPlay(After(cfg, steps), c) && Successes(cfg, steps, c) == r + 1
    requires cfg.total[d] > r
    ensures Successes(cfg, steps, d) >= r + 1
  {
    var s := After(cfg, steps);
    EveryRun(cfg, steps);
    PlacedIsClient(|cfg.total|, s, c);
    RoundIsSuccesses(cfg, steps, c);
    RoundIsSuccesses(cfg, steps, d);
    assert ClientOk(cfg, s, c) && ClientOk(cfg, s, d);
  }

  /** Stale reads of the completed counter included, the limit holds. */
  lemma ConcurrencyBounded(cfg: Config, steps: seq<Step>)
    requires ValidConfig(cfg) && 0 <= cfg.maxParallel
    ensures var s := After(cfg, steps);
            0 <= s.sent - s.completed <= cfg.maxParallel && |s.tasks| <= cfg.maxParallel
  {
    EveryRun(cfg, steps);
  }

  lemma ClientInOnePlace(cfg: Config, steps: seq<Step>, c: nat)
    requires ValidConfig(cfg)
    ensures Places(After(cfg, steps), c) == if c < |cfg.total| then 1 else 0
  {
    EveryRun(cfg, steps);
  }

  /** The response thread never pops an empty question pool. */
  lemma PoolNeverRunsDry(cfg: Config, steps: seq<Step>)
    requires ValidConfig(cfg)
    ensures !After(cfg, steps).handler.Crashed?
    ensures Asking(cfg, After(cfg, steps)) == 1 ==> After(cfg, steps).pool >= 1
  {
    EveryRun(cfg, steps);
  }

  // ---------- Releases ----------

  lemma HeldDistinct(n: nat, s: State)
    requires OnePlace(n, s)
    ensures Distinct(s.held)
  {
    forall c: nat ensures Times(c, s.held) <= 1 {
      assert Places(s, c) <= 1;
    }
    OnceIsDistinct(s.held);
  }

  lemma PresentSomewhere(n: nat, s: State, c: nat)
    requires OnePlace(n, s) && c < n
    ensures InPlay(s, c) || s.handler == Counted(c) || c in s.held || c in s.finished || c in s.failed
  {
    assert Places(s, c) == 1;
  }

  lemma HeldIsNextRound(cfg: Config, s: State)
    requires Inv(cfg, s) && s.handler.Queued? && BarrierCheck(cfg, s).handler.Releasing?
    ensures Elements(s.held) == Participants(cfg.total, s.barrierRound + 1)
  {
    FullCount(cfg, s);
    forall c: nat ensures c in Elements(s.held) <==> c in Participants(cfg.total, s.barrierRound + 1) {
      if c in s.held {
        PlacedIsClient(|cfg.total|, s, c);
        assert ClientOk(cfg, s, c);
      } else if c in Participants(cfg.total, s.barrierRound + 1) {
        assert ClientOk(cfg, s, c);
        PresentSomewhere(|cfg.total|, s, c);
      }
    }
  }

  /** A release hands over one request for each client of the next round, and nothing else. */
  lemma ReleaseHandsOverNextRound(cfg: Config, steps: seq<Step>)
    requires ValidConfig(cfg) && After(cfg, steps).handler.Queued?
    requires BarrierCheck(cfg, After(cfg, steps)).handler.Releasing?
    ensures var s := After(cfg, steps);
            && Distinct(s.held) && |s.held| == ClientsPerRound(cfg.total, s.barrierRound + 1)
            && Elements(s.held) == Participants(cfg.total, s.barrierRound + 1)
  {
    var s := After(cfg, steps);
    EveryRun(cfg, steps);
    HeldIsNextRound(cfg, s);
    HeldDistinct(|cfg.total|, s);
    DistinctSize(s.held);
    ParticipantsCount(cfg.total, s.barrierRound + 1);
  }

  // ---------- Nothing left to do ----------

  /** No request exists that anybody could still act on. */
  ghost predicate Quiescent(s: State) {
    s.ready == [] && !s.sender.Popped? && s.tasks == [] && s.responses == [] && s.handler.Idle?
  }

  ghost predicate AllFinished(cfg: Config, s: State) {
    forall c :: 0 <= c < |cfg.total| ==> c in s.finished
  }

  lemma QuiescentPlaces(cfg: Config, s: State, c: nat)
    requires Inv(cfg, s) && Quiescent(s) && c < |cfg.total|
    ensures c in s.held || c in s.finished || c in s.failed
  {
    assert Places(s, c) == 1;
  }

  /** Requests are left at the barrier only by a failure. */
  lemma HeldMeansFailed(cfg: Config, s: State)
    requires Inv(cfg, s) && Quiescent(s) && s.failed == []
    ensures s.held == []
  {
    if s.held != [] {
      var h := s.held[0];
      PlacedIsClient(|cfg.total|, s, h);
      assert ClientOk(cfg, s, h);
      forall c | c in Participants(cfg.total, s.barrierRound) ensures c in Done(s) {
        QuiescentPlaces(cfg, s, c);
        assert ClientOk(cfg, s, c);
      }
      assert h in Participants(cfg.total, s.barrierRound);
      SubsetSize(Participants(cfg.total, s.barrierRound), Done(s));
    }
  }

  lemma {:induction false} NoQuestionsLeft(total: seq<nat>)
    ensures Questions(total, total) == 0
    decreases |total|
  {
    if total != [] {
      NoQuestionsLeft(total[1..]);
    }
  }

  /**
   When nothing is left to do, all clients have finished exactly when no request failed; and
   then the run has sent and completed one request per client and round and has asked every
   follow-up question.
   */
  lemma QuiescenceIsCompletion(cfg: Config, steps: seq<Step>)
    requires ValidConfig(cfg) && Quiescent(After(cfg, steps))
    ensures var s := After(cfg, steps);
            && (AllFinished(cfg, s) <==> s.failed == [])
            && (s.failed == [] ==> s.held == [] && s.sent == s.completed == Sum(cfg.total))
            && (s.failed == [] ==> s.pool == if Questions(cfg.total, Zeros(|cfg.total|)) == 0 then 1 else 0)
            && (!cfg.barrier ==> forall c :: 0 <= c < |cfg.total| ==> c in s.finished || c in s.failed)
  {
    var s := After(cfg, steps);
    EveryRun(cfg, steps);
    forall c | 0 <= c < |cfg.total|
      ensures c in s.finished || c in s.failed || c in s.held
      ensures !cfg.barrier ==> c !in s.held
    {
      QuiescentPlaces(cfg, s, c);
      assert ClientOk(cfg, s, c);
    }
    if s.failed == [] {
      HeldMeansFailed(cfg, s);
      forall c | 0 <= c < |cfg.total| ensures s.round[c] == cfg.total[c] {
        assert ClientOk(cfg, s, c);
      }
      assert s.round == cfg.total;
      NoQuestionsLeft(cfg.total);
    } else {
      var f := s.failed[0];
      PlacedIsClient(|cfg.total|, s, f);
      assert ClientOk(cfg, s, f);
    }
  }

  // ---------- When the loops end ----------

  /** The responses of each client: its rounds, and one more for each failure. */
  function Responses(round: seq<nat>, failed: seq<nat>): (a: seq<nat>)
    ensures |a| == |round|
  {
    if failed == [] then round
    else
      var a, f := Responses(round, failed[..|failed| - 1]), failed[|failed| - 1];
      if f < |a| then a[f := a[f] + 1] else a
  }

  lemma {:induction false} ResponsesCount(round: seq<nat>, failed: seq<nat>)
    requires forall i :: 0 <= i < |failed| ==> failed[i] < |round|
    ensures Sum(Responses(round, failed)) == Sum(round) + |failed|
    decreases |failed|
  {
    if failed != [] {
      var n := |failed| - 1;
      ResponsesCount(round, failed[..n]);
      SumIncrement(Responses(round, failed[..n]), failed[n]);
    }
  }

  lemma {:induction false} ResponsesOf(round: seq<nat>, failed: seq<nat>, c: nat)
    requires c < |round|
    ensures Responses(round, failed)[c] == round[c] + Times(c, failed)
    decreases |failed|
  {
    if failed != [] {
      var n := |failed| - 1;
      ResponsesOf(round, failed[..n], c);
      TimesAdded(c, failed[..n], failed[n]);
      assert failed == failed[..n] + [failed[n]];
    }
  }

  lemma {:induction false} SumReaches(xs: seq<nat>, ys: seq<nat>)
    requires |xs| == |ys| && forall i :: 0 <= i < |xs| ==> xs[i] <= ys[i]
    ensures Sum(xs) <= Sum(ys) && (Sum(xs) == Sum(ys) <==> xs == ys)
    decreases |xs|
  {
    if xs != [] {
      SumReaches(xs[1..], ys[1..]);
      assert xs == [xs[0]] + xs[1..] && ys == [ys[0]] + ys[1..];
    }
  }

  /** At rest a client has all its responses if it finished, or failed in its last round; not if it is held. */
  lemma RestingClient(cfg: Config, s: State, c: nat)
    requires Inv(cfg, s) && Quiescent(s) && c < |cfg.total| == |s.round|
    ensures s.round[c] + Times(c, s.failed) <= cfg.total[c]
    ensures s.round[c] + Times(c, s.failed) == cfg.total[c] <==>
            c !in s.held && (c in s.failed ==> s.round[c] + 1 == cfg.total[c])
  {
    QuiescentPlaces(cfg, s, c);
    assert Places(s, c) == 1;
    assert ClientOk(cfg, s, c);
  }

  /** Nothing is held, and every client that failed did so in its last round. */
  ghost predicate OnlyLastRoundsFailed(cfg: Config, s: State)
    requires |s.round| == |cfg.total|
  {
    s.held == [] && forall c :: 0 <= c < |cfg.total| && c in s.failed ==> s.round[c] + 1 == cfg.total[c]
  }

  lemma HeldIsClient(cfg: Config, s: State)
    requires Inv(cfg, s)
    ensures s.held != [] ==> s.held[0] < |cfg.total|
  {
    if s.held != [] {
      PlacedIsClient(|cfg.total|, s, s.held[0]);
    }
  }

  lemma RestingCount(cfg: Config, s: State)
    requires Inv(cfg, s) && Quiescent(s)
    ensures |s.round| == |cfg.total| && s.sent == s.completed <= Sum(cfg.total)
    ensures s.completed == Sum(cfg.total) <==> OnlyLastRoundsFailed(cfg, s)
  {
    assert |s.round| == |cfg.total| && s.completed == Sum(s.round) + |s.failed| && s.sent == s.completed;
    hide Inv, Quiescent;
    forall i | 0 <= i < |s.failed| ensures s.failed[i] < |s.round| {
      FailedInRange(cfg, s, s.failed[i]);
    }
    ResponsesCount(s.round, s.failed);
    forall c | 0 <= c < |cfg.total|
      ensures Responses(s.round, s.failed)[c] <= cfg.total[c]
      ensures Responses(s.round, s.failed)[c] == cfg.total[c] <==>
              c !in s.held && (c in s.failed ==> s.round[c] + 1 == cfg.total[c])
    {
      ResponsesOf(s.round, s.failed, c);
      RestingClient(cfg, s, c);
    }
    SumReaches(Responses(s.round, s.failed), cfg.total);
    HeldIsClient(cfg, s);
    if OnlyLastRoundsFailed(cfg, s) {
      assert Responses(s.round, s.failed) == cfg.total;
    } else if s.held != [] {
      assert Responses(s.round, s.failed)[s.held[0]] != cfg.total[s.held[0]];
    }
  }

  lemma RestStep(cfg: Config, s: State, step: Step)
    requires Quiescent(s)
    ensures Quiescent(Do(cfg, s, step)) && Do(cfg, s, step).completed == s.completed
  {
  }

  lemma {:induction false} RestStays(cfg: Config, steps: seq<Step>, more: seq<Step>)
    requires Quiescent(After(cfg, steps))
    ensures Quiescent(After(cfg, steps + more)) && After(cfg, steps + more).completed == After(cfg, steps).completed
    decreases |more|
  {
    hide Quiescent, Do;
    if more == [] {
      assert steps + more == steps;
    } else {
      var n := |more| - 1;
      RestStays(cfg, steps, more[..n]);
      assert steps + more == (steps + more[..n]) + [more[n]];
      AfterThen(cfg, steps + more[..n], more[n]);
      RestStep(cfg, After(cfg, steps + more[..n]), more[n]);
    }
  }

  /**
   Both loops end only once every request of the total is answered.  When nothing is left to
   do, that is so exactly when nothing is held and only last rounds failed; and otherwise it
   never will be, however the run goes on.
   */
  lemma LoopsEndIff(cfg: Config, steps: seq<Step>, more: seq<Step>)
    requires ValidConfig(cfg) && Quiescent(After(cfg, steps))
    ensures var s := After(cfg, steps);
            && |s.round| == |cfg.total| && s.sent == s.completed <= Sum(cfg.total)
            && (s.completed == Sum(cfg.total) <==> OnlyLastRoundsFailed(cfg, s))
            && (After(cfg, steps + more).completed == Sum(cfg.total) <==> OnlyLastRoundsFailed(cfg, s))
  {
    hide Inv, Quiescent, After, OnlyLastRoundsFailed, Sum;
    EveryRun(cfg, steps);
    RestingCount(cfg, After(cfg, steps));
    RestStays(cfg, steps, more);
  }

  // ---------- A failure holds the barrier for good ----------

  lemma FailedStays(cfg: Config, s: State, step: Step, f: nat)
    requires ValidConfig(cfg) && Inv(cfg, s) && f in s.failed
    ensures f in Do(cfg, s, step).failed && f < |cfg.total| == |Do(cfg, s, step).round|
    ensures Do(cfg, s, step).round[f] == s.round[f]
  {
    PlacedIsClient(|cfg.total|, s, f);
    if step.Count? && s.handler.Got? {
      HandledOnly(|cfg.total|, s, s.handler.response.client);
    }
  }

  lemma FailedInRange(cfg: Config, s: State, f: nat)
    requires Inv(cfg, s) && f in s.failed
    ensures f < |cfg.total| == |s.round|
  {
    PlacedIsClient(|cfg.total|, s, f);
  }

  lemma {:induction false} FailedRoundFixed(cfg: Config, steps: seq<Step>, more: seq<Step>, f: nat)
    requires ValidConfig(cfg) && f in After(cfg, steps).failed
    ensures f < |cfg.total| == |After(cfg, steps).round| == |After(cfg, steps + more).round|
    ensures f in After(cfg, steps + more).failed
    ensures After(cfg, steps + more).round[f] == After(cfg, steps).round[f]
    decreases |more|
  {
    hide Inv, Do;
    EveryRun(cfg, steps);
    FailedInRange(cfg, After(cfg, steps), f);
    if more == [] {
      assert steps + more == steps;
    } else {
      var n := |more| - 1;
      FailedRoundFixed(cfg, steps, more[..n], f);
      EveryRun(cfg, steps + more[..n]);
      assert steps + more == (steps + more[..n]) + [more[n]];
      AfterThen(cfg, steps + more[..n], more[n]);
      FailedStays(cfg, After(cfg, steps + more[..n]), more[n], f);
    }
  }

  /** After a failure, no request of a later round ever exists. */
  lemma FailureHoldsBarrier(cfg: Config, steps: seq<Step>, more: seq<Step>, f: nat, c: nat)
    requires ValidConfig(cfg) && cfg.barrier && f in After(cfg, steps).failed
    requires InPlay(After(cfg, steps + more), c)
    ensures Successes(cfg, steps + more, c) == Successes(cfg, steps, f)
  {
    var t := After(cfg, steps + more);
    FailedRoundFixed(cfg, steps, more, f);
    EveryRun(cfg, steps + more);
    PlacedIsClient(|cfg.total|, t, c);
    RoundIsSuccesses(cfg, steps + more, c);
    RoundIsSuccesses(cfg, steps, f);
    assert ClientOk(cfg, t, f) && ClientOk(cfg, t, c);
  }

  // ---------- Every run can be completed ----------

  function HandlerWeight(h: Handler): nat {
    match h
    case Got(_) => 2
    case Counted(_) => 20
    case Queued => 5
    case Releasing => 1
    case _ => 0
  }

  /** Falls with every step that moves a request or the barrier. */
  function Rank(cfg: Config, s: State): int {
    100 * (Sum(cfg.total) as int - Sum(s.round)) + 7 * |s.held| + 6 * |s.ready| + 5 * |SenderHolds(s)|
    + 4 * |s.tasks| + 3 * |s.responses| + HandlerWeight(s.handler)
  }

  lemma RankNonnegative(cfg: Config, s: State)
    requires Inv(cfg, s)
    ensures Rank(cfg, s) >= 0
  {
    forall c | 0 <= c < |cfg.total| ensures s.round[c] <= cfg.total[c] {
      assert ClientOk(cfg, s, c);
    }
    SumReaches(s.round, cfg.total);
  }

  lemma CountDropsRank(cfg: Config, s: State)
    requires s.handler.Got? && s.handler.response.client < |s.round|
    ensures Rank(cfg, Next(cfg, s, Count)) < Rank(cfg, s)
  {
    SumIncrement(s.round, s.handler.response.client);
  }

  lemma SenderDropsRank(cfg: Config, s: State, step: Step)
    requires Enabled(s, step)
    requires (step.PopAt? && s.ready != []) || step.Launch? || step.Answer? || step.Take?
    ensures Rank(cfg, Next(cfg, s, step)) < Rank(cfg, s)
  {
  }

  lemma HandlerDropsRank(cfg: Config, s: State, step: Step)
    requires Enabled(s, step) && (step.Enqueue? || step.Barrier? || step.Release?)
    ensures Rank(cfg, Next(cfg, s, step)) < Rank(cfg, s)
  {
  }

  /** Every step but the sender's test and its look at an empty queue makes progress. */
  lemma RankDrops(cfg: Config, s: State, step: Step)
    requires ValidConfig(cfg) && Inv(cfg, s) && Enabled(s, step)
    requires !step.Look? && !(step.PopAt? && s.ready == [])
    ensures Rank(cfg, Next(cfg, s, step)) < Rank(cfg, s)
  {
    hide Rank, Next;
    if step.Count? {
      GotHasRoundsLeft(cfg, s);
      CountDropsRank(cfg, s);
    } else if step.Enqueue? || step.Barrier? || step.Release? {
      HandlerDropsRank(cfg, s, step);
    } else {
      SenderDropsRank(cfg, s, step);
    }
  }

  ghost predicate NoFailures(s: State) {
    && s.failed == [] && (forall r :: r in s.responses ==> r.ok)
    && (s.handler.Got? ==> s.handler.response.ok)
  }

  /** Where to go next: the handler first, then the responses, the tasks and the sender. */
  function Forward(s: State): Step {
    match s.handler
    case Got(_) => Count
    case Counted(_) => Enqueue
    case Queued => Barrier
    case Releasing => Release
    case _ =>
      if s.responses != [] then Take
      else if s.tasks != [] then Answer(0, true)
      else if s.sender.Popped? then Launch
      else if s.sender.Cleared? then PopAt(0)
      else Look
  }

  lemma ForwardEnabled(cfg: Config, s: State)
    requires cfg.maxParallel >= 1 && Ledger(cfg, s) && Modes(cfg, s) && !Quiescent(s)
    ensures Enabled(s, Forward(s)) && !(Forward(s).PopAt? && s.ready == [])
    ensures Forward(s).Look? ==> Next(cfg, s, Look) == s.(sender := Cleared) && s.sender.Looking?
  {
  }

  lemma ForwardKeepsNoFailures(cfg: Config, s: State)
    requires Enabled(s, Forward(s)) && NoFailures(s)
    ensures NoFailures(Next(cfg, s, Forward(s)))
  {
  }

  /** Unless all is done, some step makes progress or the sender's test succeeds. */
  lemma StepForward(cfg: Config, s: State)
    requires ValidConfig(cfg) && cfg.maxParallel >= 1 && Inv(cfg, s) && !Quiescent(s)
    ensures Enabled(s, Forward(s))
    ensures var t := Next(cfg, s, Forward(s));
            Rank(cfg, t) < Rank(cfg, s) || (Rank(cfg, t) == Rank(cfg, s) && s.sender.Looking? && t.sender.Cleared?)
    ensures NoFailures(s) ==> NoFailures(Next(cfg, s, Forward(s)))
  {
    ForwardEnabled(cfg, s);
    if NoFailures(s) {
      ForwardKeepsNoFailures(cfg, s);
    }
    if Forward(s).Look? {
      assert Rank(cfg, s.(sender := Cleared)) == Rank(cfg, s);
    } else {
      hide Rank, Next, Forward;
      RankDrops(cfg, s, Forward(s));
    }
  }

  lemma AfterThen(cfg: Config, steps: seq<Step>, step: Step)
    ensures After(cfg, steps + [step]) == Do(cfg, After(cfg, steps), step)
  {
    assert (steps + [step])[..|steps|] == steps;
  }

  /** From every reachable state the run can go on to the end; without failures, to full completion. */
  lemma {:induction false} RunsCanComplete(cfg: Config, steps: seq<Step>) returns (more: seq<Step>)
    requires ValidConfig(cfg) && cfg.maxParallel >= 1
    ensures Quiescent(After(cfg, steps + more))
    ensures NoFailures(After(cfg, steps)) ==> AllFinished(cfg, After(cfg, steps + more))
    decreases Rank(cfg, After(cfg, steps)), if After(cfg, steps).sender.Looking? then 1 else 0
  {
    hide Inv, Next, Rank, After, Forward, AllFinished;
    var s := After(cfg, steps);
    EveryRun(cfg, steps);
    if Quiescent(s) {
      more := [];
      assert steps + more == steps;
      QuiescenceIsCompletion(cfg, steps);
    } else {
      RankNonnegative(cfg, s);
      var step := Forward(s);
      StepForward(cfg, s);
      AfterThen(cfg, steps, step);
      EveryRun(cfg, steps + [step]);
      RankNonnegative(cfg, After(cfg, steps + [step]));
      var rest := RunsCanComplete(cfg, steps + [step]);
      more := [step] + rest;
      assert steps + more == steps + [step] + rest;
    }
  }

  // ---------- Every run, with its steps counted ----------

  /** A step that does something other than the sender's polling. */
  predicate Productive(s: State, step: Step) {
    Enabled(s, step) && !step.Look? && !(step.PopAt? && s.ready == [])
  }

  /** Steps of a run that were more than polling. */
  function Progress(cfg: Config, steps: seq<Step>): nat {
    if steps == [] then 0
    else
      var n := |steps| - 1;
      Progress(cfg, steps[..n]) + if Productive(After(cfg, steps[..n]), steps[n]) then 1 else 0
  }

  lemma PollingKeepsRank(cfg: Config, s: State, step: Step)
    requires !Productive(s, step)
    ensures Rank(cfg, Do(cfg, s, step)) == Rank(cfg, s)
  {
  }

  /** No run makes more progress than the rank it starts with. */
  lemma {:induction false} ProgressBounded(cfg: Config, steps: seq<Step>)
    requires ValidConfig(cfg)
    ensures 0 <= Rank(cfg, After(cfg, steps))
    ensures Rank(cfg, After(cfg, steps)) + Progress(cfg, steps) <= Rank(cfg, Initial(cfg))
    decreases |steps|
  {
    hide Inv, Rank, Productive;
    EveryRun(cfg, steps);
    RankNonnegative(cfg, After(cfg, steps));
    if steps != [] {
      var n := |steps| - 1;
      var s := After(cfg, steps[..n]);
      ProgressBounded(cfg, steps[..n]);
      EveryRun(cfg, steps[..n]);
      ProgressStep(cfg, s, steps[n]);
    }
  }

  lemma ProgressStep(cfg: Config, s: State, step: Step)
    requires ValidConfig(cfg) && Inv(cfg, s)
    ensures Rank(cfg, Do(cfg, s, step)) <= Rank(cfg, s) - if Productive(s, step) then 1 else 0
  {
    hide Inv, Rank;
    if Productive(s, step) {
      RankDrops(cfg, s, step);
    } else {
      PollingKeepsRank(cfg, s, step);
    }
  }

  /** While there is work, some step among any `w` in a row is more than polling. */
  ghost predicate Fair(cfg: Config, steps: seq<Step>, w: nat) {
    forall i :: 0 <= i <= |steps| - w && !Quiescent(After(cfg, steps[..i])) ==>
      Progress(cfg, steps[..i]) < Progress(cfg, steps[..i + w])
  }

  lemma {:induction false} FairProgress(cfg: Config, steps: seq<Step>, w: nat, j: nat)
    requires Fair(cfg, steps, w) && j * w <= |steps|
    requires forall i :: 0 <= i <= |steps| ==> !Quiescent(After(cfg, steps[..i]))
    ensures Progress(cfg, steps[..j * w]) >= j
    decreases j
  {
    hide Quiescent, After, Progress;
    if j > 0 {
      assert (j - 1) * w + w == j * w;
      FairProgress(cfg, steps, w, j - 1);
      assert !Quiescent(After(cfg, steps[..(j - 1) * w]));
    }
  }

  lemma InitialRank(cfg: Config)
    requires ValidConfig(cfg)
    ensures Rank(cfg, Initial(cfg)) >= 0
  {
    InitialInv(cfg);
    RankNonnegative(cfg, Initial(cfg));
  }

  /** A fair run has nothing left to do after a number of steps known from the start. */
  lemma FairRunsEnd(cfg: Config, steps: seq<Step>, w: nat)
    requires ValidConfig(cfg) && Fair(cfg, steps, w) && |steps| >= (Rank(cfg, Initial(cfg)) + 1) * w
    ensures Quiescent(After(cfg, steps))
    ensures After(cfg, steps).failed == [] ==> AllFinished(cfg, After(cfg, steps))
  {
    hide Quiescent, After, Progress, Rank, Fair;
    InitialRank(cfg);
    var j := Rank(cfg, Initial(cfg)) + 1;
    if i :| 0 <= i <= |steps| && Quiescent(After(cfg, steps[..i])) {
      RestStays(cfg, steps[..i], steps[i..]);
      assert steps[..i] + steps[i..] == steps;
      QuiescenceIsCompletion(cfg, steps);
    } else {
      FairProgress(cfg, steps, w, j);
      ProgressBounded(cfg, steps[..j * w]);
    }
  }

  // ---------- A failure at work ----------

  /** The states of a run, one after the other. */
  ghost predicate Steps(cfg: Config, steps: seq<Step>, states: seq<State>) {
    && |states| == |steps| + 1 && states[0] == Initial(cfg)
    && forall i :: 0 <= i < |steps| ==> Enabled(states[i], steps[i]) && states[i + 1] == Next(cfg, states[i], steps[i])
  }

  lemma {:induction false} StepsLead(cfg: Config, steps: seq<Step>, states: seq<State>)
    requires Steps(cfg, steps, states)
    ensures After(cfg, steps) == states[|steps|]
    decreases |steps|
  {
    if steps != [] {
      var n := |steps| - 1;
      assert states[..n + 1][n] == states[n];
      StepsLead(cfg, steps[..n], states[..n + 1]);
    }
  }

  const STRANDING := Config([2, 2], 2, 2, true)

  const STRANDING_STEPS := [Look, PopAt(0), Launch, Look, PopAt(0), Launch, Answer(0, true), Answer(0, false),
                            Take, Count, Enqueue, Barrier, Take, Count]

  /** The state while client 1 is sent and both answer: `k` of the first 8 steps are done. */
  ghost function Sending(k: nat): State {
    var ready := if k < 2 then [0, 1] else if k < 5 then [1] else [];
    var sender := if k == 1 || k == 4 then Cleared
                  else if k == 2 then Popped(0) else if k == 5 then Popped(1) else Looking;
    var tasks := if k < 3 then [] else if k < 6 then [0] else if k == 6 then [0, 1] else if k == 7 then [1] else [];
    var responses := if k < 7 then [] else if k == 7 then [Response(0, true)]
                     else [Response(0, true), Response(1, false)];
    State(ready, sender, tasks, responses, Idle, [], [], [], [0, 0],
          if k < 3 then 0 else if k < 6 then 1 else 2, 0, 0, 0, 2)
  }

  /** The state while the responses are handled: `k` of the last 6 steps are done. */
  ghost function Handling(k: nat): State {
    var handler := match k
      case 1 => Got(Response(0, true))
      case 2 => Counted(0)
      case 3 => Queued
      case 5 => Got(Response(1, false))
      case _ => Idle;
    State([], Looking, [],
          if k == 0 then [Response(0, true), Response(1, false)] else if k < 5 then [Response(1, false)] else [],
          handler, if k < 3 then [] else [0], [], if k < 6 then [] else [1], if k < 2 then [0, 0] else [1, 0],
          2, if k < 2 then 0 else if k < 6 then 1 else 2, 0, if k < 4 then 0 else 1, if k < 3 then 2 else 1)
  }

  lemma StrandingStarts()
    ensures Initial(STRANDING) == Sending(0) && ClientsPerRound(STRANDING.total, 0) == 2
  {
    var total := STRANDING.total;
    assert total[..1] == [2] && [2][..0] == [];
    assert ClientsPerRound([2], 0) == 1;
    var zeros := Initial(STRANDING).round;
    assert zeros == [0, 0] && UpTo(2) == [0, 1];
    assert total[1..] == [2] && zeros[1..] == [0];
    assert Questions([2], [0]) == 1;
    assert Questions(total, zeros) == 2;
  }

  lemma LaunchStep(k: nat)
    requires k < 6
    ensures Enabled(Sending(k), STRANDING_STEPS[k])
    ensures Next(STRANDING, Sending(k), STRANDING_STEPS[k]) == Sending(k + 1)
  {
    assert RemoveAt([0, 1], 0) == [1] && RemoveAt([1], 0) == [];
  }

  lemma AnswerStep(k: nat)
    requires 6 <= k < 8
    ensures Enabled(Sending(k), STRANDING_STEPS[k])
    ensures Next(STRANDING, Sending(k), STRANDING_STEPS[k]) == Sending(k + 1)
  {
    assert RemoveAt([0, 1], 0) == [1] && RemoveAt([1], 0) == [];
  }

  lemma HandlingStep(k: nat)
    requires k < 6
    ensures Enabled(Handling(k), STRANDING_STEPS[8 + k])
    ensures Next(STRANDING, Handling(k), STRANDING_STEPS[8 + k]) == Handling(k + 1)
  {
    hide ClientsPerRound, Initial, Sending;
    StrandingStarts();
    assert [Response(0, true), Response(1, false)][1..] == [Response(1, false)] && [Response(1, false)][1..] == [];
  }

  /**
   Two clients of two rounds with the barrier on; the second fails in the first round.  The
   first client's next request is then held for ever.
   */
  lemma OneFailureStrandsTheOther()
    ensures var s := After(STRANDING, STRANDING_STEPS);
            Quiescent(s) && s.failed == [1] && s.held == [0] && s.finished == []
  {
    hide Sending, Handling, Next, Initial;
    StrandingStarts();
    var states := seq(15, k requires 0 <= k < 15 => if k < 8 then Sending(k) else Handling(k - 8));
    assert Sending(8) == Handling(0) && Quiescent(Handling(6)) && Handling(6).failed == [1]
           && Handling(6).held == [0] && Handling(6).finished == [] by {
      StrandingEnds();
    }
    forall i | 0 <= i < 14
      ensures Enabled(states[i], STRANDING_STEPS[i])
      ensures states[i + 1] == Next(STRANDING, states[i], STRANDING_STEPS[i])
    {
      if i < 6 {
        LaunchStep(i);
      } else if i < 8 {
        AnswerStep(i);
      } else {
        HandlingStep(i - 8);
      }
    }
    StepsLead(STRANDING, STRANDING_STEPS, states);
  }

  lemma StrandingEnds()
    ensures Sending(8) == Handling(0) && Quiescent(Handling(6))
    ensures Handling(6).failed == [1] && Handling(6).held == [0] && Handling(6).finished == []
  {
  }
}
