/**
 What every run of the multi-turn workload generator keeps (benchmark/hicache/bench_multiturn.py):
 one place per client, the bound on requests in flight, the order the barrier imposes, and
 the books of completed requests and follow-up questions.
 */
module RoundBarrierSafety {
  import opened Census
  import opened RoundBarrier

  /** The round whose requests may be in play: the next one once its release has begun. */
  function Open(s: State): nat {
    if s.handler.Releasing? then s.barrierRound + 1 else s.barrierRound
  }

  /** What the client's place says about its round. */
  ghost predicate ClientOk(cfg: Config, s: State, c: nat)
    requires c < |cfg.total| == |s.round|
  {
    var r, total, open := s.round[c], cfg.total[c], Open(s);
    && r <= total
    && (InPlay(s, c) || c in s.failed ==> r < total && (cfg.barrier ==> r == open))
    && (c in s.held ==> cfg.barrier && r < total && r == s.barrierRound + 1)
    && (c in s.finished ==> r == total)
    && (s.handler == Counted(c) ==> cfg.barrier ==> r == open + 1)
    && (cfg.barrier ==> (open <= r || total <= r))
    && (cfg.barrier ==> r <= s.barrierRound + 1)
  }

  ghost predicate Clients(cfg: Config, s: State) {
    |s.round| == |cfg.total| && forall c :: 0 <= c < |cfg.total| ==> ClientOk(cfg, s, c)
  }

  /** Clients whose current barrier round is over. */
  ghost function Done(s: State): set<nat> {
    set c | 0 <= c < |s.round| && s.round[c] > s.barrierRound
  }

  ghost function Participants(total: seq<nat>, r: nat): set<nat> {
    set c | 0 <= c < |total| && total[c] > r
  }

  /** The handler has counted a response it has not yet reported to the barrier. */
  function Unreported(s: State): nat {
    if s.handler.Counted? || s.handler.Queued? then 1 else 0
  }

  ghost predicate BarrierCount(cfg: Config, s: State) {
    cfg.barrier && !s.handler.Releasing? ==>
      && |Done(s)| == s.barrierDone + Unreported(s)
      && (Participants(cfg.total, s.barrierRound) != {} ==>
            s.barrierDone < |Participants(cfg.total, s.barrierRound)|)
  }

  /** No release without a barrier. */
  ghost predicate Modes(cfg: Config, s: State) {
    !s.handler.Crashed? && (s.handler.Releasing? ==> cfg.barrier)
  }

  function Outstanding(s: State): nat {
    |s.tasks| + |s.responses| + if s.handler.Got? then 1 else 0
  }

  ghost predicate Ledger(cfg: Config, s: State) {
    && s.sent - s.completed == Outstanding(s)
    && (!s.sender.Looking? ==> s.sent - s.completed < cfg.maxParallel)
    && (s.sent - s.completed <= cfg.maxParallel || s.sent == s.completed)
    && s.completed == Sum(s.round) + |s.failed|
  }

  /** The handler is about to ask a follow-up question. */
  function Asking(cfg: Config, s: State): nat {
    if s.handler.Counted? && s.handler.client < |s.round| && s.handler.client < |cfg.total|
       && s.round[s.handler.client] < cfg.total[s.handler.client] then 1 else 0
  }

  function Zeros(n: nat): seq<nat> { seq(n, _ => 0) }

  /** The pool holds one question per round still to be asked, and one spare if there were none. */
  ghost predicate PoolOk(cfg: Config, s: State) {
    && |s.round| == |cfg.total|
    && s.pool == Questions(cfg.total, s.round) + Asking(cfg, s)
                 + if Questions(cfg.total, Zeros(|cfg.total|)) == 0 then 1 else 0
  }

  ghost predicate Inv(cfg: Config, s: State) {
    && Modes(cfg, s) && OnePlace(|cfg.total|, s) && Clients(cfg, s) && BarrierCount(cfg, s)
    && Ledger(cfg, s) && PoolOk(cfg, s)
  }

  // ---------- Counting ----------

  lemma {:induction false} ParticipantsCount(total: seq<nat>, r: nat)
    ensures |Participants(total, r)| == ClientsPerRound(total, r)
    decreases |total|
  {
    if total == [] {
      assert Participants(total, r) == {};
    } else {
      var n := |total| - 1;
      ParticipantsCount(total[..n], r);
      assert Participants(total, r) == Participants(total[..n], r) + if total[n] > r then {n} else {};
    }
  }

  lemma {:induction false} SumIncrement(xs: seq<nat>, c: nat)
    requires c < |xs|
    ensures Sum(xs[c := xs[c] + 1]) == Sum(xs) + 1
    decreases |xs|
  {
    if c > 0 {
      SumIncrement(xs[1..], c - 1);
      assert xs[c := xs[c] + 1][1..] == xs[1..][c - 1 := xs[1..][c - 1] + 1];
    } else {
      assert xs[c := xs[c] + 1][1..] == xs[1..];
    }
  }

  lemma {:induction false} SumZeros(n: nat)
    ensures Sum(Zeros(n)) == 0
    decreases n
  {
    if n > 0 {
      SumZeros(n - 1);
      assert Zeros(n)[1..] == Zeros(n - 1);
    }
  }

  lemma {:induction false} QuestionAsked(total: seq<nat>, round: seq<nat>, c: nat)
    requires |total| == |round| && c < |total| && round[c] < total[c]
    ensures Questions(total, round) ==
            Questions(total, round[c := round[c] + 1]) + if round[c] + 1 < total[c] then 1 else 0
    decreases |total|
  {
    if c > 0 {
      QuestionAsked(total[1..], round[1..], c - 1);
      assert round[c := round[c] + 1][1..] == round[1..][c - 1 := round[1..][c - 1] + 1];
    } else {
      assert round[c := round[c] + 1][1..] == round[1..];
    }
  }

  // ---------- Places ----------

  lemma PlacedIsClient(n: nat, s: State, c: nat)
    requires OnePlace(n, s)
    requires InPlay(s, c) || c in s.held || c in s.finished || c in s.failed || c in HandlerHolds(s)
    ensures c < n
  {
    assert Places(s, c) == if c < n then 1 else 0;
  }

  /** A client in the handler's hands is nowhere else. */
  lemma HandledOnly(n: nat, s: State, c: nat)
    requires OnePlace(n, s) && c in HandlerHolds(s)
    ensures c !in s.ready && c !in SenderHolds(s) && c !in s.tasks && c !in Askers(s.responses)
    ensures c !in s.held && c !in s.finished && c !in s.failed
  {
    assert Places(s, c) == if c < n then 1 else 0;
  }

  lemma OnePlaceKept(cfg: Config, s: State, step: Step)
    requires Enabled(s, step) && OnePlace(|cfg.total|, s) && !Next(cfg, s, step).handler.Crashed?
    ensures OnePlace(|cfg.total|, Next(cfg, s, step))
  {
    hide Places, Next;
    forall c: nat ensures Places(Next(cfg, s, step), c) == Places(s, c) {
      if step.Look? || step.PopAt? || step.Launch? {
        SenderKeepsPlaces(cfg, s, step, c);
      } else if step.Answer? || step.Take? {
        AnswerKeepsPlaces(cfg, s, step, c);
      } else {
        HandlerKeepsPlaces(cfg, s, step, c);
      }
    }
  }

  // ---------- Every step keeps the invariant ----------

  lemma NeverCrashes(cfg: Config, s: State, step: Step)
    requires Inv(cfg, s) && Enabled(s, step)
    ensures Modes(cfg, Next(cfg, s, step))
  {
    if step.Count? {
      PlacedIsClient(|cfg.total|, s, s.handler.response.client);
    } else if step.Enqueue? {
      PlacedIsClient(|cfg.total|, s, s.handler.client);
    }
  }

  lemma LedgerKept(cfg: Config, s: State, step: Step)
    requires Enabled(s, step) && Ledger(cfg, s) && Modes(cfg, Next(cfg, s, step))
    ensures Ledger(cfg, Next(cfg, s, step))
  {
    if step.Count? && s.handler.response.ok && s.handler.response.client < |s.round| {
      SumIncrement(s.round, s.handler.response.client);
    }
  }

  lemma PoolKept(cfg: Config, s: State, step: Step)
    requires Enabled(s, step) && PoolOk(cfg, s) && Modes(cfg, Next(cfg, s, step))
    requires step.Count? ==>
               var c := s.handler.response.client;
               c < |cfg.total| && s.round[c] < cfg.total[c]
    ensures PoolOk(cfg, Next(cfg, s, step))
  {
    hide Questions, Zeros;
    if step.Count? {
      QuestionAsked(cfg.total, s.round, s.handler.response.client);
    }
  }

  lemma GotHasRoundsLeft(cfg: Config, s: State)
    requires Inv(cfg, s) && s.handler.Got?
    ensures var c := s.handler.response.client; c < |cfg.total| && s.round[c] < cfg.total[c]
  {
    PlacedIsClient(|cfg.total|, s, s.handler.response.client);
    assert ClientOk(cfg, s, s.handler.response.client);
  }

  lemma SenderKeepsClient(cfg: Config, s: State, step: Step, c: nat)
    requires c < |cfg.total| == |s.round| && ClientOk(cfg, s, c) && Enabled(s, step)
    requires step.Look? || step.PopAt? || step.Launch? || step.Answer? || step.Take?
    ensures ClientOk(cfg, Next(cfg, s, step), c)
  {
    var t := Next(cfg, s, step);
    assert InPlay(t, c) ==> InPlay(s, c) by {
      match step
      case Answer(i, ok) =>
        assert Askers(t.responses) == Askers(s.responses) + [s.tasks[i]];
      case Take =>
        assert Askers(s.responses)[0] in Askers(s.responses);
        assert Askers(t.responses) == Askers(s.responses)[1..];
      case _ =>
    }
  }

  lemma CountKeepsClient(cfg: Config, s: State, c: nat)
    requires c < |cfg.total| && Inv(cfg, s) && s.handler.Got?
    ensures ClientOk(cfg, Next(cfg, s, Count), c)
  {
    var d := s.handler.response.client;
    HandledOnly(|cfg.total|, s, d);
    PlacedIsClient(|cfg.total|, s, d);
    assert ClientOk(cfg, s, c) && ClientOk(cfg, s, d);
  }

  lemma EnqueueKeepsClient(cfg: Config, s: State, c: nat)
    requires c < |cfg.total| && Inv(cfg, s) && s.handler.Counted?
    ensures ClientOk(cfg, Next(cfg, s, Enqueue), c)
  {
    NeverCrashes(cfg, s, Enqueue);
    assert ClientOk(cfg, s, c);
  }

  /** When the count is full, every participant of the round is done. */
  lemma FullCount(cfg: Config, s: State)
    requires Inv(cfg, s) && s.handler.Queued? && BarrierCheck(cfg, s).handler.Releasing?
    ensures Done(s) == Participants(cfg.total, s.barrierRound)
    ensures forall c :: 0 <= c < |cfg.total| && cfg.total[c] > s.barrierRound ==> s.round[c] == s.barrierRound + 1
  {
    forall c | c in Done(s) ensures c in Participants(cfg.total, s.barrierRound) {
      assert ClientOk(cfg, s, c);
    }
    ParticipantsCount(cfg.total, s.barrierRound);
    SubsetSize(Done(s), Participants(cfg.total, s.barrierRound));
    forall c | 0 <= c < |cfg.total| && cfg.total[c] > s.barrierRound ensures s.round[c] == s.barrierRound + 1 {
      assert c in Participants(cfg.total, s.barrierRound);
      assert ClientOk(cfg, s, c);
    }
  }

  lemma BarrierKeepsClient(cfg: Config, s: State, c: nat)
    requires c < |cfg.total| && Inv(cfg, s) && s.handler.Queued?
    ensures ClientOk(cfg, Next(cfg, s, Barrier), c)
  {
    assert ClientOk(cfg, s, c);
    if BarrierCheck(cfg, s).handler.Releasing? {
      FullCount(cfg, s);
    }
  }

  lemma ReleaseKeepsClient(cfg: Config, s: State, c: nat)
    requires c < |cfg.total| && Inv(cfg, s) && s.handler.Releasing?
    ensures ClientOk(cfg, Next(cfg, s, Release), c)
  {
    assert ClientOk(cfg, s, c);
  }

  lemma ClientsKept(cfg: Config, s: State, step: Step)
    requires Inv(cfg, s) && Enabled(s, step)
    ensures Clients(cfg, Next(cfg, s, step))
  {
    hide ClientOk, InPlay, OnePlace, BarrierCount, Ledger, PoolOk, Modes, Open;
    forall c | 0 <= c < |cfg.total| ensures ClientOk(cfg, Next(cfg, s, step), c) {
      match step
      case Count => CountKeepsClient(cfg, s, c);
      case Enqueue => EnqueueKeepsClient(cfg, s, c);
      case Barrier => BarrierKeepsClient(cfg, s, c);
      case Release => ReleaseKeepsClient(cfg, s, c);
      case _ => SenderKeepsClient(cfg, s, step, c);
    }
  }

  lemma CountKeepsBarrierCount(cfg: Config, s: State)
    requires Inv(cfg, s) && s.handler.Got?
    ensures BarrierCount(cfg, Next(cfg, s, Count))
  {
    var c := s.handler.response.client;
    var t := Next(cfg, s, Count);
    PlacedIsClient(|cfg.total|, s, c);
    assert ClientOk(cfg, s, c);
    if cfg.barrier && s.handler.response.ok {
      assert s.round[c] == s.barrierRound;
      assert Done(t) == Done(s) + {c};
    } else {
      assert s.handler.response.ok || Done(t) == Done(s);
    }
  }

  lemma BarrierKeepsBarrierCount(cfg: Config, s: State)
    requires ValidConfig(cfg) && Inv(cfg, s) && s.handler.Queued?
    ensures BarrierCount(cfg, Next(cfg, s, Barrier))
  {
    var t := Next(cfg, s, Barrier);
    if cfg.barrier {
      assert Done(t) == Done(s);
      assert |Done(s)| >= 1;
      var c :| c in Done(s);
      assert ClientOk(cfg, s, c);
      assert c in Participants(cfg.total, s.barrierRound);
      ParticipantsCount(cfg.total, s.barrierRound);
    }
  }

  lemma ReleaseKeepsBarrierCount(cfg: Config, s: State)
    requires Inv(cfg, s) && s.handler.Releasing?
    ensures BarrierCount(cfg, Next(cfg, s, Release))
  {
    var t := Next(cfg, s, Release);
    if s.held == [] {
      forall c | 0 <= c < |s.round| ensures c !in Done(t) {
        assert ClientOk(cfg, s, c);
      }
      assert Done(t) == {};
    }
  }

  lemma BarrierCountKept(cfg: Config, s: State, step: Step)
    requires ValidConfig(cfg) && Inv(cfg, s) && Enabled(s, step)
    ensures BarrierCount(cfg, Next(cfg, s, step))
  {
    match step
    case Count => CountKeepsBarrierCount(cfg, s);
    case Enqueue =>
      NeverCrashes(cfg, s, step);
      assert Done(Next(cfg, s, step)) == Done(s);
    case Barrier => BarrierKeepsBarrierCount(cfg, s);
    case Release => ReleaseKeepsBarrierCount(cfg, s);
    case _ => assert Done(Next(cfg, s, step)) == Done(s);
  }

  lemma InvKept(cfg: Config, s: State, step: Step)
    requires ValidConfig(cfg) && Inv(cfg, s) && Enabled(s, step)
    ensures Inv(cfg, Next(cfg, s, step))
  {
    hide Next, OnePlace, Clients, BarrierCount, Ledger, PoolOk;
    NeverCrashes(cfg, s, step);
    OnePlaceKept(cfg, s, step);
    ClientsKept(cfg, s, step);
    BarrierCountKept(cfg, s, step);
    LedgerKept(cfg, s, step);
    if step.Count? {
      GotHasRoundsLeft(cfg, s);
    }
    PoolKept(cfg, s, step);
  }

  lemma InitialInv(cfg: Config)
    requires ValidConfig(cfg)
    ensures Inv(cfg, Initial(cfg))
  {
    var s, n := Initial(cfg), |cfg.total|;
    forall c: nat ensures Places(s, c) == if c < n then 1 else 0 {
      TimesUpTo(n, c);
    }
    SumZeros(n);
    assert s.round == Zeros(n);
    assert Done(s) == {};
  }

  lemma {:induction false} EveryRun(cfg: Config, steps: seq<Step>)
    requires ValidConfig(cfg)
    ensures Inv(cfg, After(cfg, steps))
    decreases |steps|
  {
    hide Inv;
    if steps == [] {
      InitialInv(cfg);
    } else {
      var n := |steps| - 1;
      EveryRun(cfg, steps[..n]);
      if Enabled(After(cfg, steps[..n]), steps[n]) {
        InvKept(cfg, After(cfg, steps[..n]), steps[n]);
      }
    }
  }
}
