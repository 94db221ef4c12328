/**
 The multi-turn workload generator (benchmark/hicache/bench_multiturn.py) against the history
 of its run: what the tasks answered, in which order it is handled, and in which order clients
 are served.
 */
module RoundBarrierHistory {
  import opened Census
  import opened RoundBarrier
  import opened RoundBarrierSafety

  // ---------- Answers ----------

  /** The response that a step brings, given the tasks in flight. */
  function NewResponse(tasks: seq<nat>, step: Step): seq<Response> {
    if step.Answer? && step.index < |tasks| then [Response(tasks[step.index], step.ok)] else []
  }

  /** What the tasks answered in a run, in order. */
  function Answered(cfg: Config, steps: seq<Step>): seq<Response> {
    if steps == [] then []
    else
      var n := |steps| - 1;
      Answered(cfg, steps[..n]) + NewResponse(After(cfg, steps[..n]).tasks, steps[n])
  }

  /** Responses not yet counted, the oldest first. */
  function Pending(s: State): seq<Response> {
    (if s.handler.Got? then [s.handler.response] else []) + s.responses
  }

  /** How often client `c` succeeded among the responses. */
  function Successes(rs: seq<Response>, c: nat): nat {
    if rs == [] then 0
    else Successes(rs[..|rs| - 1], c) + if rs[|rs| - 1].client == c && rs[|rs| - 1].ok then 1 else 0
  }

  /** The clients that failed among the responses, in order. */
  function Failures(rs: seq<Response>): seq<nat> {
    if rs == [] then []
    else Failures(rs[..|rs| - 1]) + if rs[|rs| - 1].ok then [] else [rs[|rs| - 1].client]
  }

  /** The books agree with the responses counted so far. */
  ghost predicate Agrees(s: State, handled: seq<Response>) {
    && s.completed == |handled| && s.failed == Failures(handled)
    && forall c :: 0 <= c < |s.round| ==> s.round[c] == Successes(handled, c)
  }

  lemma CountAgrees(cfg: Config, s: State, handled: seq<Response>)
    requires Agrees(s, handled) && s.handler.Got? && s.handler.response.client < |s.round|
    ensures Agrees(Do(cfg, s, Count), handled + [s.handler.response])
  {
    var r := s.handler.response;
    assert (handled + [r])[..|handled|] == handled;
  }

  lemma OthersAgree(cfg: Config, s: State, step: Step, handled: seq<Response>)
    requires Agrees(s, handled) && !(step.Count? && s.handler.Got?)
    ensures Agrees(Do(cfg, s, step), handled)
  {
    hide Successes, Failures;
  }

  lemma PendingStep(cfg: Config, s: State, step: Step)
    requires !(step.Count? && s.handler.Got?)
    ensures Pending(Do(cfg, s, step)) == Pending(s) + NewResponse(s.tasks, step)
  {
  }

  lemma PendingCount(cfg: Config, s: State)
    requires s.handler.Got?
    ensures Pending(s) == [s.handler.response] + Pending(Do(cfg, s, Count)) && NewResponse(s.tasks, Count) == []
  {
  }

  /** Part of the answers is counted and agrees with the books; the rest is pending in order. */
  ghost predicate Handled(s: State, answered: seq<Response>) {
    && 0 <= s.completed <= |answered| && Pending(s) == answered[s.completed..]
    && Agrees(s, answered[..s.completed])
  }

  lemma HandledStep(cfg: Config, s: State, step: Step, answered: seq<Response>)
    requires Inv(cfg, s) && Handled(s, answered)
    ensures Handled(Do(cfg, s, step), answered + NewResponse(s.tasks, step))
  {
    var more := answered + NewResponse(s.tasks, step);
    var k := s.completed;
    if step.Count? && s.handler.Got? {
      GotHasRoundsLeft(cfg, s);
      PendingCount(cfg, s);
      CountAgrees(cfg, s, answered[..k]);
      CountedNext(answered, k, s.handler.response, Pending(Do(cfg, s, step)));
      hide Inv, Do, Agrees, Pending;
      assert more == answered;
    } else {
      PendingStep(cfg, s, step);
      OthersAgree(cfg, s, step, answered[..k]);
      hide Inv, Pending, Do;
      assert more[..k] == answered[..k] && more[k..] == answered[k..] + NewResponse(s.tasks, step);
    }
  }

  lemma CountedNext(answered: seq<Response>, k: nat, r: Response, rest: seq<Response>)
    requires k <= |answered| && answered[k..] == [r] + rest
    ensures k < |answered| && answered[..k + 1] == answered[..k] + [r] && answered[k + 1..] == rest
  {
    assert answered[k] == answered[k..][0];
    assert answered[k + 1..] == answered[k..][1..];
  }

  /**
   In every run the responses are counted in the order in which the tasks answered.  A client's
   round is the number of its successes counted so far, and the failed clients are those of the
   failures counted so far, in order.
   */
  lemma {:induction false} CountedInOrder(cfg: Config, steps: seq<Step>)
    requires ValidConfig(cfg)
    ensures Handled(After(cfg, steps), Answered(cfg, steps))
    decreases |steps|
  {
    if steps != [] {
      var n := |steps| - 1;
      CountedInOrder(cfg, steps[..n]);
      EveryRun(cfg, steps[..n]);
      hide Handled, Inv, Do, NewResponse;
      HandledStep(cfg, After(cfg, steps[..n]), steps[n], Answered(cfg, steps[..n]));
    }
  }

  // ---------- The sender ----------

  /** The sender's test succeeds exactly when fewer than the allowed number of requests are unanswered or uncounted. */
  lemma LookClears(cfg: Config, steps: seq<Step>)
    requires ValidConfig(cfg) && After(cfg, steps).sender.Looking?
    ensures var s := After(cfg, steps);
            Do(cfg, s, Look).sender.Cleared? <==> |s.tasks| + |Pending(s)| < cfg.maxParallel
  {
    hide After;
    EveryRun(cfg, steps);
  }

  /** The client that a step makes ready: its next request was asked for, at once or by a release. */
  function NewReady(cfg: Config, s: State, step: Step): seq<nat> {
    match step
    case Enqueue =>
      if s.handler.Counted? && s.handler.client < |cfg.total| == |s.round| && !cfg.barrier
         && s.round[s.handler.client] < cfg.total[s.handler.client] then [s.handler.client] else []
    case Release => if s.handler.Releasing? && s.held != [] then [s.held[0]] else []
    case _ => []
  }

  /** Clients in the order in which their requests became ready. */
  function Arrivals(cfg: Config, steps: seq<Step>): seq<nat> {
    if steps == [] then UpTo(|cfg.total|)
    else
      var n := |steps| - 1;
      Arrivals(cfg, steps[..n]) + NewReady(cfg, After(cfg, steps[..n]), steps[n])
  }

  /** The client the sender takes in a step, if it takes one. */
  function NewTaken(before: State, after: State): seq<nat> {
    if !before.sender.Popped? && after.sender.Popped? then [after.sender.client] else []
  }

  /** Clients in the order in which the sender takes them. */
  function Taken(cfg: Config, steps: seq<Step>): seq<nat> {
    if steps == [] then []
    else
      var n := |steps| - 1;
      Taken(cfg, steps[..n]) + NewTaken(After(cfg, steps[..n]), After(cfg, steps))
  }

  /** The first-in-first-out policy: every pop is at the head. */
  ghost predicate Fifo(steps: seq<Step>) {
    forall k :: 0 <= k < |steps| && steps[k].PopAt? ==> steps[k].index == 0
  }

  lemma ReadyStep(cfg: Config, s: State, step: Step)
    requires Inv(cfg, s) && (step.PopAt? ==> step.index == 0)
    ensures var t := Do(cfg, s, step); NewTaken(s, t) + t.ready == s.ready + NewReady(cfg, s, step)
  {
    if step.Enqueue? && s.handler.Counted? {
      NeverCrashes(cfg, s, step);
    }
    assert RemoveAtFirst(s.ready);
  }

  predicate RemoveAtFirst(xs: seq<nat>) {
    xs == [] || RemoveAt(xs, 0) == xs[1..]
  }

  /** Under that policy requests are sent in the order in which they became ready. */
  lemma {:induction false} SentInOrder(cfg: Config, steps: seq<Step>)
    requires ValidConfig(cfg) && Fifo(steps)
    ensures Taken(cfg, steps) + After(cfg, steps).ready == Arrivals(cfg, steps)
    decreases |steps|
  {
    if steps != [] {
      var n := |steps| - 1;
      SentInOrder(cfg, steps[..n]);
      var s := After(cfg, steps[..n]);
      EveryRun(cfg, steps[..n]);
      hide Inv, Do, NewReady, NewTaken;
      ReadyStep(cfg, s, steps[n]);
      Rejoin(Taken(cfg, steps[..n]), s.ready, Arrivals(cfg, steps[..n]), NewTaken(s, After(cfg, steps)),
             After(cfg, steps).ready, NewReady(cfg, s, steps[n]));
    }
  }

  // ---------- The barrier's own queue ----------

  /** The client that a step leaves at the barrier. */
  function NewHeld(cfg: Config, s: State, step: Step): seq<nat> {
    if step.Enqueue? && s.handler.Counted? && s.handler.client < |cfg.total| == |s.round| && cfg.barrier
       && s.round[s.handler.client] < cfg.total[s.handler.client] then [s.handler.client] else []
  }

  /** Clients in the order in which they came to the barrier. */
  function AtBarrier(cfg: Config, steps: seq<Step>): seq<nat> {
    if steps == [] then []
    else
      var n := |steps| - 1;
      AtBarrier(cfg, steps[..n]) + NewHeld(cfg, After(cfg, steps[..n]), steps[n])
  }

  /** The client that a release makes ready. */
  function NewReleased(before: State, after: State, step: Step): seq<nat> {
    if step.Release? && |after.ready| > |before.ready| then [after.ready[|after.ready| - 1]] else []
  }

  /** Clients in the order in which the barrier let them go. */
  function Released(cfg: Config, steps: seq<Step>): seq<nat> {
    if steps == [] then []
    else
      var n := |steps| - 1;
      Released(cfg, steps[..n]) + NewReleased(After(cfg, steps[..n]), After(cfg, steps), steps[n])
  }

  lemma HeldStep(cfg: Config, s: State, step: Step)
    requires Inv(cfg, s)
    ensures var t := Do(cfg, s, step); NewReleased(s, t, step) + t.held == s.held + NewHeld(cfg, s, step)
  {
    if step.Enqueue? && s.handler.Counted? {
      NeverCrashes(cfg, s, step);
    }
  }

  /** The barrier lets clients go in the order in which they came. */
  lemma {:induction false} ReleasedInOrder(cfg: Config, steps: seq<Step>)
    requires ValidConfig(cfg)
    ensures Released(cfg, steps) + After(cfg, steps).held == AtBarrier(cfg, steps)
    decreases |steps|
  {
    if steps != [] {
      var n := |steps| - 1;
      ReleasedInOrder(cfg, steps[..n]);
      var s := After(cfg, steps[..n]);
      EveryRun(cfg, steps[..n]);
      hide Inv, Do, NewHeld, NewReleased;
      HeldStep(cfg, s, steps[n]);
      Rejoin(Released(cfg, steps[..n]), s.held, AtBarrier(cfg, steps[..n]),
             NewReleased(s, After(cfg, steps), steps[n]), After(cfg, steps).held, NewHeld(cfg, s, steps[n]));
    }
  }
}
