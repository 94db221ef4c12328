/**
 Fair scheduling of the multi-turn workload generator (benchmark/hicache/bench_multiturn.py):
 if the sender, the request tasks and the response thread each get their turn, every run ends.
 */
module RoundBarrierFairness {
  import opened RoundBarrier
  import opened RoundBarrierSafety
  import opened RoundBarrierTheorems

  datatype Thread = SenderThread | TaskThread | HandlerThread

  function ThreadOf(step: Step): Thread {
    match step
    case Look => SenderThread
    case PopAt(_) => SenderThread
    case Launch => SenderThread
    case Answer(_, _) => TaskThread
    case _ => HandlerThread
  }

  ghost predicate CanStep(s: State, t: Thread) {
    exists step :: ThreadOf(step) == t && Enabled(s, step)
  }

  /** At position `k` the thread has nothing to do, or does it. */
  ghost predicate Attended(cfg: Config, steps: seq<Step>, t: Thread, k: nat)
    requires k < |steps|
  {
    var s := After(cfg, steps[..k]);
    CanStep(s, t) ==> ThreadOf(steps[k]) == t && Enabled(s, steps[k])
  }

  /** No thread waits for `w` steps in a row with something to do. */
  ghost predicate Served(cfg: Config, steps: seq<Step>, w: nat, t: Thread, i: nat)
    requires i + w <= |steps|
  {
    exists k: nat :: i <= k < i + w && Attended(cfg, steps, t, k)
  }

  ghost predicate Scheduled(cfg: Config, steps: seq<Step>, w: nat) {
    forall t, i: nat :: i + w <= |steps| ==> Served(cfg, steps, w, t, i)
  }

  // ---------- A stretch without progress ----------

  lemma {:induction false} ProgressMonotone(cfg: Config, steps: seq<Step>, i: nat, j: nat)
    requires i <= j <= |steps|
    ensures Progress(cfg, steps[..i]) <= Progress(cfg, steps[..j])
    decreases j
  {
    if i < j {
      ProgressMonotone(cfg, steps, i, j - 1);
      assert steps[..j][..j - 1] == steps[..j - 1];
    }
  }

  /** Polling changes nothing but where the sender is, and takes a cleared sender nowhere while requests are ready. */
  ghost predicate Polled(s: State, t: State) {
    && t == s.(sender := t.sender)
    && (s.sender.Popped? ==> t.sender == s.sender)
    && (s.sender.Cleared? && s.ready != [] ==> t.sender == s.sender)
    && (!s.sender.Popped? ==> !t.sender.Popped?)
  }

  lemma PollingPolls(cfg: Config, s: State, step: Step)
    requires !Productive(s, step)
    ensures Polled(s, Do(cfg, s, step))
  {
  }

  lemma {:induction false} NoProgress(cfg: Config, steps: seq<Step>, i: nat, j: nat)
    requires i <= j <= |steps| && Progress(cfg, steps[..i]) == Progress(cfg, steps[..j])
    ensures Polled(After(cfg, steps[..i]), After(cfg, steps[..j]))
    ensures j < |steps| && Progress(cfg, steps[..j + 1]) == Progress(cfg, steps[..j]) ==>
              !Productive(After(cfg, steps[..j]), steps[j])
    decreases j
  {
    hide Do, Productive;
    if j < |steps| {
      assert steps[..j + 1][..j] == steps[..j];
    }
    if i < j {
      ProgressMonotone(cfg, steps, i, j - 1);
      ProgressMonotone(cfg, steps, j - 1, j);
      NoProgress(cfg, steps, i, j - 1);
      assert steps[..j][..j - 1] == steps[..j - 1];
      PollingPolls(cfg, After(cfg, steps[..j - 1]), steps[j - 1]);
    }
  }

  /** Inside a stretch without progress. */
  lemma Within(cfg: Config, steps: seq<Step>, i: nat, k: nat, j: nat)
    requires i <= k < j <= |steps| && Progress(cfg, steps[..i]) == Progress(cfg, steps[..j])
    ensures Polled(After(cfg, steps[..i]), After(cfg, steps[..k]))
    ensures Polled(After(cfg, steps[..k]), After(cfg, steps[..k + 1]))
    ensures !Productive(After(cfg, steps[..k]), steps[k])
  {
    hide Progress, Productive, After, Polled;
    ProgressMonotone(cfg, steps, i, k);
    ProgressMonotone(cfg, steps, k, k + 1);
    ProgressMonotone(cfg, steps, k + 1, j);
    NoProgress(cfg, steps, i, k);
    NoProgress(cfg, steps, k, k + 1);
  }

  // ---------- Tasks and the response thread ----------

  lemma PolledCanStep(s: State, t: State, th: Thread)
    requires Polled(s, t) && th != SenderThread && CanStep(s, th)
    ensures CanStep(t, th)
  {
    var step :| ThreadOf(step) == th && Enabled(s, step);
    assert Enabled(t, step);
  }

  lemma OthersAreProductive(s: State, step: Step)
    requires Enabled(s, step) && ThreadOf(step) != SenderThread
    ensures Productive(s, step)
  {
  }

  /** A task or the response thread with something to do makes progress within `w` steps. */
  lemma OthersMove(cfg: Config, steps: seq<Step>, w: nat, i: nat, th: Thread)
    requires Scheduled(cfg, steps, w) && i + w <= |steps| && th != SenderThread
    requires CanStep(After(cfg, steps[..i]), th)
    ensures Progress(cfg, steps[..i]) < Progress(cfg, steps[..i + w])
  {
    hide After, Progress, CanStep, Polled, Productive;
    ProgressMonotone(cfg, steps, i, i + w);
    if Progress(cfg, steps[..i]) == Progress(cfg, steps[..i + w]) {
      assert Served(cfg, steps, w, th, i);
      var k: nat :| i <= k < i + w && Attended(cfg, steps, th, k);
      Within(cfg, steps, i, k, i + w);
      PolledCanStep(After(cfg, steps[..i]), After(cfg, steps[..k]), th);
      OthersAreProductive(After(cfg, steps[..k]), steps[k]);
    }
  }

  // ---------- The sender ----------

  lemma SenderCanStep(s: State)
    ensures CanStep(s, SenderThread)
  {
    var step := match s.sender case Looking => Look case Cleared => PopAt(0) case Popped(_) => Launch;
    assert ThreadOf(step) == SenderThread && Enabled(s, step);
  }

  /** With nobody else at work and room for a request, the sender's test succeeds. */
  lemma SenderStepClears(cfg: Config, s: State, step: Step)
    requires cfg.maxParallel >= 1 && s.sent == s.completed && s.ready != []
    requires ThreadOf(step) == SenderThread && Enabled(s, step) && !Productive(s, step)
    ensures s.sender.Looking? && Do(cfg, s, step).sender.Cleared?
  {
  }

  /** Somewhere in `w` steps without progress the sender goes from looking to cleared. */
  lemma SenderClears(cfg: Config, steps: seq<Step>, w: nat, i: nat) returns (k: nat)
    requires cfg.maxParallel >= 1 && Scheduled(cfg, steps, w) && i + w <= |steps|
    requires Progress(cfg, steps[..i]) == Progress(cfg, steps[..i + w])
    requires var s := After(cfg, steps[..i]); s.sent == s.completed && s.ready != []
    ensures i <= k < i + w
    ensures After(cfg, steps[..k]).sender.Looking? && After(cfg, steps[..k + 1]).sender.Cleared?
  {
    hide Progress, CanStep, Productive, Do;
    assert Served(cfg, steps, w, SenderThread, i);
    k :| i <= k < i + w && Attended(cfg, steps, SenderThread, k);
    Within(cfg, steps, i, k, i + w);
    SenderCanStep(After(cfg, steps[..k]));
    assert steps[..k + 1][..k] == steps[..k];
    SenderStepClears(cfg, After(cfg, steps[..k]), steps[k]);
  }

  /** A sender with requests to send, and nobody else at work, sends one within 2 w steps. */
  lemma SenderMoves(cfg: Config, steps: seq<Step>, w: nat, i: nat)
    requires cfg.maxParallel >= 1 && Scheduled(cfg, steps, w) && i + 2 * w <= |steps|
    requires var s := After(cfg, steps[..i]); s.sent == s.completed && s.ready != []
    ensures Progress(cfg, steps[..i]) < Progress(cfg, steps[..i + 2 * w])
  {
    hide Progress, Scheduled, After, Polled;
    ProgressMonotone(cfg, steps, i, i + w);
    ProgressMonotone(cfg, steps, i + w, i + 2 * w);
    if Progress(cfg, steps[..i]) == Progress(cfg, steps[..i + 2 * w]) {
      NoProgress(cfg, steps, i, i + w);
      PolledBooks(After(cfg, steps[..i]), After(cfg, steps[..i + w]));
      var k := SenderClears(cfg, steps, w, i);
      var l := SenderClears(cfg, steps, w, i + w);
      ProgressMonotone(cfg, steps, i, k + 1);
      ProgressMonotone(cfg, steps, k + 1, l);
      ProgressMonotone(cfg, steps, l, i + 2 * w);
      NoProgress(cfg, steps, i, k + 1);
      NoProgress(cfg, steps, k + 1, l);
      ClearedStays(After(cfg, steps[..i]), After(cfg, steps[..k + 1]), After(cfg, steps[..l]));
    }
  }

  lemma PolledBooks(s: State, t: State)
    requires Polled(s, t)
    ensures t.sent == s.sent && t.completed == s.completed && t.ready == s.ready
  {
  }

  lemma ClearedStays(s: State, t: State, u: State)
    requires Polled(s, t) && Polled(t, u) && s.ready != [] && t.sender.Cleared?
    ensures u.sender.Cleared?
  {
  }

  // ---------- Every fairly scheduled run ends ----------

  lemma HandlerCanStep(s: State)
    requires !s.handler.Crashed? && (s.responses != [] || !s.handler.Idle?)
    ensures CanStep(s, HandlerThread)
  {
    var step := match s.handler
                case Idle => Take
                case Got(_) => Count
                case Counted(_) => Enqueue
                case Queued => Barrier
                case _ => Release;
    assert ThreadOf(step) == HandlerThread && Enabled(s, step);
  }

  lemma TaskCanStep(s: State)
    requires s.tasks != []
    ensures CanStep(s, TaskThread)
  {
    assert ThreadOf(Answer(0, true)) == TaskThread && Enabled(s, Answer(0, true));
  }

  /** A sender that holds a request sends it within `w` steps. */
  lemma PoppedMoves(cfg: Config, steps: seq<Step>, w: nat, i: nat)
    requires Scheduled(cfg, steps, w) && i + w <= |steps| && After(cfg, steps[..i]).sender.Popped?
    ensures Progress(cfg, steps[..i]) < Progress(cfg, steps[..i + w])
  {
    hide After, Progress, CanStep;
    ProgressMonotone(cfg, steps, i, i + w);
    if Progress(cfg, steps[..i]) == Progress(cfg, steps[..i + w]) {
      assert Served(cfg, steps, w, SenderThread, i);
      var k: nat :| i <= k < i + w && Attended(cfg, steps, SenderThread, k);
      Within(cfg, steps, i, k, i + w);
      SenderCanStep(After(cfg, steps[..k]));
    }
  }

  lemma NobodyAtWork(cfg: Config, steps: seq<Step>)
    requires ValidConfig(cfg)
    ensures var s := After(cfg, steps);
            && !s.handler.Crashed?
            && (s.tasks == [] && s.responses == [] && s.handler.Idle? ==> s.sent == s.completed)
  {
    hide After;
    EveryRun(cfg, steps);
  }

  /** While there is work, 2 w steps in which every thread gets its turn make progress. */
  lemma WorkMoves(cfg: Config, steps: seq<Step>, w: nat, i: nat)
    requires ValidConfig(cfg) && cfg.maxParallel >= 1 && Scheduled(cfg, steps, w) && i + 2 * w <= |steps|
    requires !Quiescent(After(cfg, steps[..i]))
    ensures Progress(cfg, steps[..i]) < Progress(cfg, steps[..i + 2 * w])
  {
    hide After, Progress, CanStep, Scheduled, ValidConfig;
    var s := After(cfg, steps[..i]);
    NobodyAtWork(cfg, steps[..i]);
    ProgressMonotone(cfg, steps, i + w, i + 2 * w);
    if s.tasks != [] {
      TaskCanStep(s);
      OthersMove(cfg, steps, w, i, TaskThread);
    } else if s.responses != [] || !s.handler.Idle? {
      HandlerCanStep(s);
      OthersMove(cfg, steps, w, i, HandlerThread);
    } else if s.sender.Popped? {
      PoppedMoves(cfg, steps, w, i);
    } else {
      SenderMoves(cfg, steps, w, i);
    }
  }

  /** Turns for every thread are progress for the run. */
  lemma ScheduledIsFair(cfg: Config, steps: seq<Step>, w: nat)
    requires ValidConfig(cfg) && cfg.maxParallel >= 1 && Scheduled(cfg, steps, w)
    ensures Fair(cfg, steps, 2 * w)
  {
    hide After, Progress, Quiescent, Scheduled;
    forall i | 0 <= i <= |steps| - 2 * w && !Quiescent(After(cfg, steps[..i]))
      ensures Progress(cfg, steps[..i]) < Progress(cfg, steps[..i + 2 * w])
    {
      WorkMoves(cfg, steps, w, i);
    }
  }

  /**
   If no thread waits for `w` steps with something to do, the run has nothing left to do after
   a number of steps known from the start.  Without failures every client has then finished;
   and every request is answered, as the loops wait for, exactly if only last rounds failed.
   */
  lemma ScheduledRunsEnd(cfg: Config, steps: seq<Step>, w: nat)
    requires ValidConfig(cfg) && cfg.maxParallel >= 1 && Scheduled(cfg, steps, w)
    requires |steps| >= (Rank(cfg, Initial(cfg)) + 1) * (2 * w)
    ensures Quiescent(After(cfg, steps))
    ensures After(cfg, steps).failed == [] ==> AllFinished(cfg, After(cfg, steps))
    ensures |After(cfg, steps).round| == |cfg.total|
    ensures After(cfg, steps).completed == Sum(cfg.total) <==> OnlyLastRoundsFailed(cfg, After(cfg, steps))
  {
    hide After, Quiescent, AllFinished, OnlyLastRoundsFailed;
    ScheduledIsFair(cfg, steps, w);
    FairRunsEnd(cfg, steps, 2 * w);
    LoopsEndIff(cfg, steps, []);
  }

  /** The sender needs at least one slot: with none, the first requests wait for ever. */
  lemma {:induction false} NoSlotNoRequest(cfg: Config, steps: seq<Step>)
    requires ValidConfig(cfg) && cfg.maxParallel <= 0
    ensures After(cfg, steps) == Initial(cfg)
    decreases |steps|
  {
    if steps != [] {
      NoSlotNoRequest(cfg, steps[..|steps| - 1]);
    }
  }
}
