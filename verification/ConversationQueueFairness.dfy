/**
 Fair scheduling of the serving benchmark (benchmark/hicache/bench_serving.py): if the
 dispatcher, the tasks waiting for the semaphore and the requests in flight each get their
 turn, every run ends.
 */
module ConversationQueueFairness {
  import opened ConversationQueue
  import opened ConversationQueueSafety

  datatype Agent = Dispatcher | Waiters | Requests

  function AgentOf(step: Step): Agent {
    match step
    case Dispatch => Dispatcher
    case GiveUp => Dispatcher
    case Begin(_) => Waiters
    case _ => Requests
  }

  ghost predicate CanStep(cfg: Config, s: State, a: Agent) {
    exists step :: AgentOf(step) == a && Enabled(cfg, s, step)
  }

  /** At position `k` the agent has nothing to do, or does it. */
  ghost predicate Attended(cfg: Config, steps: seq<Step>, a: Agent, k: nat)
    requires k < |steps|
  {
    var s := After(cfg, steps[..k]);
    CanStep(cfg, s, a) ==> AgentOf(steps[k]) == a && Enabled(cfg, s, steps[k])
  }

  /** No agent waits for `w` steps in a row with something to do. */
  ghost predicate Served(cfg: Config, steps: seq<Step>, w: nat, a: Agent, i: nat)
    requires i + w <= |steps|
  {
    exists k: nat :: i <= k < i + w && Attended(cfg, steps, a, k)
  }

  ghost predicate Scheduled(cfg: Config, steps: seq<Step>, w: nat) {
    forall a, i: nat :: i + w <= |steps| ==> Served(cfg, steps, w, a, i)
  }

  // ---------- A stretch without progress ----------

  lemma {:induction false} ProgressMonotone(cfg: Config, steps: seq<Step>, i: nat, j: nat)
    requires i <= j <= |steps|
    ensures Progress(cfg, steps[..i]) <= Progress(cfg, steps[..j])
    decreases j
  {
    hide After, Enabled;
    if i < j {
      ProgressMonotone(cfg, steps, i, j - 1);
      assert steps[..j][..j - 1] == steps[..j - 1];
    }
  }

  /** Nothing changes but that the dispatcher may give up, and that only on an empty queue. */
  ghost predicate Idled(s: State, t: State) {
    t == s.(stopped := t.stopped) && (s.queue != [] ==> t == s)
  }

  lemma IdleStepIdles(cfg: Config, s: State, step: Step)
    requires Enabled(cfg, s, step) ==> step.GiveUp?
    ensures Idled(s, Do(cfg, s, step))
  {
  }

  lemma IdledTwice(s: State, t: State, u: State)
    ensures Idled(s, s) && (Idled(s, t) && Idled(t, u) ==> Idled(s, u))
  {
  }

  lemma {:induction false} NoProgress(cfg: Config, steps: seq<Step>, i: nat, j: nat)
    requires i <= j <= |steps| && Progress(cfg, steps[..i]) == Progress(cfg, steps[..j])
    ensures Idled(After(cfg, steps[..i]), After(cfg, steps[..j]))
    decreases j
  {
    hide Enabled, Do, Idled;
    if i < j {
      ProgressMonotone(cfg, steps, i, j - 1);
      ProgressMonotone(cfg, steps, j - 1, j);
      NoProgress(cfg, steps, i, j - 1);
      assert steps[..j][..j - 1] == steps[..j - 1];
      IdleStepIdles(cfg, After(cfg, steps[..j - 1]), steps[j - 1]);
      IdledTwice(After(cfg, steps[..i]), After(cfg, steps[..j - 1]), After(cfg, steps[..j]));
    } else {
      IdledTwice(After(cfg, steps[..i]), After(cfg, steps[..i]), After(cfg, steps[..i]));
    }
  }

  /** Inside a stretch without progress, whoever moves only gives up. */
  lemma Within(cfg: Config, steps: seq<Step>, i: nat, k: nat, j: nat)
    requires i <= k < j <= |steps| && Progress(cfg, steps[..i]) == Progress(cfg, steps[..j])
    ensures Idled(After(cfg, steps[..i]), After(cfg, steps[..k]))
    ensures Enabled(cfg, After(cfg, steps[..k]), steps[k]) ==> steps[k].GiveUp?
  {
    ProgressMonotone(cfg, steps, i, k);
    ProgressMonotone(cfg, steps, k, k + 1);
    ProgressMonotone(cfg, steps, k + 1, j);
    hide After, Enabled, Idled;
    NoProgress(cfg, steps, i, k);
    assert steps[..k + 1][..k] == steps[..k];
  }

  // ---------- Every fairly scheduled run ends ----------

  /** Which agent has something to do that is more than giving up. */
  function Mover(s: State): Agent {
    if s.running != [] then Requests else if s.waiting != [] then Waiters else Dispatcher
  }

  lemma MoverCanStep(cfg: Config, s: State, t: State)
    requires ValidConfig(cfg) && Inv(cfg, s) && Busy(s) && Idled(s, t)
    ensures CanStep(cfg, t, Mover(s))
    ensures Mover(s) == Dispatcher ==> t.queue != []
  {
    hide Inv, ValidConfig, TotalTurns;
    StepForward(cfg, s);
    assert AgentOf(Forward(s)) == Mover(s);
    assert Enabled(cfg, t, Forward(s));
  }

  /** While there is work, `w` steps in which every agent gets its turn make progress. */
  lemma WorkMoves(cfg: Config, steps: seq<Step>, w: nat, i: nat)
    requires ValidConfig(cfg) && Scheduled(cfg, steps, w) && i + w <= |steps| && Busy(After(cfg, steps[..i]))
    ensures Progress(cfg, steps[..i]) < Progress(cfg, steps[..i + w])
  {
    hide After, Progress, CanStep, Inv, Idled, Busy, TotalTurns, ValidConfig;
    ProgressMonotone(cfg, steps, i, i + w);
    if Progress(cfg, steps[..i]) == Progress(cfg, steps[..i + w]) {
      var s := After(cfg, steps[..i]);
      EveryRun(cfg, steps[..i]);
      assert Served(cfg, steps, w, Mover(s), i);
      var k: nat :| i <= k < i + w && Attended(cfg, steps, Mover(s), k);
      Within(cfg, steps, i, k, i + w);
      MoverCanStep(cfg, s, After(cfg, steps[..k]));
    }
  }

  /**
   If no agent waits for `w` steps with something to do, the run has come to its end after a
   number of steps known from the start.
   */
  lemma ScheduledRunsEnd(cfg: Config, steps: seq<Step>, w: nat)
    requires ValidConfig(cfg) && Scheduled(cfg, steps, w) && |steps| >= (Rank(cfg, Initial(cfg)) + 1) * w
    ensures !Busy(After(cfg, steps))
  {
    hide After, Progress, Busy, Scheduled, ValidConfig, Rank;
    forall i | 0 <= i <= |steps| - w && Busy(After(cfg, steps[..i]))
      ensures Progress(cfg, steps[..i]) < Progress(cfg, steps[..i + w])
    {
      WorkMoves(cfg, steps, w, i);
    }
    FairRunsEnd(cfg, steps, w);
  }
}
