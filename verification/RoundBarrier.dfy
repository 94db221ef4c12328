/**
 The multi-turn workload generator (benchmark/hicache/bench_multiturn.py) as a transition
 system.  A sender thread, its request tasks and a response thread share counters and queues.
 Each step below is one action of one of them; steps interleave in any order, the ready queue
 pops at any index, tasks answer in any order, and any request may fail.
 */
module RoundBarrier {
  import opened Census

  datatype Config = Config(total: seq<nat>, maxRounds: nat, maxParallel: int, barrier: bool)

  /** What the constructor establishes about the per-client round counts. */
  ghost predicate ValidConfig(cfg: Config) {
    forall c :: 0 <= c < |cfg.total| ==> 1 <= cfg.total[c] <= cfg.maxRounds
  }

  /** The sender: before its test, after it, or holding a popped request. */
  datatype Sender = Looking | Cleared | Popped(client: nat)

  datatype Response = Response(client: nat, ok: bool)

  /** The response thread, by what it does next. */
  datatype Handler =
    | Idle
    | Got(response: Response)
    | Counted(client: nat)
    | Queued
    | Releasing
    | Crashed

  /** `finished` and `failed` are history: the source keeps no record of them. */
  datatype State = State(
    ready: seq<nat>,
    sender: Sender,
    tasks: seq<nat>,
    responses: seq<Response>,
    handler: Handler,
    held: seq<nat>,
    finished: seq<nat>,
    failed: seq<nat>,
    round: seq<nat>,
    sent: int,
    completed: int,
    barrierRound: nat,
    barrierDone: nat,
    pool: nat)

  datatype Step = Look | PopAt(index: nat) | Launch | Answer(index: nat, ok: bool)
                | Take | Count | Enqueue | Barrier | Release

  // ---------- Sums and counts over clients ----------

  function Sum(xs: seq<nat>): nat {
    if xs == [] then 0 else xs[0] + Sum(xs[1..])
  }

  /** Clients that take part in round `r`. */
  function ClientsPerRound(total: seq<nat>, r: nat): nat {
    if total == [] then 0
    else ClientsPerRound(total[..|total| - 1], r) + if total[|total| - 1] > r then 1 else 0
  }

  /** Follow-up questions still to be asked: one per round after the first. */
  function Questions(total: seq<nat>, round: seq<nat>): nat
    requires |total| == |round|
  {
    if total == [] then 0
    else (if total[0] > round[0] + 1 then total[0] - 1 - round[0] else 0) + Questions(total[1..], round[1..])
  }

  // ---------- The transition system ----------

  function Initial(cfg: Config): State {
    var n := |cfg.total|;
    var zeros := seq(n, _ => 0);
    var questions := Questions(cfg.total, zeros);
    State(UpTo(n), Looking, [], [], Idle, [], [], [], zeros, 0, 0, 0, 0,
          if questions >= 1 then questions else 1)
  }

  predicate Enabled(s: State, step: Step) {
    match step
    case Look => s.sender.Looking?
    case PopAt(i) => s.sender.Cleared? && (s.ready != [] ==> i < |s.ready|)
    case Launch => s.sender.Popped?
    case Answer(i, _) => i < |s.tasks|
    case Take => s.handler.Idle? && s.responses != []
    case Count => s.handler.Got?
    case Enqueue => s.handler.Counted?
    case Barrier => s.handler.Queued?
    case Release => s.handler.Releasing?
  }

  function Next(cfg: Config, s: State, step: Step): State
    requires Enabled(s, step)
  {
    match step
    case Look =>
      if s.sent - s.completed < cfg.maxParallel then s.(sender := Cleared) else s
    case PopAt(i) =>
      if s.ready == [] then s.(sender := Looking)
      else s.(sender := Popped(s.ready[i]), ready := RemoveAt(s.ready, i))
    case Launch =>
      s.(sender := Looking, tasks := s.tasks + [s.sender.client], sent := s.sent + 1)
    case Answer(i, ok) =>
      s.(tasks := RemoveAt(s.tasks, i), responses := s.responses + [Response(s.tasks[i], ok)])
    case Take =>
      s.(responses := s.responses[1..], handler := Got(s.responses[0]))
    case Count => CountResponse(s)
    case Enqueue => EnqueueNext(cfg, s)
    case Barrier => BarrierCheck(cfg, s)
    case Release =>
      if s.held != [] then s.(ready := s.ready + [s.held[0]], held := s.held[1..])
      else s.(handler := Idle, barrierRound := s.barrierRound + 1, barrierDone := 0)
  }

  function CountResponse(s: State): State
    requires s.handler.Got?
  {
    var c := s.handler.response.client;
    if !s.handler.response.ok then
      s.(handler := Idle, completed := s.completed + 1, failed := s.failed + [c])
    else if c < |s.round| then
      s.(handler := Counted(c), completed := s.completed + 1, round := s.round[c := s.round[c] + 1])
    else s.(handler := Crashed)
  }

  /** Popping an empty question pool would end the response thread. */
  function EnqueueNext(cfg: Config, s: State): State
    requires s.handler.Counted?
  {
    var c := s.handler.client;
    if c >= |s.round| || c >= |cfg.total| then s.(handler := Crashed)
    else if s.round[c] >= cfg.total[c] then s.(handler := Queued, finished := s.finished + [c])
    else if s.pool == 0 then s.(handler := Crashed)
    else if cfg.barrier then s.(handler := Queued, pool := s.pool - 1, held := s.held + [c])
    else s.(handler := Queued, pool := s.pool - 1, ready := s.ready + [c])
  }

  function BarrierCheck(cfg: Config, s: State): State
    requires s.handler.Queued?
  {
    if !cfg.barrier || s.barrierRound >= cfg.maxRounds then s.(handler := Idle)
    else if s.barrierDone + 1 == ClientsPerRound(cfg.total, s.barrierRound) then
      s.(handler := Releasing, barrierDone := s.barrierDone + 1)
    else s.(handler := Idle, barrierDone := s.barrierDone + 1)
  }

  /** A run is any sequence of steps; one that is not enabled when its turn comes does nothing. */
  function Do(cfg: Config, s: State, step: Step): State {
    if Enabled(s, step) then Next(cfg, s, step) else s
  }

  function After(cfg: Config, steps: seq<Step>): State {
    if steps == [] then Initial(cfg)
    else Do(cfg, After(cfg, steps[..|steps| - 1]), steps[|steps| - 1])
  }

  // ---------- Where the clients are ----------

  function SenderHolds(s: State): seq<nat> {
    if s.sender.Popped? then [s.sender.client] else []
  }

  function HandlerHolds(s: State): seq<nat> {
    match s.handler
    case Got(r) => [r.client]
    case Counted(c) => [c]
    case _ => []
  }

  function Askers(responses: seq<Response>): (cs: seq<nat>)
    ensures |cs| == |responses|
    ensures forall i :: 0 <= i < |cs| ==> cs[i] == responses[i].client
  {
    seq(|responses|, i requires 0 <= i < |responses| => responses[i].client)
  }

  /** In how many places client `c` is. */
  function Places(s: State, c: nat): nat {
    Times(c, s.ready) + Times(c, SenderHolds(s)) + Times(c, s.tasks) + Times(c, Askers(s.responses))
    + Times(c, HandlerHolds(s)) + Times(c, s.held) + Times(c, s.finished) + Times(c, s.failed)
  }

  /** Every client is in exactly one place. */
  ghost predicate OnePlace(n: nat, s: State) {
    forall c: nat :: Places(s, c) == if c < n then 1 else 0
  }

  /** The client's current request exists: ready, popped, in flight, answered or being counted. */
  ghost predicate InPlay(s: State, c: nat) {
    || c in s.ready || c in SenderHolds(s) || c in s.tasks || c in Askers(s.responses)
    || (s.handler.Got? && s.handler.response.client == c)
  }

  lemma SenderKeepsPlaces(cfg: Config, s: State, step: Step, c: nat)
    requires Enabled(s, step) && (step.Look? || step.PopAt? || step.Launch?)
    ensures Places(Next(cfg, s, step), c) == Places(s, c)
  {
    hide Times;
    TimesNone(c);
    match step
    case Look =>
    case PopAt(i) =>
      if s.ready != [] {
        TimesRemoved(c, s.ready, i);
      }
    case Launch => TimesAdded(c, s.tasks, s.sender.client);
  }

  lemma AnswerKeepsPlaces(cfg: Config, s: State, step: Step, c: nat)
    requires Enabled(s, step) && (step.Answer? || step.Take?)
    ensures Places(Next(cfg, s, step), c) == Places(s, c)
  {
    hide Times;
    TimesNone(c);
    match step
    case Answer(i, ok) =>
      TimesRemoved(c, s.tasks, i);
      TimesAdded(c, Askers(s.responses), s.tasks[i]);
      assert Askers(s.responses + [Response(s.tasks[i], ok)]) == Askers(s.responses) + [s.tasks[i]];
    case Take =>
      TimesFirst(c, Askers(s.responses));
      assert Askers(s.responses)[1..] == Askers(s.responses[1..]);
  }

  lemma HandlerKeepsPlaces(cfg: Config, s: State, step: Step, c: nat)
    requires Enabled(s, step) && (step.Count? || step.Enqueue? || step.Barrier? || step.Release?)
    requires !Next(cfg, s, step).handler.Crashed?
    ensures Places(Next(cfg, s, step), c) == Places(s, c)
  {
    hide Times;
    TimesNone(c);
    match step
    case Count => TimesAdded(c, s.failed, s.handler.response.client);
    case Enqueue =>
      TimesAdded(c, s.finished, s.handler.client);
      TimesAdded(c, s.held, s.handler.client);
      TimesAdded(c, s.ready, s.handler.client);
    case Barrier =>
    case Release =>
      if s.held != [] {
        TimesFirst(c, s.held);
        TimesAdded(c, s.ready, s.held[0]);
      }
  }
}
