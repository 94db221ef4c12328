/**
 The multi-turn serving benchmark (benchmark/hicache/bench_serving.py) as a transition system.
 Conversations wait in a bounded queue; a dispatcher takes them out, one request task each;
 a task that succeeds with turns left puts its conversation back.
 */
module ConversationQueue {
  import opened Census

  datatype Prompt = Prompt(content: string, inputLen: nat, outputLen: nat)

  datatype Role = User | Assistant

  datatype Message = Message(role: Role, content: string)

  /** A conversation: its prompts, the messages so far, and the turns finished. */
  datatype Conv = Conv(prompts: seq<Prompt>, messages: seq<Message>, finished: nat)

  /** A request as sent: the conversation, its turn, and the context length booked for it. */
  datatype Sent = Sent(conv: nat, turn: nat, promptLen: nat)

  datatype Limit = NoLimit | AtMost(tasks: nat)

  datatype Config = Config(prompts: seq<seq<Prompt>>, limit: Limit)

  /** No conversation is empty, and a concurrency limit lets at least one request through. */
  ghost predicate ValidConfig(cfg: Config) {
    && (forall c :: 0 <= c < |cfg.prompts| ==> cfg.prompts[c] != [])
    && (cfg.limit.AtMost? ==> cfg.limit.tasks >= 1)
  }

  datatype State = State(
    convs: seq<Conv>,
    queue: seq<nat>,
    waiting: seq<nat>,
    running: seq<nat>,
    blocked: seq<nat>,
    done: seq<nat>,
    failed: seq<nat>,
    yielded: nat,
    stopped: bool,
    log: seq<Sent>)

  datatype Step =
    | Dispatch
    | GiveUp
    | Begin(index: nat)
    | Succeed(index: nat, text: string, tokens: nat)
    | Fail(index: nat)

  function TotalTurns(prompts: seq<seq<Prompt>>): nat {
    if prompts == [] then 0 else |prompts[0]| + TotalTurns(prompts[1..])
  }

  /** The shared-prefix option makes each request a conversation of its own. */
  function Flatten(prompts: seq<seq<Prompt>>): seq<seq<Prompt>> {
    if prompts == [] then [] else Singles(prompts[0]) + Flatten(prompts[1..])
  }

  function Singles(ps: seq<Prompt>): (r: seq<seq<Prompt>>)
    ensures |r| == |ps| && forall i :: 0 <= i < |ps| ==> r[i] == [ps[i]]
  {
    seq(|ps|, i requires 0 <= i < |ps| => [ps[i]])
  }

  function Initial(cfg: Config): State {
    var n := |cfg.prompts|;
    State(seq(n, c requires 0 <= c < n => Conv(cfg.prompts[c], [], 0)), UpTo(n), [], [], [], [], [], 0, false, [])
  }

  /** Tokens of the first `k` turns: what was asked and what was answered. */
  function TurnTokens(ps: seq<Prompt>, k: nat): nat
    requires k <= |ps|
  {
    if k == 0 then 0 else TurnTokens(ps, k - 1) + ps[k - 1].inputLen + ps[k - 1].outputLen
  }

  predicate SlotFree(cfg: Config, s: State) {
    cfg.limit.NoLimit? || |s.running| < cfg.limit.tasks
  }

  predicate Enabled(cfg: Config, s: State, step: Step) {
    match step
    case Dispatch => !s.stopped && s.yielded < TotalTurns(cfg.prompts) && s.queue != []
    case GiveUp => !s.stopped && s.yielded < TotalTurns(cfg.prompts) && s.queue == []
    case Begin(i) =>
      i < |s.waiting| && SlotFree(cfg, s) && s.waiting[i] < |s.convs|
      && s.convs[s.waiting[i]].finished < |s.convs[s.waiting[i]].prompts|
    case Succeed(i, _, _) =>
      i < |s.running| && s.running[i] < |s.convs|
      && s.convs[s.running[i]].finished < |s.convs[s.running[i]].prompts|
    case Fail(i) => i < |s.running|
  }

  function BeginConv(v: Conv): Conv
    requires v.finished < |v.prompts|
  {
    v.(messages := v.messages + [Message(User, v.prompts[v.finished].content)])
  }

  /** On success the prompt's budget becomes the number of tokens generated. */
  function FinishConv(v: Conv, text: string, tokens: nat): Conv
    requires v.finished < |v.prompts|
  {
    var prompts := v.prompts[v.finished := v.prompts[v.finished].(outputLen := tokens)];
    Conv(prompts, v.messages + [Message(Assistant, text)],
         if v.finished + 1 < |prompts| then v.finished + 1 else v.finished)
  }

  function Next(cfg: Config, s: State, step: Step): State
    requires Enabled(cfg, s, step)
  {
    match step
    case Dispatch =>
      s.(queue := s.queue[1..], waiting := s.waiting + [s.queue[0]], yielded := s.yielded + 1)
    case GiveUp => s.(stopped := true)
    case Begin(i) =>
      var c := s.waiting[i];
      var v := s.convs[c];
      s.(waiting := RemoveAt(s.waiting, i), running := s.running + [c], convs := s.convs[c := BeginConv(v)],
         log := s.log + [Sent(c, v.finished, TurnTokens(v.prompts, v.finished) + v.prompts[v.finished].inputLen)])
    case Succeed(i, text, tokens) =>
      var c := s.running[i];
      var v := s.convs[c];
      Requeue(cfg, s.(running := RemoveAt(s.running, i), convs := s.convs[c := FinishConv(v, text, tokens)]),
              c, v.finished + 1 < |v.prompts|)
    case Fail(i) =>
      s.(running := RemoveAt(s.running, i), failed := s.failed + [s.running[i]])
  }

  /** A put on a full queue would block the task; the queue has room for every conversation. */
  function Requeue(cfg: Config, s: State, c: nat, more: bool): State {
    if !more then s.(done := s.done + [c])
    else if |s.queue| < |cfg.prompts| then s.(queue := s.queue + [c])
    else s.(blocked := s.blocked + [c])
  }

  /** A run is any sequence of steps; one that is not enabled when its turn comes does nothing. */
  function Do(cfg: Config, s: State, step: Step): State {
    if Enabled(cfg, s, step) then Next(cfg, s, step) else s
  }

  function After(cfg: Config, steps: seq<Step>): State {
    if steps == [] then Initial(cfg)
    else Do(cfg, After(cfg, steps[..|steps| - 1]), steps[|steps| - 1])
  }

  // ---------- Where the conversations are ----------

  function Places(s: State, c: nat): nat {
    Times(c, s.queue) + Times(c, s.waiting) + Times(c, s.running) + Times(c, s.blocked)
    + Times(c, s.done) + Times(c, s.failed)
  }

  /** Every conversation is in exactly one place. */
  ghost predicate OnePlace(n: nat, s: State) {
    forall c: nat :: Places(s, c) == if c < n then 1 else 0
  }

  // ---------- What a conversation looks like ----------

  /** Turns begun: one user message each. */
  function Begun(v: Conv): nat {
    (|v.messages| + 1) / 2
  }

  /** User and assistant take turns, and the user says what the prompts say. */
  ghost predicate Alternates(v: Conv) {
    forall k {:trigger v.messages[k]} :: 0 <= k < |v.messages| ==>
      if k % 2 == 0 then k / 2 < |v.prompts| && v.messages[k] == Message(User, v.prompts[k / 2].content)
      else v.messages[k].role == Assistant
  }

  /** The prompts keep their text and input length; only output lengths are rewritten. */
  ghost predicate SamePrompts(ps: seq<Prompt>, qs: seq<Prompt>) {
    |ps| == |qs| && forall k :: 0 <= k < |ps| ==> ps[k].content == qs[k].content && ps[k].inputLen == qs[k].inputLen
  }

  ghost predicate ConvOk(cfg: Config, s: State, c: nat)
    requires c < |cfg.prompts| == |s.convs|
  {
    var v := s.convs[c];
    && SamePrompts(cfg.prompts[c], v.prompts) && v.finished < |v.prompts| && Alternates(v)
    && (c in s.queue || c in s.waiting || c in s.blocked ==> |v.messages| == 2 * v.finished)
    && (c in s.running || c in s.failed ==> |v.messages| == 2 * v.finished + 1)
    && (c in s.done ==> |v.messages| == 2 * |v.prompts|)
  }

  ghost predicate Convs(cfg: Config, s: State) {
    |s.convs| == |cfg.prompts| && forall c :: 0 <= c < |cfg.prompts| ==> ConvOk(cfg, s, c)
  }

  // ---------- The log ----------

  /** The turns sent for conversation `c`, in order. */
  function TurnsOf(log: seq<Sent>, c: nat): seq<nat> {
    if log == [] then []
    else
      var n := |log| - 1;
      TurnsOf(log[..n], c) + if log[n].conv == c then [log[n].turn] else []
  }

  /** The booked context length is the tokens of all earlier turns, as generated, and this input. */
  ghost predicate EntryOk(convs: seq<Conv>, e: Sent) {
    e.conv < |convs| &&
    var v := convs[e.conv];
    && e.turn < Begun(v) && e.turn <= v.finished < |v.prompts|
    && e.promptLen == TurnTokens(v.prompts, e.turn) + v.prompts[e.turn].inputLen
  }

  /** The log shows the turns begun of every conversation, in order, and books every request. */
  ghost predicate LogFits(convs: seq<Conv>, log: seq<Sent>) {
    && (forall c :: 0 <= c < |convs| ==> TurnsOf(log, c) == UpTo(Begun(convs[c])))
    && (forall k :: 0 <= k < |log| ==> EntryOk(convs, log[k]))
  }

  ghost predicate LogOk(s: State) {
    LogFits(s.convs, s.log)
  }

  function SumBegun(convs: seq<Conv>): nat {
    if convs == [] then 0 else Begun(convs[0]) + SumBegun(convs[1..])
  }

  ghost predicate Books(cfg: Config, s: State) {
    && s.yielded == |s.log| + |s.waiting| && |s.log| == SumBegun(s.convs)
    && s.yielded <= TotalTurns(cfg.prompts) && (s.stopped ==> s.yielded < TotalTurns(cfg.prompts))
    && s.blocked == []
    && (cfg.limit.AtMost? ==> |s.running| <= cfg.limit.tasks)
  }

  ghost predicate Inv(cfg: Config, s: State) {
    OnePlace(|cfg.prompts|, s) && Convs(cfg, s) && LogOk(s) && Books(cfg, s)
  }
}
