/**
 What the serving benchmark (benchmark/hicache/bench_serving.py) makes of the answers it gets,
 said of the answers themselves: the messages, the context length of every request, and the
 order in which conversations are served.
 */
module ConversationHistory {
  import opened Census
  import opened ConversationQueue
  import opened ConversationQueueSafety

  datatype Answer = Answer(text: string, tokens: nat)

  /** The answer that a step brings conversation `c`, given the requests in flight. */
  function NewAnswer(running: seq<nat>, step: Step, c: nat): seq<Answer> {
    match step
    case Succeed(i, text, tokens) => if i < |running| && running[i] == c then [Answer(text, tokens)] else []
    case _ => []
  }

  /** The answers conversation `c` got in a run, one per successful request. */
  function Answers(cfg: Config, steps: seq<Step>, c: nat): seq<Answer> {
    if steps == [] then []
    else
      var n := |steps| - 1;
      Answers(cfg, steps[..n], c) + NewAnswer(After(cfg, steps[..n]).running, steps[n], c)
  }

  /** Tokens of the first `k` turns: what the configuration asks and what the answers took. */
  function Exchanged(ps: seq<Prompt>, answers: seq<Answer>, k: nat): nat
    requires k <= |ps| && k <= |answers|
  {
    if k == 0 then 0 else Exchanged(ps, answers, k - 1) + ps[k - 1].inputLen + answers[k - 1].tokens
  }

  // ---------- One conversation ----------

  /** The conversation shows its answers: in the messages, and in the lengths of its finished turns. */
  ghost predicate Shows(ps: seq<Prompt>, v: Conv, answers: seq<Answer>) {
    && |answers| == |v.messages| / 2 && |answers| <= |v.prompts| == |ps|
    && (forall j :: 0 <= j < |answers| ==> v.messages[2 * j + 1] == Message(Assistant, answers[j].text))
    && (forall j :: 0 <= j < |answers| ==> v.prompts[j].outputLen == answers[j].tokens)
    && (forall j :: |answers| <= j < |ps| ==> v.prompts[j].outputLen == ps[j].outputLen)
  }

  lemma BeginShows(ps: seq<Prompt>, v: Conv, answers: seq<Answer>)
    requires Shows(ps, v, answers) && v.finished < |v.prompts| && |v.messages| == 2 * v.finished
    ensures Shows(ps, BeginConv(v), answers)
  {
  }

  lemma FinishShows(ps: seq<Prompt>, v: Conv, answers: seq<Answer>, text: string, tokens: nat)
    requires Shows(ps, v, answers) && v.finished < |v.prompts| && |v.messages| == 2 * v.finished + 1
    ensures Shows(ps, FinishConv(v, text, tokens), answers + [Answer(text, tokens)])
  {
    var w, more := FinishConv(v, text, tokens), answers + [Answer(text, tokens)];
    assert |answers| == v.finished;
    assert w.messages[2 * v.finished + 1] == Message(Assistant, text);
  }

  // ---------- Every run ----------

  ghost predicate AllShow(cfg: Config, steps: seq<Step>) {
    var s := After(cfg, steps);
    && |s.convs| == |cfg.prompts|
    && forall c :: 0 <= c < |cfg.prompts| ==> Shows(cfg.prompts[c], s.convs[c], Answers(cfg, steps, c))
  }

  lemma SucceedShows(cfg: Config, s: State, step: Step, c: nat, answers: seq<Answer>)
    requires Inv(cfg, s) && c < |cfg.prompts| == |s.convs| && Shows(cfg.prompts[c], s.convs[c], answers)
    requires step.Succeed?
    ensures var t := Do(cfg, s, step);
            |t.convs| == |s.convs| && Shows(cfg.prompts[c], t.convs[c], answers + NewAnswer(s.running, step, c))
  {
    hide Inv, Shows, FinishConv;
    assert answers + [] == answers;
    if step.index < |s.running| {
      RunningReady(cfg, s, step.index);
      if s.running[step.index] == c {
        FinishShows(cfg.prompts[c], s.convs[c], answers, step.text, step.tokens);
      }
    }
  }

  lemma BeginStepShows(cfg: Config, s: State, step: Step, c: nat, answers: seq<Answer>)
    requires Inv(cfg, s) && c < |cfg.prompts| == |s.convs| && Shows(cfg.prompts[c], s.convs[c], answers)
    requires step.Begin?
    ensures var t := Do(cfg, s, step); |t.convs| == |s.convs| && Shows(cfg.prompts[c], t.convs[c], answers)
  {
    hide Inv, Shows, BeginConv;
    if Enabled(cfg, s, step) && s.waiting[step.index] == c {
      WaitingReady(cfg, s, c);
      BeginShows(cfg.prompts[c], s.convs[c], answers);
    }
  }

  lemma StepShows(cfg: Config, s: State, step: Step, c: nat, answers: seq<Answer>)
    requires Inv(cfg, s) && c < |cfg.prompts| == |s.convs| && Shows(cfg.prompts[c], s.convs[c], answers)
    ensures var t := Do(cfg, s, step);
            |t.convs| == |s.convs| && Shows(cfg.prompts[c], t.convs[c], answers + NewAnswer(s.running, step, c))
  {
    assert answers + [] == answers;
    if step.Succeed? {
      hide Inv, Shows, Do;
      SucceedShows(cfg, s, step, c, answers);
    } else if step.Begin? {
      hide Inv, Shows, Do;
      BeginStepShows(cfg, s, step, c, answers);
    } else {
      hide Inv, Shows, TotalTurns;
    }
  }

  lemma RunningReady(cfg: Config, s: State, i: nat)
    requires Inv(cfg, s) && i < |s.running|
    ensures var c := s.running[i];
            && c < |s.convs| == |cfg.prompts| && s.convs[c].finished < |s.convs[c].prompts|
            && |s.convs[c].messages| == 2 * s.convs[c].finished + 1
  {
    RunningOnly(|cfg.prompts|, s, s.running[i]);
    WaitingReady(cfg, s, s.running[i]);
  }

  lemma {:induction false} EveryRunShows(cfg: Config, steps: seq<Step>)
    requires ValidConfig(cfg)
    ensures AllShow(cfg, steps)
    decreases |steps|
  {
    if steps != [] {
      var n := |steps| - 1;
      var s := After(cfg, steps[..n]);
      EveryRunShows(cfg, steps[..n]);
      EveryRun(cfg, steps[..n]);
      StepKeepsSize(cfg, s, steps[n]);
      hide Shows, Do, Inv, NewAnswer;
      forall c | 0 <= c < |cfg.prompts|
        ensures Shows(cfg.prompts[c], Do(cfg, s, steps[n]).convs[c], Answers(cfg, steps, c))
      {
        StepShows(cfg, s, steps[n], c, Answers(cfg, steps[..n], c));
      }
    }
  }

  lemma StepKeepsSize(cfg: Config, s: State, step: Step)
    ensures |Do(cfg, s, step).convs| == |s.convs|
  {
  }

  // ---------- The promises ----------

  lemma {:induction false} ExchangedIs(ps: seq<Prompt>, v: Conv, answers: seq<Answer>, k: nat)
    requires SamePrompts(ps, v.prompts) && Shows(ps, v, answers) && k <= |answers|
    ensures Exchanged(ps, answers, k) == TurnTokens(v.prompts, k)
    decreases k
  {
    if k > 0 {
      ExchangedIs(ps, v, answers, k - 1);
    }
  }

  /** Each request is booked with the inputs and the answers of all turns before it, and its own input. */
  lemma ContextIsExchanged(cfg: Config, steps: seq<Step>, k: nat)
    requires ValidConfig(cfg) && k < |After(cfg, steps).log|
    ensures var e := After(cfg, steps).log[k];
            && e.conv < |cfg.prompts| && e.turn < |cfg.prompts[e.conv]|
            && var ps, answers := cfg.prompts[e.conv], Answers(cfg, steps, e.conv);
               && e.turn <= |answers|
               && e.promptLen == Exchanged(ps, answers, e.turn) + ps[e.turn].inputLen
  {
    var e := After(cfg, steps).log[k];
    EveryRun(cfg, steps);
    EveryRunShows(cfg, steps);
    ContextBooked(cfg, steps, k);
    EntryBegun(cfg, steps, k);
    TurnsInOrder(cfg, steps, e.conv);
    hide After, Answers, Inv, TurnTokens, Exchanged, Alternates;
    ExchangedIs(cfg.prompts[e.conv], After(cfg, steps).convs[e.conv], Answers(cfg, steps, e.conv), e.turn);
  }

  lemma EntryBegun(cfg: Config, steps: seq<Step>, k: nat)
    requires ValidConfig(cfg) && k < |After(cfg, steps).log|
    ensures var s := After(cfg, steps);
            && s.log[k].conv < |s.convs| == |cfg.prompts|
            && s.log[k].turn <= |s.convs[s.log[k].conv].messages| / 2
  {
    EveryRun(cfg, steps);
    assert EntryOk(After(cfg, steps).convs, After(cfg, steps).log[k]);
  }

  /** Prompts and answers in turn. */
  ghost predicate Conversed(ps: seq<Prompt>, messages: seq<Message>, answers: seq<Answer>) {
    && 2 * |answers| <= |messages| <= 2 * |answers| + 1
    && forall k {:trigger messages[k]} :: 0 <= k < |messages| ==>
         if k % 2 == 0 then k / 2 < |ps| && messages[k] == Message(User, ps[k / 2].content)
         else messages[k] == Message(Assistant, answers[k / 2].text)
  }

  lemma ShowsConversed(ps: seq<Prompt>, v: Conv, answers: seq<Answer>)
    requires SamePrompts(ps, v.prompts) && Alternates(v) && Shows(ps, v, answers)
    ensures Conversed(ps, v.messages, answers)
  {
    forall k {:trigger v.messages[k]} | 0 <= k < |v.messages|
      ensures if k % 2 == 0 then k / 2 < |ps| && v.messages[k] == Message(User, ps[k / 2].content)
              else v.messages[k] == Message(Assistant, answers[k / 2].text)
    {
      ShownAt(ps, v, answers, k);
    }
  }

  lemma ShownAt(ps: seq<Prompt>, v: Conv, answers: seq<Answer>, k: nat)
    requires SamePrompts(ps, v.prompts) && Alternates(v) && Shows(ps, v, answers) && k < |v.messages|
    ensures if k % 2 == 0 then k / 2 < |ps| && v.messages[k] == Message(User, ps[k / 2].content)
            else k / 2 < |answers| && v.messages[k] == Message(Assistant, answers[k / 2].text)
  {
    var j := k / 2;
    if k % 2 == 0 {
      assert v.messages[k] == Message(User, v.prompts[j].content);
    } else {
      assert k == 2 * j + 1 && j < |answers|;
    }
  }

  /** The messages are the configured prompts and the answers received, in turn. */
  lemma MessagesAreAnswers(cfg: Config, steps: seq<Step>, c: nat)
    requires ValidConfig(cfg) && c < |cfg.prompts|
    ensures |After(cfg, steps).convs| == |cfg.prompts|
    ensures Conversed(cfg.prompts[c], After(cfg, steps).convs[c].messages, Answers(cfg, steps, c))
  {
    EveryRunShows(cfg, steps);
    TurnsInOrder(cfg, steps, c);
    hide After, Answers, TurnsOf, Shows, Alternates, SamePrompts, Conversed;
    ShowsConversed(cfg.prompts[c], After(cfg, steps).convs[c], Answers(cfg, steps, c));
  }

  /** Never more requests in flight than the limit. */
  lemma LimitKept(cfg: Config, steps: seq<Step>)
    requires ValidConfig(cfg) && cfg.limit.AtMost?
    ensures |After(cfg, steps).running| <= cfg.limit.tasks
  {
    EveryRun(cfg, steps);
  }

  /** With a free slot, any waiting task may go ahead. */
  lemma FreeSlotServes(cfg: Config, steps: seq<Step>, i: nat)
    requires ValidConfig(cfg) && i < |After(cfg, steps).waiting|
    requires cfg.limit.AtMost? ==> |After(cfg, steps).running| < cfg.limit.tasks
    ensures Enabled(cfg, After(cfg, steps), Begin(i))
  {
    EveryRun(cfg, steps);
    WaitingReady(cfg, After(cfg, steps), After(cfg, steps).waiting[i]);
  }

  // ---------- First come, first served ----------

  /** The conversation that a step puts back: one that got an answer, but not yet all of its answers. */
  function NewPut(cfg: Config, running: seq<nat>, step: Step, answered: nat): seq<nat> {
    if step.Succeed? && step.index < |running| && running[step.index] < |cfg.prompts|
       && answered + 1 < |cfg.prompts[running[step.index]]| then [running[step.index]]
    else []
  }

  /** How many answers the conversation has that the step is about. */
  function Answered(cfg: Config, steps: seq<Step>, step: Step): nat {
    var running := After(cfg, steps).running;
    if step.Succeed? && step.index < |running| then |Answers(cfg, steps, running[step.index])| else 0
  }

  /** Conversations as they are put on the queue: all of them once, and again after each answer but the last. */
  function PutBack(cfg: Config, steps: seq<Step>): seq<nat> {
    if steps == [] then UpTo(|cfg.prompts|)
    else
      var n := |steps| - 1;
      PutBack(cfg, steps[..n]) +
      NewPut(cfg, After(cfg, steps[..n]).running, steps[n], Answered(cfg, steps[..n], steps[n]))
  }

  /** What was added to the tasks waiting, if anything. */
  function NewHand(before: seq<nat>, after: seq<nat>): seq<nat> {
    if |after| > |before| then [after[|after| - 1]] else []
  }

  /** Conversations as the dispatcher hands them to tasks. */
  function HandedOut(cfg: Config, steps: seq<Step>): seq<nat> {
    if steps == [] then []
    else
      var n := |steps| - 1;
      HandedOut(cfg, steps[..n]) + NewHand(After(cfg, steps[..n]).waiting, After(cfg, steps).waiting)
  }

  lemma SucceedPuts(cfg: Config, s: State, step: Step, answers: seq<Answer>)
    requires Inv(cfg, s) && step.Succeed? && step.index < |s.running|
    requires s.running[step.index] < |cfg.prompts| == |s.convs|
    requires Shows(cfg.prompts[s.running[step.index]], s.convs[s.running[step.index]], answers)
    ensures var t := Do(cfg, s, step);
            t.waiting == s.waiting && t.queue == s.queue + NewPut(cfg, s.running, step, |answers|)
  {
    RunningReady(cfg, s, step.index);
    QueueHasRoom(|cfg.prompts|, s, s.running[step.index]);
    hide Inv, FinishConv, TotalTurns;
  }

  lemma OthersTake(cfg: Config, s: State, step: Step, answered: nat)
    requires !step.Succeed? || step.index >= |s.running|
    ensures var t := Do(cfg, s, step);
            && NewHand(s.waiting, t.waiting) + t.queue == s.queue && NewPut(cfg, s.running, step, answered) == []
  {
    hide TotalTurns;
  }

  lemma QueueStep(cfg: Config, steps: seq<Step>, step: Step)
    requires ValidConfig(cfg)
    ensures var s := After(cfg, steps);
            var t := Do(cfg, s, step);
            NewHand(s.waiting, t.waiting) + t.queue ==
            s.queue + NewPut(cfg, s.running, step, Answered(cfg, steps, step))
  {
    hide Inv, Do, Shows, After, Answers, NewPut, ValidConfig;
    var s := After(cfg, steps);
    EveryRun(cfg, steps);
    EveryRunShows(cfg, steps);
    if step.Succeed? && step.index < |s.running| {
      RunningReady(cfg, s, step.index);
      SucceedPuts(cfg, s, step, Answers(cfg, steps, s.running[step.index]));
    } else {
      OthersTake(cfg, s, step, Answered(cfg, steps, step));
    }
  }

  lemma Unrolled(cfg: Config, steps: seq<Step>)
    requires steps != []
    ensures var n := |steps| - 1;
            var s, t := After(cfg, steps[..n]), After(cfg, steps);
            && t == Do(cfg, s, steps[n])
            && HandedOut(cfg, steps) == HandedOut(cfg, steps[..n]) + NewHand(s.waiting, t.waiting)
            && PutBack(cfg, steps) ==
               PutBack(cfg, steps[..n]) + NewPut(cfg, s.running, steps[n], Answered(cfg, steps[..n], steps[n]))
  {
    hide Do, NewPut, NewHand, Answered;
  }

  /** Conversations are handed out in the order in which they were put on the queue. */
  lemma {:induction false} FirstComeFirstServed(cfg: Config, steps: seq<Step>)
    requires ValidConfig(cfg)
    ensures HandedOut(cfg, steps) + After(cfg, steps).queue == PutBack(cfg, steps)
    decreases |steps|
  {
    if steps != [] {
      var n := |steps| - 1;
      hide Do, NewPut, NewHand, Answered, After, HandedOut, PutBack;
      FirstComeFirstServed(cfg, steps[..n]);
      QueueStep(cfg, steps[..n], steps[n]);
      Unrolled(cfg, steps);
      var s, t := After(cfg, steps[..n]), After(cfg, steps);
      Rejoin(HandedOut(cfg, steps[..n]), s.queue, PutBack(cfg, steps[..n]), NewHand(s.waiting, t.waiting), t.queue,
             NewPut(cfg, s.running, steps[n], Answered(cfg, steps[..n], steps[n])));
    }
  }
}
