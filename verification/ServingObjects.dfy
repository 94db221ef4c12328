/**
 The multi-turn serving benchmark as an object (benchmark/hicache/bench_serving.py): the
 bounded queue, the conversations that request tasks rewrite, and the dispatcher's count.
 */
module ServingObjects {
  import opened Census
  import opened ConversationQueue
  import opened ConversationQueueSafety

  lemma BeginInRange(cfg: Config, s: State, i: nat)
    requires Inv(cfg, s) && i < |s.waiting|
    ensures s.waiting[i] < |s.convs| && s.convs[s.waiting[i]].finished < |s.convs[s.waiting[i]].prompts|
  {
    PlacedIsConv(|cfg.prompts|, s, s.waiting[i]);
    assert ConvOk(cfg, s, s.waiting[i]);
  }

  lemma SucceedInRange(cfg: Config, s: State, i: nat)
    requires Inv(cfg, s) && i < |s.running|
    ensures s.running[i] < |s.convs| && s.convs[s.running[i]].finished < |s.convs[s.running[i]].prompts|
    ensures |s.queue| < |cfg.prompts|
  {
    PlacedIsConv(|cfg.prompts|, s, s.running[i]);
    assert ConvOk(cfg, s, s.running[i]);
    QueueHasRoom(|cfg.prompts|, s, s.running[i]);
  }

  /** Tokens of the turns before `k`, with the lengths actually generated. */
  method PromptLength(prompts: seq<Prompt>, k: nat) returns (len: nat)
    requires k <= |prompts|
    ensures len == TurnTokens(prompts, k)
  {
    len := 0;
    for i := 0 to k
      invariant len == TurnTokens(prompts, i)
    {
      len := len + prompts[i].inputLen + prompts[i].outputLen;
    }
  }

  method CountRequests(prompts: seq<seq<Prompt>>) returns (num: nat)
    ensures num == TotalTurns(prompts)
  {
    num := 0;
    for i := 0 to |prompts|
      invariant num + TotalTurns(prompts[i..]) == TotalTurns(prompts)
    {
      assert prompts[i..][1..] == prompts[i + 1..];
      num := num + |prompts[i]|;
    }
    assert prompts[|prompts|..] == [];
  }

  class Benchmark {
    const cfg: Config
    const numActualRequests: nat
    var convs: seq<Conv>
    var queue: seq<nat>
    var waiting: seq<nat>
    var running: seq<nat>
    var yielded: nat
    var stopped: bool
    ghost var done: seq<nat>
    ghost var failed: seq<nat>
    ghost var log: seq<Sent>

    ghost function View(): State
      reads this
    {
      State(convs, queue, waiting, running, [], done, failed, yielded, stopped, log)
    }

    ghost predicate Valid()
      reads this
    {
      ValidConfig(cfg) && numActualRequests == TotalTurns(cfg.prompts) && Inv(cfg, View())
    }

    constructor (cfg: Config)
      requires ValidConfig(cfg)
      ensures Valid() && this.cfg == cfg && View() == Initial(cfg)
    {
      this.cfg := cfg;
      var num := CountRequests(cfg.prompts);
      numActualRequests := num;
      var n := |cfg.prompts|;
      convs := seq(n, c requires 0 <= c < n => Conv(cfg.prompts[c], [], 0));
      queue := UpTo(n);
      waiting, running, yielded, stopped := [], [], 0, false;
      done, failed, log := [], [], [];
      new;
      InitialInv(cfg);
      assert convs == Initial(cfg).convs;
    }

    /** The dispatcher's next turn: a conversation to serve, or its end. */
    method GetRequest() returns (more: bool)
      requires Valid() && !stopped
      modifies this
      ensures Valid() && more == (old(yielded) < numActualRequests && old(queue) != [])
      ensures View() == Do(cfg, old(View()), if old(queue) != [] then Dispatch else GiveUp)
    {
      hide Inv;
      if yielded >= numActualRequests {
        return false;
      }
      if queue == [] {
        InvKept(cfg, View(), GiveUp);
        stopped := true;
        return false;
      }
      InvKept(cfg, View(), Dispatch);
      waiting := waiting + [queue[0]];
      queue := queue[1..];
      yielded := yielded + 1;
      return true;
    }

    /** A task passes the semaphore, appends the user message and sends the request. */
    method BeginRequest(index: nat) returns (promptLen: nat)
      requires Valid() && index < |waiting| && SlotFree(cfg, View())
      modifies this
      ensures Valid() && Enabled(cfg, old(View()), Begin(index)) && View() == Next(cfg, old(View()), Begin(index))
      ensures log != [] && promptLen == log[|log| - 1].promptLen
    {
      hide Inv;
      BeginInRange(cfg, View(), index);
      InvKept(cfg, View(), Begin(index));
      var c := waiting[index];
      var v := convs[c];
      var earlier := PromptLength(v.prompts, v.finished);
      promptLen := earlier + v.prompts[v.finished].inputLen;
      waiting := waiting[..index] + waiting[index + 1..];
      running := running + [c];
      convs := convs[c := v.(messages := v.messages + [Message(User, v.prompts[v.finished].content)])];
      log := log + [Sent(c, v.finished, promptLen)];
    }

    /** A request succeeds: the answer is recorded and the conversation goes back if it has turns left. */
    method CompleteRequest(index: nat, text: string, tokens: nat)
      requires Valid() && index < |running|
      modifies this
      ensures Valid() && Enabled(cfg, old(View()), Succeed(index, text, tokens))
      ensures View() == Next(cfg, old(View()), Succeed(index, text, tokens))
    {
      hide Inv;
      SucceedInRange(cfg, View(), index);
      InvKept(cfg, View(), Succeed(index, text, tokens));
      var c := running[index];
      var v := convs[c];
      var prompts := v.prompts[v.finished := v.prompts[v.finished].(outputLen := tokens)];
      var messages := v.messages + [Message(Assistant, text)];
      running := running[..index] + running[index + 1..];
      if v.finished + 1 < |prompts| {
        convs := convs[c := Conv(prompts, messages, v.finished + 1)];
        queue := queue + [c];
      } else {
        convs := convs[c := Conv(prompts, messages, v.finished)];
        done := done + [c];
      }
    }

    /** A request fails: its conversation is not put back. */
    method FailRequest(index: nat)
      requires Valid() && index < |running|
      modifies this
      ensures Valid() && View() == Next(cfg, old(View()), Fail(index))
    {
      hide Inv;
      InvKept(cfg, View(), Fail(index));
      failed := failed + [running[index]];
      running := running[..index] + running[index + 1..];
    }
  }
}
