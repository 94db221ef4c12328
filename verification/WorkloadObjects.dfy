/**
 The multi-turn workload generator as objects (benchmark/hicache/bench_multiturn.py): the
 ready queue, the constructor's round counts, and the two threads one action at a time.
 */
module WorkloadObjects {
  import opened Census
  import opened Options
  import opened RoundBarrier
  import opened RoundBarrierSafety

  datatype Rounds = Rounds(min: int, max: int) | TooFew | MinAboveMax

  /** Resolves --num-rounds, --min-rounds and --max-rounds; 0 stands for "not given". */
  function ResolveRounds(num: int, min: int, max: int): (r: Rounds)
    ensures r.Rounds? ==> 1 <= r.min <= r.max
    ensures r.Rounds? && min == 0 && max == 0 ==> r == Rounds(num, num)
    ensures r.Rounds? && min != 0 ==> r.min == min && (max == 0 ==> r.max == min)
    ensures r.Rounds? && max != 0 ==> r.max == max && (min == 0 ==> r.min == max)
    ensures r.TooFew? <==> (if min != 0 then min else if max != 0 then max else num) < 1
    ensures r.MinAboveMax? <==> min >= 1 && max != 0 && min > max
  {
    var lo := if min == 0 && max == 0 then num else if min == 0 then max else min;
    var hi := if min == 0 && max == 0 then num else if max == 0 then min else max;
    if lo < 1 then TooFew else if lo > hi then MinAboveMax else Rounds(lo, hi)
  }

  /** The rounds of each client: all the same, or as drawn. */
  function ClientRounds(rounds: Rounds, clients: nat, draw: int -> int): (total: seq<nat>)
    requires rounds.Rounds? && 1 <= rounds.min <= rounds.max
    requires forall c :: 0 <= c < clients ==> rounds.min <= draw(c) <= rounds.max
    ensures |total| == clients
    ensures forall c :: 0 <= c < clients ==> rounds.min <= total[c] == draw(c) <= rounds.max
  {
    if rounds.min == rounds.max then seq(clients, _ => rounds.min)
    else seq(clients, c requires 0 <= c < clients => draw(c))
  }

  class ReadyQueue {
    var requests: seq<nat>

    constructor (init: seq<nat>)
      ensures requests == init
    {
      requests := init;
    }

    method Append(client: nat)
      modifies this
      ensures requests == old(requests) + [client]
    {
      requests := requests + [client];
    }

    /** Pops at `index`: any index for the random policy, 0 for first-in-first-out. */
    method Pop(index: nat) returns (r: Option<nat>)
      requires requests != [] ==> index < |requests|
      modifies this
      ensures old(requests) == [] ==> r == None && requests == []
      ensures old(requests) != [] ==> r == Some(old(requests)[index]) && requests == RemoveAt(old(requests), index)
    {
      if requests == [] {
        return None;
      }
      r := Some(requests[index]);
      requests := requests[..index] + requests[index + 1..];
    }
  }

  /** Clients per round, as the constructor tabulates them. */
  method TabulateClients(total: seq<nat>, maxRounds: nat) returns (perRound: seq<nat>)
    ensures |perRound| == maxRounds
    ensures forall r :: 0 <= r < maxRounds ==> perRound[r] == ClientsPerRound(total, r)
  {
    perRound := [];
    for r := 0 to maxRounds
      invariant |perRound| == r
      invariant forall k :: 0 <= k < r ==> perRound[k] == ClientsPerRound(total, k)
    {
      var count := 0;
      for i := 0 to |total|
        invariant count == ClientsPerRound(total[..i], r)
      {
        assert total[..i + 1][..i] == total[..i];
        if total[i] > r {
          count := count + 1;
        }
      }
      assert total[..|total|] == total;
      perRound := perRound + [count];
    }
  }

  lemma CountInRange(cfg: Config, s: State)
    requires Inv(cfg, s) && s.handler.Got?
    ensures s.handler.response.client < |s.round|
  {
    GotHasRoundsLeft(cfg, s);
  }

  /** The response thread finds its client, and a question if it needs one. */
  lemma EnqueueInRange(cfg: Config, s: State)
    requires Inv(cfg, s) && s.handler.Counted?
    ensures s.handler.client < |s.round| == |cfg.total|
    ensures s.round[s.handler.client] < cfg.total[s.handler.client] ==> s.pool > 0
  {
    NeverCrashes(cfg, s, Enqueue);
  }

  class WorkloadGenerator {
    const cfg: Config
    const clientsPerRound: seq<nat>
    const readyQueue: ReadyQueue
    var sender: Sender
    var tasks: seq<nat>
    var responseQueue: seq<Response>
    var handler: Handler
    var nextRoundReqs: seq<nat>
    var clientRound: seq<nat>
    var sentRequests: int
    var completedRequests: int
    var currentBarrierRound: nat
    var barrierRoundCompleted: nat
    var subQuestions: nat
    ghost var finished: seq<nat>
    ghost var failed: seq<nat>

    ghost predicate Valid()
      reads this, readyQueue
    {
      && ValidConfig(cfg) && |clientsPerRound| == cfg.maxRounds
      && (forall r :: 0 <= r < cfg.maxRounds ==> clientsPerRound[r] == ClientsPerRound(cfg.total, r))
      && Inv(cfg, View())
    }

    ghost function View(): State
      reads this, readyQueue
    {
      State(readyQueue.requests, sender, tasks, responseQueue, handler, nextRoundReqs, finished, failed,
            clientRound, sentRequests, completedRequests, currentBarrierRound, barrierRoundCompleted, subQuestions)
    }

    constructor (cfg: Config)
      requires ValidConfig(cfg)
      ensures Valid() && this.cfg == cfg && View() == Initial(cfg) && fresh(readyQueue)
    {
      this.cfg := cfg;
      var perRound := TabulateClients(cfg.total, cfg.maxRounds);
      clientsPerRound := perRound;
      var n := |cfg.total|;
      readyQueue := new ReadyQueue(UpTo(n));
      sender, tasks, responseQueue, handler, nextRoundReqs := Looking, [], [], Idle, [];
      clientRound := seq(n, _ => 0);
      sentRequests, completedRequests, currentBarrierRound, barrierRoundCompleted := 0, 0, 0, 0;
      var questions := Questions(cfg.total, seq(n, _ => 0));
      subQuestions := if questions >= 1 then questions else 1;
      finished, failed := [], [];
      new;
      InitialInv(cfg);
      assert View().round == Initial(cfg).round;
      assert View().ready == Initial(cfg).ready;
    }

    /** One action of the sender thread: the test, the pop, or the launch of a request task. */
    method SenderStep(index: nat)
      requires Valid() && (sender.Cleared? && readyQueue.requests != [] ==> index < |readyQueue.requests|)
      modifies this, readyQueue
      ensures Valid()
      ensures View() == Next(cfg, old(View()), match old(sender)
                                               case Looking => Look
                                               case Cleared => PopAt(index)
                                               case Popped(_) => Launch)
    {
      hide Inv;
      ghost var before := View();
      match sender {
        case Looking =>
          InvKept(cfg, before, Look);
          if sentRequests - completedRequests < cfg.maxParallel {
            sender := Cleared;
          }
        case Cleared =>
          InvKept(cfg, before, PopAt(index));
          var newRequest := readyQueue.Pop(index);
          sender := if newRequest.Some? then Popped(newRequest.value) else Looking;
        case Popped(client) =>
          InvKept(cfg, before, Launch);
          tasks := tasks + [client];
          sentRequests := sentRequests + 1;
          sender := Looking;
      }
    }

    /** A request task puts its response, or the record of its failure, on the queue. */
    method HandleRequest(index: nat, ok: bool)
      requires Valid() && index < |tasks|
      modifies this
      ensures Valid() && View() == Next(cfg, old(View()), Answer(index, ok))
    {
      hide Inv;
      InvKept(cfg, View(), Answer(index, ok));
      var client := tasks[index];
      tasks := tasks[..index] + tasks[index + 1..];
      responseQueue := responseQueue + [Response(client, ok)];
    }

    /** The response thread takes a response and counts it. */
    method TakeResponse()
      requires Valid() && handler.Idle? && responseQueue != []
      modifies this
      ensures Valid() && View() == Next(cfg, old(View()), Take)
    {
      hide Inv;
      InvKept(cfg, View(), Take);
      handler := Got(responseQueue[0]);
      responseQueue := responseQueue[1..];
    }

    method CountResponse()
      requires Valid() && handler.Got?
      modifies this
      ensures Valid() && View() == Next(cfg, old(View()), Count)
    {
      hide Inv;
      InvKept(cfg, View(), Count);
      CountInRange(cfg, View());
      var client := handler.response.client;
      completedRequests := completedRequests + 1;
      if !handler.response.ok {
        failed := failed + [client];
        handler := Idle;
      } else {
        clientRound := clientRound[client := clientRound[client] + 1];
        handler := Counted(client);
      }
    }

    /** Asks the client's next question, now or at the barrier, unless the client is done. */
    method EnqueueNext()
      requires Valid() && handler.Counted?
      modifies this, readyQueue
      ensures Valid() && View() == Next(cfg, old(View()), Enqueue)
    {
      hide Inv;
      InvKept(cfg, View(), Enqueue);
      EnqueueInRange(cfg, View());
      var client := handler.client;
      if clientRound[client] < cfg.total[client] {
        subQuestions := subQuestions - 1;
        if cfg.barrier {
          nextRoundReqs := nextRoundReqs + [client];
        } else {
          readyQueue.Append(client);
        }
      } else {
        finished := finished + [client];
      }
      handler := Queued;
    }

    method CheckBarrier()
      requires Valid() && handler.Queued?
      modifies this
      ensures Valid() && View() == Next(cfg, old(View()), Barrier)
    {
      hide Inv;
      InvKept(cfg, View(), Barrier);
      handler := Idle;
      if cfg.barrier && currentBarrierRound < cfg.maxRounds {
        barrierRoundCompleted := barrierRoundCompleted + 1;
        if barrierRoundCompleted == clientsPerRound[currentBarrierRound] {
          handler := Releasing;
        }
      }
    }

    /** Moves one held request to the ready queue, or ends the release. */
    method ReleaseStep()
      requires Valid() && handler.Releasing?
      modifies this, readyQueue
      ensures Valid() && View() == Next(cfg, old(View()), Release)
    {
      hide Inv;
      InvKept(cfg, View(), Release);
      if nextRoundReqs != [] {
        readyQueue.Append(nextRoundReqs[0]);
        nextRoundReqs := nextRoundReqs[1..];
      } else {
        currentBarrierRound := currentBarrierRound + 1;
        barrierRoundCompleted := 0;
        handler := Idle;
      }
    }
  }

  /** A generator for any arguments that resolve, ready to run; no generator otherwise. */
  method Setup(num: int, min: int, max: int, clients: nat, draw: int -> int, maxParallel: int, barrier: bool)
    returns (r: Option<WorkloadGenerator>)
    requires var rounds := ResolveRounds(num, min, max);
             rounds.Rounds? ==> forall c :: 0 <= c < clients ==> rounds.min <= draw(c) <= rounds.max
    ensures r.Some? <==> ResolveRounds(num, min, max).Rounds?
    ensures r.Some? ==>
              var rounds := ResolveRounds(num, min, max);
              && fresh(r.value) && r.value.Valid() && r.value.View() == Initial(r.value.cfg)
              && r.value.cfg == Config(ClientRounds(rounds, clients, draw), rounds.max, maxParallel, barrier)
  {
    var rounds := ResolveRounds(num, min, max);
    if !rounds.Rounds? {
      return None;
    }
    var generator := new WorkloadGenerator(
      Config(ClientRounds(rounds, clients, draw), rounds.max, maxParallel, barrier));
    r := Some(generator);
  }
}
