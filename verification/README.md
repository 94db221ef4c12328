# Verified models of the benchmark and tracing tools

This project models the algorithms and protocols in the repository's benchmark clients and
trace tooling, and proves what they promise for every input and every run.

| area | modules |
|---|---|
| Trace converter: packing spans into slots | `LinePacking`, `TraceLayout`, `TracePlacement`, `GatewayLayout`, `LayoutObjects` |
| Trace converter: the span forest, its walks, and the whole conversion | `SpanForest`, `SpanWalk`, `SpanOrder`, `TraceConverter` |
| Multi-turn workload with a round barrier | `RoundBarrier`, `RoundBarrierSafety`, `RoundBarrierTheorems`, `RoundBarrierHistory`, `RoundBarrierFairness`, `WorkloadObjects` |
| Multi-turn serving benchmark | `ConversationQueue`, `ConversationQueueSafety`, `ConversationHistory`, `ConversationQueueFairness`, `ServingObjects` |
| OCR edit distance | `EditDistance` |
| Replica-mass linear program | `Transport`, `ReplicaLp`, `LayerPrograms`, `StaticLp` |
| Rollout client and its analysis | `SseFraming`, `Rollout`, `RolloutOutcome`, `RolloutStream`, `RolloutAnalysis`, `Metrics` |
| Dataset filter | `DatasetFilter` |
| Shared | `Arithmetic`, `Census`, `Options`, `Sorting`, `Sums`, `Tables` |

`dafny verify dfyconfig.toml` checks the whole project.

How the models are built:

- The two concurrent benchmarks are transition systems. A step is one action of one thread or
  task; a run is any sequence of steps, so every interleaving, pop order, response order and
  failure is covered. Beside each system stands a class whose methods take the same steps on
  mutable fields and are proved to follow it.
- A request task cannot run before the sender next awaits, so creating and counting it is one
  step; a client's round is read by the response thread only, so it changes with the completed
  counter. All other shared reads and writes of the two threads are steps of their own.
- Lists that a source object mutates are `seq` fields that methods reassign; spans and slot
  containers are heap objects; the edit-distance row and the constraint matrices are arrays.
- Clocks, the network, tokenizers, the solver and random choices are parameters or arbitrary
  choices of a step: the solver is any function from the program it is given to an answer, the
  model server any function from the tokens it sees to its output. Floating point is modelled
  by reals.
- What a run did is read off its steps: which answers a conversation got, which responses were
  handled, what was put on a queue and what was taken. The theorems about the contents of the
  states are stated against those, not against what the states record of themselves.
- The recursions that convert spans and that copy slot numbers down visit a tree in the same way
  and differ in what they do to a span, so they are one method with the work as a parameter.

Where the code does not do what one would expect, the model follows the code and the exact
condition is proved:

- A zero-length span skips the overlap test. A layout is free of overlaps exactly when no such
  span lands strictly inside an interval of its request's last slot
  (`TraceLayout.LayoutIsDisjoint`); after one does, even long spans can share a slot
  (`TraceLayout.ZeroLengthSpanHidesInterval`). Since conversion takes 1000 off every end, a trace
  has no overlaps when no span to be placed lasts exactly 1000
  (`TraceConverter.LongTopsNeverOverlap`).
- The gateway pass opens no more slots than needed when all spans have positive length
  (`GatewayLayout.GatewayPassIsOptimal`). Every span that has not makes it waste a slot with a
  span that starts at the same time (`GatewayLayout.NonpositiveSpanWastesSlot`).
- A request without spans two links below its root stops the whole conversion, since there is
  nothing to sort it by; it is the only way the modelled steps fail (`TraceConverter.Convert`).
- The event reader strips all leading spaces of a data line, and trailing carriage returns.
  Messages read back unchanged exactly when no line has either (`SseFraming.RoundTrip`,
  `SseFraming.LeadingSpaceIsLost`).
- A stream cut inside a message is rejected exactly when at least five characters of its frame
  arrived (`SseFraming.CutAnywhere`); a shorter piece is dropped without an error
  (`SseFraming.ShortCutIsAccepted`). The rollout client is safe from that: an answer cut before
  its end marker is whole never gives a generation (`RolloutStream.CutStreamFails`).
- The rate table of the rollout analysis skips a last window of duration 0. It accounts for
  every token exactly when every arrival falls in a window that starts before the end of the
  run (`RolloutAnalysis.TableIsCompleteIff`); an arrival at the last instant of a run of whole
  windows is missed (`RolloutAnalysis.LastInstantIsMissed`), although the rollout README says
  that the rate counts all increments.
- With the round barrier on, one failed request stops all later rounds
  (`RoundBarrierTheorems.FailureHoldsBarrier`, `RoundBarrierTheorems.OneFailureStrandsTheOther`);
  a run ends with every client finished exactly when no request failed
  (`RoundBarrierTheorems.QuiescenceIsCompletion`). Both loops wait until every request of the
  total is answered; that comes about exactly when nothing is held at the barrier and only last
  rounds failed, and otherwise they never end (`RoundBarrierTheorems.LoopsEndIff`).
- At the end of the serving benchmark every request was dispatched exactly when the dispatcher
  did not give up, and exactly when the queue is empty and only last turns failed
  (`ConversationQueueSafety.EndOfBenchmark`). A conversation put back after the dispatcher gave
  up is lost although no request failed (`ConversationQueueSafety.LatePutIsLost`).
- The dataset filter ends exactly when nothing is wanted or some turn is within the limits
  (`DatasetFilter.FilterEndsIff`); otherwise it loops forever
  (`DatasetFilter.FilterCanLoopForever`).

## Model

| member | source | states |
|---|---|---|
| `LinePacking.NeighbourTestIsScan` | scripts/convert_otel_2_perfetto.py:58-70 | on a sorted line of chained intervals, looking at the two neighbours of the bisection point answers exactly as scanning every interval |
| `LinePacking.BlocksIsOverlap` | scripts/convert_otel_2_perfetto.py:58-70 | for intervals of positive length, what the scan looks for is overlap |
| `LinePacking.InsortSorted` | scripts/convert_otel_2_perfetto.py:72-73 | insertion keeps a line sorted |
| `LinePacking.InsortChained` | scripts/convert_otel_2_perfetto.py:58-73 | a span the test lets through, of any length, keeps each interval ending before the next starts |
| `LayoutObjects.BisectLeft` | scripts/convert_otel_2_perfetto.py:59 | the binary search returns the number of intervals below the key |
| `LayoutObjects.SpanLayoutContainer.CheckOverlap` | scripts/convert_otel_2_perfetto.py:58-70 | the method is the neighbour test, and on a chained line the test of all intervals |
| `LayoutObjects.SpanLayoutContainer.InsertSpan` | scripts/convert_otel_2_perfetto.py:72-73 | the container holds the old intervals with the new one at its sorted place |
| `LayoutObjects.SpanLayout.FindLine` | scripts/convert_otel_2_perfetto.py:95-120 | the slot is that of the layout step, whose choice `TracePlacement.PlacementRule` states over the spans already placed, and only a new slot changes the graph |
| `LayoutObjects.SpanLayout.Place` | scripts/convert_otel_2_perfetto.py:281-292 | finding, inserting and recording is one step of the layout over runs |
| `LayoutObjects.GenerateLayout` | scripts/convert_otel_2_perfetto.py:278-309 | the whole layout is the run over all requests and then the gateway spans, and is free of overlaps exactly when no bad shortcut was taken |
| `TraceLayout.RunKeepsShape` | scripts/convert_otel_2_perfetto.py:278-309 | after any run the slots hold exactly the placed spans, sorted, and chained unless a bad shortcut was taken |
| `TraceLayout.LayoutIsDisjoint` | scripts/convert_otel_2_perfetto.py:95-120 | after any run, over any requests and pids, no two spans on one slot overlap if and only if no zero-length span took the shortcut into the inside of an interval |
| `TraceLayout.NonemptySpansNeverOverlap` | scripts/convert_otel_2_perfetto.py:95-120 | spans whose ends differ never overlap on a slot, whatever the order of placement |
| `TraceLayout.ZeroLengthSpanHidesInterval` | scripts/convert_otel_2_perfetto.py:98-99 | a concrete run in which a zero-length span lets two overlapping long spans share a slot |
| `TracePlacement.PlacementRule` | scripts/convert_otel_2_perfetto.py:95-120 | after any run without a bad shortcut, any span goes to the slot of the last span of its request and pid if it has no length or nothing placed there is in its way, and otherwise to the lowest slot on which nothing placed is, a new one if there is no other; what was placed before stays |
| `TracePlacement.StaysWhileFree` | scripts/convert_otel_2_perfetto.py:96-102 | after any run, bad shortcuts included, a span goes to the last slot of its request and pid if nothing placed there is in its way |
| `TracePlacement.OrdinaryPlacement` | scripts/convert_otel_2_perfetto.py:95-120 | in every run over spans of positive length, a span goes to the slot of the last span of its request and pid if it overlaps nothing placed there, and otherwise to the lowest slot on which it overlaps nothing placed |
| `GatewayLayout.PassKeepsInv` | scripts/convert_otel_2_perfetto.py:295-309 | during the gateway pass every slot stays chained, holds only gateway spans, and some time has as many spans open as there are slots |
| `GatewayLayout.SortKeeps` | scripts/convert_otel_2_perfetto.py:295 | sorting by start orders spans of any length, keeps them all, and changes nothing about what is open when |
| `GatewayLayout.LayoutNeedsOpen` | scripts/convert_otel_2_perfetto.py:295-309 | any layout without overlaps needs a slot for each span open at a time |
| `GatewayLayout.GatewayPassIsOptimal` | scripts/convert_otel_2_perfetto.py:295-309 | the number of slots opened is the largest number of spans open at once, so no layout of the same spans uses fewer |
| `GatewayLayout.NonpositiveSpanWastesSlot` | scripts/convert_otel_2_perfetto.py:95-120 | for every span that does not have positive length there is a second one with which the pass takes two slots where one is enough |
| `SpanForest.BuildSpanTree` | scripts/convert_otel_2_perfetto.py:172-196 | the roots are the request spans in order, every child list holds exactly the spans whose id link names that parent, and every link list the spans its ids name |
| `SpanForest.ResolvedLinks` | scripts/convert_otel_2_perfetto.py:188-194 | a link survives exactly when its id names a span, and leads to the last span with that id |
| `SpanOrder.LastWins` | scripts/convert_otel_2_perfetto.py:173 | an id names the last span that has it |
| `SpanOrder.ParentIsNamed` | scripts/convert_otel_2_perfetto.py:179-186 | the parent of a span is the last span with its parent id, and a request span has none |
| `SpanOrder.NoParent` | scripts/convert_otel_2_perfetto.py:184-186 | a span whose parent id no span has is nobody's child |
| `Sorting.PositionsAre` | scripts/convert_otel_2_perfetto.py:179-186 | the positions by which order is stated are exactly those with the flag set |
| `Sorting.PositionsAscend` | scripts/convert_otel_2_perfetto.py:179-186 | and they ascend |
| `SpanOrder.RootsInOrder` | scripts/convert_otel_2_perfetto.py:177-183 | the roots are the spans with one of the two request modules, in the order of the list |
| `SpanOrder.ChildrenInOrder` | scripts/convert_otel_2_perfetto.py:184-186 | the children of a span are the spans whose parent it is, in the order of the list |
| `SpanOrder.LinksInOrder` | scripts/convert_otel_2_perfetto.py:188-194 | the link list has one span for each id that is found, in the order of the ids |
| `SpanForest.GroundedIsAcyclic` | scripts/convert_otel_2_perfetto.py:179-186 | a span below a root is on no cycle, whatever the parent ids are |
| `SpanForest.UnderOneChild` | scripts/convert_otel_2_perfetto.py:179-186 | the trees below two children of a span share nothing |
| `SpanForest.OneTop` | scripts/convert_otel_2_perfetto.py:237-253 | no span is below two tops |
| `SpanForest.TopSpansDistinct` | scripts/convert_otel_2_perfetto.py:251-253 | no top is listed twice |
| `SpanWalk.WalkTree` | scripts/convert_otel_2_perfetto.py:199-227 | the recursion ends and works on each span of the tree exactly once and on no other, whether it converts or sets the slot; `SpanWalk.DoneWorks` states the work field by field |
| `SpanWalk.DoneWorks` | scripts/convert_otel_2_perfetto.py:199-224 | converting takes 1000 off the end, puts in the nonempty request ids and leaves all other attributes, sets pid, host and tid 0, with ts * 1000 the start less the baseline, dur * 1000 the new end less the start, and the attributes as args; setting the slot changes the tid of the entry and nothing else |
| `SpanWalk.TreesDoneOnce` | scripts/convert_otel_2_perfetto.py:226-253 | working on the trees of different tops one after another works on each span at most once |
| `SpanWalk.ConvertRequests` | scripts/convert_otel_2_perfetto.py:231-253 | converts the trees below all threads of all roots, in order, and lists the tops of each root |
| `SpanWalk.ConvertTrace` | scripts/convert_otel_2_perfetto.py:172-253 | on any list of span objects, with dangling, duplicate or cyclic ids, conversion ends; each span below a top is converted exactly once, its fields those of its own times, its thread's pid and host and its root's ids, and every other span is unchanged |
| `SpanWalk.SetTids` | scripts/convert_otel_2_perfetto.py:262-293 | the entry of every span below a placed top gets the slot of that top as its tid and keeps all its other fields, and no other span changes |
| `SpanWalk.GatherTree` | scripts/convert_otel_2_perfetto.py:396-407 | the recursion lists each span of the tree exactly once, each span before its children and one child's tree after the other |
| `SpanWalk.GatherAll` | scripts/convert_otel_2_perfetto.py:416-418 | the entries are those of the spans below the tops, each exactly once, top by top |
| `SpanOrder.ParentFirst` | scripts/convert_otel_2_perfetto.py:396-407 | every span is listed before its children |
| `SpanOrder.SiblingsInOrder` | scripts/convert_otel_2_perfetto.py:404-407 | the tree of a child is listed before that of a later child |
| `SpanOrder.TopsInSequence` | scripts/convert_otel_2_perfetto.py:416-418 | the tree of a top is listed before that of a later top |
| `Sorting.SortOrders` | scripts/convert_otel_2_perfetto.py:270-277 | sorting puts the keys in order |
| `Sorting.SortKeeps` | scripts/convert_otel_2_perfetto.py:270-277 | sorting keeps every member as often as it occurs |
| `Sorting.SortStable` | scripts/convert_otel_2_perfetto.py:270-277 | members with the same key stay in the order they came in |
| `TraceConverter.ByTimeOrdered` | scripts/convert_otel_2_perfetto.py:270-277 | the requests are placed by the start of their first span and the spans of each by start, and they are the requests of all roots |
| `TraceConverter.ByRootOrdered` | scripts/convert_otel_2_perfetto.py:270-273 | the spans of each root are all the spans two links below it, by start |
| `TraceConverter.SortedTops` | scripts/convert_otel_2_perfetto.py:270-277 | however they are sorted, the spans placed are all the tops of the forest, each once |
| `TraceConverter.ConvertAndSort` | scripts/convert_otel_2_perfetto.py:269-277 | returns, for each root in order, the spans two links below it sorted by start; fails exactly when a root has none |
| `TraceConverter.PlaceTops` | scripts/convert_otel_2_perfetto.py:275-293 | the lists sorted by first start are laid out, one request per root; the k-th placement is the k-th span's, on its thread's pid, from its start to its old end less 1000 |
| `TraceConverter.LongTopsNeverOverlap` | scripts/convert_otel_2_perfetto.py:98-99 | if no span to be placed lasts exactly 1000, no two of them overlap on one slot |
| `TraceConverter.Convert` | scripts/convert_otel_2_perfetto.py:445-458 | slots and entries as functions of the input: the layout is the run over the requests that ids, starts and old ends determine, in order of time, without overlaps exactly when that run takes no bad shortcut; each span below a top has the converted end, attributes, host, ts, dur, pid and args, and as tid the slot of its top; the entries are those spans root by root in preorder, each once; no other span changes or appears |
| `WorkloadObjects.ResolveRounds` | benchmark/hicache/bench_multiturn.py:235-251 | what the round options resolve to, including an option left out, and which complaint is made when |
| `WorkloadObjects.Setup` | benchmark/hicache/bench_multiturn.py:235-268 | arguments that resolve give a generator whose clients have the rounds drawn for them, between the resolved minimum and maximum, in the initial state; others give none |
| `WorkloadObjects.TabulateClients` | benchmark/hicache/bench_multiturn.py:264-267 | the table gives, for every round, the number of clients with more rounds than that |
| `WorkloadObjects.ReadyQueue.Pop` | benchmark/hicache/bench_multiturn.py:198-209 | pops one request at the chosen index, or nothing from an empty queue |
| `WorkloadObjects.WorkloadGenerator.SenderStep` | benchmark/hicache/bench_multiturn.py:404-414 | each sender action is the step of the transition system and keeps the invariant |
| `WorkloadObjects.WorkloadGenerator.HandleRequest` | benchmark/hicache/bench_multiturn.py:390-402 | a task ends in one response, of success or failure |
| `WorkloadObjects.WorkloadGenerator.TakeResponse` | benchmark/hicache/bench_multiturn.py:443-445 | takes the oldest response |
| `WorkloadObjects.WorkloadGenerator.CountResponse` | benchmark/hicache/bench_multiturn.py:446-486 | counts the response, and on success the client's round |
| `WorkloadObjects.WorkloadGenerator.EnqueueNext` | benchmark/hicache/bench_multiturn.py:488-520 | asks the next question, at once or at the barrier, never from an empty pool |
| `WorkloadObjects.WorkloadGenerator.CheckBarrier` | benchmark/hicache/bench_multiturn.py:522-530 | advances the barrier count and starts a release exactly at the tabulated number |
| `WorkloadObjects.WorkloadGenerator.ReleaseStep` | benchmark/hicache/bench_multiturn.py:538-542 | moves held requests in order and then opens the next round |
| `RoundBarrierSafety.EveryRun` | benchmark/hicache/bench_multiturn.py:404-548 | the invariant holds after every sequence of steps of the two threads and the tasks |
| `RoundBarrierSafety.InvKept` | benchmark/hicache/bench_multiturn.py:404-548 | every single step keeps places, rounds, barrier count, counters and question pool consistent |
| `RoundBarrierSafety.FullCount` | benchmark/hicache/bench_multiturn.py:524-530 | when the barrier count is full, every client of the round has completed it |
| `RoundBarrierTheorems.RoundIsSuccesses` | benchmark/hicache/bench_multiturn.py:460-461 | a client's round number is the number of its responses handled as successes in the run |
| `RoundBarrierHistory.CountedInOrder` | benchmark/hicache/bench_multiturn.py:443-486 | responses are counted in the order in which the tasks answered; a client's round is the number of its successes counted so far, and the failed clients are those of the failures counted so far, in order |
| `RoundBarrierHistory.LookClears` | benchmark/hicache/bench_multiturn.py:407 | in every run the sender goes on exactly when fewer than max_parallel requests are in flight or have a response that is not counted yet |
| `RoundBarrierHistory.SentInOrder` | benchmark/hicache/bench_multiturn.py:404-414 | popping at index 0, requests are sent in the order in which they became ready |
| `RoundBarrierHistory.ReleasedInOrder` | benchmark/hicache/bench_multiturn.py:538-542 | held requests are released in the order in which they came to the barrier |
| `RoundBarrierTheorems.BarrierOrdersRounds` | benchmark/hicache/bench_multiturn.py:517-542 | with the barrier on, a request of round r + 1 exists only if every client with more than r rounds has had its round-r response handled successfully |
| `RoundBarrierTheorems.ConcurrencyBounded` | benchmark/hicache/bench_multiturn.py:407-411 | in every interleaving 0 <= sent - completed <= max_parallel, stale reads of the completed counter included |
| `RoundBarrierTheorems.ClientInOnePlace` | benchmark/hicache/bench_multiturn.py:404-542 | every client is always in exactly one of ready, popped, in flight, answered, being handled, held, finished or failed |
| `RoundBarrierTheorems.PoolNeverRunsDry` | benchmark/hicache/bench_multiturn.py:293-304 | the follow-up question pool is never popped when empty |
| `RoundBarrierTheorems.ReleaseHandsOverNextRound` | benchmark/hicache/bench_multiturn.py:530-540 | a release hands over exactly one request for each client of the next round |
| `RoundBarrierTheorems.QuiescenceIsCompletion` | benchmark/hicache/bench_multiturn.py:264-268 | with nothing left to do, all clients are finished if and only if nothing failed, and then exactly the sum of the round counts was sent and completed and every follow-up question asked |
| `RoundBarrierTheorems.LoopsEndIff` | benchmark/hicache/bench_multiturn.py:416-417 | with nothing left to do, the answered requests reach the total that ends both loops if and only if nothing is held and only last rounds failed, and no continuation changes that |
| `RoundBarrierTheorems.FailureHoldsBarrier` | benchmark/hicache/bench_multiturn.py:446-449 | after a failure with the barrier on, no request of a later round ever exists |
| `RoundBarrierTheorems.OneFailureStrandsTheOther` | benchmark/hicache/bench_multiturn.py:446-449 | a concrete run in which one failure leaves the other client held for ever |
| `RoundBarrierTheorems.RankDrops` | benchmark/hicache/bench_multiturn.py:404-542 | every step other than the sender's own polling moves the run towards its end |
| `RoundBarrierTheorems.RunsCanComplete` | benchmark/hicache/bench_multiturn.py:404-542 | from every reachable state some continuation ends the run, and without failures finishes every client: no deadlock, no stranded work |
| `RoundBarrierTheorems.ProgressBounded` | benchmark/hicache/bench_multiturn.py:404-542 | in every run the number of steps other than polling is at most the initial rank |
| `RoundBarrierTheorems.FairRunsEnd` | benchmark/hicache/bench_multiturn.py:404-542 | every run in which any w steps in a row include one other than polling while there is work has nothing left to do after a number of steps known from the start, and without failures has finished every client |
| `RoundBarrierFairness.ScheduledIsFair` | benchmark/hicache/bench_multiturn.py:404-548 | if sender, tasks and response thread never wait w steps with something to do, every 2 w steps make progress while there is work: the sender's test and pop reach a request |
| `RoundBarrierFairness.ScheduledRunsEnd` | benchmark/hicache/bench_multiturn.py:404-548 | every such run has nothing left to do after a number of steps known from the start; without failures every client has finished, and all requests are answered if and only if only last rounds failed |
| `RoundBarrierFairness.NoSlotNoRequest` | benchmark/hicache/bench_multiturn.py:407 | with no parallel slot, no step ever changes anything |
| `ServingObjects.CountRequests` | benchmark/hicache/bench_serving.py:414 | the dispatcher's target is the number of turns of all conversations |
| `ServingObjects.PromptLength` | benchmark/hicache/bench_serving.py:102-106 | sums input and generated tokens of the earlier turns |
| `ServingObjects.Benchmark.GetRequest` | benchmark/hicache/bench_serving.py:263-277 | the dispatcher yields the head of the queue, stops at its count, and gives up on an empty queue |
| `ServingObjects.Benchmark.BeginRequest` | benchmark/hicache/bench_serving.py:97-116 | appends the user message of the current turn and books the context length |
| `ServingObjects.Benchmark.CompleteRequest` | benchmark/hicache/bench_serving.py:172-190 | is the step of the transition system: the answer and its length are recorded, as `ConversationHistory.ContextIsExchanged` and `ConversationHistory.MessagesAreAnswers` state over runs, and the conversation is put back if it has turns left |
| `ServingObjects.Benchmark.FailRequest` | benchmark/hicache/bench_serving.py:191-197 | a failed conversation is not put back |
| `ConversationQueueSafety.EveryRun` | benchmark/hicache/bench_serving.py:460-493 | the invariant holds after every sequence of dispatches, starts, successes, failures and timeouts |
| `ConversationQueueSafety.PutsNeverBlock` | benchmark/hicache/bench_serving.py:186-190 | the bounded queue never exceeds its capacity and putting a conversation back never blocks |
| `ConversationQueueSafety.TurnsInOrder` | benchmark/hicache/bench_serving.py:99-116 | the turns sent for a conversation are 0, 1, 2 and so on, each once; its messages alternate between user and assistant and the user says what the prompts say |
| `ConversationQueueSafety.ContextBooked` | benchmark/hicache/bench_serving.py:102-106 | each request is booked with what its conversation holds for all earlier turns and its own input; `ConversationHistory.ContextIsExchanged` says what that is |
| `ConversationHistory.ContextIsExchanged` | benchmark/hicache/bench_serving.py:102-106 | in every run, each request is booked with the configured input lengths of the turns up to its own and the tokens with which the run answered the earlier ones |
| `ConversationHistory.MessagesAreAnswers` | benchmark/hicache/bench_serving.py:108-116 | in every run, message 2j of a conversation is the configured prompt of turn j and message 2j + 1 the text with which the run answered it |
| `ConversationHistory.FirstComeFirstServed` | benchmark/hicache/bench_serving.py:186-190 | conversations are handed out in the order in which they were put on the queue: all of them at the start, and one again after each answer but its last |
| `ConversationHistory.LimitKept` | benchmark/hicache/bench_serving.py:396-410 | never more requests in flight than the limit |
| `ConversationHistory.FreeSlotServes` | benchmark/hicache/bench_serving.py:396-410 | with a slot free, any waiting task may go ahead |
| `ConversationQueueSafety.AllDispatchedLeavesNothing` | benchmark/hicache/bench_serving.py:268-277 | once the full count is dispatched the queue is empty, and once all have started every turn of every conversation was sent exactly once |
| `ConversationQueueSafety.QuiescenceIsCompletion` | benchmark/hicache/bench_serving.py:268-277 | with no conversation queued or at work, every yielded request was sent, and the full count was yielded if and only if only last turns failed |
| `ConversationQueueSafety.EndOfBenchmark` | benchmark/hicache/bench_serving.py:268-277 | at any end, with the dispatcher stopped or done and no task at work, the full count was yielded if and only if it did not give up, and if and only if the queue is empty and only last turns failed |
| `ConversationQueueSafety.LatePutIsLost` | benchmark/hicache/bench_serving.py:269-277 | a concrete run without failures in which a conversation put back after the timeout is never sent |
| `ConversationQueueSafety.RunsCanComplete` | benchmark/hicache/bench_serving.py:480-493 | unless the dispatcher gave up, every run can go on until all conversations are over |
| `ConversationQueueSafety.ProgressBounded` | benchmark/hicache/bench_serving.py:263-277 | no run makes more progress than its initial rank |
| `ConversationQueueSafety.FairRunsEnd` | benchmark/hicache/bench_serving.py:480-493 | every run that makes progress within any w steps while there is work comes to its end after a number of steps known from the start |
| `ConversationQueueFairness.ScheduledRunsEnd` | benchmark/hicache/bench_serving.py:480-493 | if dispatcher, waiting tasks and requests in flight never wait w steps with something to do, the run comes to its end after a number of steps known from the start |
| `ConversationQueueSafety.FlattenKeepsTurns` | benchmark/hicache/bench_serving.py:414-421 | flattening for shared prefixes keeps the number of requests, one per conversation |
| `EditDistance.EditCount` | benchmark/ocr/eval_utils.py:617-631 | the one-row in-place loop returns the least number of single-character edits, at any positions, that turn one string into the other |
| `EditDistance.MatchTakesDiagonal` | benchmark/ocr/eval_utils.py:625-626 | taking the diagonal without a minimum on a match loses nothing |
| `EditDistance.AdjacentCells` | benchmark/ocr/eval_utils.py:624-629 | neighbouring cells of the table differ by at most one |
| `EditDistance.LevIsLeastEdits` | benchmark/ocr/eval_utils.py:617-631 | the recurrence is achieved by some edit script and beaten by none |
| `EditDistance.LevSymmetric` | benchmark/ocr/eval_utils.py:617-631 | the count is symmetric |
| `EditDistance.LevTriangle` | benchmark/ocr/eval_utils.py:617-631 | the count satisfies the triangle inequality |
| `EditDistance.LevBounds` | benchmark/ocr/eval_utils.py:617-631 | the count lies between the difference and the maximum of the lengths |
| `EditDistance.LevZero` | benchmark/ocr/eval_utils.py:617-631 | the count is 0 exactly for equal strings |
| `EditDistance.NormalizedEditDistance` | benchmark/ocr/eval_utils.py:605-631 | the distance times the longer length is the least number of edits between the cleaned strings, and 0 when both are empty; it is in [0, 1] and 0 exactly when they are equal |
| `EditDistance.RatioIsNormalized` | benchmark/ocr/eval_utils.py:611-631 | the early exits and the division all give that quotient |
| `StaticLp.Validate` | benchmark/eplb/prepare_static_lp.py:26-39 | which complaint comes first, and that counts per step are summed over the steps; passes exactly when all conditions hold |
| `StaticLp.AggregateIsTotal` | benchmark/eplb/prepare_static_lp.py:28-29 | each count given to the layers is the total over all steps, or as it is without steps |
| `LayerPrograms.BuildUpper` | benchmark/eplb/prepare_static_lp.py:43-47 | each rank's row has ones at its slots and -1 for the bound |
| `LayerPrograms.BuildEquality` | benchmark/eplb/prepare_static_lp.py:64-65 | each expert's row has ones at its replicas |
| `LayerPrograms.MatricesAreConstraints` | benchmark/eplb/prepare_static_lp.py:64-74 | a vector satisfies the matrices exactly when it is feasible: demands met, no rank above the bound, nothing negative |
| `LayerPrograms.ProgramMinimises` | benchmark/eplb/prepare_static_lp.py:48-74 | a vector minimises the program given to the solver exactly when it places the demands with the least largest rank load |
| `LayerPrograms.MinimiserExists` | benchmark/eplb/prepare_static_lp.py:66-74 | the program of every layer with all its replicas has a minimiser |
| `StaticLp.DemandIsDistribution` | benchmark/eplb/prepare_static_lp.py:53-58 | demands are nonnegative and sum to 1, also when nothing was counted; each times the sum of the counts is its count, or times their number 1 |
| `StaticLp.BinCount` | benchmark/eplb/prepare_static_lp.py:59 | counts the replicas of every expert |
| `StaticLp.Residual` | benchmark/eplb/prepare_static_lp.py:78 | the loop over the equality matrix returns the largest gap between served and demanded mass |
| `StaticLp.ReshapeIsLoad` | benchmark/eplb/prepare_static_lp.py:88-93 | a row of the reshaped mass sums to what the constraint row of that rank sums to |
| `StaticLp.MaxRankShare` | benchmark/eplb/prepare_static_lp.py:88-93 | the reported share is the largest rank load |
| `StaticLp.PrepareLayer` | benchmark/eplb/prepare_static_lp.py:51-96 | which complaint a layer gets from the solver's answer to its matrices; otherwise each expert's served mass times the sum of the counts differs from its count by at most the reported residual times that sum, the residual is attained and at most the tolerance, and 0 for a minimiser; the row reports the largest loads of the solution and of the split that gives every replica the same part of its expert's count, and for a minimiser the worst confined demand per rank |
| `StaticLp.AcceptedCounts` | benchmark/eplb/prepare_static_lp.py:77-82 | a result passes the checks exactly when nothing is negative and every expert's served mass, scaled to the counts, is within the scaled tolerance of its count |
| `StaticLp.UniformSplits` | benchmark/eplb/prepare_static_lp.py:83 | in the uniform split, each replica's mass times the number of replicas of its expert, scaled to the counts, is the expert's count |
| `StaticLp.PrepareLayers` | benchmark/eplb/prepare_static_lp.py:43-96 | one good row per layer, or the complaint of the first layer that has one |
| `StaticLp.Prepare` | benchmark/eplb/prepare_static_lp.py:12-96 | the complaint of the validation, else of the first layer that has one, else one good row per layer |
| `StaticLp.ExactSolverSucceeds` | benchmark/eplb/prepare_static_lp.py:66-82 | with a solver that finds minimisers, a layer is refused exactly when an expert has no replica |
| `ReplicaLp.UniformServes` | benchmark/eplb/prepare_static_lp.py:83 | the uniform split meets every demand exactly |
| `ReplicaLp.UniformIsFeasible` | benchmark/eplb/prepare_static_lp.py:66-93 | the program is feasible for every valid layout, and an exact minimiser is no worse than the uniform split |
| `ReplicaLp.ConfinedDemandBound` | benchmark/eplb/prepare_static_lp.py:64-74 | for every set of ranks, no solution beats the demand confined to them divided by their number |
| `Transport.Fill` | benchmark/eplb/prepare_static_lp.py:64-74 | demands can be spread over slots within the ranks' room whenever no set of ranks must hold more than its room |
| `ReplicaLp.FeasibleIff` | benchmark/eplb/prepare_static_lp.py:64-74 | a bound on the rank loads can be met if and only if no set of ranks has more than that per rank confined to it |
| `ReplicaLp.MinimumIsConfinedDemand` | benchmark/eplb/prepare_static_lp.py:66-74 | the program has an exact minimiser, and its value is the worst confined demand per rank |
| `ReplicaLp.OptimumIsConfinedDemand` | benchmark/eplb/prepare_static_lp.py:66-74 | every exact minimiser attains that bound for some set of ranks |
| `ReplicaLp.AcceptedBound` | benchmark/eplb/prepare_static_lp.py:77-90 | an accepted result keeps the bound up to one tolerance per confined expert |
| `ReplicaLp.AcceptedTotal` | benchmark/eplb/prepare_static_lp.py:77-90 | accepted mass sums to 1 within one tolerance per expert, and the busiest rank carries at least the fair share less that |
| `SseFraming.SseEvents` | benchmark/agentic-rollout/simulate.py:42-54 | the reader loop yields the events of the stream and says whether it broke off inside one |
| `SseFraming.RoundTrip` | benchmark/agentic-rollout/simulate.py:42-54 | any list of messages, written as data lines and cut into lines off the wire, reads back normalised, and unchanged if and only if no line has a leading space or a trailing carriage return |
| `SseFraming.LeadingSpaceIsLost` | benchmark/agentic-rollout/simulate.py:50 | a concrete message whose leading space does not survive |
| `SseFraming.NormaliseFixesClean` | benchmark/agentic-rollout/simulate.py:46-52 | a message survives exactly when all its lines are clean |
| `SseFraming.NoiseIgnored` | benchmark/agentic-rollout/simulate.py:47-52 | a line that is neither blank nor data changes nothing, wherever it stands |
| `SseFraming.CutAnywhere` | benchmark/agentic-rollout/simulate.py:42-54 | an encoded stream cut at any character delivers the messages whose frames are whole, and is rejected if and only if the cut lies at least five characters into a frame |
| `SseFraming.ShortCutIsAccepted` | benchmark/agentic-rollout/simulate.py:47-54 | a concrete cut after which the second message is dropped without an error |
| `Rollout.Generate` | benchmark/agentic-rollout/simulate.py:67-119 | the loop with its checks, the rank and a truncated frame among them, returns the ids and arrivals, or the first error |
| `Rollout.GenerationIsComplete` | benchmark/agentic-rollout/simulate.py:82-119 | a successful generation has exactly the requested ids, positive and strictly growing counts that end there, and the requested context and rank |
| `RolloutOutcome.GenerationEnds` | benchmark/agentic-rollout/simulate.py:75-119 | where the reading stops decides how the generation ends: at a server error, at a count that goes back, at the end of the stream, inside a frame or not, or at the end marker by what the last message reports, and then with which of the complaints |
| `RolloutOutcome.SucceedsIff` | benchmark/agentic-rollout/simulate.py:75-119 | a generation succeeds if and only if the stream is messages whose counts never go back and then the end marker, and the last reports what was asked; its ids are all those given, or the last given, and its arrivals the times and counts of the messages that brought tokens |
| `Rollout.EndlessFails` | benchmark/agentic-rollout/simulate.py:76-104 | a stream without its end marker never gives a generation |
| `RolloutStream.Request` | benchmark/agentic-rollout/simulate.py:67-119 | the reader feeding the generation; `RolloutStream.AnswerSucceedsIff` and `RolloutStream.CutStreamComplains` state what comes of it |
| `RolloutStream.WholeStream` | benchmark/agentic-rollout/simulate.py:42-119 | an undisturbed answer is generated from its messages followed by the end |
| `RolloutStream.AnswerSucceedsIff` | benchmark/agentic-rollout/simulate.py:42-119 | off the wire, a whole answer gives a generation if and only if its messages report counts that never go back and the last reports what was asked, with the ids and arrivals of its messages |
| `RolloutStream.CutStreamFails` | benchmark/agentic-rollout/simulate.py:42-119 | for any understanding of messages that ends only at the marker, an answer cut at any character before its marker is whole never gives a generation |
| `RolloutStream.CutStreamComplains` | benchmark/agentic-rollout/simulate.py:42-106 | an answer of good messages cut at any character is called truncated if at least five characters of the frame arrived, and incomplete otherwise |
| `Rollout.ModesAgree` | benchmark/agentic-rollout/simulate.py:92-96 | incremental and cumulative streams give the same ids, counts and errors |
| `Rollout.SyntheticTokensExact` | benchmark/agentic-rollout/simulate.py:30-39 | the synthetic input has exactly the requested length and repeats the text |
| `Rollout.Conversation` | benchmark/agentic-rollout/simulate.py:184-230 | against any server, the history is the inputs and the answers in the order exchanged; each turn's answer is the server's to all that was said up to its input, the recorded context is the length of that, and the turn sends all of it, or in a session its own input |
| `Rollout.HistoryIsExchanged` | benchmark/agentic-rollout/simulate.py:184-230 | the same after any number of turns; in both modes the server holds the history |
| `Rollout.SessionMatchesHistory` | benchmark/agentic-rollout/simulate.py:184-230 | against any server, session mode and full-history mode exchange the same outputs and end with the same history; at every turn the session server sees exactly what full-history mode sends, and its length is the recorded context length |
| `Rollout.ContextWithinMaximum` | benchmark/agentic-rollout/simulate.py:148-153 | in every conversation the context at turn t is initial + t * (tool + output), context and answer stay within the computed maximum, and the final history attains it |
| `RolloutAnalysis.Tally` | benchmark/agentic-rollout/plot.py:77-87 | each window gets its own tokens and all windows together get all tokens |
| `RolloutAnalysis.WindowCovers` | benchmark/agentic-rollout/plot.py:83-86 | an arrival is counted in window w exactly when it is from w windows up to, but not including, w + 1 windows after the start |
| `RolloutAnalysis.WindowTokensNonnegative` | benchmark/agentic-rollout/plot.py:83-87 | no window has a negative rate on records of successful generations |
| `RolloutAnalysis.TableByTime` | benchmark/agentic-rollout/plot.py:88-99 | one entry for each window that starts before the end, in order, with its start, its duration within the run and its own tokens as a rate; rate times duration, summed, is the tokens of those windows |
| `RolloutAnalysis.TokensConserved` | benchmark/agentic-rollout/plot.py:78-99 | reported and missed tokens are all tokens generated |
| `RolloutAnalysis.TableIsCompleteIff` | benchmark/agentic-rollout/plot.py:88-99 | the table accounts for every token if and only if every arrival falls in a window that starts before the end of the run |
| `RolloutAnalysis.InsideIsSeen` | benchmark/agentic-rollout/plot.py:84-92 | an arrival from the start to before the end is always seen |
| `RolloutAnalysis.LastInstantIsMissed` | benchmark/agentic-rollout/plot.py:89-92 | a concrete run whose tokens arrive at the last instant and are all missed |
| `Metrics.RateExistsIff` | benchmark/agentic-rollout/metrics.py:17-31 | a rate exists exactly when time passed and the metric has series, the same in both scrapes, none of which went back, and is then nonnegative |
| `Metrics.VolumeIsIncrease` | benchmark/agentic-rollout/metrics.py:31 | rate times time is what the series of the metric count together in the later scrape less what they counted in the earlier |
| `Metrics.RatesTelescope` | benchmark/agentic-rollout/metrics.py:17-31 | when two adjacent intervals have a rate so has the joined one, and rate times time adds exactly |
| `Metrics.ModeIsNamed` | benchmark/agentic-rollout/metrics.py:72-79 | which mode each of the four labels stands for, and that no other label is a mode |
| `Metrics.CellsAreDistinct` | benchmark/agentic-rollout/metrics.py:76-84 | two series never share a cell of the regrouped table |
| `Metrics.Regroup` | benchmark/agentic-rollout/metrics.py:75-84 | regrouping succeeds exactly on known modes and counters that did not go back, and then every increase has its own cell |
| `Metrics.ColumnOfWorkers` | benchmark/agentic-rollout/metrics.py:87 | summing a mode over workers is summing the increases of that mode |
| `Metrics.HitPercentages` | benchmark/agentic-rollout/metrics.py:69-96 | percentages exist exactly when the scrapes have the same series, all with one of the four modes, none went back, every worker has all four, and something was counted; device and host times all increases are 100 times the increases labelled with that tier, and the total 100 times those of all three tiers; both tiers are nonnegative, together at most the total, and the total at most 100 |
| `Metrics.HitsBounded` | benchmark/agentic-rollout/metrics.py:87-96 | device and host percentages are nonnegative, their sum is at most the total, and the total at most 100 |
| `DatasetFilter.FilterConversation` | benchmark/hicache/data_processing.py:56-84 | keeps exactly the turns within all given limits, in order, with their prompts and their own or the fixed output lengths, and totals their tokens |
| `DatasetFilter.TurnsAreKept` | benchmark/hicache/data_processing.py:57-84 | what is kept of a conversation, position by position |
| `DatasetFilter.OnePass` | benchmark/hicache/data_processing.py:53-87 | one pass appends the surviving conversations as far as they are wanted |
| `DatasetFilter.SurvivorsIff` | benchmark/hicache/data_processing.py:57-87 | some conversation survives if and only if some turn of some conversation is within the limits |
| `DatasetFilter.SurvivorsAre` | benchmark/hicache/data_processing.py:53-87 | the survivors are the conversations with a turn within the limits, in order |
| `DatasetFilter.FilterEndsIff` | benchmark/hicache/data_processing.py:48-91 | some number of passes yields what is wanted if and only if nothing is wanted or some turn is within the limits; otherwise every number of passes yields nothing |
| `DatasetFilter.FilterCanLoopForever` | benchmark/hicache/data_processing.py:48-91 | a concrete dataset and limits on which the loop never ends |
| `DatasetFilter.FilterPasses` | benchmark/hicache/data_processing.py:48-91 | on any data, the loop after n rounds |
| `DatasetFilter.PassesRotate` | benchmark/hicache/data_processing.py:48-91 | after any number of passes, entry k is survivor k modulo their number |
| `DatasetFilter.CommonFilterChat` | benchmark/hicache/data_processing.py:48-91 | returns exactly the requested number, entry k being what is kept of the conversation whose turn it is among those with a turn within the limits, taken round and round, with the totals of the returned turns |

## Left out

- Names, events and thread names of trace spans, the flow arrows drawn for links, the output file, and the torch profile merge: they would only add easy members.
- Conversion of gateway spans before layout: the source sets `child` only on engine spans, so conversion of a gateway span fails at its first lookup; the gateway pass is modelled on its own inputs, and `TraceConverter.Convert` has no gateway spans.
- Sharing of one attribute table between a span and its trace entry: attributes are values here.
- `SpanWalk.GatherTree`: lists the spans; the event and link entries that follow each span's own are not modelled.
- `SpanWalk.GatherAll`: the same.
- `SpanWalk.ConvertTrace`: takes the list of spans as distinct objects, as the extraction builds it.
- `GatewayLayout.PassKeepsInv`: for spans of positive length, for the reason `GatewayLayout.NonpositiveSpanWastesSlot` states.
- `GatewayLayout.GatewayPassIsOptimal`: for spans of positive length, for the same reason.
- Payload contents, histories and performance metrics of the multi-turn workload, the heartbeat and the sleeps.
- The progress bar of the multi-turn workload: the request function that advances it is not part of this model; an answered request counts once.
- `ConversationQueue.ValidConfig`: conversations have at least one turn, as the data loaders produce them.
- The warm-up request, the profiler calls and the latency statistics of the serving benchmark.
- Sharing of one message list between a conversation and its payload: messages are values here.
- Unicode normalisation and stripping in the OCR evaluator: an arbitrary function of the text.
- `StaticLp.Validate`: counts are real numbers, so finiteness and overflow are not modelled.
- Floating-point rounding: exact reals.
- Session open and close, the request id passed along a session, and hashing of outputs in the rollout client.
- `DatasetFilter.CommonFilterChat`: as a method it needs to end, so it takes the data on which the loop ends; `DatasetFilter.FilterPasses` takes any.
- Samples that are not finite: the parser drops them before rates and percentages are computed.
- Gauges, occupancy, percentiles and plots: only easy members.
- Kernel benchmarks, storage benchmarks, the gateway and the serving runtime.
