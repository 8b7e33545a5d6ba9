# Models of the trace converter, the load generators and their data

This project models the self-contained algorithms and protocols around the
SGLang serving runtime and proves what they promise, for all inputs and all
runs. It is written for Dafny 4.11; `dafny verify dfyconfig.toml` checks all of it.

| files | what they model |
|---|---|
| `Multiturn*.dfy` | the multi-turn load generator: sender thread, request tasks and response thread with a round barrier. `Multiturn` is a step system whose actions touch shared data at most once, so its runs are the interleavings of the threads; `MultiturnInvariant`, `MultiturnTheorems`, `MultiturnProgress`, `MultiturnTranscript`, `MultiturnExit` and `MultiturnEnding` prove safety of runs, progress, what is said in them, how the threads leave and when they still can; `MultiturnThreads` holds the loop bodies as methods on shared objects, each proved to perform actions of the step system |
| `SpanLanes`, `SpanLayout`, `LaneChoice`, `LaneAllocator` | the lane allocator of the trace converter: interval lists, the whole layout, which lane a span gets, and the classes that run it in place |
| `SpanForest`, `FlowIds`, `TracePipeline` | the span forest and its recursive in-place walks, flow ids, and the way from raw spans to lanes |
| `ConversationQueue`, `ServingLoop` | the serving benchmark's bounded conversation queue, as a step system and as the event loop's methods |
| `UserFlow`, `UserGenerator`, `SlotLoss`, `MixThreads` | the mixed workload: users and their queue, and the slots of its two threads |
| `Redirects`, `LineQueries` | redirect resolution over arbitrary tables, and the queries asked about truncated texts |
| `CyclicFilter` | the cyclic conversation filter and the repeat-and-truncate step |
| `WheelText`, `WheelIndex` | the wheel index pages, as text that is written and read back, over any sequence of runs |
| `Sums` | sums, cardinalities, removal and insertion in sequences |

## Where the code does not do what one would expect

- Multi-turn generator: the progress bar moves before the answer is queued, so
  the response thread can leave with one answer uncounted (`ExitRace`,
  `LastAnswerReachable`). It handles everything exactly if the bar was full, and
  no task was about to queue, at its last timeout (`ExitExactly`). Answers left
  behind keep their slots: the sending loop can then end exactly if they are
  fewer than `max_parallel` (`SenderEndsExactly`), so with one slot the program
  hangs (`HangReachable`). A failed request keeps the bar from ever filling
  unless it was its client's last and raised nothing; with the barrier on also
  unless no client has more rounds (`CanFillExactly`, `FailureReachable`). The
  program can still end exactly if the bar can fill and the sending loop is not
  shut out by answers left behind (`MultiturnExit.EndsExactly`).
- Lane allocator: an instant skips the overlap test and can hide a running span
  from the next test (`InstantHidesOverlap`). Lanes are free of overlaps exactly
  when no placement does that (`PlaceChained`, `LayoutChainedExactly`). In raw
  times this needs a span of exactly 1000 ns (`TraceLanes`).
- Mixed workload: the delayed-user queue is inserted into at the wrong index, so
  it stays sorted exactly when each new user starts no later than the last
  (`InsertSortedExactly`). Due users can be passed over (`UnsortedPassesOver`),
  exactly if someone in the queue starts before its head (`ServesDueExactly`);
  none ever is as the queue empties exactly if it is sorted
  (`ServesDueThroughout`, `SortedRunExactly`).
  A failed response keeps its slot for good; something is sent again exactly if
  there are fewer failures than slots (`SendsAgainExactly`, `LossReachable`).
- Serving benchmark: a conversation that fails before its last turn leaves the
  request generator waiting for its timeout (`CanYieldAllExactly`,
  `StarvationReachable`).
- Redirects: a line whose chain ends in a ring gets the value of the first line
  met twice.
- Flow ids identify targets exactly if given correlations do not collide with
  each other or with the counter (`FlowIdsExact`, `CollisionWitness`).
- Cyclic filter: it does not end when nothing passes (`CyclicFilter.EndsExactly`,
  `EndlessWitness`).


## Model

| member | source | states |
|---|---|---|
| `MultiturnInvariant.RunKeeps` | benchmark/hicache/bench_multiturn.py:402-544 | every state of every interleaving of sender, request tasks and response thread satisfies the combined invariant on queue places, slots, sub-questions, progress bar, stop conditions and barrier; failures included |
| `MultiturnInvariant.StepKeeps` | benchmark/hicache/bench_multiturn.py:402-544 | the invariant is inductive: each single action of either thread keeps it |
| `MultiturnInvariant.NotFull` | benchmark/hicache/bench_multiturn.py:414-415 | while any request is ready, in flight or held back, the progress bar is not full, so the sender's exit test cannot fire early |
| `MultiturnTheorems.OneOutstandingRequest` | benchmark/hicache/bench_multiturn.py:336-358 | over ready, in-flight, response and held-back places a client has at most one request, and that request's token ids are still exactly the client's history and its round the client's round |
| `MultiturnTheorems.HistoriesExtend` | benchmark/hicache/bench_multiturn.py:448-516 | a later request of a client strictly extends, as a token list, every earlier request of that client |
| `MultiturnTheorems.SlotAccounting` | benchmark/hicache/bench_multiturn.py:405-409 | sent minus completed equals in-flight plus unhandled responses at every point, and never exceeds `max_parallel` (or is zero, for a limit of zero or less) |
| `MultiturnTheorems.SupplySuffices` | benchmark/hicache/bench_multiturn.py:484-486 | `sub_question_inputs.pop()` never meets an empty list and every counted reply finds its client record, in every run |
| `MultiturnTheorems.BarrierSafety` | benchmark/hicache/bench_multiturn.py:518-538 | with the barrier on, a request of round b+1 is in the ready queue or further on only if every client with more than b rounds has succeeded in round b; failures included |
| `MultiturnTheorems.BarrierRelease` | benchmark/hicache/bench_multiturn.py:526-538 | when the barrier opens, the released batch holds exactly one request for each client of the next round, so its size is that round's client count |
| `MultiturnTheorems.FailureStallsBarrier` | benchmark/hicache/bench_multiturn.py:444-447 | with the barrier on, once a request has failed in some round, no client ever succeeds in a later round, in any continuation of the run |
| `MultiturnTheorems.FrozenRun` | benchmark/hicache/bench_multiturn.py:444-447 | a client whose request failed stays in its round for the rest of every run |
| `MultiturnTheorems.RoundCounts` | benchmark/hicache/bench_multiturn.py:263-267 | the per-round client counts add up to the total number of requests |
| `MultiturnTranscript.HistoryIsDialogue` | benchmark/hicache/bench_multiturn.py:448-512 | in every run a client's history is its prompt followed, in turn and in order, by the answers counted for it and the sub-questions asked for it; its round is the number of those answers |
| `MultiturnTranscript.QuestionsUsedOnce` | benchmark/hicache/bench_multiturn.py:484-504 | the sub-questions asked so far, the latest first, follow the remaining list to make up the sampled list: each is asked at most once, from the end on |
| `MultiturnTranscript.CountedInOrder` | benchmark/hicache/bench_multiturn.py:388-447 | answers are handled in the order in which tasks gave them: after those counted come the one in hand, the queue, and the one about to be queued, each with the outcome its task had |
| `MultiturnTranscript.HeldInOrder` | benchmark/hicache/bench_multiturn.py:513-536 | requests held back, and requests being released, are those of the latest questions in the order they were asked |
| `MultiturnProgress.WorkBound` | benchmark/hicache/bench_multiturn.py:402-544 | in every run, failures included, at most 8 productive steps per round to be played and 5 per client are taken |
| `MultiturnProgress.StepWork` | benchmark/hicache/bench_multiturn.py:402-544 | a measure of remaining work drops with every productive action and is untouched by every polling action |
| `MultiturnProgress.Progress` | benchmark/hicache/bench_multiturn.py:402-544 | while a client that has not failed has rounds left, a productive step that fails nothing is possible now or after one poll; with the barrier on provided nobody failed in a round that client goes beyond, so held-back requests are never stranded |
| `MultiturnProgress.GateNeedsActive` | benchmark/hicache/bench_multiturn.py:513-538 | requests are held back only while some client the barrier waits for is still on its way, as long as nobody has failed |
| `MultiturnProgress.RestsWhenDone` | benchmark/hicache/bench_multiturn.py:402-544 | a failure-free run that cannot go on, and whose response thread has not left, has sent, counted and ticked exactly `total_requests` |
| `MultiturnExit.ExitAccounting` | benchmark/hicache/bench_multiturn.py:539-541 | when the response thread leaves, in any run, everything has been sent and answered, and counted plus queued plus about-to-be-queued answers make up `total_requests` |
| `MultiturnExit.ExitExactly` | benchmark/hicache/bench_multiturn.py:539-541 | when the response thread leaves, in any run, it has handled every answer iff, at its last timeout, the bar was already full and no task was about to queue its answer |
| `MultiturnExit.LastTimeout` | benchmark/hicache/bench_multiturn.py:441-443 | a response thread that is leaving has timed out, and after its last timeout only the sender's actions and the bar test happened, none of which counts an answer |
| `MultiturnExit.SenderEndsExactly` | benchmark/hicache/bench_multiturn.py:405-415 | once the response thread is leaving, the slots still taken are those of the answers left behind, and the sending loop can end, in some continuation, iff it is past its slot check or those answers are fewer than `max_parallel` |
| `MultiturnExit.EndsExactly` | benchmark/hicache/bench_multiturn.py:402-544 | from any state of any run, some continuation stops both threads iff the bar can still fill (no task raised, failures only in last rounds and, with the barrier on, of clients no one outlasts) and the sending loop is not shut out by answers that a leaving response thread misses |
| `MultiturnExit.Ends` | benchmark/hicache/bench_multiturn.py:402-544 | constructs that continuation from every such state whose response thread is not leaving: play, handle, stop |
| `MultiturnExit.DrainsAndStops` | benchmark/hicache/bench_multiturn.py:439-544 | with the bar full, a response thread that still handles answers can count them all, and then both threads can stop |
| `MultiturnExit.ShutOutForever` | benchmark/hicache/bench_multiturn.py:405-412 | a sending loop shut out in that way stays so in every continuation |
| `MultiturnExit.LostAnswerHangs` | benchmark/hicache/bench_multiturn.py:410-415 | with one slot, the race that leaves the last answer behind keeps the program from ever ending: in no continuation does the sending loop stop |
| `MultiturnExit.HangReachable` | benchmark/hicache/bench_multiturn.py:410-415 | witness: one client, one round and one slot hang that way, without any failure |
| `MultiturnExit.BothCanStop` | benchmark/hicache/bench_multiturn.py:402-541 | with the bar full and nothing left to handle, two more steps of each thread end the program |
| `MultiturnEnding.RunBalance` | benchmark/hicache/bench_multiturn.py:388-400 | in every run, bar position plus tasks that raised equals recorded rounds plus unhandled answers plus failed clients |
| `MultiturnEnding.BarFullExactly` | benchmark/hicache/bench_multiturn.py:414-415 | the bar is full iff no task has raised and every client has had the last of its rounds answered |
| `MultiturnEnding.CanFillExactly` | benchmark/hicache/bench_multiturn.py:402-544 | from any state of any run some continuation fills the bar iff no task has raised, every failure was in its client's last round and, with the barrier on, no client has more rounds than one that failed |
| `MultiturnEnding.Completes` | benchmark/hicache/bench_multiturn.py:402-544 | constructs that continuation, without another failure or timeout, from every such state |
| `MultiturnEnding.NeverEnds` | benchmark/hicache/bench_multiturn.py:402-544 | otherwise the bar never fills and neither thread ever stops, in any continuation, with or without the barrier |
| `MultiturnEnding.SettledRun` | benchmark/hicache/bench_multiturn.py:444-447 | a client whose request failed, counted or not yet, stays failed and in its round for the rest of every run |
| `MultiturnEnding.FailureReachable` | benchmark/hicache/bench_multiturn.py:444-447 | witness: two clients with two rounds each, the first request refused: from there the program never ends |
| `MultiturnExit.ExitRace` | benchmark/hicache/bench_multiturn.py:539-541 | from every state in which the last answer is awaited on an empty queue there is a continuation in which the response thread leaves with that answer uncounted, because the bar moves before the answer is queued |
| `MultiturnExit.LastAnswerReachable` | python/sglang/test/kits/cache_hit_kit.py:87-89 | the state that starts this race is reached with one client and one round |
| `MultiturnProgress.ReleaseReachable` | benchmark/hicache/bench_multiturn.py:501-538 | one client with two rounds reaches the barrier and opens it; its second request is the first prompt, the answer and the sub-question in a row |
| `MultiturnThreads.ReadyQueue.Append` | benchmark/hicache/bench_multiturn.py:193-195 | the queue gains the item at its end |
| `MultiturnThreads.ReadyQueue.Pop` | benchmark/hicache/bench_multiturn.py:197-208 | nothing from an empty queue; otherwise the drawn (random) or first (fifo) request leaves and the order of the rest is kept |
| `MultiturnThreads.CountParticipants` | benchmark/hicache/bench_multiturn.py:264-266 | the loop counts the set of clients with more than r rounds |
| `MultiturnThreads.ClientsPerRound` | benchmark/hicache/bench_multiturn.py:263-266 | one entry per round, each the size of that round's set of participants |
| `MultiturnThreads.Generator.constructor` | benchmark/hicache/bench_multiturn.py:336-386 | the new object is the initial state of the step system, with the table of round counts right |
| `MultiturnThreads.Generator.SendTurn` | benchmark/hicache/bench_multiturn.py:404-415 | one turn of the sending loop performs exactly the check and, if a slot is free, the pop; it ends the loop iff the bar is full |
| `MultiturnThreads.Generator.FinishTask` | benchmark/hicache/bench_multiturn.py:388-400 | a finished task moves the bar unless it raised and then queues its response: two actions of the step system |
| `MultiturnThreads.Generator.Count` | benchmark/hicache/bench_multiturn.py:444-482 | a reply frees its slot; only a success touches history and round; the state is the one the step system reaches |
| `MultiturnThreads.Generator.Next` | benchmark/hicache/bench_multiturn.py:484-538 | follow-up and barrier together are one step of the step system, whose questions and histories the transcript results describe; tells the batch released |
| `MultiturnThreads.Generator.PassBarrier` | benchmark/hicache/bench_multiturn.py:520-538 | counting by the precomputed table opens the barrier exactly when the step system, which counts the set of participants, does |
| `MultiturnThreads.Generator.ReleaseHeld` | benchmark/hicache/bench_multiturn.py:534-536 | the batch goes to the end of the ready queue in order, one visible append after the other |
| `MultiturnThreads.Generator.HandleTurn` | benchmark/hicache/bench_multiturn.py:439-541 | one uninterrupted turn of the response loop is a run of response-thread actions: it handles one response or, on an empty queue, stops iff the bar is full |
| `SpanLanes.NeighbourTestIsScan` | scripts/convert_otel_2_perfetto.py:58-70 | on every sorted lane whose intervals follow one another, the two-neighbour bisect test answers exactly as a scan of the whole lane |
| `SpanLanes.NeighbourTestIsOverlap` | scripts/convert_otel_2_perfetto.py:58-70 | for positive lengths that scan is the half-open overlap test against every interval of the lane |
| `SpanLanes.InsertSorted` | scripts/convert_otel_2_perfetto.py:72-73 | insertion keeps any sorted lane sorted |
| `SpanLanes.InsertElements` | scripts/convert_otel_2_perfetto.py:72-73 | insertion adds the new interval and loses none |
| `SpanLanes.InsertInstant` | scripts/convert_otel_2_perfetto.py:98-99 | an instant inserted without a test leaves the intervals following one another iff it lies inside none of them |
| `SpanLanes.InsertUnchained` | scripts/convert_otel_2_perfetto.py:72-73 | a lane that once has overlapping intervals keeps them, whatever is inserted |
| `SpanLayout.FirstFree` | scripts/convert_otel_2_perfetto.py:111-114 | the lane found is the first in lane order that passes the test; all earlier ones fail it |
| `SpanLayout.FindLine` | scripts/convert_otel_2_perfetto.py:95-120 | the lane number is an existing one or the next |
| `LaneChoice.FindLineExact` | scripts/convert_otel_2_perfetto.py:95-120 | on lanes without overlaps: the lane the request used last if the span is an instant or nothing on that lane is in its way; otherwise the least lane with nothing in the way, or one past the last |
| `LaneChoice.PlacementExact` | scripts/convert_otel_2_perfetto.py:269-293 | in a whole layout that hides nothing, every span of every request is on the lane its request used last on that process if nothing placed there before is in the way, and otherwise on the first lane where nothing placed before is |
| `LaneChoice.AffinityWitness` | scripts/convert_otel_2_perfetto.py:96-102 | witness: after [0,10) and a request's [5,15), that request's [20,30) belongs on lane 2, its own, although lane 1 is free |
| `SpanLayout.PlaceChained` | scripts/convert_otel_2_perfetto.py:95-120 | one placement keeps all lanes free of overlaps iff it is not the untested shortcut putting an instant inside an interval |
| `SpanLayout.PlaceUnchained` | scripts/convert_otel_2_perfetto.py:95-120 | a broken lane is never repaired by later placements |
| `SpanLayout.PlaceSlots` | scripts/convert_otel_2_perfetto.py:104-120 | lane ids of a process stay 1..n with exactly one slot entry each |
| `SpanLayout.PlaceLog` | scripts/convert_otel_2_perfetto.py:290-292 | every span placed so far is an interval of its lane, and every interval of a lane was placed there |
| `SpanLayout.HidesShows` | scripts/convert_otel_2_perfetto.py:98-99 | an untested instant inside an interval always shows as two placed spans that are not apart |
| `SpanLayout.LayoutChainedExactly` | scripts/convert_otel_2_perfetto.py:269-293 | for any requests, all lanes of the layout follow one another, and equally any two spans placed on one lane are apart, iff no placement put an instant, untested, inside an interval; sortedness and slot entries are right in any case |
| `SpanLayout.LanesDisjoint` | scripts/convert_otel_2_perfetto.py:269-293 | without instants, no two top-level spans on one lane of one process overlap, in any processing order, negative lengths included |
| `SpanLayout.InstantHidesOverlap` | scripts/convert_otel_2_perfetto.py:98-99 | witness: [0,10), [5,5), [7,9) of one request all land on lane 1 |
| `SpanLayout.LaneBound` | scripts/convert_otel_2_perfetto.py:95-120 | with positive lengths a process has at most one lane more than the number of its other spans that overlap some one span, in any processing order |
| `LaneAllocator.SpanLayoutContainer.CheckConflict` | scripts/convert_otel_2_perfetto.py:58-70 | the method computes the two-neighbour test, and on a lane without overlaps the answer of the full scan |
| `LaneAllocator.SpanLayoutContainer.InsertSpan` | scripts/convert_otel_2_perfetto.py:72-73 | the list becomes the sorted insertion: still sorted, same intervals plus the new one |
| `LaneAllocator.Allocator.FirstLane` | scripts/convert_otel_2_perfetto.py:111-114 | the search loop finds the first lane with room |
| `LaneAllocator.Allocator.OpenLane` | scripts/convert_otel_2_perfetto.py:116-120 | a fresh, empty lane numbered one past the last, with its slot entry |
| `LaneAllocator.Allocator.CurrentFree` | scripts/convert_otel_2_perfetto.py:100-102 | the test against the request's own lane, as the specification's lanes would answer it |
| `LaneAllocator.Allocator.SearchLine` | scripts/convert_otel_2_perfetto.py:104-120 | the first lane with room in lane order, or a newly opened one if every lane fails the test |
| `LaneAllocator.Allocator.ChooseLine` | scripts/convert_otel_2_perfetto.py:95-120 | the lane that the specification chooses, the request's own first, and the table of last lanes; a lane is opened only if none has room |
| `LaneAllocator.Allocator.PlaceSpan` | scripts/convert_otel_2_perfetto.py:281-293 | choosing and inserting in place yield the specified layout |
| `LaneAllocator.Allocator.LayOut` | scripts/convert_otel_2_perfetto.py:278-293 | the nested loops over shared containers produce the layout about which disjointness and the lane bound are proved |
| `TracePipeline.TraceLanes` | scripts/convert_otel_2_perfetto.py:172-293 | for arbitrary parent ids and any order of requests and spans: the layout places each top-level span once, on its thread's process, from its start to its end minus 1000 ns; any two on a lane are apart iff no placement put a vanished span, untested, inside another, and so whenever none of them lasts exactly 1000 ns |
| `TracePipeline.Convert` | scripts/convert_otel_2_perfetto.py:445-453 | the pipeline from raw spans (tree, in-place trim, layout, line numbers) has that effect, and every span below a top-level one shows the lane that one was given |
| `TracePipeline.AllLog` | scripts/convert_otel_2_perfetto.py:278-293 | the layout places exactly the given spans in the given order |
| `SpanForest.Owner` | scripts/convert_otel_2_perfetto.py:173 | an id stands for the last span that has it, and for none iff no span has it |
| `SpanForest.BuildTree` | scripts/convert_otel_2_perfetto.py:172-196 | child lists and roots as specified, for arbitrary ids and parents |
| `SpanForest.ChildrenExact` | scripts/convert_otel_2_perfetto.py:179-186 | a child list holds exactly the non-root spans whose parent id resolves to this span, each once and in input order |
| `SpanForest.RootsExact` | scripts/convert_otel_2_perfetto.py:182-183 | the roots are exactly the spans of the two root modules, each once and in input order |
| `SpanForest.RootedDistinct` | scripts/convert_otel_2_perfetto.py:172-196 | the chain of parents of a span below a root meets no span twice, despite cycles and self-parents elsewhere |
| `SpanForest.DepthBound` | scripts/convert_otel_2_perfetto.py:226-227 | depths are smaller than the number of spans, so the recursive walks terminate |
| `SpanForest.WalkOnce` | scripts/convert_otel_2_perfetto.py:226-227 | a recursive walk meets each span below its start exactly once and no other |
| `SpanForest.ParentsFirst` | scripts/convert_otel_2_perfetto.py:396-407 | a walk meets every span before everything below it |
| `SpanForest.SiblingsInOrder` | scripts/convert_otel_2_perfetto.py:404-405 | what is below one child is met before what is below a later one |
| `SpanForest.LevelExact` | scripts/convert_otel_2_perfetto.py:237-253 | the nested loops reach exactly the spans of each depth, each once |
| `SpanForest.EmittedOnce` | scripts/convert_otel_2_perfetto.py:416-418 | in whatever order the top-level spans are gathered, a span is emitted once if it is two or more levels below a root and otherwise not at all |
| `SpanForest.ConvertSpan` | scripts/convert_otel_2_perfetto.py:199-227 | the recursive in-place conversion trims each span below it once and touches no other |
| `SpanForest.ConvertThread` | scripts/convert_otel_2_perfetto.py:251-253 | all children of a thread span are converted |
| `SpanForest.ConvertRequest` | scripts/convert_otel_2_perfetto.py:231-253 | the top-level spans of a request are those two levels below its root, in order |
| `SpanForest.ConvertForest` | scripts/convert_otel_2_perfetto.py:230-253 | after all requests a span's end is 1000 ns earlier iff it is two or more levels below a root, and unchanged otherwise |
| `SpanForest.SetLine` | scripts/convert_otel_2_perfetto.py:262-266 | the recursive in-place walk gives exactly the spans below its start the line, and leaves the others |
| `SpanForest.ShowLines` | scripts/convert_otel_2_perfetto.py:290-293 | after all top-level spans, every span below one shows that one's line |
| `SpanForest.GatherSpan` | scripts/convert_otel_2_perfetto.py:396-407 | gathering yields the walk of the span |
| `FlowIds.Linker.LinkSpan` | scripts/convert_otel_2_perfetto.py:355-393 | one pair of nodes per usable link of the span; targets without an id are numbered in order of first use |
| `FlowIds.Linker.LinkAll` | scripts/convert_otel_2_perfetto.py:350-393 | the same over all spans, with correlation ids kept in the target spans |
| `FlowIds.UsableExact` | scripts/convert_otel_2_perfetto.py:359-363 | exactly the links to converted spans are used, each as often as it is listed |
| `FlowIds.UsableConcat` | scripts/convert_otel_2_perfetto.py:359-363 | in the order in which they are listed |
| `FlowIds.LinksConcat` | scripts/convert_otel_2_perfetto.py:350-393 | links come span by span, in the order of the spans |
| `FlowIds.FreshExact` | scripts/convert_otel_2_perfetto.py:365-369 | new ids go to exactly the linked targets that came without one, each once |
| `FlowIds.FlowIdsExact` | scripts/convert_otel_2_perfetto.py:365-369 | two flows share an id iff they link to the same target: this holds iff the correlations that spans arrive with collide neither with each other nor with the counter |
| `FlowIds.CollisionWitness` | scripts/convert_otel_2_perfetto.py:365-369 | witness: a span that arrives with correlation 0 shares its id with the first span numbered by the counter |
| `FlowIds.FreshIdsIdentify` | scripts/convert_otel_2_perfetto.py:44-51 | without given correlations, flow ids always identify targets |
| `FlowIds.NodesPaired` | scripts/convert_otel_2_perfetto.py:371-393 | each start node is directly followed by its end node with the same id |
| `ConversationQueue.RunKeeps` | benchmark/hicache/bench_serving.py:263-283 | in every run each unfinished conversation that has not failed is in exactly one of queue, waiting task and running task, and the counts add up |
| `ConversationQueue.TurnsInOrder` | benchmark/hicache/bench_serving.py:187-190 | the turns sent of a conversation are its first turns in order, and at most the last of them has not succeeded |
| `ConversationQueue.FirstInFirstOut` | benchmark/hicache/bench_serving.py:187-190 | the conversations yielded so far are those queued first, and the queue holds the rest in the order in which they were queued or put back |
| `ConversationQueue.YieldedNext` | benchmark/hicache/bench_serving.py:268-277 | the next task is started for exactly the conversation that is first in that order |
| `ConversationQueue.LimitRespected` | benchmark/hicache/bench_serving.py:406-412 | no more requests are under way than the limit allows, counting tasks that still hold the semaphore |
| `ConversationQueue.PutNeverBlocks` | benchmark/hicache/bench_serving.py:421 | the queue bounded by the number of conversations always has room for a re-enqueue, so a success is never held up |
| `ConversationQueue.RunsEnd` | benchmark/hicache/bench_serving.py:480-493 | every run, with any failures and timeouts, has at most 4 steps per turn and 4 per conversation, plus one timeout |
| `ConversationQueue.RestsWhenAllSent` | benchmark/hicache/bench_serving.py:268-283 | a run without timeouts, and without failures before a last turn, comes to rest only after yielding exactly `num_actual_requests` and sending every turn of every conversation in order |
| `ConversationQueue.FailureStarvesGenerator` | benchmark/hicache/bench_serving.py:191-197 | a conversation that fails before its last turn leaves the generator short of requests: it can end only by its timeout |
| `ConversationQueue.CanYieldAllExactly` | benchmark/hicache/bench_serving.py:263-283 | as long as it has not given up, the generator can still yield all requests, in some continuation, iff every conversation that failed did so in its last turn |
| `ConversationQueue.StarvationReachable` | benchmark/hicache/bench_serving.py:191-197 | witness: one conversation of two turns whose first turn fails |
| `ConversationQueue.FlattenKeepsTotal` | benchmark/hicache/bench_serving.py:414-420 | flattening shared prefixes into single-turn conversations keeps the number of requests |
| `ServingLoop.Benchmark.NextRequest` | benchmark/hicache/bench_serving.py:268-277 | yields the queue's head, or stops when all are yielded or the queue stays empty; one action of the queue's runs |
| `ServingLoop.Benchmark.BeginTurn` | benchmark/hicache/bench_serving.py:99-100 | a task sends the conversation's first turn that has not succeeded, and nothing else is sent |
| `ServingLoop.Benchmark.EndTurn` | benchmark/hicache/bench_serving.py:186-197 | success puts the conversation back if turns are left, failure drops it; the queue stays within its bound and the task keeps the semaphore |
| `ServingLoop.Benchmark.LeaveTurn` | benchmark/hicache/bench_serving.py:406-412 | the semaphore is given up only when the task returns, after the re-enqueue |
| `UserFlow.PickRounds` | benchmark/hicache/bench_mix.py:199-207 | total rounds is one more than the first index whose cumulative ratio exceeds the draw, the number of rounds if none does |
| `UserFlow.InsertSortedExactly` | benchmark/hicache/bench_mix.py:259-267 | inserting into a sorted queue leaves it sorted iff it was empty or the new user starts no later than the last one queued |
| `UserFlow.UnsortedQueue` | benchmark/hicache/bench_mix.py:262-267 | witness: pushing two users in order of their starts queues them in reverse |
| `UserFlow.ServesDueExactly` | benchmark/hicache/bench_mix.py:271-275 | whatever the time, no due user is passed over iff nobody in the queue starts before its head |
| `UserFlow.InsertKeepsHead` | benchmark/hicache/bench_mix.py:259-267 | a push keeps it so iff it does not add a later user to a queue of one |
| `UserFlow.ServesDueThroughout` | benchmark/hicache/bench_mix.py:269-276 | however many users are taken off its front, no due user is passed over iff the queue is sorted |
| `UserFlow.SortedRunExactly` | benchmark/hicache/bench_mix.py:229-276 | the queue is sorted in every state of a run iff every user queued again starts no later than the last one queued then |
| `UserFlow.SortedServesDue` | benchmark/hicache/bench_mix.py:271-275 | on a sorted queue no due user is passed over |
| `UserFlow.UnsortedPassesOver` | benchmark/hicache/bench_mix.py:262-276 | witness: of two users pushed in order of their starts, the earlier is passed over for a new one until the later is due |
| `UserFlow.PushContents` | benchmark/hicache/bench_mix.py:237-267 | a user queued again carries its old prompt, the generated text and the drawn prompt; it starts the drawn interval later, or its round's mean if the draw is not positive, and asks for the drawn tokens or its round's mean likewise; nobody else in the queue changes |
| `UserFlow.ReturnedLate` | benchmark/hicache/bench_mix.py:252-275 | in every run, a user that was pushed is returned for its next round only by a pop later than the time of the push plus that interval |
| `UserFlow.NewContents` | benchmark/hicache/bench_mix.py:195-227 | a new user has the next number, which its prompt starts with, starts at once in round 0 and plays the drawn number of rounds |
| `UserFlow.PromptsDistinct` | benchmark/hicache/bench_mix.py:213 | in every run the prompts of two users that are queued or unanswered differ before either ends |
| `UserFlow.StatsExact` | benchmark/hicache/bench_mix.py:191-242 | in every run the statistics are exactly what was issued and received: tokens and number of prompts and answers per round, and users per total number of rounds |
| `UserFlow.UsersConserved` | benchmark/hicache/bench_mix.py:195-276 | after any sequence of pops and pushes, per round: prompts counted minus answers counted equals the users now in that round; every user is in one of its rounds; nobody is lost, duplicated or in two places |
| `UserFlow.GenerateConserves` | benchmark/hicache/bench_mix.py:195-227 | a new user enters round 0 and the balance of every round holds |
| `UserFlow.AnswerConserves` | benchmark/hicache/bench_mix.py:229-257 | an answered user moves to its next round or leaves, and the balance of every round holds |
| `UserFlow.PopFaithful` | benchmark/hicache/bench_mix.py:269-276 | a popped user was due or is new; a due one leaves the queue and the others stay as they are |
| `UserGenerator.Generator.DrawRounds` | benchmark/hicache/bench_mix.py:199-207 | the search loop computes the specified number of rounds |
| `UserGenerator.Generator.Generate` | benchmark/hicache/bench_mix.py:195-227 | a fresh user object with the specified content; statistics updated for round 0 |
| `UserGenerator.Generator.SearchIndex` | benchmark/hicache/bench_mix.py:262-267 | the loop variable ends at the specified index, the last entry if no start is later |
| `UserGenerator.Generator.CountAnswer` | benchmark/hicache/bench_mix.py:231-233 | the answer is counted for the user's round before the user moves on |
| `UserGenerator.Generator.NextPrompt` | benchmark/hicache/bench_mix.py:237-257 | the prompt grows by the generated text and the drawn prompt; start and answer length are the drawn ones, or the round's means where a draw is not positive; counted for the new round |
| `UserGenerator.Generator.Enqueue` | benchmark/hicache/bench_mix.py:259-267 | the user object is inserted at the loop variable's position; the others keep their order |
| `UserGenerator.Generator.Push` | benchmark/hicache/bench_mix.py:229-267 | the object and the generator change as specified; a finished user is not queued again |
| `UserGenerator.Generator.Pop` | benchmark/hicache/bench_mix.py:269-276 | the queue's head object if due, else a fresh one; the queue is otherwise unchanged |
| `SlotLoss.SlotsAddUp` | benchmark/hicache/bench_mix.py:417-480 | in every run sent minus completed equals unanswered, unhandled and failed-and-dropped requests together, and never exceeds `max_parallel` (or is zero) |
| `SlotLoss.FailuresExhaustSlots` | benchmark/hicache/bench_mix.py:431-443 | once as many failures as slots have been dropped, no continuation ever sends again or looks at the duration |
| `SlotLoss.SendsAgainExactly` | benchmark/hicache/bench_mix.py:431-443 | before the duration is found to be over, some continuation sends again iff there have been fewer failures, dropped or still queued, than slots |
| `SlotLoss.LossReachable` | benchmark/hicache/bench_mix.py:462-480 | witness: with one slot, one failed response leaves the sender pausing for good |
| `SlotLoss.SlotFreeAgain` | benchmark/hicache/bench_mix.py:431 | when nothing is on its way, a slot is free iff fewer failures than slots have been dropped |
| `MixThreads.Workload.SendTurn` | benchmark/hicache/bench_mix.py:430-443 | one turn of the loop: it pauses iff all slots are taken, otherwise it sends once and then tests the duration |
| `MixThreads.Workload.EndTask` | benchmark/hicache/bench_mix.py:417-425 | a response is queued; an exception is counted as completed at once |
| `MixThreads.Workload.HandleTurn` | benchmark/hicache/bench_mix.py:458-480 | a success is counted, a failure is dropped without being counted |
| `Redirects.Follow` | benchmark/line_retrieval/gen_data.py:63-74 | following one chain ends for every table: at a line with a value, with the full chain, or at the first line met twice |
| `Redirects.ResolveAll` | benchmark/line_retrieval/gen_data.py:56-76 | the nested loops, overwriting values in place, resolve every line against the original values |
| `Redirects.ResolvedMeaning` | benchmark/line_retrieval/gen_data.py:56-76 | a line is in the ring set iff its chain never reaches a line with a value; otherwise its link list is the whole chain and its value the original one at the end; a line in the ring set gets the original value of the first line met twice |
| `Redirects.StopDecides` | benchmark/line_retrieval/gen_data.py:66-74 | a chain is endless iff it stops at a line met twice |
| `Redirects.StopUnique` | benchmark/line_retrieval/gen_data.py:66-74 | where and after how many redirects a chain stops is determined |
| `Redirects.StopFixed` | benchmark/line_retrieval/gen_data.py:71-75 | the first line met twice is where its own chain stops |
| `Redirects.EndUntouched` | benchmark/line_retrieval/gen_data.py:75 | the value copied from the end of a chain is the original one although earlier lines have been overwritten |
| `LineQueries.GroupByHops` | benchmark/line_retrieval/gen_data.py:78-83 | the loop groups lines by hop count |
| `LineQueries.MembersExact` | benchmark/line_retrieval/gen_data.py:80-83 | a group lists exactly the lines outside rings with that many hops, ascending, each once |
| `LineQueries.ResolvesByTable` | benchmark/line_retrieval/bench_sglang.py:52 | reading only the first n lines resolves a query iff the whole chain lies in them, to the value the full table gives |
| `LineQueries.TruncationExact` | benchmark/line_retrieval/bench_sglang.py:41-52 | a query can be resolved from the truncated text iff it is in no ring and passes the filter; the value read is then the recorded one |
| `LineQueries.Answerable` | benchmark/line_retrieval/bench_sglang.py:41-46 | the filtered list holds exactly the group's lines that pass the filter |
| `LineQueries.AnswerableOrdered` | benchmark/line_retrieval/bench_sglang.py:41-46 | and keeps them in line order |
| `LineQueries.Pick` | benchmark/line_retrieval/bench_sglang.py:47-49 | an index error iff the list is empty, otherwise the entry at that fraction of the list, the last if the fraction is beyond its end |
| `LineQueries.QuartersJoin` | benchmark/line_retrieval/bench_sglang.py:54-62 | the four parts concatenate back to the body |
| `LineQueries.BuildRow` | benchmark/line_retrieval/bench_sglang.py:37-68 | the inner loop yields one query per percentage or fails |
| `LineQueries.BuildQueries` | benchmark/line_retrieval/bench_sglang.py:36-68 | the nested loops yield the batch or fail |
| `LineQueries.BatchSound` | benchmark/line_retrieval/bench_sglang.py:36-68 | every query of a batch shows its truncated text in full, and following references in that text alone gives its label after the asked number of hops |
| `LineQueries.BatchRows` | benchmark/line_retrieval/bench_sglang.py:36-68 | the queries come source position by source position and percentage by percentage, each the one made for its pair |
| `LineQueries.QueryPicked` | benchmark/line_retrieval/bench_sglang.py:47-68 | a query is about its own source position and the line at its percentage of those that can be resolved there |
| `LineQueries.BatchDefined` | benchmark/line_retrieval/bench_sglang.py:47-49 | a batch fails iff something is asked at a source position from which no line of the group can be resolved |
| `LineQueries.AnswerableMeaning` | benchmark/line_retrieval/bench_sglang.py:41-52 | the filter finds a query iff some earlier line of the truncated text leads, in that text alone, to its recorded value in the asked number of hops |
| `LineQueries.Evaluate` | benchmark/line_retrieval/bench_sglang.py:36-68 | resolving in place, grouping and asking, in one piece: every query can be answered from its own text, and the evaluation fails iff it asks something at a position where no line can be |
| `CyclicFilter.EndsExactly` | benchmark/hicache/data_processing.py:52-87 | sweeping as the loop does, the list gets long enough after some number of passes iff nothing is asked for or some exchange has both lengths within the given bounds |
| `CyclicFilter.SweepsCyclic` | benchmark/hicache/data_processing.py:52-87 | after any number of passes the list is a piece of the endless repetition of the surviving conversations |
| `CyclicFilter.EndlessWitness` | benchmark/hicache/data_processing.py:52-87 | witness: a single exchange whose prompt is too long is swept any number of times without a result |
| `CyclicFilter.FilterChat` | benchmark/hicache/data_processing.py:48-91 | when it ends: exactly the number asked for; result k is the k-modulo-n-th of the n non-empty filtered conversations; all lists are fresh and different objects; every turn lies within the given bounds; the two totals are those of the result; the list is the one after some number of sweeps |
| `CyclicFilter.SweepOnce` | benchmark/hicache/data_processing.py:53-87 | one pass of the loop, whether or not anything survives, makes exactly the sweep that the termination result is about |
| `CyclicFilter.Process` | benchmark/hicache/data_processing.py:56-84 | a new list of the exchanges that pass, in order, with its token totals; every turn of it lies within the given bounds |
| `CyclicFilter.KeptExactly` | benchmark/hicache/data_processing.py:57-84 | the turns kept are those of the exchanges whose prompt length and output length (fixed if given) lie within all bounds that are given, each once and in order, with these lengths |
| `CyclicFilter.PassingExactly` | benchmark/hicache/data_processing.py:70-81 | the exchanges kept are exactly those within the bounds, in increasing order |
| `CyclicFilter.SurvivorsExactly` | benchmark/hicache/data_processing.py:53-87 | the surviving conversations are those with such an exchange, each once and in order, filtered |
| `CyclicFilter.SurvivorsNonEmpty` | benchmark/hicache/data_processing.py:85-87 | no conversation of the result is empty |
| `CyclicFilter.FitCyclic` | benchmark/hicache/data_processing.py:409-413 | repeat-and-truncate gives exactly the asked length, and token k is source token k modulo the source's length |
| `WheelText.PackageRoundTrip` | scripts/update_nightly_whl_index.py:79-87 | reading a written package page gives back exactly the links written |
| `WheelText.RootRoundTrip` | scripts/update_nightly_whl_index.py:125-140 | reading a written root page gives back exactly the package names written |
| `WheelText.LinkHasName` | scripts/update_nightly_whl_index.py:95-97 | the search pattern finds in a generated link the file name it was made for |
| `WheelText.PackageLines` | scripts/update_nightly_whl_index.py:144-150 | line by line, a package page is the document type, the heading with the version, and the links |
| `WheelText.RootLines` | scripts/update_nightly_whl_index.py:136-140 | line by line, a root page is the document type and one link per package to its directory, with its name as text |
| `WheelText.LinkLinesExact` | scripts/update_nightly_whl_index.py:85-87 | exactly the lines that start with an anchor are read, as often as they occur |
| `WheelText.ReadAreLinks` | scripts/update_nightly_whl_index.py:85-87 | whatever was on the page, the lines read from it can be written and read again |
| `WheelIndex.DropDuplicates` | scripts/update_nightly_whl_index.py:111-121 | the loop keeps the specified links |
| `WheelIndex.DedupExact` | scripts/update_nightly_whl_index.py:114-121 | a link is kept iff a file name is found in it and no earlier link has that name |
| `WheelIndex.DedupUnique` | scripts/update_nightly_whl_index.py:114-121 | no file name is linked twice |
| `WheelIndex.MergedRoundTrip` | scripts/update_nightly_whl_index.py:144-150 | re-reading the page a run wrote gives back its links, whatever the page before held |
| `WheelIndex.IndexHistory` | scripts/update_nightly_whl_index.py:79-121 | after any sequence of runs the page lists, of all links ever published with the latest run first, the first of each file name; runs without wheels leave the page alone |
| `WheelIndex.LatestWins` | scripts/update_nightly_whl_index.py:95-121 | the link of the latest run that published a file name is on the page, is the only one with that name, and points to that run's file with its hash |
| `WheelIndex.OnlyPublished` | scripts/update_nightly_whl_index.py:108-121 | every link on the page was published by some run or was there before |
| `WheelIndex.LinkPoints` | scripts/update_nightly_whl_index.py:95-97 | the address read back from a generated link has the hash as fragment, the file name as last part, the release tag before it, and the download address before that; the text shown is the file name |
| `WheelIndex.NewestFirst` | scripts/update_nightly_whl_index.py:108-121 | a run's own links come first in its order, followed by the earlier links it did not replace, in theirs |
| `WheelIndex.RepeatChangesNothing` | scripts/update_nightly_whl_index.py:79-121 | repeating a run leaves the page's text as it is |
| `WheelIndex.AscendingUnique` | scripts/update_nightly_whl_index.py:139 | a set of names has only one sorted listing |
| `WheelIndex.LessExact` | scripts/update_nightly_whl_index.py:139 | the order of names is the one by their first differing character, a prefix first |
| `WheelIndex.SortNames` | scripts/update_nightly_whl_index.py:139 | every finite set of names gets its sorted listing |
| `WheelIndex.RootIndexStable` | scripts/update_nightly_whl_index.py:125-140 | re-reading the root page recovers the package set, and writing it again changes nothing |
| `WheelIndex.Repository.Update` | scripts/update_nightly_whl_index.py:79-150 | a run fails, changing nothing, iff it has no wheels; otherwise re-reading the package page gives the merged links, and the root page lists, sorted, the packages it had and sglang |

## Left out

- Multi-turn generator in OpenAI format: an empty reply adds no message there; only the token-id mode is modelled.
- Multi-turn generator, construction: resolving the round arguments and sampling; a configuration has round counts between 1 and the maximum, and as many samples as were asked for. Sampled sub-questions have at least one token where histories are shown to grow strictly. Queue policies other than random and fifo are rejected by the source and not modelled.
- Multi-turn generator, metrics, the heartbeat request and the pause before a release, which change no state of the protocol.
- The step systems of the three load generators cover the interleavings; the methods in `MultiturnThreads`, `ServingLoop` and `MixThreads` cover loop turns that are not interrupted in the middle. Records are sequences indexed by client or conversation, so the sharing of one history list by record and payload appears as an equality of contents.
- Gateway (smg) spans and their links: their path needs a child list nothing sets.
- Trace converter: a root without top-level spans makes the sort by first span fail; the model takes any order of requests and spans instead, so what is proved does not depend on the sort. Names, attributes, events and the time base are left out; thread spans' process ids are given as numbers. Which lane a span gets is stated for layouts that hide no interval. The two bisect calls are library functions, given by their meaning on sorted lists.
- Flow ids: building the link lists from ids (they are a given map from spans to targets), and the positions written into the nodes.
- Serving benchmark: message texts, output lengths, the warm-up request and metrics; conversations have at least one turn, as the filter guarantees.
- Mixed workload: random draws and clock readings are parameters. The counter update by a task that raised and the one by the response thread are each one step; tasks cancelled at the end are not modelled.
- Redirects: generating lines and targets (the table is arbitrary), and the few-shot examples appended to the text.
- Query selection: percentages are real numbers, so rounding of the product is not modelled; texts are lists of lines, each a value or a reference to a line.
- Cyclic filter: the tokenizer is an arbitrary length function. `FilterChat` requires that something passes or nothing is asked for, because otherwise it does not end.
- Wheel index: computing hashes, listing the directory and argument handling; tags, hashes and file names contain no markup or line breaks, and a file name has a character before its extension. Where a link points is stated for tags and file names that are single parts of an address and contain no quotes.
- The serving runtime, GPU and kernel benchmarks, storage benchmarks, answer parsing, percentile summaries, reports, and the index script for pull requests, which repeats the nightly one.
