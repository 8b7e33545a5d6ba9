/** Progress of the generator: bounded work, no stranded request, and what has
    been done when a run ends. */
module MultiturnProgress {
  import opened Sums
  import opened Multiturn
  import opened MultiturnInvariant

  // ---- Work is bounded ----

  function Bit(b: bool): int { if b then 1 else 0 }

  /** Work left: each round a client still has to succeed in, plus how far the
      outstanding requests are from being counted. */
  ghost function Work(cfg: Config, s: State): int {
    8 * (Total(cfg) - Sum(s.clients.round)) + 7 * |s.gate.held| + NetWork(s.net)
  }

  ghost function NetWork(n: Net): int {
    5 * |n.ready| + 4 * |n.inflight| + 3 * Bit(n.sender.Putting?) + 2 * |n.responses| + HandlerWork(n.handler)
  }

  ghost function HandlerWork(h: Handler): int {
    match h
    case Got(_) => 1
    case Counted(_) => 8
    case Releasing(rest) => 6 * |rest| + 1
    case _ => 0
  }

  /** Actions that do more than look at a counter or an empty queue. */
  predicate Productive(s: State, a: Action) {
    match a
    case SenderPop(_) => s.net.ready != []
    case SenderCheck => false
    case HandlerTimeout => false
    case HandlerTest => false
    case _ => true
  }

  /** Productive actions use up work; the others leave it as it is. */
  lemma StepWork(cfg: Config, s: State, a: Action)
    requires Enabled(cfg, s, a)
    ensures Productive(s, a) ==> Work(cfg, Step(cfg, s, a)) < Work(cfg, s)
    ensures !Productive(s, a) ==> Work(cfg, Step(cfg, s, a)) == Work(cfg, s)
  {
    match a
    case HandlerCount =>
      var c := s.net.handler.reply.req.client;
      SumUpdate(s.clients.round, c, s.clients.round[c] + 1);
    case HandlerNext => FollowUpWork(cfg, s);
    case _ =>
  }

  lemma FollowUpWork(cfg: Config, s: State)
    requires Enabled(cfg, s, HandlerNext)
    ensures Work(cfg, Step(cfg, s, HandlerNext)) < Work(cfg, s)
  {
    var c := s.net.handler.client;
    var t := if s.clients.round[c] < cfg.rounds[c] then MakeRequest(cfg, s, c) else s;
    assert t.clients.round == s.clients.round;
    assert Work(cfg, t) <= Work(cfg, s) + 7;
    var idle := t.(net := t.net.(handler := Waiting));
    assert Work(cfg, idle) == Work(cfg, t) - 8;
    if cfg.barrier && s.clients.round[c] < cfg.rounds[c] {
      assert |t.gate.held| >= 1;
    } else {
      assert Work(cfg, t) <= Work(cfg, s) + 5;
    }
  }

  /** How many productive actions a run has taken. */
  function ProductiveSteps(cfg: Config, acts: seq<Action>): nat
    requires |cfg.prompts| == |cfg.rounds|
  {
    if acts == [] then 0
    else
      var last := |acts| - 1;
      var before := Run(cfg, acts[..last]);
      ProductiveSteps(cfg, acts[..last]) +
      if before.Some? && Productive(before.value, acts[last]) then 1 else 0
  }

  /** In every run, failures included, productive actions number at most eight
      per round to be played and five more per client. */
  lemma {:induction false} WorkBound(cfg: Config, acts: seq<Action>)
    requires ValidConfig(cfg) && Run(cfg, acts).Some?
    ensures ProductiveSteps(cfg, acts) + Work(cfg, Run(cfg, acts).value) <= 8 * Total(cfg) + 5 * |cfg.rounds|
    ensures 0 <= Work(cfg, Run(cfg, acts).value)
  {
    hide Inv, Enabled, Step, Productive, Work;
    if acts == [] {
      InitWork(cfg);
    } else {
      var last := |acts| - 1;
      WorkBound(cfg, acts[..last]);
      StepWork(cfg, Run(cfg, acts[..last]).value, acts[last]);
    }
    RunKeeps(cfg, acts);
    WorkLeft(cfg, Run(cfg, acts).value);
  }

  lemma InitWork(cfg: Config)
    requires ValidConfig(cfg)
    ensures Work(cfg, Init(cfg)) == 8 * Total(cfg) + 5 * |cfg.rounds|
  {
    ZeroSum(Init(cfg).clients.round);
  }

  lemma WorkLeft(cfg: Config, s: State)
    requires Inv(cfg, s)
    ensures 0 <= Work(cfg, s)
  {
    hide Inv;
    RoundsBound(cfg, s);
    UnfinishedBound(s.clients.round, cfg.rounds, {});
  }

  // ---- Nothing is stranded ----

  /** The response thread has left, or is about to: it found its queue empty and
      will find the progress bar full. */
  predicate Leaving(cfg: Config, s: State) {
    s.net.handler.HandlerStopped? || (s.net.handler.TimedOut? && s.count.ticks == Total(cfg))
  }

  /** No request fails by this action, and no wait for a response times out. */
  predicate Harmless(a: Action) { !a.HandlerTimeout? && (a.TaskReply? ==> a.outcome.Answered?) }

  /** A productive action without failure and timeout is possible now or after
      one look at a counter. */
  ghost predicate CanProgress(cfg: Config, s: State) {
    exists a :: Enabled(cfg, s, a) && Harmless(a) &&
      (Productive(s, a) ||
       exists b :: Enabled(cfg, Step(cfg, s, a), b) && Harmless(b) && Productive(Step(cfg, s, a), b))
  }

  lemma ProgressBy(cfg: Config, s: State, a: Action)
    requires Enabled(cfg, s, a) && Harmless(a) && Productive(s, a)
    ensures CanProgress(cfg, s)
  {
  }

  lemma ProgressAfter(cfg: Config, s: State, a: Action, b: Action)
    requires Enabled(cfg, s, a) && Harmless(a)
    requires Enabled(cfg, Step(cfg, s, a), b) && Harmless(b) && Productive(Step(cfg, s, a), b)
    ensures CanProgress(cfg, s)
  {
  }

  lemma SomeoneMissing(through: set<nat>, needed: set<nat>) returns (c: nat)
    requires |through| < |needed|
    ensures c in needed && c !in through
  {
    if needed <= through { SubsetCardinality(needed, through); }
    c :| c in needed && c !in through;
  }

  lemma LateClient(cfg: Config, s: State) returns (c: nat)
    requires Inv(cfg, s) && cfg.barrier && s.clients.dead == {} && Pending(s.net.handler).None?
    requires s.gate.held != []
    ensures c < |s.clients.round| && s.clients.round[c] == s.gate.round < cfg.rounds[c]
  {
    hide SlotsOk, SupplyOk, TicksOk, StopsOk, Active, PlacesOk;
    HeldIsNeeded(cfg, s);
    RoundsBound(cfg, s);
    c := SomeoneMissing(Through(s.clients.round, s.gate.round), Participants(cfg.rounds, s.gate.round));
  }

  lemma HeldIsNeeded(cfg: Config, s: State)
    requires Inv(cfg, s) && cfg.barrier && s.gate.held != []
    ensures Participants(cfg.rounds, s.gate.round) != {}
  {
    hide SlotsOk, SupplyOk, TicksOk, StopsOk, Active, Through;
    var q := s.gate.held[0];
    assert q in multiset(s.gate.held);
    assert q in Outstanding(s);
    assert q.client in Participants(cfg.rounds, s.gate.round);
  }

  /** A held-back request is never the only kind left while nobody has failed:
      the barrier still waits for a client that is on its way. */
  lemma GateNeedsActive(cfg: Config, s: State)
    requires Inv(cfg, s) && cfg.barrier && s.clients.dead == {} && Pending(s.net.handler).None?
    requires s.gate.held != []
    ensures Active(s.net) != multiset{}
  {
    hide SlotsOk, SupplyOk, TicksOk, StopsOk, Active;
    var c := LateClient(cfg, s);
    assert c in ClientsOf(Outstanding(s));
    var p :| p in Outstanding(s) && p.client == c;
    assert p !in multiset(s.gate.held);
    assert p in Active(s.net);
  }

  /** With no answer on its way to the handler, the sender or a task can move. */
  lemma SenderProgress(cfg: Config, s: State)
    requires Inv(cfg, s) && cfg.maxParallel >= 1
    requires !s.net.sender.Putting? && Unhandled(s.net) == multiset{}
    requires s.net.ready != [] || s.net.inflight != []
    ensures CanProgress(cfg, s)
  {
    hide PlacesOk, SupplyOk, TicksOk, BarrierMode, Unhandled;
    var q := if s.net.ready != [] then s.net.ready[0] else s.net.inflight[0];
    assert q in Queued(s.net);
    NotFull(cfg, s, q);
    if s.net.inflight != [] && s.net.sender.Checking? {
      ProgressBy(cfg, s, TaskReply(0, Answered([])));
    } else if s.net.ready == [] {
      ProgressAfter(cfg, s, SenderPop(0), TaskReply(0, Answered([])));
    } else if s.net.sender.Popping? {
      ProgressBy(cfg, s, SenderPop(0));
    } else {
      ProgressAfter(cfg, s, SenderCheck, SenderPop(0));
    }
  }

  /** An idle response thread with replies to fetch can move. */
  lemma HandlerProgress(cfg: Config, s: State)
    requires !Leaving(cfg, s) && (s.net.handler.Waiting? || s.net.handler.TimedOut?)
    requires s.net.responses != []
    ensures CanProgress(cfg, s)
  {
    if s.net.handler.Waiting? {
      ProgressBy(cfg, s, HandlerGet);
    } else {
      ProgressAfter(cfg, s, HandlerTest, HandlerGet);
    }
  }

  lemma IdleBags(n: Net)
    requires n.responses == [] && !n.sender.Putting? && (n.handler.Waiting? || n.handler.TimedOut?)
    ensures Unhandled(n) == multiset{} && Active(n) == multiset(n.ready) + multiset(n.inflight)
  {
  }

  /** No client that failed keeps client `c` from its last round: always without
      a barrier, and with one if nobody failed in a round that `c` goes beyond. */
  predicate NotBlocked(cfg: Config, cl: Clients, c: nat)
    requires c < |cfg.rounds|
  {
    cfg.barrier ==> forall d :: d in cl.dead ==> d < |cl.round| && cfg.rounds[c] <= cl.round[d] + 1
  }

  /** While a client that has not failed, and that no failed one blocks, still has
      rounds to play, the generator can go on. */
  lemma Progress(cfg: Config, s: State, c: nat)
    requires ValidConfig(cfg) && Inv(cfg, s) && cfg.maxParallel >= 1
    requires !Leaving(cfg, s)
    requires c < |s.clients.round| == |cfg.rounds| && s.clients.round[c] < cfg.rounds[c] && c !in s.clients.dead
    requires NotBlocked(cfg, s.clients, c)
    ensures CanProgress(cfg, s)
  {
    hide Inv, CanProgress, Unhandled, Active;
    if s.net.handler.Counted? {
      SupplyLeft(cfg, s);
      ProgressBy(cfg, s, HandlerNext);
    } else if s.net.handler.Got? {
      CountKeeps(cfg, s);
      ProgressBy(cfg, s, HandlerCount);
    } else if s.net.handler.Releasing? {
      ProgressBy(cfg, s, HandlerRelease);
    } else if s.net.sender.Putting? {
      ProgressBy(cfg, s, TaskPut);
    } else if s.net.responses != [] {
      HandlerProgress(cfg, s);
    } else {
      IdleBags(s.net);
      SomethingQueued(cfg, s, c);
      SenderProgress(cfg, s);
    }
  }

  lemma SomethingQueued(cfg: Config, s: State, c: nat)
    requires Inv(cfg, s) && Pending(s.net.handler).None?
    requires c < |s.clients.round| == |cfg.rounds| && s.clients.round[c] < cfg.rounds[c] && c !in s.clients.dead
    requires NotBlocked(cfg, s.clients, c)
    ensures Active(s.net) != multiset{}
  {
    hide SlotsOk, SupplyOk, TicksOk, StopsOk, Active;
    if s.gate.held == [] || s.clients.dead != {} {
      assert c in ClientsOf(Outstanding(s));
      var q :| q in Outstanding(s) && q.client == c;
      assert s.gate.held != [] ==> q !in multiset(s.gate.held);
      assert q in Active(s.net);
    } else {
      GateNeedsActive(cfg, s);
    }
  }

  // ---- Failure-free runs ----

  predicate FailureFree(acts: seq<Action>) {
    forall i :: 0 <= i < |acts| && acts[i].TaskReply? ==> acts[i].outcome.Answered?
  }

  predicate AllAnswered(n: Net) {
    && (forall i :: 0 <= i < |n.responses| ==> n.responses[i].outcome.Answered?)
    && (n.sender.Putting? ==> n.sender.reply.outcome.Answered?)
    && (n.handler.Got? ==> n.handler.reply.outcome.Answered?)
  }

  /** Nobody failed, and the bar counts the recorded and the unhandled answers. */
  ghost predicate Clean(s: State) {
    s.clients.dead == {} && AllAnswered(s.net) && s.count.ticks == Sum(s.clients.round) + |Unhandled(s.net)|
  }

  lemma UnhandledSize(n: Net)
    ensures |Unhandled(n)| == |n.responses| + Bit(n.sender.Putting?) + Bit(n.handler.Got?)
  {
    QueueSize(n.responses);
  }

  lemma {:induction false} QueueSize(rs: seq<Reply>)
    ensures |InQueue(rs)| == |rs|
  {
    if rs != [] { QueueSize(rs[1..]); }
  }

  lemma CleanCount(cfg: Config, s: State)
    requires Enabled(cfg, s, HandlerCount) && Clean(s)
    ensures Clean(Step(cfg, s, HandlerCount))
  {
    hide Unhandled;
    UnhandledSize(s.net);
    UnhandledSize(Step(cfg, s, HandlerCount).net);
    var c := s.net.handler.reply.req.client;
    SumUpdate(s.clients.round, c, s.clients.round[c] + 1);
  }

  lemma CleanNext(cfg: Config, s: State)
    requires Enabled(cfg, s, HandlerNext) && Clean(s)
    ensures Clean(Step(cfg, s, HandlerNext))
  {
    hide Unhandled;
    var t := Step(cfg, s, HandlerNext);
    UnhandledSize(s.net);
    UnhandledSize(t.net);
    assert t.net.responses == s.net.responses && t.net.sender == s.net.sender && !t.net.handler.Got?;
  }

  lemma CleanStep(cfg: Config, s: State, a: Action)
    requires Enabled(cfg, s, a) && Clean(s)
    requires a.TaskReply? ==> a.outcome.Answered?
    ensures Clean(Step(cfg, s, a))
  {
    hide Unhandled, FollowUp, CountReply;
    UnhandledSize(s.net);
    UnhandledSize(Step(cfg, s, a).net);
    match a
    case HandlerCount => CleanCount(cfg, s);
    case HandlerNext => CleanNext(cfg, s);
    case _ =>
  }

  lemma {:induction false} CleanRun(cfg: Config, acts: seq<Action>)
    requires ValidConfig(cfg) && Run(cfg, acts).Some? && FailureFree(acts)
    ensures Clean(Run(cfg, acts).value)
  {
    hide Enabled, Step, Clean;
    if acts == [] {
      InitClean(cfg);
    } else {
      var last := |acts| - 1;
      assert FailureFree(acts[..last]) by {
        forall i | 0 <= i < last && acts[..last][i].TaskReply? ensures acts[..last][i].outcome.Answered? {
          assert acts[..last][i] == acts[i];
        }
      }
      CleanRun(cfg, acts[..last]);
      CleanStep(cfg, Run(cfg, acts[..last]).value, acts[last]);
    }
  }

  lemma InitClean(cfg: Config)
    requires ValidConfig(cfg)
    ensures Clean(Init(cfg))
  {
    ZeroSum(Init(cfg).clients.round);
    UnhandledSize(Init(cfg).net);
  }

  // ---- How failure-free runs end ----

  lemma {:induction false} SumEqual(cfg: Config, round: seq<nat>)
    requires |round| == |cfg.rounds| && forall c :: 0 <= c < |round| ==> round[c] == cfg.rounds[c]
    ensures Sum(round) == Total(cfg)
  {
    assert round == cfg.rounds;
  }

  /** A failure-free run that cannot go on, and whose response thread has not
      left, has sent, answered and handled every request of the workload. */
  lemma RestsWhenDone(cfg: Config, acts: seq<Action>)
    requires ValidConfig(cfg) && cfg.maxParallel >= 1
    requires Run(cfg, acts).Some? && FailureFree(acts)
    requires !CanProgress(cfg, Run(cfg, acts).value) && !Leaving(cfg, Run(cfg, acts).value)
    ensures var k := Run(cfg, acts).value.count; k.completed == k.sent == k.ticks == Total(cfg)
  {
    hide Inv, CanProgress;
    var s := Run(cfg, acts).value;
    RunKeeps(cfg, acts);
    CleanRun(cfg, acts);
    RoundsBound(cfg, s);
    forall c | 0 <= c < |s.clients.round| ensures s.clients.round[c] == cfg.rounds[c] {
      if s.clients.round[c] < cfg.rounds[c] { Progress(cfg, s, c); }
    }
    SumEqual(cfg, s.clients.round);
    DoneCounters(cfg, s);
  }

  /** Once all rounds are recorded no request is anywhere. */
  lemma DoneCounters(cfg: Config, s: State)
    requires Inv(cfg, s) && Clean(s)
    requires forall c :: 0 <= c < |s.clients.round| ==> s.clients.round[c] == cfg.rounds[c]
    requires Sum(s.clients.round) == Total(cfg)
    ensures s.count.completed == s.count.sent == s.count.ticks == Total(cfg)
  {
    hide SupplyOk, StopsOk, BarrierMode, Unhandled, AllAnswered;
    assert forall q :: q !in Outstanding(s);
    assert forall q :: q in Unhandled(s.net) ==> q in Outstanding(s);
    assert forall q :: q in multiset(s.net.inflight) ==> q in Outstanding(s);
    assert Unhandled(s.net) == multiset{};
    assert multiset(s.net.inflight) == multiset{};
    assert |s.net.inflight| == |multiset(s.net.inflight)|;
  }

  lemma NoneInFlight(cfg: Config, s: State)
    requires Inv(cfg, s) && s.count.ticks == Total(cfg)
    ensures s.net.inflight == []
  {
    hide Inv;
    if s.net.inflight != [] {
      assert s.net.inflight[0] in Queued(s.net);
      NotFull(cfg, s, s.net.inflight[0]);
    }
  }

  lemma Extend(cfg: Config, acts: seq<Action>, a: Action)
    requires |cfg.prompts| == |cfg.rounds| && Run(cfg, acts).Some? && Enabled(cfg, Run(cfg, acts).value, a)
    ensures Run(cfg, acts + [a]) == Some(Step(cfg, Run(cfg, acts).value, a))
  {
    assert (acts + [a])[..|acts|] == acts;
  }

  /** The barrier is reached, and opens, with a single client of two rounds: its
      second request is the first, the answer and the sub-question in a row. */
  lemma ReleaseReachable(prompt: Tokens, output: Tokens, question: Tokens)
    ensures var cfg := Config([2], 2, 1, true, true, [prompt], [question]);
            var acts := [SenderCheck] + [SenderPop(0)] + [TaskReply(0, Answered(output))] + [TaskPut] +
                        [HandlerGet] + [HandlerCount] + [HandlerNext];
            && ValidConfig(cfg) && Run(cfg, acts).Some?
            && Run(cfg, acts).value.net.handler == Releasing([Request(0, 1, prompt + output + question)])
            && Run(cfg, acts).value.gate == Gate([], 1, 0)
  {
    hide Run, Step, Enabled, Init;
    var cfg := Config([2], 2, 1, true, true, [prompt], [question]);
    var first := Request(0, 0, prompt);
    StartRun(cfg);
    var sent := [SenderCheck] + [SenderPop(0)];
    var ready := FirstSent(cfg, prompt, question);
    Extend(cfg, [], SenderCheck);
    assert [] + [SenderCheck] == [SenderCheck];
    Extend(cfg, [SenderCheck], SenderPop(0));
    var answered := FirstAnswered(cfg, ready, first, output);
    Extend(cfg, sent, TaskReply(0, Answered(output)));
    Extend(cfg, sent + [TaskReply(0, Answered(output))], TaskPut);
    FirstHandled(cfg, answered, first, output, question);
    var put := sent + [TaskReply(0, Answered(output))] + [TaskPut];
    Extend(cfg, put, HandlerGet);
    Extend(cfg, put + [HandlerGet], HandlerCount);
    Extend(cfg, put + [HandlerGet] + [HandlerCount], HandlerNext);
  }

  lemma FirstSent(cfg: Config, prompt: Tokens, question: Tokens) returns (s: State)
    requires cfg == Config([2], 2, 1, true, true, [prompt], [question])
    ensures ValidConfig(cfg) && Enabled(cfg, Init(cfg), SenderCheck)
    ensures var t := Step(cfg, Init(cfg), SenderCheck); Enabled(cfg, t, SenderPop(0)) && s == Step(cfg, t, SenderPop(0))
    ensures s == State(Net([], [Request(0, 0, prompt)], [], Checking, Waiting), Counters(1, 0, 0),
                       Clients([0], [prompt], [question], {}), Gate([], 0, 0))
  {
    assert Total(cfg) == 2;
    assert Init(cfg).clients.round == [0];
    s := Step(cfg, Step(cfg, Init(cfg), SenderCheck), SenderPop(0));
  }

  lemma FirstAnswered(cfg: Config, s: State, q: Request, output: Tokens) returns (t: State)
    requires s.net == Net([], [q], [], Checking, Waiting)
    ensures Enabled(cfg, s, TaskReply(0, Answered(output)))
    ensures var u := Step(cfg, s, TaskReply(0, Answered(output)));
            Enabled(cfg, u, TaskPut) && t == Step(cfg, u, TaskPut)
    ensures t == s.(net := Net([], [], [Reply(q, Answered(output))], Checking, Waiting),
                    count := s.count.(ticks := s.count.ticks + 1))
  {
    t := Step(cfg, Step(cfg, s, TaskReply(0, Answered(output))), TaskPut);
  }

  lemma FirstHandled(cfg: Config, s: State, q: Request, output: Tokens, question: Tokens)
    requires cfg.rounds == [2] && cfg.maxRounds == 2 && cfg.barrier
    requires s.net == Net([], [], [Reply(q, Answered(output))], Checking, Waiting)
    requires q.client == 0 && s.clients == Clients([0], [q.ids], [question], {}) && s.gate == Gate([], 0, 0)
    ensures Enabled(cfg, s, HandlerGet) && Enabled(cfg, Step(cfg, s, HandlerGet), HandlerCount)
    ensures var t := Step(cfg, Step(cfg, s, HandlerGet), HandlerCount);
            && Enabled(cfg, t, HandlerNext)
            && Step(cfg, t, HandlerNext).net.handler == Releasing([Request(0, 1, q.ids + output + question)])
            && Step(cfg, t, HandlerNext).gate == Gate([], 1, 0)
  {
    assert Participants([2], 0) == {0};
  }

  lemma StartRun(cfg: Config)
    requires |cfg.prompts| == |cfg.rounds|
    ensures Run(cfg, []) == Some(Init(cfg))
  {
  }
}
