/** When the progress bar, on which both loops' exits depend, can still fill. */
module MultiturnEnding {
  import opened Sums
  import opened Multiturn
  import opened MultiturnInvariant
  import opened MultiturnProgress

  // ---- What the bar has counted ----

  predicate Raising(a: Action) { a.TaskReply? && a.outcome.Raised? }

  /** Tasks that ended with an exception. */
  function Raises(acts: seq<Action>): nat {
    if acts == [] then 0
    else Raises(acts[..|acts| - 1]) + if Raising(acts[|acts| - 1]) then 1 else 0
  }

  ghost predicate Balanced(s: State, raises: nat) {
    s.count.ticks + raises == Sum(s.clients.round) + |Unhandled(s.net)| + |s.clients.dead|
  }

  lemma BalanceStep(cfg: Config, s: State, a: Action, raises: nat)
    requires Inv(cfg, s) && Enabled(cfg, s, a) && Balanced(s, raises)
    ensures Balanced(Step(cfg, s, a), raises + if Raising(a) then 1 else 0)
  {
    hide Inv, Unhandled, FollowUp, CountReply;
    UnhandledSize(s.net);
    UnhandledSize(Step(cfg, s, a).net);
    match a
    case HandlerCount => BalanceCount(cfg, s, raises);
    case HandlerNext => FollowUpCounts(cfg, s);
    case _ =>
  }

  lemma BalanceCount(cfg: Config, s: State, raises: nat)
    requires Inv(cfg, s) && Enabled(cfg, s, HandlerCount) && Balanced(s, raises)
    ensures Balanced(Step(cfg, s, HandlerCount), raises)
  {
    hide Inv, Unhandled, Sum;
    InHandOk(cfg, s);
    var t := Step(cfg, s, HandlerCount);
    CountShrinks(s.net, t.net.handler);
    var c := s.net.handler.reply.req.client;
    if s.net.handler.reply.outcome.Answered? { SumUpdate(s.clients.round, c, s.clients.round[c] + 1); }
  }

  lemma CountShrinks(n: Net, h: Handler)
    requires n.handler.Got? && !h.Got?
    ensures |Unhandled(n.(handler := h))| + 1 == |Unhandled(n)|
  {
    hide Unhandled;
    UnhandledSize(n);
    UnhandledSize(n.(handler := h));
  }

  lemma FollowUpCounts(cfg: Config, s: State)
    requires Enabled(cfg, s, HandlerNext)
    ensures var t := Step(cfg, s, HandlerNext);
            && t.clients.round == s.clients.round && t.clients.dead == s.clients.dead && t.count == s.count
            && t.net.responses == s.net.responses && t.net.sender == s.net.sender
            && (t.net.handler.Waiting? || t.net.handler.Releasing?)
  {
  }

  lemma {:induction false} RunBalance(cfg: Config, acts: seq<Action>)
    requires ValidConfig(cfg) && Run(cfg, acts).Some?
    ensures Balanced(Run(cfg, acts).value, Raises(acts))
  {
    hide Inv, Enabled, Step, Balanced;
    if acts == [] {
      InitBalance(cfg);
    } else {
      var last := |acts| - 1;
      RunBalance(cfg, acts[..last]);
      RunKeeps(cfg, acts[..last]);
      BalanceStep(cfg, Run(cfg, acts[..last]).value, acts[last], Raises(acts[..last]));
    }
  }

  lemma InitBalance(cfg: Config)
    requires ValidConfig(cfg)
    ensures Balanced(Init(cfg), 0)
  {
    ZeroSum(Init(cfg).clients.round);
    UnhandledSize(Init(cfg).net);
  }

  lemma BusySize(cfg: Config, s: State)
    requires Inv(cfg, s)
    ensures |Busy(s.net, s.clients)| == |Unhandled(s.net)| + |s.clients.dead|
  {
    hide SlotsOk, SupplyOk, TicksOk, StopsOk, BarrierMode, Unhandled, Queued, ClientsOf;
    var bag := Unhandled(s.net);
    assert forall q :: q in bag ==> q in Outstanding(s) && bag[q] <= Outstanding(s)[q];
    BagSize(bag);
    LiveClients(bag, s.clients.dead);
  }

  lemma LiveClients(bag: multiset<Request>, dead: set<nat>)
    requires forall q :: q in bag ==> q.client !in dead
    ensures |ClientsOf(bag) + dead| == |ClientsOf(bag)| + |dead|
  {
    assert ClientsOf(bag) !! dead;
  }

  /** The bar is full exactly when no task has raised and every client has had
      the last of its rounds answered, recorded or not. */
  lemma BarFullExactly(cfg: Config, acts: seq<Action>)
    requires ValidConfig(cfg) && Run(cfg, acts).Some?
    ensures var s := Run(cfg, acts).value;
            && s.count.ticks + Raises(acts) <= Total(cfg)
            && (s.count.ticks == Total(cfg) <==>
                Raises(acts) == 0 && Played(s.clients.round, Busy(s.net, s.clients)) == cfg.rounds)
  {
    hide Inv, Run, Busy, Unhandled, Played;
    var s := Run(cfg, acts).value;
    RunKeeps(cfg, acts);
    RunBalance(cfg, acts);
    BusySize(cfg, s);
    RoundsBound(cfg, s);
    BusyUnfinished(cfg, s);
    PlayedSum(s.clients.round, Busy(s.net, s.clients));
    PlayedBound(cfg, s);
  }

  lemma PlayedBound(cfg: Config, s: State)
    requires Inv(cfg, s)
    ensures var played := Played(s.clients.round, Busy(s.net, s.clients));
            Sum(played) <= Total(cfg) && (Sum(played) == Total(cfg) <==> played == cfg.rounds)
  {
    hide Inv, Busy;
    RoundsBound(cfg, s);
    BusyUnfinished(cfg, s);
    SumMonotone(Played(s.clients.round, Busy(s.net, s.clients)), cfg.rounds);
  }

  // ---- Clients that failed ----

  /** Clients whose failure is among these replies. */
  ghost function FailedIn(rs: seq<Reply>): set<nat> {
    if rs == [] then {} else FailedIn(rs[1..]) + FailedBy(rs[0])
  }

  ghost function FailedBy(r: Reply): set<nat> { if r.outcome.Answered? then {} else {r.req.client} }

  /** Clients whose request failed, whether or not that has been counted. */
  ghost function Failed(s: State): set<nat> { s.clients.dead + Failing(s.net) }

  ghost function Failing(n: Net): set<nat> {
    FailedIn(n.responses) + (if n.sender.Putting? then FailedBy(n.sender.reply) else {}) +
    if n.handler.Got? then FailedBy(n.handler.reply) else {}
  }

  lemma {:induction false} FailedInQueue(rs: seq<Reply>)
    ensures FailedIn(rs) <= ClientsOf(InQueue(rs))
  {
    hide ClientsOf;
    if rs != [] {
      FailedInQueue(rs[1..]);
      ClientsOfUnion(multiset{rs[0].req}, InQueue(rs[1..]));
      ClientsOfOne(rs[0].req);
    }
  }

  lemma FailingUnhandled(n: Net)
    ensures Failing(n) <= ClientsOf(Unhandled(n))
  {
    hide ClientsOf, InQueue, FailedIn;
    FailedInQueue(n.responses);
    ClientsOfUnion(InQueue(n.responses), InTask(n.sender));
    ClientsOfUnion(InQueue(n.responses) + InTask(n.sender), InHand(n.handler));
    if n.sender.Putting? { ClientsOfOne(n.sender.reply.req); }
    if n.handler.Got? { ClientsOfOne(n.handler.reply.req); }
  }

  lemma FailedIsBusy(s: State)
    ensures Failed(s) <= Busy(s.net, s.clients)
  {
    hide ClientsOf, Unhandled, Failing;
    FailingUnhandled(s.net);
  }

  lemma {:induction false} FailedAppend(rs: seq<Reply>, r: Reply)
    ensures FailedIn(rs + [r]) == FailedIn(rs) + FailedBy(r)
  {
    if rs == [] {
      assert (rs + [r])[1..] == [] && (rs + [r])[0] == r;
    } else {
      FailedAppend(rs[1..], r);
      assert (rs + [r])[1..] == rs[1..] + [r];
    }
  }

  /** A failed client stays failed and in its round; without new failures no one
      joins them. */
  ghost predicate Settled(s: State, t: State, harmless: bool) {
    && Failed(s) <= Failed(t) && (harmless ==> Failed(t) == Failed(s))
    && |t.clients.round| == |s.clients.round|
    && forall d :: d in Failed(s) && d < |s.clients.round| ==> t.clients.round[d] == s.clients.round[d]
  }

  lemma SettledStep(cfg: Config, s: State, a: Action)
    requires Inv(cfg, s) && Enabled(cfg, s, a)
    ensures Settled(s, Step(cfg, s, a), Harmless(a))
  {
    hide Inv, FailedIn, FollowUp, CountReply;
    match a
    case TaskPut => FailedAppend(s.net.responses, s.net.sender.reply);
    case HandlerGet => FailedFirst(s.net.responses);
    case HandlerCount => SettledCount(cfg, s);
    case HandlerNext => FollowUpCounts(cfg, s);
    case _ =>
  }

  lemma FailedFirst(rs: seq<Reply>)
    requires rs != []
    ensures FailedIn(rs) == FailedIn(rs[1..]) + FailedBy(rs[0])
  {
  }

  lemma SettledCount(cfg: Config, s: State)
    requires Inv(cfg, s) && Enabled(cfg, s, HandlerCount)
    ensures Settled(s, Step(cfg, s, HandlerCount), true)
  {
    hide Inv, FailedIn, Busy;
    var t := Step(cfg, s, HandlerCount);
    CountBusy(cfg, s, t.net.handler);
    FailedIsBusy(s.(net := t.net));
  }

  lemma {:induction false} SettledRun(cfg: Config, acts: seq<Action>, more: seq<Action>)
    requires ValidConfig(cfg) && Run(cfg, acts + more).Some?
    ensures Run(cfg, acts).Some?
    ensures Settled(Run(cfg, acts).value, Run(cfg, acts + more).value, false)
    ensures Raises(acts) <= Raises(acts + more)
  {
    hide Inv, Enabled, Step, Failed;
    if more == [] {
      assert acts + more == acts;
    } else {
      var last := |more| - 1;
      assert (acts + more)[..|acts| + last] == acts + more[..last];
      SettledRun(cfg, acts, more[..last]);
      RunKeeps(cfg, acts + more[..last]);
      SettledStep(cfg, Run(cfg, acts + more[..last]).value, more[last]);
    }
  }

  // ---- Can the bar still fill? ----

  /** No task has raised, every failure was in the client's last round and, with
      the barrier on, no client has more rounds than one that failed. */
  ghost predicate Finishable(cfg: Config, s: State, raises: nat) {
    raises == 0 &&
    forall d :: d in Failed(s) ==>
      && d < |cfg.rounds| == |s.clients.round| && s.clients.round[d] + 1 == cfg.rounds[d]
      && (cfg.barrier ==> forall c :: 0 <= c < |cfg.rounds| ==> cfg.rounds[c] <= cfg.rounds[d])
  }

  ghost predicate CanFill(cfg: Config, acts: seq<Action>)
    requires |cfg.prompts| == |cfg.rounds|
  {
    exists more :: Run(cfg, acts + more).Some? && Run(cfg, acts + more).value.count.ticks == Total(cfg)
  }

  /** With the barrier on, all requests under way and all failures are of the
      barrier's round. */
  lemma BusyAtGate(cfg: Config, s: State, c: nat)
    requires Inv(cfg, s) && cfg.barrier && c in Busy(s.net, s.clients)
    ensures c < |s.clients.round| && s.clients.round[c] == s.gate.round
  {
    hide SlotsOk, SupplyOk, TicksOk, StopsOk;
    if c in ClientsOf(Unhandled(s.net)) {
      var q :| q in Unhandled(s.net) && q.client == c;
      assert q in Active(s.net) && q in Outstanding(s);
    }
  }

  lemma FullIsFinishable(cfg: Config, acts: seq<Action>)
    requires ValidConfig(cfg) && Run(cfg, acts).Some? && Run(cfg, acts).value.count.ticks == Total(cfg)
    ensures Finishable(cfg, Run(cfg, acts).value, Raises(acts))
  {
    hide Inv, Run, Busy, Failed;
    var s := Run(cfg, acts).value;
    RunKeeps(cfg, acts);
    BarFullExactly(cfg, acts);
    FailedIsBusy(s);
    RoundsBound(cfg, s);
    BusyUnfinished(cfg, s);
    var played := Played(s.clients.round, Busy(s.net, s.clients));
    forall d | d in Failed(s) && cfg.barrier
      ensures forall c :: 0 <= c < |cfg.rounds| ==> cfg.rounds[c] <= cfg.rounds[d]
    {
      BusyAtGate(cfg, s, d);
      forall c | 0 <= c < |cfg.rounds| ensures played[c] <= s.gate.round + 1 {
        PlayedAtGate(cfg, s, c);
      }
    }
  }

  lemma PlayedAtGate(cfg: Config, s: State, c: nat)
    requires Inv(cfg, s) && cfg.barrier && c < |s.clients.round|
    ensures Played(s.clients.round, Busy(s.net, s.clients))[c] <= s.gate.round + 1
  {
    hide PlacesOk, SlotsOk, SupplyOk, TicksOk, StopsOk, Busy, Active;
    if c in Busy(s.net, s.clients) { BusyAtGate(cfg, s, c); }
  }

  /** A client that keeps the bar from being full, though the run is finishable:
      it is alive and nobody blocks it. */
  lemma OpenClient(cfg: Config, acts: seq<Action>) returns (c: nat)
    requires ValidConfig(cfg) && Run(cfg, acts).Some? && Run(cfg, acts).value.count.ticks != Total(cfg)
    requires Finishable(cfg, Run(cfg, acts).value, Raises(acts))
    ensures var cl := Run(cfg, acts).value.clients;
            && c < |cl.round| == |cfg.rounds| && cl.round[c] < cfg.rounds[c] && c !in cl.dead
            && NotBlocked(cfg, cl, c)
  {
    hide Inv, Run, Busy, Failing;
    var s := Run(cfg, acts).value;
    RunKeeps(cfg, acts);
    BarFullExactly(cfg, acts);
    FailedIsBusy(s);
    RoundsBound(cfg, s);
    BusyUnfinished(cfg, s);
    var played := Played(s.clients.round, Busy(s.net, s.clients));
    c :| 0 <= c < |cfg.rounds| && played[c] != cfg.rounds[c];
  }

  /** From every state of every run whose failures allow it, the remaining
      requests can be played, without another failure and without a timeout,
      until the bar is full. */
  lemma {:induction false} Completes(cfg: Config, acts: seq<Action>) returns (more: seq<Action>)
    requires ValidConfig(cfg) && cfg.maxParallel >= 1 && Run(cfg, acts).Some?
    requires Finishable(cfg, Run(cfg, acts).value, Raises(acts))
    ensures Run(cfg, acts + more).Some? && Run(cfg, acts + more).value.count.ticks == Total(cfg)
    ensures forall i :: 0 <= i < |more| ==> Harmless(more[i])
    decreases Work(cfg, Run(cfg, acts).value)
  {
    hide Run, Inv, Step, Enabled, Work, Finishable, Raises, NotBlocked, Leaving;
    var s := Run(cfg, acts).value;
    RunKeeps(cfg, acts);
    WorkLeft(cfg, s);
    if s.count.ticks == Total(cfg) {
      more := [];
      assert acts + more == acts;
    } else {
      var c := OpenClient(cfg, acts);
      NotLeaving(cfg, s);
      Progress(cfg, s, c);
      var a :| Enabled(cfg, s, a) && Harmless(a) &&
        (Productive(s, a) ||
         exists b :: Enabled(cfg, Step(cfg, s, a), b) && Harmless(b) && Productive(Step(cfg, s, a), b));
      StillFinishable(cfg, acts, a);
      StepWork(cfg, s, a);
      if Productive(s, a) {
        var rest := Completes(cfg, acts + [a]);
        more := [a] + rest;
        assert acts + [a] + rest == acts + more;
      } else {
        var t := Step(cfg, s, a);
        var b :| Enabled(cfg, t, b) && Harmless(b) && Productive(t, b);
        StillFinishable(cfg, acts + [a], b);
        StepWork(cfg, t, b);
        var rest := Completes(cfg, acts + [a] + [b]);
        more := [a] + [b] + rest;
        assert acts + [a] + [b] + rest == acts + more;
      }
    }
  }

  lemma NotLeaving(cfg: Config, s: State)
    requires Inv(cfg, s) && s.count.ticks != Total(cfg)
    ensures !Leaving(cfg, s)
  {
  }

  lemma StillFinishable(cfg: Config, acts: seq<Action>, a: Action)
    requires ValidConfig(cfg) && Run(cfg, acts).Some? && Finishable(cfg, Run(cfg, acts).value, Raises(acts))
    requires Enabled(cfg, Run(cfg, acts).value, a) && Harmless(a)
    ensures Run(cfg, acts + [a]) == Some(Step(cfg, Run(cfg, acts).value, a))
    ensures Finishable(cfg, Run(cfg, acts + [a]).value, Raises(acts + [a]))
  {
    hide Run, Inv, Step, Enabled, Failed;
    RunKeeps(cfg, acts);
    Extend(cfg, acts, a);
    SettledStep(cfg, Run(cfg, acts).value, a);
    assert (acts + [a])[..|acts|] == acts;
  }

  /** The bar can still fill exactly if no task has raised, every failure was in
      the client's last round and, with the barrier on, no client has more
      rounds than one that failed. */
  lemma CanFillExactly(cfg: Config, acts: seq<Action>)
    requires ValidConfig(cfg) && cfg.maxParallel >= 1 && Run(cfg, acts).Some?
    ensures CanFill(cfg, acts) <==> Finishable(cfg, Run(cfg, acts).value, Raises(acts))
  {
    hide Run, Raises, Failed;
    var s := Run(cfg, acts).value;
    if Finishable(cfg, s, Raises(acts)) {
      var more := Completes(cfg, acts);
    }
    if CanFill(cfg, acts) {
      var more :| Run(cfg, acts + more).Some? && Run(cfg, acts + more).value.count.ticks == Total(cfg);
      SettledRun(cfg, acts, more);
      FullIsFinishable(cfg, acts + more);
    }
  }

  /** Otherwise neither thread ever stops, in any continuation. */
  lemma NeverEnds(cfg: Config, acts: seq<Action>, more: seq<Action>)
    requires ValidConfig(cfg) && Run(cfg, acts).Some? && Run(cfg, acts + more).Some?
    requires !Finishable(cfg, Run(cfg, acts).value, Raises(acts))
    ensures var t := Run(cfg, acts + more).value;
            t.count.ticks < Total(cfg) && !t.net.sender.SenderStopped? && !t.net.handler.HandlerStopped?
  {
    hide Run, Inv, Raises, Failed;
    var t := Run(cfg, acts + more).value;
    RunKeeps(cfg, acts + more);
    SettledRun(cfg, acts, more);
    BarFullExactly(cfg, acts + more);
    if t.count.ticks == Total(cfg) { FullIsFinishable(cfg, acts + more); }
    NotStopped(cfg, t);
  }

  lemma NotStopped(cfg: Config, s: State)
    requires Inv(cfg, s) && s.count.ticks != Total(cfg)
    ensures !s.net.sender.SenderStopped? && !s.net.handler.HandlerStopped?
  {
  }

  /** Two clients with two rounds each, and the first request fails: with or
      without the barrier the program never ends. */
  lemma FailureReachable(barrier: bool, a: Tokens, b: Tokens, c: Tokens, d: Tokens)
    ensures var cfg := Config([2, 2], 2, 1, barrier, true, [a, b], [c, d]);
            var acts := [SenderCheck] + [SenderPop(0)] + [TaskReply(0, Refused)] + [TaskPut] +
                        [HandlerGet] + [HandlerCount];
            && ValidConfig(cfg) && Run(cfg, acts).Some?
            && Run(cfg, acts).value.clients.dead == {0}
            && !Finishable(cfg, Run(cfg, acts).value, Raises(acts))
  {
    hide Run, Step, Enabled, Init;
    var cfg := Config([2, 2], 2, 1, barrier, true, [a, b], [c, d]);
    var acts := [SenderCheck] + [SenderPop(0)] + [TaskReply(0, Refused)] + [TaskPut];
    StartRun(cfg);
    var sent := TwoStarted(cfg, a, b, c, d);
    Extend(cfg, [], SenderCheck);
    assert [] + [SenderCheck] == [SenderCheck];
    Extend(cfg, [SenderCheck], SenderPop(0));
    var last := OneRefused(cfg, sent, Request(0, 0, a));
    Extend(cfg, [SenderCheck] + [SenderPop(0)], TaskReply(0, Refused));
    Extend(cfg, [SenderCheck] + [SenderPop(0)] + [TaskReply(0, Refused)], TaskPut);
    Extend(cfg, acts, HandlerGet);
    Extend(cfg, acts + [HandlerGet], HandlerCount);
    assert 0 in Failed(last);
  }

  lemma TwoStarted(cfg: Config, a: Tokens, b: Tokens, c: Tokens, d: Tokens) returns (s: State)
    requires cfg.rounds == [2, 2] && cfg.maxRounds == 2 && cfg.maxParallel == 1 && cfg.fifo
    requires cfg.prompts == [a, b] && cfg.subQuestions == [c, d]
    ensures ValidConfig(cfg) && Enabled(cfg, Init(cfg), SenderCheck)
    ensures var t := Step(cfg, Init(cfg), SenderCheck); Enabled(cfg, t, SenderPop(0)) && s == Step(cfg, t, SenderPop(0))
    ensures s == State(Net([Request(1, 0, b)], [Request(0, 0, a)], [], Checking, Waiting), Counters(1, 0, 0),
                       Clients([0, 0], [a, b], [c, d], {}), Gate([], 0, 0))
  {
    TwoTotal(cfg);
    assert Init(cfg).clients.round == [0, 0];
    assert Init(cfg).net.ready == [Request(0, 0, a), Request(1, 0, b)];
    s := Step(cfg, Step(cfg, Init(cfg), SenderCheck), SenderPop(0));
    assert RemoveAt([Request(0, 0, a), Request(1, 0, b)], 0) == [Request(1, 0, b)];
  }

  lemma TwoTotal(cfg: Config)
    requires cfg.rounds == [2, 2]
    ensures Total(cfg) == 4 && FollowUps(cfg.rounds) == 2
  {
    assert [2, 2][1..] == [2] && [2][1..] == [];
  }

  lemma OneRefused(cfg: Config, s: State, q: Request) returns (t: State)
    requires s.net.inflight == [q] && s.net.responses == [] && s.net.sender.Checking? && s.net.handler.Waiting?
    requires HasRecord(s.clients, q.client)
    ensures Enabled(cfg, s, TaskReply(0, Refused))
    ensures var u := Step(cfg, s, TaskReply(0, Refused)); Enabled(cfg, u, TaskPut)
    ensures var u := Step(cfg, Step(cfg, s, TaskReply(0, Refused)), TaskPut);
            && Enabled(cfg, u, HandlerGet) && Enabled(cfg, Step(cfg, u, HandlerGet), HandlerCount)
            && t == Step(cfg, Step(cfg, u, HandlerGet), HandlerCount)
    ensures t.clients == s.clients.(dead := s.clients.dead + {q.client})
  {
    var u := Step(cfg, Step(cfg, s, TaskReply(0, Refused)), TaskPut);
    assert u.net.responses == [Reply(q, Refused)];
    t := Step(cfg, Step(cfg, u, HandlerGet), HandlerCount);
  }
}
