/** What every interleaving of the two threads keeps. */
module MultiturnInvariant {
  import opened Sums
  import opened Multiturn

  // ---- Where a request can be ----

  ghost function InQueue(rs: seq<Reply>): multiset<Request> {
    if rs == [] then multiset{} else multiset{rs[0].req} + InQueue(rs[1..])
  }

  ghost function InTask(t: Sender): multiset<Request> {
    if t.Putting? then multiset{t.reply.req} else multiset{}
  }

  ghost function InHand(h: Handler): multiset<Request> {
    if h.Got? then multiset{h.reply.req} else multiset{}
  }

  ghost function InRelease(h: Handler): multiset<Request> {
    if h.Releasing? then multiset(h.rest) else multiset{}
  }

  /** Requests that no server answer exists for yet and that may be sent now. */
  ghost function Queued(n: Net): multiset<Request> {
    multiset(n.ready) + multiset(n.inflight) + InRelease(n.handler)
  }

  /** Requests answered by the server and not yet counted by the handler. */
  ghost function Unhandled(n: Net): multiset<Request> {
    InQueue(n.responses) + InTask(n.sender) + InHand(n.handler)
  }

  ghost function Active(n: Net): multiset<Request> { Queued(n) + Unhandled(n) }

  ghost function Outstanding(s: State): multiset<Request> { Active(s.net) + multiset(s.gate.held) }

  ghost function ClientsOf(bag: multiset<Request>): set<nat> {
    set q | q in bag :: q.client
  }

  /** The client whose success is recorded but whose follow-up is not made. */
  function Pending(h: Handler): Option<nat> {
    if h.Counted? then Some(h.client) else None
  }

  // ---- The invariant, one group per concern ----

  /** One outstanding request per unfinished live client, built from the
      history that the client still has. */
  ghost predicate PlacesOk(cfg: Config, bag: multiset<Request>, cl: Clients, pending: Option<nat>) {
    && |cl.round| == |cl.history| == |cfg.rounds|
    && (forall c :: 0 <= c < |cl.round| ==> cl.round[c] <= cfg.rounds[c])
    && (forall q :: q in bag ==>
          && bag[q] == 1
          && q.client < |cl.round|
          && q.round == cl.round[q.client] < cfg.rounds[q.client]
          && q.ids == cl.history[q.client]
          && q.client !in cl.dead
          && pending != Some(q.client))
    && (forall c :: c in cl.dead ==> c < |cl.round| && cl.round[c] < cfg.rounds[c] && pending != Some(c))
    && (pending.Some? ==> pending.value < |cl.round| && 1 <= cl.round[pending.value])
    && (forall c: nat :: c < |cl.round| && cl.round[c] < cfg.rounds[c] && c !in cl.dead && pending != Some(c) ==>
          c in ClientsOf(bag))
  }

  ghost predicate SlotsOk(cfg: Config, n: Net, k: Counters) {
    && k.sent == k.completed + |Unhandled(n)| + |n.inflight|
    && (k.sent - k.completed <= cfg.maxParallel || k.sent == k.completed)
    && (n.sender.Popping? ==> k.sent - k.completed < cfg.maxParallel)
  }

  ghost function Unfinished(cfg: Config, round: seq<nat>): set<nat>
    requires |round| == |cfg.rounds|
  {
    set c: nat | c < |round| && round[c] < cfg.rounds[c]
  }

  /** Every success consumed a sub-question, except each client's last one. */
  ghost predicate SupplyOk(cfg: Config, cl: Clients, pending: Option<nat>)
    requires |cl.round| == |cfg.rounds|
    requires pending.Some? ==> pending.value < |cl.round|
  {
    |cl.supply| + Sum(cl.round) + |Unfinished(cfg, cl.round)| ==
    |cfg.subQuestions| + |cl.round| +
    if pending.Some? && cl.round[pending.value] < cfg.rounds[pending.value] then 1 else 0
  }

  /** Clients with one more answered round than they have recorded. */
  ghost function Busy(n: Net, cl: Clients): set<nat> {
    ClientsOf(Unhandled(n)) + cl.dead
  }

  ghost predicate TicksOk(k: Counters, cl: Clients, busy: set<nat>) {
    k.ticks <= Sum(cl.round) + |busy| && k.completed == Sum(cl.round) + |cl.dead|
  }

  ghost predicate StopsOk(cfg: Config, n: Net, k: Counters) {
    n.sender.SenderStopped? || n.handler.HandlerStopped? ==> k.ticks == Total(cfg)
  }

  /** Clients that have succeeded in round `b` and in no later one. */
  ghost function Through(round: seq<nat>, b: nat): set<nat> {
    set c: nat | c < |round| && round[c] == b + 1
  }

  ghost predicate BarrierOk(cfg: Config, active: multiset<Request>, gate: Gate, cl: Clients, pending: Option<nat>)
    requires |cl.round| == |cfg.rounds|
  {
    && (forall c :: 0 <= c < |cl.round| ==>
          cl.round[c] <= gate.round + 1 && (gate.round <= cl.round[c] || cl.round[c] == cfg.rounds[c]))
    && (forall q :: q in active ==> q.round == gate.round)
    && (forall q :: q in multiset(gate.held) ==> q.round == gate.round + 1)
    && (forall c :: c in cl.dead ==> c < |cl.round| && cl.round[c] <= gate.round)
    && (pending.Some? ==> pending.value < |cl.round| && cl.round[pending.value] == gate.round + 1)
    && |Through(cl.round, gate.round)| == gate.done + (if pending.Some? then 1 else 0)
    && (pending.None? ==> GateOpenable(cfg, gate))
  }

  /** Fewer clients than needed have passed, or nobody is left to pass. */
  ghost predicate GateOpenable(cfg: Config, gate: Gate) {
    var needed := Participants(cfg.rounds, gate.round);
    gate.done < |needed| || (gate.done == 0 && needed == {})
  }

  ghost predicate BarrierMode(cfg: Config, n: Net, gate: Gate, cl: Clients)
    requires |cl.round| == |cfg.rounds|
  {
    if cfg.barrier then BarrierOk(cfg, Active(n), gate, cl, Pending(n.handler))
    else gate.held == [] && !n.handler.Releasing?
  }

  ghost predicate Inv(cfg: Config, s: State) {
    && PlacesOk(cfg, Outstanding(s), s.clients, Pending(s.net.handler))
    && SlotsOk(cfg, s.net, s.count)
    && SupplyOk(cfg, s.clients, Pending(s.net.handler))
    && TicksOk(s.count, s.clients, Busy(s.net, s.clients))
    && StopsOk(cfg, s.net, s.count)
    && BarrierMode(cfg, s.net, s.gate, s.clients)
  }

  // ---- Initially ----

  lemma {:induction false} DistinctClients(qs: seq<Request>)
    requires forall i, j :: 0 <= i < j < |qs| ==> qs[i].client != qs[j].client
    ensures forall q :: q in multiset(qs) ==> multiset(qs)[q] == 1
  {
    if qs != [] {
      var last := |qs| - 1;
      DistinctClients(qs[..last]);
      assert qs == qs[..last] + [qs[last]];
    }
  }

  lemma InitPlaces(cfg: Config)
    requires ValidConfig(cfg)
    ensures PlacesOk(cfg, multiset(FirstRequests(cfg.prompts)), Init(cfg).clients, None)
  {
    var first := FirstRequests(cfg.prompts);
    DistinctClients(first);
    forall c: nat | c < |cfg.rounds| ensures c in ClientsOf(multiset(first)) {
      assert first[c] in multiset(first);
    }
  }

  lemma InitBarrier(cfg: Config)
    requires ValidConfig(cfg)
    ensures BarrierOk(cfg, multiset(FirstRequests(cfg.prompts)), Gate([], 0, 0), Init(cfg).clients, None)
  {
    assert Through(Init(cfg).clients.round, 0) == {};
    if cfg.rounds == [] {
      assert Participants(cfg.rounds, 0) == {};
    } else {
      assert 0 in Participants(cfg.rounds, 0);
    }
  }

  lemma InitSupply(cfg: Config)
    requires ValidConfig(cfg)
    ensures Sum(Init(cfg).clients.round) == 0
    ensures SupplyOk(cfg, Init(cfg).clients, None)
  {
    var round := Init(cfg).clients.round;
    ZeroSum(round);
    assert Unfinished(cfg, round) == Below(|round|);
  }

  lemma InitBags(first: seq<Request>)
    ensures var n := Net(first, [], [], Checking, Waiting);
            Unhandled(n) == multiset{} && Active(n) == multiset(first)
  {
  }

  lemma InitHolds(cfg: Config)
    requires ValidConfig(cfg)
    ensures Inv(cfg, Init(cfg))
  {
    hide PlacesOk, BarrierOk, SupplyOk, FirstRequests, Active, Unhandled;
    var s := Init(cfg);
    InitPlaces(cfg);
    InitBarrier(cfg);
    InitSupply(cfg);
    InitBags(FirstRequests(cfg.prompts));
    assert Outstanding(s) == Active(s.net);
    assert Busy(s.net, s.clients) == {};
  }

  // ---- Actions that only move requests or program counters ----

  lemma {:induction false} InQueueAppend(rs: seq<Reply>, r: Reply)
    ensures InQueue(rs + [r]) == InQueue(rs) + multiset{r.req}
  {
    if rs == [] {
      assert rs + [r] == [r];
    } else {
      InQueueAppend(rs[1..], r);
      assert (rs + [r])[1..] == rs[1..] + [r];
    }
  }

  ghost predicate SameBags(n: Net, m: Net) {
    Queued(m) == Queued(n) && Unhandled(m) == Unhandled(n) && Pending(m.handler) == Pending(n.handler)
  }

  lemma PopMoves(n: Net, k: nat, full: bool)
    requires n.sender.Popping? && (n.ready == [] || k < |n.ready|)
    ensures SameBags(n, Pop(n, k, full))
  {
  }

  lemma PutMoves(n: Net)
    requires n.sender.Putting?
    ensures SameBags(n, Put(n))
  {
    InQueueAppend(n.responses, n.sender.reply);
  }

  lemma GetMoves(n: Net)
    requires n.handler.Waiting? && n.responses != []
    ensures SameBags(n, Get(n))
  {
  }

  lemma ReleaseMoves(n: Net)
    requires n.handler.Releasing?
    ensures SameBags(n, Release(n))
  {
    hide InQueue, InTask;
    var rest := n.handler.rest;
    if rest != [] {
      assert rest == [rest[0]] + rest[1..];
      assert multiset(rest) == multiset{rest[0]} + multiset(rest[1..]);
      assert multiset(n.ready + [rest[0]]) == multiset(n.ready) + multiset{rest[0]};
    }
  }

  lemma CounterMoves(n: Net, sender: Sender, handler: Handler)
    requires InTask(sender) == InTask(n.sender)
    requires InHand(handler) == InHand(n.handler) && InRelease(handler) == InRelease(n.handler)
    requires Pending(handler) == Pending(n.handler)
    ensures SameBags(n, n.(sender := sender, handler := handler))
  {
  }

  lemma MovedKeeps(cfg: Config, s: State, n: Net, k: Counters)
    requires Inv(cfg, s) && SameBags(s.net, n)
    requires k.completed == s.count.completed && k.ticks == s.count.ticks
    requires SlotsOk(cfg, n, k) && StopsOk(cfg, n, k)
    requires cfg.barrier || !n.handler.Releasing?
    ensures Inv(cfg, s.(net := n, count := k))
  {
    hide PlacesOk, SupplyOk, BarrierOk, SlotsOk, StopsOk, Queued, Unhandled;
    assert Active(n) == Active(s.net) && Outstanding(s.(net := n, count := k)) == Outstanding(s);
  }

  lemma SenderQuietKeeps(cfg: Config, s: State, a: Action)
    requires Inv(cfg, s) && Enabled(cfg, s, a)
    requires a.SenderCheck? || a.SenderPop? || a.TaskPut?
    ensures Inv(cfg, Step(cfg, s, a))
  {
    hide Queued, Unhandled, Outstanding, Active, Busy, PlacesOk, SupplyOk, TicksOk, BarrierOk;
    var t := Step(cfg, s, a);
    match a {
      case SenderPop(k) => PopMoves(s.net, k, s.count.ticks == Total(cfg));
      case TaskPut => PutMoves(s.net);
      case SenderCheck => CounterMoves(s.net, t.net.sender, t.net.handler);
    }
    MovedKeeps(cfg, s, t.net, t.count);
  }

  lemma TimeoutKeeps(cfg: Config, s: State)
    requires Inv(cfg, s) && Enabled(cfg, s, HandlerTimeout)
    ensures Inv(cfg, Step(cfg, s, HandlerTimeout))
  {
    hide Queued, Unhandled, Outstanding, Active, Busy, PlacesOk, SupplyOk, TicksOk, BarrierOk, FollowUp, CountReply;
    var t := Step(cfg, s, HandlerTimeout);
    CounterMoves(s.net, t.net.sender, t.net.handler);
    MovedKeeps(cfg, s, t.net, t.count);
  }

  lemma TestKeeps(cfg: Config, s: State)
    requires Inv(cfg, s) && Enabled(cfg, s, HandlerTest)
    ensures Inv(cfg, Step(cfg, s, HandlerTest))
  {
    hide Queued, Unhandled, Outstanding, Active, Busy, PlacesOk, SupplyOk, TicksOk, BarrierOk, FollowUp, CountReply;
    var t := Step(cfg, s, HandlerTest);
    CounterMoves(s.net, t.net.sender, t.net.handler);
    MovedKeeps(cfg, s, t.net, t.count);
  }

  lemma GetKeeps(cfg: Config, s: State)
    requires Inv(cfg, s) && Enabled(cfg, s, HandlerGet)
    ensures Inv(cfg, Step(cfg, s, HandlerGet))
  {
    hide Queued, Unhandled, Outstanding, Active, Busy, PlacesOk, SupplyOk, TicksOk, BarrierOk;
    var t := Step(cfg, s, HandlerGet);
    GetMoves(s.net);
    MovedKeeps(cfg, s, t.net, t.count);
  }

  lemma ReleaseKeeps(cfg: Config, s: State)
    requires Inv(cfg, s) && Enabled(cfg, s, HandlerRelease)
    ensures Inv(cfg, Step(cfg, s, HandlerRelease))
  {
    hide Queued, Unhandled, Outstanding, Active, Busy, PlacesOk, SupplyOk, TicksOk, BarrierOk;
    var t := Step(cfg, s, HandlerRelease);
    ReleaseMoves(s.net);
    MovedKeeps(cfg, s, t.net, t.count);
  }

  // ---- A task gets its answer ----

  lemma ClientsOfUnion(a: multiset<Request>, b: multiset<Request>)
    ensures ClientsOf(a + b) == ClientsOf(a) + ClientsOf(b)
  {
    forall c | c in ClientsOf(a) ensures c in ClientsOf(a + b) {
      var q :| q in a && q.client == c;
      assert q in a + b;
    }
    forall c | c in ClientsOf(b) ensures c in ClientsOf(a + b) {
      var q :| q in b && q.client == c;
      assert q in a + b;
    }
  }

  /** Two outstanding requests never share a client. */
  lemma OneClient(cfg: Config, a: multiset<Request>, b: multiset<Request>, cl: Clients, pending: Option<nat>,
                  q: Request)
    requires PlacesOk(cfg, a + b, cl, pending)
    requires q in b
    ensures q.client !in ClientsOf(a) + cl.dead
  {
    assert q in a + b && (a + b)[q] == a[q] + b[q];
    forall p | p in a ensures p.client != q.client {
      assert p in a + b;
    }
  }

  /** While a request is still to be answered, the progress bar is not full. */
  lemma NotFull(cfg: Config, s: State, q: Request)
    requires Inv(cfg, s) && q in Queued(s.net) + multiset(s.gate.held)
    ensures s.count.ticks < Total(cfg)
  {
    hide SupplyOk, SlotsOk, StopsOk, BarrierMode, Queued, Unhandled;
    var busy, others := Busy(s.net, s.clients), Queued(s.net) + multiset(s.gate.held);
    assert Outstanding(s) == Unhandled(s.net) + others;
    OneClient(cfg, Unhandled(s.net), others, s.clients, Pending(s.net.handler), q);
    BusyUnfinished(cfg, s);
    assert q in Outstanding(s);
    UnfinishedBound(s.clients.round, cfg.rounds, busy + {q.client});
  }

  lemma BusyUnfinished(cfg: Config, s: State)
    requires Inv(cfg, s)
    ensures forall c :: c in Busy(s.net, s.clients) ==>
      c < |s.clients.round| && s.clients.round[c] < cfg.rounds[c]
  {
    hide SupplyOk, SlotsOk, StopsOk, BarrierMode, TicksOk;
    forall c | c in ClientsOf(Unhandled(s.net))
      ensures c < |s.clients.round| && s.clients.round[c] < cfg.rounds[c]
    {
      var q :| q in Unhandled(s.net) && q.client == c;
      assert q in Outstanding(s);
    }
  }

  lemma AnswerMoves(n: Net, j: nat, outcome: Outcome)
    requires n.sender.Checking? && j < |n.inflight|
    ensures var m, q := Answer(n, j, outcome), multiset{n.inflight[j]};
            Queued(n) == Queued(m) + q && Unhandled(m) == Unhandled(n) + q
  {
  }

  lemma AnswerBusy(cfg: Config, s: State, j: nat, outcome: Outcome)
    requires Inv(cfg, s)
    requires s.net.sender.Checking? && j < |s.net.inflight|
    ensures |Busy(Answer(s.net, j, outcome), s.clients)| == |Busy(s.net, s.clients)| + 1
  {
    hide PlacesOk, SupplyOk, TicksOk, BarrierMode, SlotsOk, StopsOk, Queued, Unhandled, ClientsOf;
    var m, q := Answer(s.net, j, outcome), s.net.inflight[j];
    var others := Queued(s.net) + multiset(s.gate.held);
    AnswerMoves(s.net, j, outcome);
    assert Outstanding(s) == Unhandled(s.net) + others;
    OneClient(cfg, Unhandled(s.net), others, s.clients, Pending(s.net.handler), q);
    ClientsOfUnion(Unhandled(s.net), multiset{q});
    ClientsOfOne(q);
    assert Busy(m, s.clients) == Busy(s.net, s.clients) + {q.client};
  }

  lemma ClientsOfOne(q: Request)
    ensures ClientsOf(multiset{q}) == {q.client}
  {
    assert q in multiset{q};
  }

  /** Outstanding requests stay the same when one goes from queued to unhandled. */
  lemma AnswerStays(s: State, j: nat, outcome: Outcome)
    requires s.net.sender.Checking? && j < |s.net.inflight|
    ensures var m := Answer(s.net, j, outcome);
            && Active(m) == Active(s.net)
            && |Unhandled(m)| == |Unhandled(s.net)| + 1
            && s.net.inflight[j] in Queued(s.net)
  {
    hide Queued, Unhandled;
    AnswerMoves(s.net, j, outcome);
  }

  lemma AnswerKeeps(cfg: Config, s: State, j: nat, outcome: Outcome)
    requires Inv(cfg, s)
    requires s.net.sender.Checking? && j < |s.net.inflight|
    ensures Inv(cfg, Step(cfg, s, TaskReply(j, outcome)))
  {
    hide Queued, Busy, Unhandled, Active, PlacesOk, SupplyOk, BarrierOk;
    AnswerStays(s, j, outcome);
    AnswerBusy(cfg, s, j, outcome);
    NotFull(cfg, s, s.net.inflight[j]);
  }

  // ---- The handler counts a reply ----

  lemma CountMoves(n: Net, h: Handler)
    requires n.handler.Got? && (h.Waiting? || h.Counted?)
    ensures var m, q := n.(handler := h), multiset{n.handler.reply.req};
            Queued(m) == Queued(n) && Unhandled(n) == Unhandled(m) + q && Active(n) == Active(m) + q
  {
  }

  lemma PlacesSucceed(cfg: Config, bag: multiset<Request>, q: Request, cl: Clients, output: Tokens)
    requires PlacesOk(cfg, bag + multiset{q}, cl, None)
    ensures q in bag + multiset{q} && HasRecord(cl, q.client)
    ensures PlacesOk(cfg, bag, Succeed(cl, q.client, output), Some(q.client))
  {
    OneClient(cfg, bag, multiset{q}, cl, None, q);
    ClientsOfUnion(bag, multiset{q});
    forall p | p in bag ensures p in bag + multiset{q} && p.client != q.client {
      assert p.client in ClientsOf(bag);
    }
  }

  lemma PlacesFail(cfg: Config, bag: multiset<Request>, q: Request, cl: Clients)
    requires PlacesOk(cfg, bag + multiset{q}, cl, None)
    ensures PlacesOk(cfg, bag, cl.(dead := cl.dead + {q.client}), None)
  {
    OneClient(cfg, bag, multiset{q}, cl, None, q);
    ClientsOfUnion(bag, multiset{q});
    assert q in bag + multiset{q};
    forall p | p in bag ensures p in bag + multiset{q} && p.client != q.client {
      assert p.client in ClientsOf(bag);
    }
  }

  lemma SupplySucceed(cfg: Config, cl: Clients, c: nat, output: Tokens)
    requires HasRecord(cl, c) && |cl.round| == |cfg.rounds| && cl.round[c] < cfg.rounds[c]
    requires SupplyOk(cfg, cl, None)
    ensures SupplyOk(cfg, Succeed(cl, c, output), Some(c))
    ensures Sum(Succeed(cl, c, output).round) == Sum(cl.round) + 1
  {
    var next := Succeed(cl, c, output).round;
    SumUpdate(cl.round, c, cl.round[c] + 1);
    if next[c] < cfg.rounds[c] {
      assert Unfinished(cfg, next) == Unfinished(cfg, cl.round);
    } else {
      assert Unfinished(cfg, next) == Unfinished(cfg, cl.round) - {c};
    }
  }

  lemma BarrierSucceed(cfg: Config, active: multiset<Request>, q: Request, gate: Gate, cl: Clients, output: Tokens)
    requires |cl.round| == |cl.history| == |cfg.rounds| && q.client < |cl.round| && q.round == cl.round[q.client]
    requires q.client !in cl.dead
    requires BarrierOk(cfg, active + multiset{q}, gate, cl, None)
    ensures BarrierOk(cfg, active, gate, Succeed(cl, q.client, output), Some(q.client))
  {
    assert q in active + multiset{q};
    var next := Succeed(cl, q.client, output).round;
    assert Through(next, gate.round) == Through(cl.round, gate.round) + {q.client};
    forall p | p in active ensures p in active + multiset{q} {}
  }

  lemma BarrierFail(cfg: Config, active: multiset<Request>, q: Request, gate: Gate, cl: Clients)
    requires |cl.round| == |cfg.rounds| && q.client < |cl.round| && q.round == cl.round[q.client]
    requires BarrierOk(cfg, active + multiset{q}, gate, cl, None)
    ensures BarrierOk(cfg, active, gate, cl.(dead := cl.dead + {q.client}), None)
  {
    assert q in active + multiset{q};
    forall p | p in active ensures p in active + multiset{q} {}
  }

  lemma CountBusy(cfg: Config, s: State, h: Handler)
    requires Inv(cfg, s) && s.net.handler.Got? && (h.Waiting? || h.Counted?)
    ensures var c, m := s.net.handler.reply.req.client, s.net.(handler := h);
            && c !in Busy(m, s.clients)
            && Busy(s.net, s.clients) == Busy(m, s.clients) + {c}
            && c !in s.clients.dead
  {
    hide PlacesOk, SupplyOk, TicksOk, BarrierOk, SlotsOk, StopsOk, Queued, Unhandled;
    var m, q := s.net.(handler := h), s.net.handler.reply.req;
    CountMoves(s.net, h);
    var rest := Unhandled(m) + Queued(m) + multiset(s.gate.held);
    assert Outstanding(s) == rest + multiset{q};
    OneClient(cfg, rest, multiset{q}, s.clients, Pending(s.net.handler), q);
    ClientsOfUnion(Unhandled(m), Queued(m));
    ClientsOfUnion(Unhandled(m) + Queued(m), multiset(s.gate.held));
    ClientsOfUnion(Unhandled(m), multiset{q});
  }

  /** The request in the handler's hand belongs to a live client with a record. */
  lemma InHandOk(cfg: Config, s: State)
    requires Inv(cfg, s) && s.net.handler.Got?
    ensures var q := s.net.handler.reply.req;
            && HasRecord(s.clients, q.client) && |s.clients.round| == |cfg.rounds|
            && q.round == s.clients.round[q.client] < cfg.rounds[q.client]
            && q.client !in s.clients.dead
  {
    hide SupplyOk, TicksOk, BarrierOk, SlotsOk, StopsOk, Queued;
    assert s.net.handler.reply.req in Outstanding(s);
  }

  lemma CountStays(s: State, h: Handler)
    requires s.net.handler.Got? && (h.Waiting? || h.Counted?)
    ensures var m, q := s.net.(handler := h), multiset{s.net.handler.reply.req};
            && Outstanding(s) == Active(m) + multiset(s.gate.held) + q
            && Active(s.net) == Active(m) + q
            && |Unhandled(s.net)| == |Unhandled(m)| + 1
  {
    hide Queued, Unhandled, Active;
    CountMoves(s.net, h);
  }

  lemma SuccessKeeps(cfg: Config, s: State)
    requires Inv(cfg, s) && s.net.handler.Got? && s.net.handler.reply.outcome.Answered?
    requires HasRecord(s.clients, s.net.handler.reply.req.client)
    ensures Inv(cfg, CountReply(s, s.net.handler.reply))
  {
    hide Queued, Unhandled, PlacesOk, SupplyOk, BarrierOk, Active, Busy, Succeed;
    InHandOk(cfg, s);
    var t, reply := CountReply(s, s.net.handler.reply), s.net.handler.reply;
    CountStays(s, t.net.handler);
    CountBusy(cfg, s, t.net.handler);
    PlacesSucceed(cfg, Active(t.net) + multiset(s.gate.held), reply.req, s.clients, reply.outcome.output);
    SupplySucceed(cfg, s.clients, reply.req.client, reply.outcome.output);
    SuccessBusy(t.net, s.clients, reply.req.client, reply.outcome.output);
    if cfg.barrier {
      BarrierSucceed(cfg, Active(t.net), reply.req, s.gate, s.clients, reply.outcome.output);
    }
  }

  lemma SuccessBusy(n: Net, cl: Clients, c: nat, output: Tokens)
    requires HasRecord(cl, c)
    ensures Busy(n, Succeed(cl, c, output)) == Busy(n, cl) && Succeed(cl, c, output).dead == cl.dead
  {
  }

  lemma FailureBusy(n: Net, cl: Clients, c: nat)
    ensures Busy(n, cl.(dead := cl.dead + {c})) == Busy(n, cl) + {c}
  {
  }

  lemma FailureKeeps(cfg: Config, s: State)
    requires Inv(cfg, s) && s.net.handler.Got? && !s.net.handler.reply.outcome.Answered?
    requires HasRecord(s.clients, s.net.handler.reply.req.client)
    ensures Inv(cfg, CountReply(s, s.net.handler.reply))
  {
    hide Queued, Unhandled, PlacesOk, SupplyOk, BarrierOk, Active, Busy;
    InHandOk(cfg, s);
    var t, q := CountReply(s, s.net.handler.reply), s.net.handler.reply.req;
    CountStays(s, t.net.handler);
    CountBusy(cfg, s, t.net.handler);
    FailureBusy(t.net, s.clients, q.client);
    PlacesFail(cfg, Active(t.net) + multiset(s.gate.held), q, s.clients);
    SupplyDead(cfg, s.clients, q.client);
    if cfg.barrier {
      BarrierFail(cfg, Active(t.net), q, s.gate, s.clients);
    }
  }

  lemma CountKeeps(cfg: Config, s: State)
    requires Inv(cfg, s) && s.net.handler.Got?
    ensures Enabled(cfg, s, HandlerCount) && Inv(cfg, Step(cfg, s, HandlerCount))
  {
    hide Inv;
    InHandOk(cfg, s);
    if s.net.handler.reply.outcome.Answered? {
      SuccessKeeps(cfg, s);
    } else {
      FailureKeeps(cfg, s);
    }
  }

  lemma SupplyDead(cfg: Config, cl: Clients, c: nat)
    requires |cl.round| == |cfg.rounds| && SupplyOk(cfg, cl, None)
    ensures SupplyOk(cfg, cl.(dead := cl.dead + {c}), None)
  {
  }

  // ---- The handler makes the follow-up request ----

  lemma {:induction false} FollowUpsValue(rounds: seq<nat>)
    requires forall c :: 0 <= c < |rounds| ==> 1 <= rounds[c]
    ensures FollowUps(rounds) + |rounds| == Sum(rounds)
  {
    if rounds != [] { FollowUpsValue(rounds[1..]); }
  }

  /** The sub-question list is never empty when a follow-up is due. */
  lemma SupplyLeft(cfg: Config, s: State)
    requires ValidConfig(cfg) && Inv(cfg, s) && s.net.handler.Counted?
    ensures Enabled(cfg, s, HandlerNext)
  {
    hide TicksOk, BarrierMode, SlotsOk, StopsOk, Outstanding;
    FollowUpsValue(cfg.rounds);
    UnfinishedBound(s.clients.round, cfg.rounds, Unfinished(cfg, s.clients.round));
  }

  lemma PlacesAsk(cfg: Config, bag: multiset<Request>, cl: Clients, c: nat)
    requires HasRecord(cl, c) && cl.supply != []
    requires PlacesOk(cfg, bag, cl, Some(c)) && cl.round[c] < cfg.rounds[c]
    ensures PlacesOk(cfg, bag + multiset{Request(c, Ask(cl, c).round[c], Ask(cl, c).history[c])}, Ask(cl, c), None)
  {
    var q := Request(c, Ask(cl, c).round[c], Ask(cl, c).history[c]);
    var all := bag + multiset{q};
    ClientsOfUnion(bag, multiset{q});
    assert c in ClientsOf(multiset{q}) by { assert q in multiset{q}; }
    forall p | p in all ensures p == q || (p in bag && p.client != c) {}
    assert q !in bag;
  }

  lemma PlacesLast(cfg: Config, bag: multiset<Request>, cl: Clients, c: nat)
    requires PlacesOk(cfg, bag, cl, Some(c)) && c < |cl.round| && cl.round[c] == cfg.rounds[c]
    ensures PlacesOk(cfg, bag, cl, None)
  {
  }

  lemma MakeMoves(cfg: Config, s: State, c: nat)
    requires HasRecord(s.clients, c) && s.clients.supply != []
    ensures var t := MakeRequest(cfg, s, c);
            Outstanding(t) == Outstanding(s) + multiset{Request(c, t.clients.round[c], t.clients.history[c])}
  {
    var t := MakeRequest(cfg, s, c);
    assert Unhandled(t.net) == Unhandled(s.net);
  }

  /** Clients and outstanding requests after the follow-up, before the barrier. */
  lemma MakeKeeps(cfg: Config, s: State, c: nat)
    requires Inv(cfg, s) && s.net.handler == Counted(c)
    requires HasRecord(s.clients, c) && s.clients.supply != [] && c < |cfg.rounds|
    requires s.clients.round[c] < cfg.rounds[c]
    ensures var t := MakeRequest(cfg, s, c);
            && PlacesOk(cfg, Outstanding(t), t.clients, None)
            && |t.clients.round| == |cfg.rounds|
            && SupplyOk(cfg, t.clients, None)
  {
    hide TicksOk, BarrierMode, SlotsOk, StopsOk, PlacesOk, Outstanding;
    PlacesAsk(cfg, Outstanding(s), s.clients, c);
    MakeMoves(cfg, s, c);
    RoundBound(cfg, s, c);
  }

  lemma RoundBound(cfg: Config, s: State, c: nat)
    requires Inv(cfg, s) && c < |s.clients.round|
    ensures |s.clients.round| == |cfg.rounds| && s.clients.round[c] <= cfg.rounds[c]
  {
    hide TicksOk, BarrierMode, SlotsOk, StopsOk, Outstanding;
  }

  // ---- The barrier ----

  /** The follow-up changes neither rounds nor failures. */
  ghost predicate SameProgress(cl: Clients, next: Clients) {
    next.round == cl.round && next.dead == cl.dead
  }

  /** Only participants pass the barrier, so it opens exactly when all have. */
  lemma GateCount(cfg: Config, active: multiset<Request>, gate: Gate, cl: Clients, c: nat)
    requires |cl.round| == |cfg.rounds|
    requires forall i :: 0 <= i < |cl.round| ==> cl.round[i] <= cfg.rounds[i]
    requires BarrierOk(cfg, active, gate, cl, Some(c))
    ensures gate.done + 1 <= |Participants(cfg.rounds, gate.round)|
    ensures gate.done + 1 == |Participants(cfg.rounds, gate.round)| ==>
      Through(cl.round, gate.round) == Participants(cfg.rounds, gate.round)
  {
    SubsetCardinality(Through(cl.round, gate.round), Participants(cfg.rounds, gate.round));
  }

  lemma GateStays(cfg: Config, active: multiset<Request>, gate: Gate, cl: Clients, c: nat,
                  held: seq<Request>, next: Clients)
    requires |cl.round| == |cfg.rounds| && SameProgress(cl, next)
    requires BarrierOk(cfg, active, gate, cl, Some(c))
    requires forall q :: q in multiset(held) ==> q.round == gate.round + 1
    requires gate.done + 1 < |Participants(cfg.rounds, gate.round)|
    ensures BarrierOk(cfg, active, Gate(held, gate.round, gate.done + 1), next, None)
  {
  }

  /** Once all participants are through, nobody is left behind or dead. */
  lemma GateClear(cfg: Config, active: multiset<Request>, gate: Gate, cl: Clients, c: nat, next: Clients,
                  held: multiset<Request>)
    requires |cl.round| == |cfg.rounds| && SameProgress(cl, next)
    requires BarrierOk(cfg, active, gate, cl, Some(c))
    requires PlacesOk(cfg, active + held, next, None)
    requires Through(cl.round, gate.round) == Participants(cfg.rounds, gate.round)
    ensures active == multiset{} && next.dead == {}
  {
    var b := gate.round;
    forall i: nat | i < |cl.round| && cfg.rounds[i] > b ensures cl.round[i] == b + 1 {
      assert i in Participants(cfg.rounds, b);
    }
    assert forall q :: q in active + held ==> q.round == next.round[q.client] != b;
    assert forall q :: q in active ==> q in active + held;
    assert forall i: nat :: i < |next.round| && next.round[i] < cfg.rounds[i] ==> next.round[i] == b + 1;
  }

  lemma GateOpens(cfg: Config, active: multiset<Request>, gate: Gate, cl: Clients, c: nat,
                  held: seq<Request>, next: Clients)
    requires |cl.round| == |cfg.rounds| && SameProgress(cl, next)
    requires BarrierOk(cfg, active, gate, cl, Some(c))
    requires PlacesOk(cfg, active + multiset(held), next, None)
    requires forall q :: q in multiset(held) ==> q.round == gate.round + 1
    requires Through(cl.round, gate.round) == Participants(cfg.rounds, gate.round)
    ensures active == multiset{}
    ensures BarrierOk(cfg, multiset(held), Gate([], gate.round + 1, 0), next, None)
  {
    GateClear(cfg, active, gate, cl, c, next, multiset(held));
    assert Through(next.round, gate.round + 1) == {};
    forall i | 0 <= i < |next.round|
      ensures gate.round + 1 <= next.round[i] || next.round[i] == cfg.rounds[i]
    {
      assert i in Through(cl.round, gate.round) <==> i in Participants(cfg.rounds, gate.round);
    }
    assert multiset(Gate([], gate.round + 1, 0).held) == multiset{};
  }

  lemma {:induction false} BagSize(bag: multiset<Request>)
    requires forall p, q :: p in bag && q in bag && p.client == q.client ==> p == q
    requires forall q :: q in bag ==> bag[q] == 1
    ensures |bag| == |ClientsOf(bag)|
    decreases |bag|
  {
    if bag != multiset{} {
      var q :| q in bag;
      var rest := bag - multiset{q};
      BagSize(rest);
      assert bag == rest + multiset{q};
      ClientsOfUnion(rest, multiset{q});
      assert ClientsOf(bag) == ClientsOf(rest) + {q.client};
      assert forall p :: p in rest ==> p in bag && p != q;
      assert q.client !in ClientsOf(rest);
    } else {
      assert ClientsOf(bag) == {};
    }
  }

  /** A released batch is one request per participant of the next round. */
  lemma ReleaseExact(cfg: Config, held: multiset<Request>, cl: Clients, b: nat)
    requires PlacesOk(cfg, held, cl, None) && cl.dead == {}
    requires forall q :: q in held ==> q.round == b + 1
    requires Through(cl.round, b) == Participants(cfg.rounds, b)
    ensures ClientsOf(held) == Participants(cfg.rounds, b + 1)
    ensures |held| == |Participants(cfg.rounds, b + 1)|
  {
    BagSize(held);
    forall c | c in Participants(cfg.rounds, b + 1) ensures c in ClientsOf(held) {
      assert c in Participants(cfg.rounds, b);
      assert c in Through(cl.round, b);
    }
  }

  // ---- The follow-up step ----

  /** After the follow-up and before the barrier: the handler holds nothing. */
  function Made(cfg: Config, s: State, c: nat): State
    requires HasRecord(s.clients, c) && CanFollowUp(cfg, s.clients, c)
  {
    var made := if s.clients.round[c] < cfg.rounds[c] then MakeRequest(cfg, s, c) else s;
    made.(net := made.net.(handler := Waiting))
  }

  lemma IdleHands(s: State, h: Handler)
    requires s.net.handler.Counted? && (h.Waiting? || h == Releasing([]))
    ensures var m := s.net.(handler := h); Queued(m) == Queued(s.net) && Unhandled(m) == Unhandled(s.net)
  {
    var m := s.net.(handler := h);
    assert InRelease(h) == InRelease(s.net.handler);
  }

  lemma MadeKeeps(cfg: Config, s: State, c: nat)
    requires Inv(cfg, s) && s.net.handler == Counted(c)
    requires HasRecord(s.clients, c) && CanFollowUp(cfg, s.clients, c)
    ensures var t := Made(cfg, s, c);
            && PlacesOk(cfg, Outstanding(t), t.clients, None)
            && |t.clients.round| == |cfg.rounds|
            && SupplyOk(cfg, t.clients, None)
            && SameProgress(s.clients, t.clients)
            && Unhandled(t.net) == Unhandled(s.net)
            && (cfg.barrier ==> Active(t.net) == Active(s.net))
  {
    hide TicksOk, BarrierMode, SlotsOk, StopsOk, PlacesOk, SupplyOk, Queued, Unhandled;
    RoundBound(cfg, s, c);
    if s.clients.round[c] < cfg.rounds[c] {
      MakeKeeps(cfg, s, c);
      MakeNet(cfg, s, c);
      IdleHands(MakeRequest(cfg, s, c), Waiting);
    } else {
      IdleHands(s, Waiting);
      PlacesLast(cfg, Outstanding(s), s.clients, c);
      SupplyLast(cfg, s.clients, c);
    }
  }

  lemma MakeNet(cfg: Config, s: State, c: nat)
    requires HasRecord(s.clients, c) && s.clients.supply != []
    ensures var t := MakeRequest(cfg, s, c);
            && Unhandled(t.net) == Unhandled(s.net) && SameProgress(s.clients, t.clients)
            && (cfg.barrier ==> t.net == s.net)
            && t.net.handler == s.net.handler
  {
  }

  lemma SupplyLast(cfg: Config, cl: Clients, c: nat)
    requires |cl.round| == |cfg.rounds| && c < |cl.round| && cl.round[c] == cfg.rounds[c]
    requires SupplyOk(cfg, cl, Some(c))
    ensures SupplyOk(cfg, cl, None)
  {
  }

  /** Counters do not change, so what is said about them carries over. */
  lemma FollowUpCounters(cfg: Config, s: State, n: Net, cl: Clients)
    requires SlotsOk(cfg, s.net, s.count) && TicksOk(s.count, s.clients, Busy(s.net, s.clients))
    requires StopsOk(cfg, s.net, s.count) && s.net.handler.Counted?
    requires Unhandled(n) == Unhandled(s.net) && n.inflight == s.net.inflight && n.sender == s.net.sender
    requires SameProgress(s.clients, cl) && !n.handler.HandlerStopped?
    ensures SlotsOk(cfg, n, s.count) && TicksOk(s.count, cl, Busy(n, cl)) && StopsOk(cfg, n, s.count)
  {
    hide Unhandled;
  }

  lemma NoBarrierKeeps(cfg: Config, s: State, c: nat)
    requires Inv(cfg, s) && s.net.handler == Counted(c) && !cfg.barrier
    requires HasRecord(s.clients, c) && CanFollowUp(cfg, s.clients, c)
    ensures Inv(cfg, FollowUp(cfg, s, c))
  {
    hide Unhandled, Active, Outstanding, PlacesOk, SupplyOk, TicksOk, StopsOk, SlotsOk, Busy;
    MadeKeeps(cfg, s, c);
    var t := Made(cfg, s, c);
    FollowUpCounters(cfg, s, t.net, t.clients);
  }

  /** What the held list looks like once the follow-up joined it. */
  lemma HeldRounds(cfg: Config, s: State, c: nat)
    requires Inv(cfg, s) && s.net.handler == Counted(c) && cfg.barrier
    requires HasRecord(s.clients, c) && CanFollowUp(cfg, s.clients, c)
    ensures forall q :: q in multiset(Made(cfg, s, c).gate.held) ==> q.round == s.gate.round + 1
    ensures s.gate.round + 1 <= cfg.rounds[c]
  {
    hide Unhandled, Queued, SupplyOk, TicksOk, StopsOk, SlotsOk;
  }

  lemma BarrierKeeps(cfg: Config, s: State, c: nat)
    requires ValidConfig(cfg) && Inv(cfg, s) && s.net.handler == Counted(c) && cfg.barrier
    requires HasRecord(s.clients, c) && CanFollowUp(cfg, s.clients, c)
    requires s.gate.done + 1 != |Participants(cfg.rounds, s.gate.round)|
    ensures Inv(cfg, FollowUp(cfg, s, c))
  {
    hide Unhandled, Active, PlacesOk, SupplyOk, TicksOk, StopsOk, SlotsOk, Busy, BarrierOk;
    MadeKeeps(cfg, s, c);
    HeldRounds(cfg, s, c);
    RoundsBound(cfg, s);
    GateCount(cfg, Active(s.net), s.gate, s.clients, c);
    var t := Made(cfg, s, c);
    GateStays(cfg, Active(s.net), s.gate, s.clients, c, t.gate.held, t.clients);
    FollowUpCounters(cfg, s, t.net, t.clients);
  }

  lemma RoundsBound(cfg: Config, s: State)
    requires Inv(cfg, s)
    ensures |s.clients.round| == |cfg.rounds|
    ensures forall i :: 0 <= i < |s.clients.round| ==> s.clients.round[i] <= cfg.rounds[i]
  {
    hide TicksOk, BarrierMode, SlotsOk, StopsOk, Outstanding;
  }

  lemma OpenMoves(n: Net, held: seq<Request>)
    requires n.handler.Waiting?
    ensures var m := n.(handler := Releasing(held));
            Active(m) == Active(n) + multiset(held) && Unhandled(m) == Unhandled(n)
  {
  }

  /** The state in which the barrier has just opened. */
  lemma OpenShape(cfg: Config, s: State, c: nat)
    requires ValidConfig(cfg) && Inv(cfg, s) && s.net.handler == Counted(c) && cfg.barrier
    requires HasRecord(s.clients, c) && CanFollowUp(cfg, s.clients, c)
    requires s.gate.done + 1 == |Participants(cfg.rounds, s.gate.round)|
    ensures var t := Made(cfg, s, c);
            && FollowUp(cfg, s, c) == State(t.net.(handler := Releasing(t.gate.held)), s.count, t.clients,
                                            Gate([], s.gate.round + 1, 0))
            && Through(t.clients.round, s.gate.round) == Participants(cfg.rounds, s.gate.round)
            && BarrierOk(cfg, multiset(t.gate.held), Gate([], s.gate.round + 1, 0), t.clients, None)
            && t.net.inflight == s.net.inflight && t.net.sender == s.net.sender
            && PlacesOk(cfg, multiset(t.gate.held), t.clients, None)
            && t.clients.dead == {}
            && Active(t.net) == multiset{}
  {
    hide Unhandled, Active, PlacesOk, SupplyOk, TicksOk, StopsOk, SlotsOk, Busy, BarrierOk;
    MadeKeeps(cfg, s, c);
    HeldRounds(cfg, s, c);
    RoundsBound(cfg, s);
    GateCount(cfg, Active(s.net), s.gate, s.clients, c);
    var t := Made(cfg, s, c);
    GateOpens(cfg, Active(s.net), s.gate, s.clients, c, t.gate.held, t.clients);
    GateClear(cfg, Active(s.net), s.gate, s.clients, c, t.clients, multiset(t.gate.held));
    assert Outstanding(t) == multiset(t.gate.held);
  }

  lemma OpeningKeeps(cfg: Config, s: State, c: nat)
    requires ValidConfig(cfg) && Inv(cfg, s) && s.net.handler == Counted(c) && cfg.barrier
    requires HasRecord(s.clients, c) && CanFollowUp(cfg, s.clients, c)
    requires s.gate.done + 1 == |Participants(cfg.rounds, s.gate.round)|
    ensures Inv(cfg, FollowUp(cfg, s, c))
  {
    hide Unhandled, Active, PlacesOk, SupplyOk, TicksOk, StopsOk, SlotsOk, Busy, BarrierOk, FollowUp, Made,
         Through, Participants;
    MadeKeeps(cfg, s, c);
    OpenShape(cfg, s, c);
    var t, u := Made(cfg, s, c), FollowUp(cfg, s, c);
    OpenMoves(t.net.(handler := Waiting), t.gate.held);
    MadeIdle(cfg, s, c);
    FollowUpCounters(cfg, s, u.net, u.clients);
    assert Outstanding(u) == Active(u.net) == multiset(t.gate.held);
  }

  lemma MadeIdle(cfg: Config, s: State, c: nat)
    requires HasRecord(s.clients, c) && CanFollowUp(cfg, s.clients, c)
    ensures Made(cfg, s, c).net.handler.Waiting?
  {
  }

  lemma FollowUpKeeps(cfg: Config, s: State)
    requires ValidConfig(cfg) && Inv(cfg, s) && s.net.handler.Counted?
    ensures Enabled(cfg, s, HandlerNext) && Inv(cfg, Step(cfg, s, HandlerNext))
  {
    hide Inv, ValidConfig;
    SupplyLeft(cfg, s);
    var c := s.net.handler.client;
    if !cfg.barrier {
      NoBarrierKeeps(cfg, s, c);
    } else if s.gate.done + 1 == |Participants(cfg.rounds, s.gate.round)| {
      OpeningKeeps(cfg, s, c);
    } else {
      BarrierKeeps(cfg, s, c);
    }
  }

  /** Every action keeps the invariant. */
  lemma StepKeeps(cfg: Config, s: State, a: Action)
    requires ValidConfig(cfg) && Inv(cfg, s) && Enabled(cfg, s, a)
    ensures Inv(cfg, Step(cfg, s, a))
  {
    hide Inv, ValidConfig;
    match a
    case TaskReply(j, outcome) => AnswerKeeps(cfg, s, j, outcome);
    case HandlerCount => CountKeeps(cfg, s);
    case HandlerNext => FollowUpKeeps(cfg, s);
    case HandlerGet => GetKeeps(cfg, s);
    case HandlerTimeout => TimeoutKeeps(cfg, s);
    case HandlerTest => TestKeeps(cfg, s);
    case HandlerRelease => ReleaseKeeps(cfg, s);
    case _ => SenderQuietKeeps(cfg, s, a);
  }

  /** Every state of every run satisfies the invariant. */
  lemma {:induction false} RunKeeps(cfg: Config, acts: seq<Action>)
    requires ValidConfig(cfg)
    requires Run(cfg, acts).Some?
    ensures Inv(cfg, Run(cfg, acts).value)
  {
    hide Inv;
    if acts == [] {
      InitHolds(cfg);
    } else {
      var last := |acts| - 1;
      RunKeeps(cfg, acts[..last]);
      StepKeeps(cfg, Run(cfg, acts[..last]).value, acts[last]);
    }
  }
}
