/** The generator as the two threads execute it: shared objects whose fields the
    bodies of the loops update. A ghost trace records the actions performed, and
    every method keeps the fields equal to the state that trace leads to, so all
    that is proved of runs holds of the object. */
module MultiturnThreads {
  import opened Sums
  import opened Multiturn
  import opened MultiturnTheorems
  import opened MultiturnProgress

  class ReadyQueue {
    var requests: seq<Request>
    const fifo: bool

    constructor (initial: seq<Request>, policy: bool)
      ensures requests == initial && fifo == policy
    {
      requests, fifo := initial, policy;
    }

    method Append(item: Request)
      modifies this
      ensures requests == old(requests) + [item]
    {
      requests := requests + [item];
    }

    /** `draw` is the random index; the first request goes first otherwise. */
    method Pop(draw: nat) returns (item: Option<Request>)
      requires requests == [] || draw < |requests|
      modifies this
      ensures item.None? <==> old(requests) == []
      ensures item.None? ==> requests == old(requests)
      ensures item.Some? ==>
        var k := if fifo then 0 else draw;
        item.value == old(requests)[k] && requests == RemoveAt(old(requests), k)
    {
      if requests == [] { return None; }
      var index := if fifo then 0 else draw;
      item := Some(requests[index]);
      requests := RemoveAt(requests, index);
    }
  }

  /** Number of clients that take part in round `r`. */
  method CountParticipants(rounds: seq<nat>, r: nat) returns (n: nat)
    ensures n == |Participants(rounds, r)|
  {
    n := 0;
    var i := 0;
    assert Participants(rounds[..0], r) == {};
    while i < |rounds|
      invariant i <= |rounds| && n == |Participants(rounds[..i], r)|
    {
      ParticipantsNext(rounds, r, i);
      if rounds[i] > r { n := n + 1; }
      i := i + 1;
    }
    assert rounds[..i] == rounds;
  }

  lemma ParticipantsNext(rounds: seq<nat>, r: nat, i: nat)
    requires i < |rounds|
    ensures |Participants(rounds[..i + 1], r)| == |Participants(rounds[..i], r)| + if rounds[i] > r then 1 else 0
  {
    var before, after := Participants(rounds[..i], r), Participants(rounds[..i + 1], r);
    assert rounds[..i + 1] == rounds[..i] + [rounds[i]];
    assert after == if rounds[i] > r then before + {i} else before;
  }

  method ClientsPerRound(rounds: seq<nat>, maxRounds: nat) returns (per: seq<nat>)
    ensures |per| == maxRounds && forall r :: 0 <= r < maxRounds ==> per[r] == |Participants(rounds, r)|
  {
    hide Participants;
    per := [];
    while |per| < maxRounds
      invariant |per| <= maxRounds && forall r :: 0 <= r < |per| ==> per[r] == |Participants(rounds, r)|
    {
      var n := CountParticipants(rounds, |per|);
      per := per + [n];
    }
  }

  ghost predicate ReachedBy(cfg: Config, trace: seq<Action>, s: State) {
    ValidConfig(cfg) && Run(cfg, trace) == Some(s)
  }

  lemma Advance(cfg: Config, trace: seq<Action>, s: State, a: Action, t: State)
    requires ReachedBy(cfg, trace, s) && Enabled(cfg, s, a) && t == Step(cfg, s, a)
    ensures ReachedBy(cfg, trace + [a], t)
  {
    Extend(cfg, trace, a);
  }

  /** The response thread never finds a record or a sub-question missing. */
  lemma HandlerReady(cfg: Config, trace: seq<Action>, s: State)
    requires ReachedBy(cfg, trace, s)
    ensures s.net.handler.Counted? ==> Enabled(cfg, s, HandlerNext)
    ensures s.net.handler.Got? ==> Enabled(cfg, s, HandlerCount)
  {
    SupplySuffices(cfg, trace);
  }

  class Generator {
    const cfg: Config
    const ready: ReadyQueue
    const total: nat
    const perRound: seq<nat>
    var inflight: seq<Request>
    var responses: seq<Reply>
    var sent: nat
    var completed: nat
    var ticks: nat
    var round: seq<nat>
    var history: seq<Tokens>
    var supply: seq<Tokens>
    var held: seq<Request>
    var barrierRound: nat
    var barrierDone: nat
    ghost var dead: set<nat>
    ghost var sender: Sender
    ghost var handler: Handler
    ghost var trace: seq<Action>

    ghost function View(): State
      reads this, ready
    {
      State(Net(ready.requests, inflight, responses, sender, handler), Counters(sent, completed, ticks),
            Clients(round, history, supply, dead), Gate(held, barrierRound, barrierDone))
    }

    ghost predicate Tables() {
      && total == Total(cfg)
      && |perRound| == cfg.maxRounds
      && (forall r :: 0 <= r < |perRound| ==> perRound[r] == |Participants(cfg.rounds, r)|)
    }

    ghost predicate Valid()
      reads this, ready
    {
      Tables() && ready.fifo == cfg.fifo && ReachedBy(cfg, trace, View())
    }

    constructor (config: Config)
      requires ValidConfig(config)
      ensures Valid() && fresh(ready) && cfg == config && trace == []
      ensures sender.Checking? && handler.Waiting?
    {
      hide ValidConfig;
      cfg := config;
      ready := new ReadyQueue(FirstRequests(config.prompts), config.fifo);
      total := Sum(config.rounds);
      var per := ClientsPerRound(config.rounds, config.maxRounds);
      perRound := per;
      inflight, responses := [], [];
      sent, completed, ticks := 0, 0, 0;
      round, history, supply := seq(|config.rounds|, c => 0), config.prompts, config.subQuestions;
      held, barrierRound, barrierDone := [], 0, 0;
      dead, sender, handler, trace := {}, Checking, Waiting, [];
    }

    // ---- The sender thread ----

    /** One turn of the sending loop. */
    method SendTurn(draw: nat) returns (stop: bool)
      requires Valid() && sender.Checking? && (ready.requests == [] || draw < |ready.requests|)
      modifies this, ready
      ensures Valid() && handler == old(handler)
      ensures trace == old(trace) + [SenderCheck] +
        (if old(sent) - old(completed) < cfg.maxParallel then [SenderPop(if cfg.fifo then 0 else draw)] else [])
      ensures sender == if stop then SenderStopped else Checking
    {
      hide Valid;
      var free := CheckSlot();
      if !free { return false; }
      stop := SendOne(draw);
    }

    method CheckSlot() returns (free: bool)
      requires Valid() && sender.Checking?
      modifies this`sender, this`trace
      ensures Valid() && trace == old(trace) + [SenderCheck]
      ensures free <==> sent - completed < cfg.maxParallel
      ensures sender == if free then Popping else Checking
    {
      hide ReachedBy, Tables;
      ghost var was := View();
      free := sent - completed < cfg.maxParallel;
      if free { sender := Popping; }
      Advance(cfg, trace, was, SenderCheck, View());
      trace := trace + [SenderCheck];
    }

    method SendOne(draw: nat) returns (stop: bool)
      requires Valid() && sender.Popping? && (ready.requests == [] || draw < |ready.requests|)
      modifies this, ready
      ensures Valid() && trace == old(trace) + [SenderPop(if cfg.fifo then 0 else draw)]
      ensures handler == old(handler) && sender == if stop then SenderStopped else Checking
    {
      hide ReachedBy, FollowUp, CountReply;
      ghost var was, a := View(), SenderPop(if cfg.fifo then 0 else draw);
      var item := ready.Pop(draw);
      if item.Some? {
        inflight := inflight + [item.value];
        sent := sent + 1;
      }
      stop := ticks == total;
      sender := if stop then SenderStopped else Checking;
      Advance(cfg, trace, was, a, View());
      trace := trace + [a];
    }

    /** A request task comes to its end. */
    method FinishTask(j: nat, outcome: Outcome)
      requires Valid() && sender.Checking? && j < |inflight|
      modifies this
      ensures Valid() && sender.Checking? && handler == old(handler)
      ensures trace == old(trace) + [TaskReply(j, outcome)] + [TaskPut]
    {
      hide Valid;
      var reply := EndTask(j, outcome);
      PutReply(reply);
    }

    method EndTask(j: nat, outcome: Outcome) returns (reply: Reply)
      requires Valid() && sender.Checking? && j < |inflight|
      modifies this`inflight, this`ticks, this`sender, this`trace
      ensures Valid() && sender == Putting(reply) && trace == old(trace) + [TaskReply(j, outcome)]
    {
      hide ReachedBy, Tables;
      ghost var was, a := View(), TaskReply(j, outcome);
      reply := Reply(inflight[j], outcome);
      inflight := RemoveAt(inflight, j);
      if !outcome.Raised? { ticks := ticks + 1; }
      sender := Putting(reply);
      Advance(cfg, trace, was, a, View());
      trace := trace + [a];
    }

    method PutReply(reply: Reply)
      requires Valid() && sender == Putting(reply)
      modifies this`responses, this`sender, this`trace
      ensures Valid() && sender == Checking && trace == old(trace) + [TaskPut]
      ensures responses == old(responses) + [reply]
    {
      hide ReachedBy, Tables;
      ghost var was := View();
      responses := responses + [reply];
      sender := Checking;
      Advance(cfg, trace, was, TaskPut, View());
      trace := trace + [TaskPut];
    }

    // ---- The response thread ----

    /** One turn of the response loop, not interrupted by the sender: a run of
        the response thread's actions that ends where it waits again or stops. */
    method HandleTurn() returns (stop: bool)
      requires Valid() && handler.Waiting?
      modifies this, ready
      ensures Valid() && sender == old(sender)
      ensures old(trace) < trace && forall i :: |old(trace)| <= i < |trace| ==> OfHandler(trace[i])
      ensures handler == if stop then HandlerStopped else Waiting
      ensures stop <==> old(responses) == [] && ticks == total
      ensures old(responses) != [] ==> completed == old(completed) + 1 && responses == old(responses)[1..]
    {
      hide Valid;
      if responses == [] {
        stop := Idle();
        return;
      }
      stop := false;
      var reply := Fetch();
      Count(reply);
      if !reply.outcome.Answered? { return; }
      var released := Next(reply.req.client);
      if released.Some? { ReleaseHeld(released.value); }
    }

    method Idle() returns (stop: bool)
      requires Valid() && handler.Waiting? && responses == []
      modifies this`handler, this`trace
      ensures Valid() && trace == old(trace) + [HandlerTimeout] + [HandlerTest]
      ensures stop <==> ticks == total
      ensures handler == if stop then HandlerStopped else Waiting
    {
      hide ReachedBy;
      ghost var was := View();
      handler := TimedOut;
      ghost var mid := View();
      Advance(cfg, trace, was, HandlerTimeout, mid);
      stop := ticks == total;
      handler := if stop then HandlerStopped else Waiting;
      Advance(cfg, trace + [HandlerTimeout], mid, HandlerTest, View());
      trace := trace + [HandlerTimeout] + [HandlerTest];
    }

    method Fetch() returns (reply: Reply)
      requires Valid() && handler.Waiting? && responses != []
      modifies this`responses, this`handler, this`trace
      ensures Valid() && trace == old(trace) + [HandlerGet] && handler == Got(reply)
      ensures responses == old(responses)[1..]
    {
      hide ReachedBy, Tables;
      ghost var was := View();
      reply := responses[0];
      responses := responses[1..];
      handler := Got(reply);
      Advance(cfg, trace, was, HandlerGet, View());
      trace := trace + [HandlerGet];
    }

    method Count(reply: Reply)
      requires Valid() && handler == Got(reply)
      modifies this`round, this`history, this`completed, this`dead, this`handler, this`trace
      ensures Valid() && trace == old(trace) + [HandlerCount] && completed == old(completed) + 1
      ensures handler == if reply.outcome.Answered? then Counted(reply.req.client) else Waiting
    {
      hide ReachedBy, Tables, FollowUp;
      ghost var was := View();
      HandlerReady(cfg, trace, was);
      var c := reply.req.client;
      completed := completed + 1;
      if reply.outcome.Answered? {
        history := history[c := history[c] + reply.outcome.output];
        round := round[c := round[c] + 1];
        handler := Counted(c);
      } else {
        dead, handler := dead + {c}, Waiting;
      }
      Advance(cfg, trace, was, HandlerCount, View());
      trace := trace + [HandlerCount];
    }

    /** The follow-up request, then the barrier; gives the held-back requests
        when the barrier opens. */
    method Next(c: nat) returns (released: Option<seq<Request>>)
      requires Valid() && handler == Counted(c)
      modifies this`supply, this`history, this`held, this`barrierRound, this`barrierDone, this`handler, this`trace, ready
      ensures Valid() && trace == old(trace) + [HandlerNext]
      ensures handler == if released.Some? then Releasing(released.value) else Waiting
    {
      hide ReachedBy, Tables, MakeRequest, AdvanceBarrier;
      ghost var was := View();
      HandlerReady(cfg, trace, was);
      if round[c] < cfg.rounds[c] { MakeNext(c); }
      released := PassBarrier();
      Advance(cfg, trace, was, HandlerNext, View());
      trace := trace + [HandlerNext];
    }

    method PassBarrier() returns (released: Option<seq<Request>>)
      requires Tables()
      modifies this`held, this`barrierRound, this`barrierDone, this`handler
      ensures View() == AdvanceBarrier(cfg, old(View().(net := View().net.(handler := Waiting))))
      ensures handler == if released.Some? then Releasing(released.value) else Waiting
    {
      hide Participants;
      released, handler := None, Waiting;
      if cfg.barrier && barrierRound < cfg.maxRounds {
        barrierDone := barrierDone + 1;
        if barrierDone == perRound[barrierRound] {
          released, handler := Some(held), Releasing(held);
          held, barrierRound, barrierDone := [], barrierRound + 1, 0;
        }
      }
    }

    method MakeNext(c: nat)
      requires HasRecord(View().clients, c) && supply != []
      modifies this`supply, this`history, this`held, ready
      ensures View() == MakeRequest(cfg, old(View()), c)
    {
      var last := |supply| - 1;
      var question := supply[last];
      supply := supply[..last];
      history := history[c := history[c] + question];
      var req := Request(c, round[c], history[c]);
      if cfg.barrier { held := held + [req]; } else { ready.Append(req); }
    }

    method ReleaseHeld(released: seq<Request>)
      requires Valid() && handler == Releasing(released)
      modifies this`handler, this`trace, ready
      ensures Valid() && handler.Waiting?
      ensures trace == old(trace) + seq(|released| + 1, i => HandlerRelease)
      ensures ready.requests == old(ready.requests) + released
    {
      hide Valid;
      var i := 0;
      while i < |released|
        invariant i <= |released| && Valid() && handler == Releasing(released[i..])
        invariant trace == old(trace) + seq(i, k => HandlerRelease)
        invariant ready.requests == old(ready.requests) + released[..i]
      {
        ReleaseOne(released[i], released[i + 1..]);
        i := i + 1;
      }
      ReleaseDone();
    }

    method ReleaseOne(req: Request, ghost rest: seq<Request>)
      requires Valid() && handler == Releasing([req] + rest)
      modifies this`handler, this`trace, ready
      ensures Valid() && handler == Releasing(rest) && trace == old(trace) + [HandlerRelease]
      ensures ready.requests == old(ready.requests) + [req]
    {
      hide ReachedBy, Tables;
      ghost var was := View();
      ready.Append(req);
      handler := Releasing(rest);
      assert ([req] + rest)[1..] == rest;
      Advance(cfg, trace, was, HandlerRelease, View());
      trace := trace + [HandlerRelease];
    }

    ghost method ReleaseDone()
      requires Valid() && handler == Releasing([])
      modifies this`handler, this`trace
      ensures Valid() && handler == Waiting && trace == old(trace) + [HandlerRelease]
    {
      hide ReachedBy, Tables;
      var was := View();
      handler := Waiting;
      Advance(cfg, trace, was, HandlerRelease, View());
      trace := trace + [HandlerRelease];
    }
  }

  predicate OfHandler(a: Action) {
    a.HandlerGet? || a.HandlerTimeout? || a.HandlerTest? || a.HandlerCount? || a.HandlerNext? || a.HandlerRelease?
  }
}
