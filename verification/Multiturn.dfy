/** The multi-turn load generator: a sender thread (with its event loop of
    request tasks) and a response thread share a ready queue, a response queue,
    two counters, a progress bar and, when enabled, a round barrier.

    Each action below performs at most one access that the other thread can
    see, so runs of actions are the interleavings of the two threads. */
module Multiturn {
  import opened Sums

  type Tokens = seq<int>

  /** The workload: rounds per client, their upper bound, the parallelism
      limit, the barrier switch, the queue policy, the first prompts and the
      sampled sub-questions. */
  datatype Config = Config(
    rounds: seq<nat>,
    maxRounds: nat,
    maxParallel: int,
    barrier: bool,
    fifo: bool,
    prompts: seq<Tokens>,
    subQuestions: seq<Tokens>)

  /** What construction of the generator guarantees: round counts between 1 and
      the maximum, and as many samples as were asked for. */
  ghost predicate ValidConfig(cfg: Config) {
    && |cfg.prompts| == |cfg.rounds|
    && (forall c :: 0 <= c < |cfg.rounds| ==> 1 <= cfg.rounds[c] <= cfg.maxRounds)
    && |cfg.subQuestions| == Max(FollowUps(cfg.rounds), 1)
  }

  function Max(a: nat, b: nat): nat { if a < b then b else a }

  /** Sub-questions the workload needs: one per round after a client's first. */
  function FollowUps(rounds: seq<nat>): nat {
    if rounds == [] then 0
    else (if rounds[0] == 0 then 0 else rounds[0] - 1) + FollowUps(rounds[1..])
  }

  /** Clients taking part in round `r`. */
  function Participants(rounds: seq<nat>, r: nat): set<nat> {
    set c: nat | c < |rounds| && rounds[c] > r
  }

  /** Length of the progress bar. */
  function Total(cfg: Config): nat { Sum(cfg.rounds) }

  /** A queued payload; `ids` is the token list it was built from. */
  datatype Request = Request(client: nat, round: nat, ids: Tokens)

  datatype Outcome =
    | Answered(output: Tokens)  // success; the progress bar moved
    | Refused                   // unsuccessful response; the progress bar moved
    | Raised                    // an exception; the progress bar did not move

  datatype Reply = Reply(req: Request, outcome: Outcome)

  /** Where the sender thread stands. Request tasks run on the same thread and
      only while the sending loop sleeps, that is, in `Checking`. */
  datatype Sender =
    | Checking
    | Popping                // a slot was free; the ready queue is read next
    | Putting(reply: Reply)  // a task moved the progress bar and queues its reply next
    | SenderStopped

  datatype Handler =
    | Waiting
    | TimedOut                       // the response queue was empty; the bar is read next
    | Got(reply: Reply)
    | Counted(client: nat)           // success recorded; follow-up not yet made
    | Releasing(rest: seq<Request>)  // barrier opened; requests go out one by one
    | HandlerStopped

  /** The shared queues and the two program counters. */
  datatype Net = Net(
    ready: seq<Request>,
    inflight: seq<Request>,
    responses: seq<Reply>,
    sender: Sender,
    handler: Handler)

  /** Shared counters; `ticks` is the progress bar position. */
  datatype Counters = Counters(sent: nat, completed: nat, ticks: nat)

  /** Client records, the sub-questions left (taken from the end) and the
      clients whose request failed. */
  datatype Clients = Clients(
    round: seq<nat>,
    history: seq<Tokens>,
    supply: seq<Tokens>,
    dead: set<nat>)

  /** The handler's barrier variables. */
  datatype Gate = Gate(held: seq<Request>, round: nat, done: nat)

  datatype State = State(net: Net, count: Counters, clients: Clients, gate: Gate)

  datatype Action =
    | SenderCheck
    | SenderPop(k: nat)
    | TaskReply(j: nat, outcome: Outcome)
    | TaskPut
    | HandlerGet
    | HandlerTimeout
    | HandlerTest
    | HandlerCount
    | HandlerNext
    | HandlerRelease

  function Init(cfg: Config): State
    requires |cfg.prompts| == |cfg.rounds|
  {
    State(
      Net(FirstRequests(cfg.prompts), [], [], Checking, Waiting),
      Counters(0, 0, 0),
      Clients(seq(|cfg.rounds|, c => 0), cfg.prompts, cfg.subQuestions, {}),
      Gate([], 0, 0))
  }

  function FirstRequests(prompts: seq<Tokens>): seq<Request> {
    seq(|prompts|, c requires 0 <= c < |prompts| => Request(c, 0, prompts[c]))
  }

  predicate Enabled(cfg: Config, s: State, a: Action) {
    match a
    case SenderCheck => s.net.sender.Checking?
    case SenderPop(k) => s.net.sender.Popping? && CanPop(cfg, s.net.ready, k)
    case TaskReply(j, outcome) => s.net.sender.Checking? && j < |s.net.inflight|
    case TaskPut => s.net.sender.Putting?
    case HandlerGet => s.net.handler.Waiting? && s.net.responses != []
    case HandlerTimeout => s.net.handler.Waiting? && s.net.responses == []
    case HandlerTest => s.net.handler.TimedOut?
    case HandlerCount => s.net.handler.Got? && HasRecord(s.clients, s.net.handler.reply.req.client)
    case HandlerNext =>
      s.net.handler.Counted? && HasRecord(s.clients, s.net.handler.client) &&
      CanFollowUp(cfg, s.clients, s.net.handler.client)
    case HandlerRelease => s.net.handler.Releasing?
  }

  /** An empty queue yields nothing; otherwise the policy picks the index. */
  predicate CanPop(cfg: Config, ready: seq<Request>, k: nat) {
    ready == [] || (k < |ready| && (cfg.fifo ==> k == 0))
  }

  predicate HasRecord(clients: Clients, c: nat) {
    c < |clients.round| == |clients.history|
  }

  /** A follow-up is needed only if a sub-question is left to pop. */
  predicate CanFollowUp(cfg: Config, clients: Clients, c: nat)
    requires HasRecord(clients, c)
  {
    c < |cfg.rounds| && (clients.round[c] < cfg.rounds[c] ==> clients.supply != [])
  }

  function Step(cfg: Config, s: State, a: Action): State
    requires Enabled(cfg, s, a)
  {
    match a
    case SenderCheck =>
      if s.count.sent - s.count.completed < cfg.maxParallel then s.(net := s.net.(sender := Popping)) else s
    case SenderPop(k) =>
      s.(net := Pop(s.net, k, s.count.ticks == Total(cfg)),
         count := if s.net.ready == [] then s.count else s.count.(sent := s.count.sent + 1))
    case TaskReply(j, outcome) =>
      s.(net := Answer(s.net, j, outcome),
         count := if outcome.Raised? then s.count else s.count.(ticks := s.count.ticks + 1))
    case TaskPut => s.(net := Put(s.net))
    case HandlerGet => s.(net := Get(s.net))
    case HandlerTimeout => s.(net := s.net.(handler := TimedOut))
    case HandlerTest =>
      s.(net := s.net.(handler := if s.count.ticks == Total(cfg) then HandlerStopped else Waiting))
    case HandlerCount => CountReply(s, s.net.handler.reply)
    case HandlerNext => FollowUp(cfg, s, s.net.handler.client)
    case HandlerRelease => s.(net := Release(s.net))
  }

  /** Start one ready request, if any; the loop ends once the bar is full. */
  function Pop(n: Net, k: nat, full: bool): Net
    requires n.ready == [] || k < |n.ready|
  {
    var after := if full then SenderStopped else Checking;
    if n.ready == [] then n.(sender := after)
    else n.(ready := RemoveAt(n.ready, k), inflight := n.inflight + [n.ready[k]], sender := after)
  }

  function Answer(n: Net, j: nat, outcome: Outcome): Net
    requires j < |n.inflight|
  {
    n.(inflight := RemoveAt(n.inflight, j), sender := Putting(Reply(n.inflight[j], outcome)))
  }

  function Put(n: Net): Net
    requires n.sender.Putting?
  {
    n.(responses := n.responses + [n.sender.reply], sender := Checking)
  }

  function Get(n: Net): Net
    requires n.responses != []
  {
    n.(handler := Got(n.responses[0]), responses := n.responses[1..])
  }

  function Release(n: Net): Net
    requires n.handler.Releasing?
  {
    var rest := n.handler.rest;
    if rest == [] then n.(handler := Waiting)
    else n.(handler := Releasing(rest[1..]), ready := n.ready + [rest[0]])
  }

  /** Record one reply: a failure only frees its slot. */
  function CountReply(s: State, reply: Reply): State
    requires HasRecord(s.clients, reply.req.client)
  {
    var c := reply.req.client;
    var counted := s.(count := s.count.(completed := s.count.completed + 1));
    if reply.outcome.Answered? then
      counted.(clients := Succeed(s.clients, c, reply.outcome.output), net := s.net.(handler := Counted(c)))
    else
      counted.(clients := s.clients.(dead := s.clients.dead + {c}), net := s.net.(handler := Waiting))
  }

  function Succeed(clients: Clients, c: nat, output: Tokens): Clients
    requires HasRecord(clients, c)
  {
    clients.(round := clients.round[c := clients.round[c] + 1],
             history := clients.history[c := clients.history[c] + output])
  }

  /** Queue or hold the client's next request, then advance the barrier. */
  function FollowUp(cfg: Config, s: State, c: nat): State
    requires HasRecord(s.clients, c) && CanFollowUp(cfg, s.clients, c)
  {
    var made := if s.clients.round[c] < cfg.rounds[c] then MakeRequest(cfg, s, c) else s;
    AdvanceBarrier(cfg, made.(net := made.net.(handler := Waiting)))
  }

  function MakeRequest(cfg: Config, s: State, c: nat): State
    requires HasRecord(s.clients, c) && s.clients.supply != []
  {
    var asked := Ask(s.clients, c);
    var req := Request(c, asked.round[c], asked.history[c]);
    if cfg.barrier then s.(clients := asked, gate := s.gate.(held := s.gate.held + [req]))
    else s.(clients := asked, net := s.net.(ready := s.net.ready + [req]))
  }

  /** Append the last sub-question left to the client's history. */
  function Ask(clients: Clients, c: nat): (r: Clients)
    requires HasRecord(clients, c) && clients.supply != []
    ensures HasRecord(r, c)
  {
    var last := |clients.supply| - 1;
    clients.(supply := clients.supply[..last],
             history := clients.history[c := clients.history[c] + clients.supply[last]])
  }

  function AdvanceBarrier(cfg: Config, s: State): State {
    if !cfg.barrier || s.gate.round >= cfg.maxRounds then s
    else if s.gate.done + 1 == |Participants(cfg.rounds, s.gate.round)| then
      s.(net := s.net.(handler := Releasing(s.gate.held)), gate := Gate([], s.gate.round + 1, 0))
    else s.(gate := s.gate.(done := s.gate.done + 1))
  }

  /** The state after `acts`, if every action was enabled in its turn. */
  function Run(cfg: Config, acts: seq<Action>): Option<State>
    requires |cfg.prompts| == |cfg.rounds|
  {
    if acts == [] then Some(Init(cfg))
    else
      var last := |acts| - 1;
      match Run(cfg, acts[..last])
      case None => None
      case Some(s) => if Enabled(cfg, s, acts[last]) then Some(Step(cfg, s, acts[last])) else None
  }
}
