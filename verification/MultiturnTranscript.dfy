/** What is said in a run: the answers in the order they were given, the
    sub-questions in the order they were asked, and the history each client has
    of them. */
module MultiturnTranscript {
  import opened Sums
  import opened Multiturn
  import opened MultiturnInvariant
  import opened MultiturnProgress

  /** All answers given by request tasks, and all sub-questions asked, with the
      client each went to. */
  datatype Log = Log(replies: seq<Reply>, asked: seq<(nat, Tokens)>)

  /** The log after an action: a task's answer is to the request it was started
      with, and a follow-up asks the last sub-question of the list. */
  function Logged(cfg: Config, s: State, a: Action, log: Log): Log
    requires Enabled(cfg, s, a)
  {
    match a
    case TaskReply(j, outcome) => log.(replies := log.replies + [Reply(s.net.inflight[j], outcome)])
    case HandlerNext =>
      var c := s.net.handler.client;
      if s.clients.round[c] < cfg.rounds[c]
      then log.(asked := log.asked + [(c, s.clients.supply[|s.clients.supply| - 1])])
      else log
    case _ => log
  }

  function LogOf(cfg: Config, acts: seq<Action>): Log
    requires |cfg.prompts| == |cfg.rounds| && Run(cfg, acts).Some?
  {
    if acts == [] then Log([], [])
    else
      var last := |acts| - 1;
      Logged(cfg, Run(cfg, acts[..last]).value, acts[last], LogOf(cfg, acts[..last]))
  }

  // ---- What the state says about the log ----

  function Hand(h: Handler): seq<Reply> { if h.Got? then [h.reply] else [] }

  function Rest(h: Handler): seq<Request> { if h.Releasing? then h.rest else [] }

  function Put(t: Sender): seq<Reply> { if t.Putting? then [t.reply] else [] }

  /** Answers are counted in the order they were given. */
  ghost predicate RepliesOk(n: Net, completed: nat, replies: seq<Reply>) {
    completed <= |replies| && replies[completed..] == Hand(n.handler) + n.responses + Put(n.sender)
  }

  /** Questions, the latest first. */
  function Newest(asked: seq<(nat, Tokens)>): seq<Tokens> {
    if asked == [] then [] else [asked[|asked| - 1].1] + Newest(asked[..|asked| - 1])
  }

  /** Answers with success to client `c`. */
  function Answers(replies: seq<Reply>, c: nat): seq<Tokens> {
    if replies == [] then []
    else
      var r := replies[|replies| - 1];
      Answers(replies[..|replies| - 1], c) +
      if r.req.client == c && r.outcome.Answered? then [r.outcome.output] else []
  }

  /** Questions asked by client `c`. */
  function Questions(asked: seq<(nat, Tokens)>, c: nat): seq<Tokens> {
    if asked == [] then []
    else
      var q := asked[|asked| - 1];
      Questions(asked[..|asked| - 1], c) + if q.0 == c then [q.1] else []
  }

  /** A prompt, then answers and questions in turn. */
  function Dialogue(prompt: Tokens, outs: seq<Tokens>, qs: seq<Tokens>): Tokens
    decreases |outs| + |qs|
  {
    if |outs| > |qs| then Dialogue(prompt, outs[..|outs| - 1], qs) + outs[|outs| - 1]
    else if qs != [] then Dialogue(prompt, outs, qs[..|qs| - 1]) + qs[|qs| - 1]
    else prompt
  }

  /** Client `c` has answered rounds and asked questions as its record says. */
  ghost predicate HistoryOk(cfg: Config, cl: Clients, pending: Option<nat>, c: nat, outs: seq<Tokens>, qs: seq<Tokens>) {
    && c < |cfg.rounds| == |cfg.prompts| == |cl.round| == |cl.history|
    && cl.round[c] == |outs|
    && |qs| == |outs| - (if pending == Some(c) || |outs| == cfg.rounds[c] then 1 else 0)
    && cl.history[c] == Dialogue(cfg.prompts[c], outs, qs)
  }

  ghost predicate HistoriesOk(cfg: Config, cl: Clients, pending: Option<nat>, counted: seq<Reply>,
                              asked: seq<(nat, Tokens)>) {
    forall c: nat :: c < |cfg.rounds| ==> HistoryOk(cfg, cl, pending, c, Answers(counted, c), Questions(asked, c))
  }

  /** Requests held back, or being released, are those of the latest questions, in
      their order. */
  ghost predicate HeldOk(held: seq<Request>, asked: seq<(nat, Tokens)>) {
    |held| <= |asked| && forall i :: 0 <= i < |held| ==> held[i].client == asked[|asked| - |held| + i].0
  }

  ghost predicate Told(cfg: Config, s: State, log: Log) {
    && RepliesOk(s.net, s.count.completed, log.replies)
    && s.clients.supply + Newest(log.asked) == cfg.subQuestions
    && HistoriesOk(cfg, s.clients, Pending(s.net.handler), log.replies[..s.count.completed], log.asked)
    && HeldOk(s.gate.held, log.asked) && HeldOk(Rest(s.net.handler), log.asked)
  }

  lemma InitTold(cfg: Config)
    requires ValidConfig(cfg)
    ensures Told(cfg, Init(cfg), Log([], []))
  {
    assert cfg.subQuestions + [] == cfg.subQuestions;
  }

  // ---- Answers ----

  lemma RepliesAnswer(n: Net, j: nat, outcome: Outcome, completed: nat, replies: seq<Reply>)
    requires RepliesOk(n, completed, replies) && n.sender.Checking? && j < |n.inflight|
    ensures RepliesOk(Answer(n, j, outcome), completed, replies + [Reply(n.inflight[j], outcome)])
  {
    var next := replies + [Reply(n.inflight[j], outcome)];
    assert next[completed..] == replies[completed..] + [next[|replies|]];
  }

  lemma RepliesPut(n: Net, completed: nat, replies: seq<Reply>)
    requires RepliesOk(n, completed, replies) && n.sender.Putting?
    ensures RepliesOk(Multiturn.Put(n), completed, replies)
  {
  }

  lemma RepliesGet(n: Net, completed: nat, replies: seq<Reply>)
    requires RepliesOk(n, completed, replies) && n.handler.Waiting? && n.responses != []
    ensures RepliesOk(Get(n), completed, replies)
  {
    assert n.responses == [n.responses[0]] + n.responses[1..];
  }

  lemma RepliesCount(n: Net, h: Handler, completed: nat, replies: seq<Reply>)
    requires RepliesOk(n, completed, replies) && n.handler.Got? && !h.Got?
    ensures RepliesOk(n.(handler := h), completed + 1, replies) && replies[completed] == n.handler.reply
  {
    assert replies[completed..][0] == n.handler.reply;
    assert replies[completed + 1..] == replies[completed..][1..];
  }

  lemma RepliesStep(cfg: Config, s: State, a: Action, log: Log)
    requires Enabled(cfg, s, a) && RepliesOk(s.net, s.count.completed, log.replies)
    ensures var t := Step(cfg, s, a); RepliesOk(t.net, t.count.completed, Logged(cfg, s, a, log).replies)
  {
    hide FollowUp, RepliesOk, Get, Multiturn.Put, Answer;
    var k := s.count.completed;
    match a
    case TaskReply(j, outcome) => RepliesAnswer(s.net, j, outcome, k, log.replies);
    case TaskPut => RepliesPut(s.net, k, log.replies);
    case HandlerGet => RepliesGet(s.net, k, log.replies);
    case HandlerCount => RepliesCount(s.net, Step(cfg, s, a).net.handler, k, log.replies);
    case HandlerNext =>
      NextKeepsNet(cfg, s);
      RepliesSame(s.net, Step(cfg, s, a).net, k, log.replies);
    case _ => RepliesSame(s.net, Step(cfg, s, a).net, k, log.replies);
  }

  lemma RepliesSame(n: Net, m: Net, completed: nat, replies: seq<Reply>)
    requires RepliesOk(n, completed, replies)
    requires Hand(m.handler) == Hand(n.handler) && m.responses == n.responses && Put(m.sender) == Put(n.sender)
    ensures RepliesOk(m, completed, replies)
  {
  }

  lemma NextKeepsNet(cfg: Config, s: State)
    requires Enabled(cfg, s, HandlerNext)
    ensures var t := Step(cfg, s, HandlerNext);
            && t.net.responses == s.net.responses && t.net.sender == s.net.sender && t.count == s.count
            && Hand(t.net.handler) == [] && Pending(t.net.handler) == None
  {
  }

  // ---- Questions ----

  lemma NewestNext(asked: seq<(nat, Tokens)>, q: (nat, Tokens))
    ensures Newest(asked + [q]) == [q.1] + Newest(asked)
  {
    assert (asked + [q])[..|asked|] == asked;
  }

  lemma SupplyStep(cfg: Config, s: State, a: Action, log: Log)
    requires Enabled(cfg, s, a) && s.clients.supply + Newest(log.asked) == cfg.subQuestions
    ensures Step(cfg, s, a).clients.supply + Newest(Logged(cfg, s, a, log).asked) == cfg.subQuestions
  {
    hide Newest;
    if a.HandlerNext? && s.clients.round[s.net.handler.client] < cfg.rounds[s.net.handler.client] {
      var c, supply := s.net.handler.client, s.clients.supply;
      var last := |supply| - 1;
      NewestNext(log.asked, (c, supply[last]));
      assert supply == supply[..last] + [supply[last]];
      assert Step(cfg, s, a).clients.supply == supply[..last];
    }
  }

  lemma HeldNext(held: seq<Request>, asked: seq<(nat, Tokens)>, req: Request, q: (nat, Tokens))
    requires HeldOk(held, asked) && req.client == q.0
    ensures HeldOk(held + [req], asked + [q])
  {
  }

  lemma NoHeld(cfg: Config, s: State)
    requires Inv(cfg, s) && !cfg.barrier
    ensures s.gate.held == []
  {
  }

  lemma HeldStep(cfg: Config, s: State, a: Action, log: Log)
    requires Inv(cfg, s) && Enabled(cfg, s, a)
    requires HeldOk(s.gate.held, log.asked) && HeldOk(Rest(s.net.handler), log.asked)
    ensures var t, next := Step(cfg, s, a), Logged(cfg, s, a, log);
            HeldOk(t.gate.held, next.asked) && HeldOk(Rest(t.net.handler), next.asked)
  {
    hide Inv, Participants, CountReply;
    match a
    case HandlerNext => HeldFollowUp(cfg, s, s.net.handler.client, log.asked, Logged(cfg, s, a, log).asked);
    case HandlerCount => CountReleases(cfg, s);
    case _ =>
  }

  lemma CountReleases(cfg: Config, s: State)
    requires Enabled(cfg, s, HandlerCount)
    ensures var t := Step(cfg, s, HandlerCount); t.gate == s.gate && !t.net.handler.Releasing?
  {
  }

  lemma HeldFollowUp(cfg: Config, s: State, c: nat, asked: seq<(nat, Tokens)>, next: seq<(nat, Tokens)>)
    requires Inv(cfg, s) && s.net.handler == Counted(c) && HasRecord(s.clients, c) && CanFollowUp(cfg, s.clients, c)
    requires HeldOk(s.gate.held, asked)
    requires next == if s.clients.round[c] < cfg.rounds[c]
                     then asked + [(c, s.clients.supply[|s.clients.supply| - 1])] else asked
    ensures var t := FollowUp(cfg, s, c); HeldOk(t.gate.held, next) && HeldOk(Rest(t.net.handler), next)
  {
    hide Inv, Participants;
    if s.clients.round[c] < cfg.rounds[c] {
      if cfg.barrier {
        var cl := Ask(s.clients, c);
        HeldNext(s.gate.held, asked, Request(c, cl.round[c], cl.history[c]),
                 (c, s.clients.supply[|s.clients.supply| - 1]));
      } else {
        NoHeld(cfg, s);
      }
    }
  }

  // ---- Histories ----

  lemma AnswersNext(replies: seq<Reply>, r: Reply, c: nat)
    ensures var outs := Answers(replies, c);
            Answers(replies + [r], c) ==
              if r.req.client == c && r.outcome.Answered? then outs + [r.outcome.output] else outs
  {
    assert (replies + [r])[..|replies|] == replies;
  }

  lemma QuestionsNext(asked: seq<(nat, Tokens)>, q: (nat, Tokens), c: nat)
    ensures var qs := Questions(asked, c); Questions(asked + [q], c) == if q.0 == c then qs + [q.1] else qs
  {
    assert (asked + [q])[..|asked|] == asked;
  }

  lemma DialogueAnswer(prompt: Tokens, outs: seq<Tokens>, qs: seq<Tokens>, o: Tokens)
    requires |qs| == |outs|
    ensures Dialogue(prompt, outs + [o], qs) == Dialogue(prompt, outs, qs) + o
  {
    assert (outs + [o])[..|outs|] == outs;
  }

  lemma DialogueQuestion(prompt: Tokens, outs: seq<Tokens>, qs: seq<Tokens>, q: Tokens)
    requires |qs| + 1 == |outs|
    ensures Dialogue(prompt, outs, qs + [q]) == Dialogue(prompt, outs, qs) + q
  {
    assert (qs + [q])[..|qs|] == qs;
  }

  lemma HistorySucceeds(cfg: Config, cl: Clients, reply: Reply, counted: seq<Reply>, asked: seq<(nat, Tokens)>)
    requires HistoriesOk(cfg, cl, None, counted, asked)
    requires var c := reply.req.client;
             HasRecord(cl, c) && c < |cfg.rounds| && cl.round[c] < cfg.rounds[c] && reply.outcome.Answered?
    ensures var c := reply.req.client;
            HistoriesOk(cfg, Succeed(cl, c, reply.outcome.output), Some(c), counted + [reply], asked)
  {
    hide Answers, Questions, Dialogue;
    var c := reply.req.client;
    forall d: nat | d < |cfg.rounds|
      ensures HistoryOk(cfg, Succeed(cl, c, reply.outcome.output), Some(c), d, Answers(counted + [reply], d),
                        Questions(asked, d))
    {
      assert HistoryOk(cfg, cl, None, d, Answers(counted, d), Questions(asked, d));
      AnswersNext(counted, reply, d);
      if d == c { DialogueAnswer(cfg.prompts[c], Answers(counted, c), Questions(asked, c), reply.outcome.output); }
    }
  }

  lemma HistoryFails(cfg: Config, cl: Clients, reply: Reply, counted: seq<Reply>, asked: seq<(nat, Tokens)>)
    requires HistoriesOk(cfg, cl, None, counted, asked) && !reply.outcome.Answered?
    ensures HistoriesOk(cfg, cl.(dead := cl.dead + {reply.req.client}), None, counted + [reply], asked)
  {
    hide Answers, Questions, Dialogue;
    forall d: nat | d < |cfg.rounds|
      ensures HistoryOk(cfg, cl.(dead := cl.dead + {reply.req.client}), None, d, Answers(counted + [reply], d),
                        Questions(asked, d))
    {
      assert HistoryOk(cfg, cl, None, d, Answers(counted, d), Questions(asked, d));
      AnswersNext(counted, reply, d);
    }
  }

  lemma HistoryAsks(cfg: Config, cl: Clients, c: nat, counted: seq<Reply>, asked: seq<(nat, Tokens)>)
    requires HistoriesOk(cfg, cl, Some(c), counted, asked)
    requires HasRecord(cl, c) && c < |cfg.rounds| && cl.round[c] < cfg.rounds[c] && cl.supply != []
    ensures HistoriesOk(cfg, Ask(cl, c), None, counted, asked + [(c, cl.supply[|cl.supply| - 1])])
  {
    hide Answers, Questions, Dialogue;
    var q := (c, cl.supply[|cl.supply| - 1]);
    forall d: nat | d < |cfg.rounds|
      ensures HistoryOk(cfg, Ask(cl, c), None, d, Answers(counted, d), Questions(asked + [q], d))
    {
      assert HistoryOk(cfg, cl, Some(c), d, Answers(counted, d), Questions(asked, d));
      QuestionsNext(asked, q, d);
      if d == c { DialogueQuestion(cfg.prompts[c], Answers(counted, c), Questions(asked, c), q.1); }
    }
  }

  lemma HistoryRests(cfg: Config, cl: Clients, c: nat, counted: seq<Reply>, asked: seq<(nat, Tokens)>)
    requires HistoriesOk(cfg, cl, Some(c), counted, asked)
    requires c < |cl.round| == |cfg.rounds| && cl.round[c] >= cfg.rounds[c] && cl.round[c] <= cfg.rounds[c]
    ensures HistoriesOk(cfg, cl, None, counted, asked)
  {
    hide Answers, Questions, Dialogue;
    forall d: nat | d < |cfg.rounds| ensures HistoryOk(cfg, cl, None, d, Answers(counted, d), Questions(asked, d)) {
      assert HistoryOk(cfg, cl, Some(c), d, Answers(counted, d), Questions(asked, d));
    }
  }

  lemma HistoryCount(cfg: Config, s: State, log: Log)
    requires Inv(cfg, s) && s.net.handler.Got? && RepliesOk(s.net, s.count.completed, log.replies)
    requires HistoriesOk(cfg, s.clients, None, log.replies[..s.count.completed], log.asked)
    ensures HasRecord(s.clients, s.net.handler.reply.req.client) && s.count.completed < |log.replies|
    ensures var t := CountReply(s, s.net.handler.reply);
            HistoriesOk(cfg, t.clients, Pending(t.net.handler), log.replies[..s.count.completed + 1], log.asked)
  {
    hide Inv, HistoriesOk, RepliesOk, Succeed;
    InHandOk(cfg, s);
    var reply, k := s.net.handler.reply, s.count.completed;
    RepliesCount(s.net, Waiting, k, log.replies);
    LastCounted(log.replies, k);
    if reply.outcome.Answered? {
      HistorySucceeds(cfg, s.clients, reply, log.replies[..k], log.asked);
    } else {
      HistoryFails(cfg, s.clients, reply, log.replies[..k], log.asked);
    }
  }

  lemma LastCounted(replies: seq<Reply>, k: nat)
    requires k < |replies|
    ensures replies[..k + 1] == replies[..k] + [replies[k]]
  {
  }

  lemma HistoryNext(cfg: Config, s: State, c: nat, counted: seq<Reply>, asked: seq<(nat, Tokens)>,
                    next: seq<(nat, Tokens)>)
    requires HasRecord(s.clients, c) && CanFollowUp(cfg, s.clients, c) && |s.clients.round| == |cfg.rounds|
    requires s.clients.round[c] <= cfg.rounds[c] && HistoriesOk(cfg, s.clients, Some(c), counted, asked)
    requires next == if s.clients.round[c] < cfg.rounds[c]
                     then asked + [(c, s.clients.supply[|s.clients.supply| - 1])] else asked
    ensures HistoriesOk(cfg, FollowUp(cfg, s, c).clients, None, counted, next)
  {
    hide HistoriesOk;
    if s.clients.round[c] < cfg.rounds[c] {
      HistoryAsks(cfg, s.clients, c, counted, asked);
      assert FollowUp(cfg, s, c).clients == Ask(s.clients, c);
    } else {
      HistoryRests(cfg, s.clients, c, counted, asked);
      assert FollowUp(cfg, s, c).clients == s.clients;
    }
  }

  lemma QuietClients(cfg: Config, s: State, a: Action, log: Log)
    requires Enabled(cfg, s, a) && !a.HandlerCount? && !a.HandlerNext? && s.count.completed <= |log.replies|
    ensures var t, next := Step(cfg, s, a), Logged(cfg, s, a, log);
            && t.clients == s.clients && Pending(t.net.handler) == Pending(s.net.handler)
            && t.count.completed == s.count.completed && next.asked == log.asked
            && next.replies[..s.count.completed] == log.replies[..s.count.completed]
  {
    hide FollowUp, CountReply;
  }

  lemma HistoryStep(cfg: Config, s: State, a: Action, log: Log)
    requires Inv(cfg, s) && Enabled(cfg, s, a) && Told(cfg, s, log)
    ensures var t, next := Step(cfg, s, a), Logged(cfg, s, a, log);
            t.count.completed <= |next.replies| &&
            HistoriesOk(cfg, t.clients, Pending(t.net.handler), next.replies[..t.count.completed], next.asked)
  {
    hide Inv, HistoriesOk, Newest, HeldOk, CountReply, FollowUp;
    RepliesStep(cfg, s, a, log);
    LogKept(cfg, s, a, log);
    if a.HandlerCount? {
      HistoryCount(cfg, s, log);
      CountedOne(s);
    } else if a.HandlerNext? {
      RoundsBound(cfg, s);
      HistoryNext(cfg, s, s.net.handler.client, log.replies[..s.count.completed], log.asked,
                  Logged(cfg, s, a, log).asked);
      NextKeepsNet(cfg, s);
    } else {
      QuietClients(cfg, s, a, log);
    }
  }

  lemma CountedOne(s: State)
    requires s.net.handler.Got? && HasRecord(s.clients, s.net.handler.reply.req.client)
    ensures CountReply(s, s.net.handler.reply).count.completed == s.count.completed + 1
  {
  }

  lemma LogKept(cfg: Config, s: State, a: Action, log: Log)
    requires Enabled(cfg, s, a)
    ensures !a.TaskReply? ==> Logged(cfg, s, a, log).replies == log.replies
    ensures !a.HandlerNext? ==> Logged(cfg, s, a, log).asked == log.asked
  {
  }

  lemma {:induction false} RunTold(cfg: Config, acts: seq<Action>)
    requires ValidConfig(cfg) && Run(cfg, acts).Some?
    ensures Told(cfg, Run(cfg, acts).value, LogOf(cfg, acts))
  {
    hide Inv, Enabled, Step, Logged, RepliesOk, HistoriesOk, HeldOk, Newest;
    if acts == [] {
      InitTold(cfg);
    } else {
      var last := |acts| - 1;
      var s, log := Run(cfg, acts[..last]).value, LogOf(cfg, acts[..last]);
      RunTold(cfg, acts[..last]);
      RunKeeps(cfg, acts[..last]);
      RepliesStep(cfg, s, acts[last], log);
      SupplyStep(cfg, s, acts[last], log);
      HistoryStep(cfg, s, acts[last], log);
      HeldStep(cfg, s, acts[last], log);
    }
  }

  // ---- In every run ----

  /** Answers are handled in the order in which they were given: those counted,
      then the one in hand, the queue, and the one about to be queued. */
  lemma CountedInOrder(cfg: Config, acts: seq<Action>)
    requires ValidConfig(cfg) && Run(cfg, acts).Some?
    ensures var s, replies := Run(cfg, acts).value, LogOf(cfg, acts).replies;
            && s.count.completed <= |replies|
            && replies[s.count.completed..] == Hand(s.net.handler) + s.net.responses + Put(s.net.sender)
  {
    hide Run, LogOf, HistoriesOk, HeldOk, Newest;
    RunTold(cfg, acts);
  }

  /** Each sub-question is asked at most once, from the end of the list on. */
  lemma QuestionsUsedOnce(cfg: Config, acts: seq<Action>)
    requires ValidConfig(cfg) && Run(cfg, acts).Some?
    ensures Run(cfg, acts).value.clients.supply + Newest(LogOf(cfg, acts).asked) == cfg.subQuestions
  {
    hide Run, LogOf, HistoriesOk, HeldOk, Newest, RepliesOk;
    RunTold(cfg, acts);
  }

  /** A client's history is its prompt followed by the answers counted for it and
      the questions asked for it, in turn and in order. */
  lemma HistoryIsDialogue(cfg: Config, acts: seq<Action>, c: nat)
    requires ValidConfig(cfg) && Run(cfg, acts).Some? && c < |cfg.rounds|
    ensures var s, log := Run(cfg, acts).value, LogOf(cfg, acts);
            && s.count.completed <= |log.replies| && c < |s.clients.history| == |s.clients.round|
            && var outs, qs := Answers(log.replies[..s.count.completed], c), Questions(log.asked, c);
               && s.clients.round[c] == |outs| && |outs| - 1 <= |qs| <= |outs|
               && s.clients.history[c] == Dialogue(cfg.prompts[c], outs, qs)
  {
    hide Run, LogOf, HeldOk, Newest, Answers, Questions, Dialogue;
    RunTold(cfg, acts);
    var s, log := Run(cfg, acts).value, LogOf(cfg, acts);
    assert HistoryOk(cfg, s.clients, Pending(s.net.handler), c, Answers(log.replies[..s.count.completed], c),
                     Questions(log.asked, c));
  }

  /** Requests are held back, and released, in the order in which they were made. */
  lemma HeldInOrder(cfg: Config, acts: seq<Action>)
    requires ValidConfig(cfg) && Run(cfg, acts).Some?
    ensures var held, asked := Run(cfg, acts).value.gate.held, LogOf(cfg, acts).asked;
            && |held| <= |asked|
            && (forall i :: 0 <= i < |held| ==> held[i].client == asked[|asked| - |held| + i].0)
            && var rest := Rest(Run(cfg, acts).value.net.handler);
               && |rest| <= |asked|
               && forall i :: 0 <= i < |rest| ==> rest[i].client == asked[|asked| - |rest| + i].0
  {
    hide Run, LogOf, HistoriesOk, Newest, RepliesOk;
    RunTold(cfg, acts);
  }
}
