/** What the generator promises about whole runs. */
module MultiturnTheorems {
  import opened Sums
  import opened Multiturn
  import opened MultiturnInvariant

  // ---- Safety, in every run, failures included ----

  /** At most one outstanding request per client, whichever queue it is in, and
      it carries the history its client has now: the list a request was built
      from does not change before the request has been answered and counted. */
  lemma OneOutstandingRequest(cfg: Config, acts: seq<Action>, q: Request, p: Request)
    requires ValidConfig(cfg) && Run(cfg, acts).Some?
    requires var s := Run(cfg, acts).value; q in Outstanding(s) && p in Outstanding(s)
    ensures var s := Run(cfg, acts).value;
            && Outstanding(s)[q] == 1
            && (p.client == q.client ==> p == q)
            && q.client < |s.clients.history| == |s.clients.round|
            && q.ids == s.clients.history[q.client] && q.round == s.clients.round[q.client]
  {
    hide SlotsOk, SupplyOk, TicksOk, StopsOk, BarrierMode, Outstanding;
    RunKeeps(cfg, acts);
  }

  /** Slots: what was sent and not completed is in flight or waiting to be
      counted, and never exceeds the limit. */
  lemma SlotAccounting(cfg: Config, acts: seq<Action>)
    requires ValidConfig(cfg) && Run(cfg, acts).Some?
    ensures var s := Run(cfg, acts).value;
            && s.count.sent - s.count.completed == |s.net.inflight| + |Unhandled(s.net)|
            && (s.count.sent - s.count.completed <= cfg.maxParallel || s.count.sent == s.count.completed)
  {
    hide PlacesOk, SupplyOk, TicksOk, StopsOk, BarrierMode, Unhandled;
    RunKeeps(cfg, acts);
  }

  /** A due follow-up always finds a sub-question, and a counted reply always
      finds its client's record: neither handler step can get stuck. */
  lemma SupplySuffices(cfg: Config, acts: seq<Action>)
    requires ValidConfig(cfg) && Run(cfg, acts).Some?
    ensures var s := Run(cfg, acts).value;
            && (s.net.handler.Counted? ==> Enabled(cfg, s, HandlerNext))
            && (s.net.handler.Got? ==> Enabled(cfg, s, HandlerCount))
  {
    hide Inv;
    RunKeeps(cfg, acts);
    var s := Run(cfg, acts).value;
    if s.net.handler.Counted? { SupplyLeft(cfg, s); }
    if s.net.handler.Got? { CountKeeps(cfg, s); }
  }

  /** With the barrier on, a request of round `b + 1` can be sent only after
      every client with more than `b` rounds has succeeded in round `b`. */
  lemma BarrierSafety(cfg: Config, acts: seq<Action>, q: Request, c: nat)
    requires ValidConfig(cfg) && cfg.barrier && Run(cfg, acts).Some?
    requires q in Active(Run(cfg, acts).value.net)
    requires c < |cfg.rounds| && q.round <= cfg.rounds[c]
    ensures var s := Run(cfg, acts).value; c < |s.clients.round| && q.round <= s.clients.round[c]
  {
    hide SlotsOk, SupplyOk, TicksOk, StopsOk, Active, Outstanding;
    RunKeeps(cfg, acts);
  }

  /** When the barrier opens, the batch it releases holds exactly one request
      for each client of the next round. */
  lemma BarrierRelease(cfg: Config, acts: seq<Action>)
    requires ValidConfig(cfg) && cfg.barrier && Run(cfg, acts).Some?
    requires var s := Run(cfg, acts).value;
             && Enabled(cfg, s, HandlerNext)
             && s.gate.done + 1 == |Participants(cfg.rounds, s.gate.round)|
    ensures var s := Run(cfg, acts).value; var t := Step(cfg, s, HandlerNext);
            && t.net.handler.Releasing?
            && |t.net.handler.rest| == |Participants(cfg.rounds, s.gate.round + 1)|
            && ClientsOf(multiset(t.net.handler.rest)) == Participants(cfg.rounds, s.gate.round + 1)
  {
    hide Inv, Run, FollowUp, Participants, ClientsOf;
    RunKeeps(cfg, acts);
    OpeningRelease(cfg, Run(cfg, acts).value, Run(cfg, acts).value.net.handler.client);
  }

  lemma OpeningRelease(cfg: Config, s: State, c: nat)
    requires ValidConfig(cfg) && Inv(cfg, s) && s.net.handler == Counted(c) && cfg.barrier
    requires HasRecord(s.clients, c) && CanFollowUp(cfg, s.clients, c)
    requires s.gate.done + 1 == |Participants(cfg.rounds, s.gate.round)|
    ensures var t := FollowUp(cfg, s, c);
            && t.net.handler.Releasing?
            && |t.net.handler.rest| == |Participants(cfg.rounds, s.gate.round + 1)|
            && ClientsOf(multiset(t.net.handler.rest)) == Participants(cfg.rounds, s.gate.round + 1)
  {
    hide Inv, BarrierOk, PlacesOk, Active, Made, FollowUp, Through, Participants, ClientsOf, ValidConfig;
    OpenShape(cfg, s, c);
    var t := Made(cfg, s, c);
    HeldRounds(cfg, s, c);
    ReleaseExact(cfg, multiset(t.gate.held), t.clients, s.gate.round);
  }

  /** A client whose request failed stays where it is. */
  lemma FrozenStep(cfg: Config, s: State, a: Action, d: nat)
    requires Inv(cfg, s) && Enabled(cfg, s, a) && d in s.clients.dead && d < |s.clients.round|
    ensures var cl := Step(cfg, s, a).clients;
            d in cl.dead && d < |cl.round| && cl.round[d] == s.clients.round[d]
  {
    hide Inv;
    if a.HandlerCount? { InHandOk(cfg, s); }
  }

  lemma {:induction false} FrozenRun(cfg: Config, acts: seq<Action>, n: nat, d: nat)
    requires ValidConfig(cfg) && n <= |acts| && Run(cfg, acts).Some?
    requires Run(cfg, acts[..n]).Some? && d in Run(cfg, acts[..n]).value.clients.dead
    requires d < |Run(cfg, acts[..n]).value.clients.round|
    ensures var was, cl := Run(cfg, acts[..n]).value.clients, Run(cfg, acts).value.clients;
            d in cl.dead && d < |cl.round| && cl.round[d] == was.round[d]
  {
    hide Enabled, Step, Inv;
    if n == |acts| {
      assert acts[..n] == acts;
    } else {
      var last := |acts| - 1;
      assert acts[..last][..n] == acts[..n];
      FrozenRun(cfg, acts[..last], n, d);
      RunKeeps(cfg, acts[..last]);
      FrozenStep(cfg, Run(cfg, acts[..last]).value, acts[last], d);
    }
  }

  /** With the barrier on, once client `d` has failed in a round, no client ever
      succeeds in a later round. */
  lemma FailureStallsBarrier(cfg: Config, acts: seq<Action>, n: nat, d: nat, c: nat)
    requires ValidConfig(cfg) && cfg.barrier && n <= |acts| && Run(cfg, acts).Some?
    requires Run(cfg, acts[..n]).Some? && d in Run(cfg, acts[..n]).value.clients.dead
    requires c < |cfg.rounds|
    ensures var was, cl := Run(cfg, acts[..n]).value.clients, Run(cfg, acts).value.clients;
            d < |was.round| && c < |cl.round| && cl.round[c] <= was.round[d] + 1
  {
    hide SlotsOk, SupplyOk, TicksOk, StopsOk, Active, Outstanding, Run;
    RunKeeps(cfg, acts[..n]);
    FrozenRun(cfg, acts, n, d);
    RunKeeps(cfg, acts);
  }

  /** The per-round client counts add up to the progress bar's length. */
  lemma {:induction false} RoundCounts(rounds: seq<nat>, m: nat)
    requires forall c :: 0 <= c < |rounds| ==> rounds[c] <= m
    ensures ParticipationSum(rounds, m) == Sum(rounds)
  {
    ParticipationByClient(rounds, m);
    assert Capped(rounds, m) == Sum(rounds) by { CappedSum(rounds, m); }
  }

  function ParticipationSum(rounds: seq<nat>, m: nat): nat {
    if m == 0 then 0 else ParticipationSum(rounds, m - 1) + |Participants(rounds, m - 1)|
  }

  function Capped(rounds: seq<nat>, m: nat): nat {
    if rounds == [] then 0
    else Capped(rounds[..|rounds| - 1], m) + if rounds[|rounds| - 1] < m then rounds[|rounds| - 1] else m
  }

  lemma {:induction false} CappedSum(rounds: seq<nat>, m: nat)
    requires forall c :: 0 <= c < |rounds| ==> rounds[c] <= m
    ensures Capped(rounds, m) == Sum(rounds)
  {
    if rounds != [] {
      var last := |rounds| - 1;
      CappedSum(rounds[..last], m);
      SumAppend(rounds[..last], [rounds[last]]);
      assert rounds == rounds[..last] + [rounds[last]];
    }
  }

  lemma {:induction false} CappedGrows(rounds: seq<nat>, m: nat)
    ensures Capped(rounds, m + 1) == Capped(rounds, m) + |Participants(rounds, m)|
  {
    if rounds == [] {
      assert Participants(rounds, m) == {};
    } else {
      var last := |rounds| - 1;
      var init := rounds[..last];
      CappedGrows(init, m);
      assert Participants(rounds, m) == Participants(init, m) + if rounds[last] > m then {last} else {};
    }
  }

  lemma {:induction false} CappedZero(rounds: seq<nat>)
    ensures Capped(rounds, 0) == 0
  {
    if rounds != [] { CappedZero(rounds[..|rounds| - 1]); }
  }

  lemma {:induction false} ParticipationByClient(rounds: seq<nat>, m: nat)
    ensures ParticipationSum(rounds, m) == Capped(rounds, m)
  {
    if m == 0 {
      CappedZero(rounds);
    } else {
      ParticipationByClient(rounds, m - 1);
      CappedGrows(rounds, m - 1);
    }
  }

  // ---- Histories ----

  /** What has happened to client `c` since `base`. */
  ghost predicate Grown(cfg: Config, base: Clients, s: State, c: nat) {
    var cl := s.clients;
    && HasRecord(base, c) && HasRecord(cl, c) && c < |cfg.rounds|
    && base.round[c] <= cl.round[c] && base.history[c] <= cl.history[c]
    && (forall i :: 0 <= i < |cl.supply| ==> cl.supply[i] != [])
    && (base.round[c] < cl.round[c] ==>
          || |base.history[c]| < |cl.history[c]|
          || Pending(s.net.handler) == Some(c)
          || cl.round[c] >= cfg.rounds[c])
  }

  lemma GrownStep(cfg: Config, base: Clients, s: State, a: Action, c: nat)
    requires Enabled(cfg, s, a) && Grown(cfg, base, s, c)
    ensures Grown(cfg, base, Step(cfg, s, a), c)
  {
    match a
    case HandlerCount =>
    case HandlerNext => GrownNext(cfg, base, s, c);
    case _ =>
  }

  lemma GrownNext(cfg: Config, base: Clients, s: State, c: nat)
    requires Enabled(cfg, s, HandlerNext) && Grown(cfg, base, s, c)
    ensures Grown(cfg, base, Step(cfg, s, HandlerNext), c)
  {
    var d := s.net.handler.client;
    var t := Made(cfg, s, d);
    assert Grown(cfg, base, t, c);
  }

  lemma {:induction false} GrownRun(cfg: Config, acts: seq<Action>, n: nat, c: nat)
    requires ValidConfig(cfg) && n <= |acts| && c < |cfg.rounds|
    requires forall i :: 0 <= i < |cfg.subQuestions| ==> cfg.subQuestions[i] != []
    requires Run(cfg, acts).Some?
    ensures Run(cfg, acts[..n]).Some?
    ensures Grown(cfg, Run(cfg, acts[..n]).value.clients, Run(cfg, acts).value, c)
  {
    hide Enabled, Step, Grown, Inv;
    if n == |acts| {
      assert acts[..n] == acts;
      GrownFrom(cfg, acts, c);
    } else {
      var last := |acts| - 1;
      GrownRun(cfg, acts[..last], n, c);
      assert acts[..last][..n] == acts[..n];
      GrownStep(cfg, Run(cfg, acts[..n]).value.clients, Run(cfg, acts[..last]).value, acts[last], c);
    }
  }

  lemma GrownFrom(cfg: Config, acts: seq<Action>, c: nat)
    requires ValidConfig(cfg) && c < |cfg.rounds| && Run(cfg, acts).Some?
    requires forall i :: 0 <= i < |cfg.subQuestions| ==> cfg.subQuestions[i] != []
    ensures Grown(cfg, Run(cfg, acts).value.clients, Run(cfg, acts).value, c)
  {
    hide SlotsOk, SupplyOk, TicksOk, StopsOk, BarrierMode, Outstanding, Run;
    SupplyShrinks(cfg, acts);
    RunKeeps(cfg, acts);
    var supply := Run(cfg, acts).value.clients.supply;
    assert forall i :: 0 <= i < |supply| ==> supply[i] == cfg.subQuestions[i];
  }

  /** The sub-questions left are those first sampled. */
  lemma {:induction false} SupplyShrinks(cfg: Config, acts: seq<Action>)
    requires |cfg.prompts| == |cfg.rounds| && Run(cfg, acts).Some?
    ensures Run(cfg, acts).value.clients.supply <= cfg.subQuestions
  {
    if acts != [] {
      var last := |acts| - 1;
      SupplyShrinks(cfg, acts[..last]);
    }
  }

  /** Each later request of a client strictly extends every earlier one. */
  lemma HistoriesExtend(cfg: Config, acts: seq<Action>, n: nat, q: Request, p: Request)
    requires ValidConfig(cfg) && n <= |acts| && Run(cfg, acts).Some? && Run(cfg, acts[..n]).Some?
    requires forall i :: 0 <= i < |cfg.subQuestions| ==> cfg.subQuestions[i] != []
    requires q in Outstanding(Run(cfg, acts[..n]).value) && p in Outstanding(Run(cfg, acts).value)
    requires q.client == p.client && q.round < p.round
    ensures q.ids < p.ids
  {
    hide SlotsOk, SupplyOk, TicksOk, StopsOk, BarrierMode, Outstanding, Run;
    RunKeeps(cfg, acts);
    RunKeeps(cfg, acts[..n]);
    GrownRun(cfg, acts, n, q.client);
  }
}
