/** The serving benchmark as its event loop executes it: the generator and the
    request tasks update a shared queue and the conversations in place. A ghost
    trace ties the fields to the runs of the conversation queue. */
module ServingLoop {
  import opened Sums
  import opened ConversationQueue

  ghost predicate ReachedBy(cfg: Config, trace: seq<Action>, s: State) {
    ValidConfig(cfg) && Run(cfg, trace) == Some(s)
  }

  lemma Advance(cfg: Config, trace: seq<Action>, s: State, a: Action, t: State)
    requires ReachedBy(cfg, trace, s) && Enabled(cfg, s, a) && t == Step(cfg, s, a)
    ensures ReachedBy(cfg, trace + [a], t)
  {
    hide Enabled, Step, Run;
    Extend(cfg, trace, a);
  }

  /** A task under way has its conversation's record, and room to put it back. */
  lemma TaskReady(cfg: Config, trace: seq<Action>, s: State, k: nat)
    requires ReachedBy(cfg, trace, s)
    ensures k < |s.at.running| ==> Enabled(cfg, s, Succeed(k)) && Enabled(cfg, s, Fail(k))
    ensures k < |s.at.waiting| ==> HasProgress(cfg, s.done, s.at.waiting[k])
  {
    hide Run, Step;
    RunKeeps(cfg, trace);
    if k < |s.at.running| { PutNeverBlocks(cfg, trace, k); }
    if k < |s.at.waiting| { OutOnce(cfg, s, s.at.waiting[k]); }
  }

  class Benchmark {
    const cfg: Config
    const total: nat
    var queue: seq<nat>
    var waiting: seq<nat>
    var running: seq<nat>
    var finished: seq<nat>
    var yielded: nat
    var aborted: bool
    var closing: nat
    ghost var sent: seq<seq<nat>>
    ghost var failed: set<nat>
    ghost var trace: seq<Action>

    ghost function View(): State
      reads this
    {
      State(Places(queue, waiting, running), Progress(finished, sent, failed), yielded, aborted, closing)
    }

    ghost predicate Valid()
      reads this
    {
      total == Total(cfg) && ReachedBy(cfg, trace, View())
    }

    constructor (config: Config)
      requires ValidConfig(config)
      ensures Valid() && cfg == config && trace == []
    {
      cfg, total := config, Sum(config.turns);
      queue, waiting, running := UpTo(|config.turns|), [], [];
      finished, yielded, aborted, closing := seq(|config.turns|, c => 0), 0, false, 0;
      sent, failed, trace := seq(|config.turns|, c => []), {}, [];
    }

    /** The generator's next request; `None` when it has yielded all or, on an
        empty queue, given up. */
    method NextRequest() returns (c: Option<nat>)
      requires Valid() && !aborted
      modifies this
      ensures Valid()
      ensures c.Some? <==> old(yielded) < total && old(queue) != []
      ensures c.Some? ==> [c.value] + queue == old(queue) && waiting == old(waiting) + [c.value]
      ensures trace == old(trace) + if old(yielded) >= total then [] else if c.Some? then [Get] else [Timeout]
    {
      hide ReachedBy, UpTo;
      if yielded >= total { return None; }
      ghost var was := View();
      if queue == [] {
        aborted, c := true, None;
        Advance(cfg, trace, was, Timeout, View());
        trace := trace + [Timeout];
        return;
      }
      c := Some(queue[0]);
      queue, waiting := queue[1..], waiting + [queue[0]];
      yielded := yielded + 1;
      Advance(cfg, trace, was, Get, View());
      trace := trace + [Get];
    }

    /** Task `k` gets past the semaphore and sends the turn it returns. */
    method BeginTurn(k: nat) returns (turn: nat)
      requires Valid() && k < |waiting| && (cfg.limit.Some? ==> |running| + closing < cfg.limit.value)
      modifies this
      ensures Valid() && trace == old(trace) + [Begin(k)]
      ensures old(waiting)[k] < |sent| == |old(sent)|
      ensures sent == old(sent)[old(waiting)[k] := old(sent)[old(waiting)[k]] + [turn]]
    {
      hide ReachedBy, UpTo;
      ghost var was := View();
      TaskReady(cfg, trace, was, k);
      var c := waiting[k];
      turn := finished[c];
      waiting, running := RemoveAt(waiting, k), running + [c];
      sent := sent[c := sent[c] + [turn]];
      Advance(cfg, trace, was, Begin(k), View());
      trace := trace + [Begin(k)];
    }

    /** The answer to task `k` arrived, or its request failed; the task keeps the
        semaphore until it returns. */
    method EndTurn(k: nat, success: bool)
      requires Valid() && k < |running|
      modifies this
      ensures Valid() && trace == old(trace) + [if success then Succeed(k) else Fail(k)]
      ensures |queue| <= |cfg.turns| && old(running)[k] < |cfg.turns| == |old(finished)|
      ensures queue == if success && old(finished)[old(running)[k]] + 1 < cfg.turns[old(running)[k]]
                       then old(queue) + [old(running)[k]] else old(queue)
    {
      hide ReachedBy, UpTo;
      ghost var was := View();
      TaskReady(cfg, trace, was, k);
      var c := running[k];
      running, closing := RemoveAt(running, k), closing + 1;
      if success {
        var next := finished[c] + 1;
        finished := finished[c := next];
        if next < cfg.turns[c] { queue := queue + [c]; }
      } else {
        failed := failed + {c};
      }
      ghost var a := if success then Succeed(k) else Fail(k);
      Advance(cfg, trace, was, a, View());
      trace := trace + [a];
      QueueFits(cfg, trace, View());
    }

    /** A task returns. */
    method LeaveTurn()
      requires Valid() && closing > 0
      modifies this`closing, this`trace
      ensures Valid() && closing == old(closing) - 1 && trace == old(trace) + [Leave]
    {
      hide ReachedBy, UpTo;
      ghost var was := View();
      closing := closing - 1;
      Advance(cfg, trace, was, Leave, View());
      trace := trace + [Leave];
    }
  }

  lemma QueueFits(cfg: Config, trace: seq<Action>, s: State)
    requires ReachedBy(cfg, trace, s)
    ensures |s.at.queue| <= |cfg.turns|
  {
    hide Run, Step;
    RunKeeps(cfg, trace);
    OutSize(Out(s.at), |cfg.turns|);
    assert |Out(s.at)| == |s.at.queue| + |s.at.waiting| + |s.at.running|;
  }
}
