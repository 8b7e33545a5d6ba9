/** The serving benchmark's conversations: a bounded queue feeds one task per
    turn, and a task that succeeds puts its conversation back until all turns are
    played. */
module ConversationQueue {
  import opened Sums

  /** `turns[c]` is the length of conversation `c`; `limit` bounds concurrent
      requests if present. */
  datatype Config = Config(turns: seq<nat>, limit: Option<nat>)

  predicate ValidConfig(cfg: Config) {
    forall c :: 0 <= c < |cfg.turns| ==> cfg.turns[c] >= 1
  }

  /** Number of requests the generator is to yield. */
  function Total(cfg: Config): nat { Sum(cfg.turns) }

  /** Conversations queued, held by a task that waits for the semaphore, and held
      by a task whose request is under way. */
  datatype Places = Places(queue: seq<nat>, waiting: seq<nat>, running: seq<nat>)

  /** Per conversation the turns that succeeded and the turns sent, in order. */
  datatype Progress = Progress(finished: seq<nat>, sent: seq<seq<nat>>, failed: set<nat>)

  /** `closing` tasks are done with their turn and still hold the semaphore. */
  datatype State = State(at: Places, done: Progress, yielded: nat, aborted: bool, closing: nat)

  datatype Action =
    | Get                // the generator takes a conversation and starts a task
    | Timeout            // the generator gives up on an empty queue
    | Begin(k: nat)      // a task gets past the semaphore and sends its turn
    | Succeed(k: nat)    // the answer arrived; the conversation goes back
    | Fail(k: nat)       // the request failed; the conversation is dropped
    | Leave              // a task that is done gives up the semaphore

  /** The numbers below `n`, in order. */
  function UpTo(n: nat): (r: seq<nat>)
    ensures |r| == n && forall i :: 0 <= i < n ==> r[i] == i
  {
    if n == 0 then [] else UpTo(n - 1) + [n - 1]
  }

  function Start(cfg: Config): State {
    State(Places(UpTo(|cfg.turns|), [], []),
          Progress(seq(|cfg.turns|, c => 0), seq(|cfg.turns|, c => []), {}), 0, false, 0)
  }

  /** Everything a step needs, apart from room in the queue. */
  predicate Ready(cfg: Config, s: State, a: Action) {
    match a
    case Get => s.yielded < Total(cfg) && !s.aborted && s.at.queue != []
    case Timeout => s.yielded < Total(cfg) && !s.aborted && s.at.queue == []
    case Begin(k) =>
      k < |s.at.waiting| && (cfg.limit.Some? ==> |s.at.running| + s.closing < cfg.limit.value) &&
      HasProgress(cfg, s.done, s.at.waiting[k])
    case Succeed(k) => k < |s.at.running| && HasProgress(cfg, s.done, s.at.running[k])
    case Fail(k) => k < |s.at.running| && HasProgress(cfg, s.done, s.at.running[k])
    case Leave => s.closing > 0
  }

  predicate HasProgress(cfg: Config, p: Progress, c: nat) {
    c < |cfg.turns| == |p.finished| == |p.sent|
  }

  /** A conversation with turns left needs room in the bounded queue. */
  predicate Enabled(cfg: Config, s: State, a: Action) {
    Ready(cfg, s, a) &&
    (a.Succeed? && s.done.finished[s.at.running[a.k]] + 1 < cfg.turns[s.at.running[a.k]] ==>
       |s.at.queue| < |cfg.turns|)
  }

  function Step(cfg: Config, s: State, a: Action): State
    requires Enabled(cfg, s, a)
  {
    match a
    case Get =>
      s.(at := Places(s.at.queue[1..], s.at.waiting + [s.at.queue[0]], s.at.running), yielded := s.yielded + 1)
    case Timeout => s.(aborted := true)
    case Begin(k) =>
      var c := s.at.waiting[k];
      s.(at := Places(s.at.queue, RemoveAt(s.at.waiting, k), s.at.running + [c]), done := Send(s.done, c))
    case Succeed(k) =>
      var c := s.at.running[k];
      var next := s.done.finished[c] + 1;
      s.(at := Places(if next < cfg.turns[c] then s.at.queue + [c] else s.at.queue, s.at.waiting,
                      RemoveAt(s.at.running, k)),
         done := s.done.(finished := s.done.finished[c := next]),
         closing := s.closing + 1)
    case Fail(k) =>
      var c := s.at.running[k];
      s.(at := s.at.(running := RemoveAt(s.at.running, k)), done := s.done.(failed := s.done.failed + {c}),
         closing := s.closing + 1)
    case Leave => s.(closing := s.closing - 1)
  }

  /** Send the first turn that has not succeeded. */
  function Send(p: Progress, c: nat): Progress
    requires c < |p.finished| == |p.sent|
  {
    p.(sent := p.sent[c := p.sent[c] + [p.finished[c]]])
  }

  function Run(cfg: Config, acts: seq<Action>): Option<State> {
    if acts == [] then Some(Start(cfg))
    else
      var last := |acts| - 1;
      match Run(cfg, acts[..last])
      case None => None
      case Some(s) => if Enabled(cfg, s, acts[last]) then Some(Step(cfg, s, acts[last])) else None
  }

  // ---- What every run keeps ----

  ghost function Out(at: Places): multiset<nat> {
    multiset(at.queue) + multiset(at.waiting) + multiset(at.running)
  }

  /** Each unfinished conversation that has not failed is in exactly one place. */
  ghost predicate PlacesOk(cfg: Config, out: multiset<nat>, p: Progress) {
    && |p.finished| == |p.sent| == |cfg.turns|
    && (forall c :: 0 <= c < |p.finished| ==> p.finished[c] <= cfg.turns[c])
    && (forall c :: c in out ==> out[c] == 1 && c < |p.finished| && p.finished[c] < cfg.turns[c] && c !in p.failed)
    && (forall c :: c in p.failed ==> c < |p.finished| && p.finished[c] < cfg.turns[c])
    && (forall c: nat :: c < |p.finished| && p.finished[c] < cfg.turns[c] && c !in p.failed ==> c in out)
  }

  /** The turns sent are those that succeeded, and one more for the busy. */
  ghost predicate TurnsOk(finished: seq<nat>, sent: seq<seq<nat>>, busy: set<nat>) {
    |sent| == |finished| &&
    forall c :: 0 <= c < |sent| ==> sent[c] == UpTo(finished[c] + if c in busy then 1 else 0)
  }

  /** Conversations whose latest turn was sent and has not succeeded. */
  ghost function Busy(running: seq<nat>, failed: set<nat>): set<nat> {
    (set c | c in multiset(running)) + failed
  }

  ghost predicate CountsOk(s: State) {
    s.yielded == Sum(s.done.finished) + |s.at.waiting| + |s.at.running| + |s.done.failed|
  }

  ghost predicate Inv(cfg: Config, s: State) {
    && PlacesOk(cfg, Out(s.at), s.done)
    && TurnsOk(s.done.finished, s.done.sent, Busy(s.at.running, s.done.failed))
    && CountsOk(s)
  }

  lemma {:induction false} Numbers(n: nat, c: nat)
    ensures multiset(UpTo(n))[c] == if c < n then 1 else 0
  {
    if n != 0 { Numbers(n - 1, c); }
  }

  lemma StartOk(cfg: Config)
    requires ValidConfig(cfg)
    ensures Inv(cfg, Start(cfg))
  {
    hide PlacesOk, UpTo;
    var s := Start(cfg);
    assert Out(s.at) == multiset(s.at.queue);
    StartPlaces(cfg);
    ZeroSum(s.done.finished);
    assert Busy([], {}) == {};
    EmptyUpTo();
  }

  lemma EmptyUpTo()
    ensures UpTo(0) == []
  {
  }

  lemma StartPlaces(cfg: Config)
    requires ValidConfig(cfg)
    ensures PlacesOk(cfg, multiset(UpTo(|cfg.turns|)), Start(cfg).done)
  {
    hide UpTo;
    forall c: nat ensures multiset(UpTo(|cfg.turns|))[c] == if c < |cfg.turns| then 1 else 0 {
      Numbers(|cfg.turns|, c);
    }
  }

  lemma GetKeeps(cfg: Config, s: State)
    requires Inv(cfg, s) && Enabled(cfg, s, Get)
    ensures Inv(cfg, Step(cfg, s, Get))
  {
    hide PlacesOk, TurnsOk;
    var q := s.at.queue;
    assert q == [q[0]] + q[1..];
    assert Out(Step(cfg, s, Get).at) == Out(s.at);
  }

  // ---- A turn is sent ----

  lemma BeginMoves(at: Places, k: nat, failed: set<nat>)
    requires k < |at.waiting| && Out(at)[at.waiting[k]] == 1
    ensures var c := at.waiting[k];
            var to := Places(at.queue, RemoveAt(at.waiting, k), at.running + [c]);
            && Out(to) == Out(at) && c in Out(at)
            && Busy(to.running, failed) == Busy(at.running, failed) + {c}
            && c !in multiset(at.running)
  {
    var c := at.waiting[k];
    assert c in multiset(at.waiting);
  }

  lemma TurnsBegin(p: Progress, busy: set<nat>, c: nat)
    requires TurnsOk(p.finished, p.sent, busy) && c < |p.finished| && c !in busy
    ensures TurnsOk(p.finished, Send(p, c).sent, busy + {c})
  {
    assert UpTo(p.finished[c] + 1) == UpTo(p.finished[c]) + [p.finished[c]];
  }

  lemma PlacesSend(cfg: Config, out: multiset<nat>, p: Progress, c: nat)
    requires PlacesOk(cfg, out, p) && c < |p.finished|
    ensures PlacesOk(cfg, out, Send(p, c))
  {
  }

  lemma BeginKeeps(cfg: Config, s: State, k: nat)
    requires Inv(cfg, s) && Enabled(cfg, s, Begin(k))
    ensures Inv(cfg, Step(cfg, s, Begin(k)))
  {
    hide TurnsOk, Busy, PlacesOk;
    var c := s.at.waiting[k];
    OutOnce(cfg, s, c);
    BeginMoves(s.at, k, s.done.failed);
    BusyHas(s.at.running, s.done.failed, c);
    TurnsBegin(s.done, Busy(s.at.running, s.done.failed), c);
    PlacesSend(cfg, Out(s.at), s.done, c);
  }

  lemma BusyHas(running: seq<nat>, failed: set<nat>, c: nat)
    ensures c in Busy(running, failed) <==> c in multiset(running) || c in failed
  {
  }

  lemma OutOnce(cfg: Config, s: State, c: nat)
    requires PlacesOk(cfg, Out(s.at), s.done)
    requires c in s.at.waiting || c in s.at.running
    ensures Out(s.at)[c] == 1 && c < |cfg.turns| == |s.done.finished| == |s.done.sent|
    ensures s.done.finished[c] < cfg.turns[c] && c !in s.done.failed
  {
    assert c in multiset(s.at.waiting) || c in multiset(s.at.running);
    assert c in Out(s.at);
  }

  // ---- A turn ends ----

  lemma EndMoves(at: Places, k: nat, failed: set<nat>)
    requires k < |at.running| && Out(at)[at.running[k]] == 1
    ensures var c, rest := at.running[k], RemoveAt(at.running, k);
            && Out(at) == Out(Places(at.queue, at.waiting, rest)) + multiset{c}
            && Out(at) == Out(Places(at.queue + [c], at.waiting, rest))
            && c in Busy(at.running, failed)
            && Busy(at.running, failed) == Busy(rest, failed + {c})
            && (c !in failed ==> Busy(rest, failed) == Busy(at.running, failed) - {c})
  {
    var c, rest := at.running[k], RemoveAt(at.running, k);
    assert c in multiset(at.running);
    assert c !in multiset(rest);
  }

  lemma TurnsSucceed(finished: seq<nat>, sent: seq<seq<nat>>, busy: set<nat>, c: nat)
    requires TurnsOk(finished, sent, busy) && c < |finished| && c in busy
    ensures TurnsOk(finished[c := finished[c] + 1], sent, busy - {c})
  {
  }

  /** The conversation goes back to the queue with turns left. */
  lemma PlacesAgain(cfg: Config, out: multiset<nat>, p: Progress, c: nat)
    requires PlacesOk(cfg, out, p) && c in out && p.finished[c] + 1 < cfg.turns[c]
    ensures PlacesOk(cfg, out, p.(finished := p.finished[c := p.finished[c] + 1]))
  {
  }

  /** The conversation is over. */
  lemma PlacesOver(cfg: Config, out: multiset<nat>, p: Progress, c: nat)
    requires PlacesOk(cfg, out + multiset{c}, p) && c < |p.finished| && p.finished[c] + 1 == cfg.turns[c]
    ensures PlacesOk(cfg, out, p.(finished := p.finished[c := p.finished[c] + 1]))
  {
    assert c in out + multiset{c} && (out + multiset{c})[c] == out[c] + 1;
    forall d | d in out ensures d in out + multiset{c} && d != c && (out + multiset{c})[d] == out[d] {}
    forall d | d in out + multiset{c} && d != c ensures d in out {}
  }

  lemma PlacesFail(cfg: Config, out: multiset<nat>, p: Progress, c: nat)
    requires PlacesOk(cfg, out + multiset{c}, p)
    ensures PlacesOk(cfg, out, p.(failed := p.failed + {c}))
  {
    assert c in out + multiset{c} && (out + multiset{c})[c] == out[c] + 1;
    forall d | d in out ensures d in out + multiset{c} && d != c && (out + multiset{c})[d] == out[d] {}
    forall d | d in out + multiset{c} && d != c ensures d in out {}
  }

  lemma SucceedKeeps(cfg: Config, s: State, k: nat)
    requires Inv(cfg, s) && Enabled(cfg, s, Succeed(k))
    ensures Inv(cfg, Step(cfg, s, Succeed(k)))
  {
    hide TurnsOk, PlacesOk, Out, Busy;
    var c, p := s.at.running[k], s.done;
    OutOnce(cfg, s, c);
    EndMoves(s.at, k, p.failed);
    var rest := RemoveAt(s.at.running, k);
    TurnsSucceed(p.finished, p.sent, Busy(s.at.running, p.failed), c);
    SumUpdate(p.finished, c, p.finished[c] + 1);
    if p.finished[c] + 1 < cfg.turns[c] {
      PlacesAgain(cfg, Out(s.at), p, c);
    } else {
      PlacesOver(cfg, Out(Places(s.at.queue, s.at.waiting, rest)), p, c);
    }
  }

  lemma FailKeeps(cfg: Config, s: State, k: nat)
    requires Inv(cfg, s) && Enabled(cfg, s, Fail(k))
    ensures Inv(cfg, Step(cfg, s, Fail(k)))
  {
    hide TurnsOk, PlacesOk, Out, Busy;
    var c, p := s.at.running[k], s.done;
    OutOnce(cfg, s, c);
    EndMoves(s.at, k, p.failed);
    var rest := RemoveAt(s.at.running, k);
    PlacesFail(cfg, Out(Places(s.at.queue, s.at.waiting, rest)), p, c);
  }

  lemma StepKeeps(cfg: Config, s: State, a: Action)
    requires Inv(cfg, s) && Enabled(cfg, s, a)
    ensures Inv(cfg, Step(cfg, s, a))
  {
    hide Inv;
    match a
    case Get => GetKeeps(cfg, s);
    case Timeout => QuietKeeps(cfg, s, true, s.closing);
    case Begin(k) => BeginKeeps(cfg, s, k);
    case Succeed(k) => SucceedKeeps(cfg, s, k);
    case Fail(k) => FailKeeps(cfg, s, k);
    case Leave => QuietKeeps(cfg, s, s.aborted, s.closing - 1);
  }

  lemma QuietKeeps(cfg: Config, s: State, aborted: bool, closing: nat)
    requires Inv(cfg, s)
    ensures Inv(cfg, s.(aborted := aborted, closing := closing))
  {
  }

  lemma {:induction false} RunKeeps(cfg: Config, acts: seq<Action>)
    requires ValidConfig(cfg) && Run(cfg, acts).Some?
    ensures Inv(cfg, Run(cfg, acts).value)
  {
    hide Inv, Enabled, Step;
    if acts == [] {
      StartOk(cfg);
    } else {
      var last := |acts| - 1;
      RunKeeps(cfg, acts[..last]);
      StepKeeps(cfg, Run(cfg, acts[..last]).value, acts[last]);
    }
  }

  // ---- In every run ----

  /** The turns sent of a conversation are its first turns in order, and at most
      one of them, the last, has not succeeded. */
  lemma TurnsInOrder(cfg: Config, acts: seq<Action>, c: nat)
    requires ValidConfig(cfg) && Run(cfg, acts).Some? && c < |cfg.turns|
    ensures var p := Run(cfg, acts).value.done;
            && |p.sent| == |p.finished| == |cfg.turns|
            && p.sent[c] == UpTo(|p.sent[c]|)
            && p.finished[c] <= |p.sent[c]| <= p.finished[c] + 1 && |p.sent[c]| <= cfg.turns[c]
  {
    hide Out;
    RunKeeps(cfg, acts);
    var s := Run(cfg, acts).value;
    if c in Busy(s.at.running, s.done.failed) { BusyUnfinished(cfg, s, c); }
  }

  lemma BusyUnfinished(cfg: Config, s: State, c: nat)
    requires Inv(cfg, s) && c in Busy(s.at.running, s.done.failed)
    ensures c < |cfg.turns| == |s.done.finished| && s.done.finished[c] < cfg.turns[c]
  {
    if c in multiset(s.at.running) { assert c in Out(s.at); }
  }

  /** Each conversation is in at most one place, so the queue has room for every
      conversation that is put back: a success is never held up. */
  lemma PutNeverBlocks(cfg: Config, acts: seq<Action>, k: nat)
    requires ValidConfig(cfg) && Run(cfg, acts).Some?
    requires k < |Run(cfg, acts).value.at.running|
    ensures Enabled(cfg, Run(cfg, acts).value, Succeed(k))
    ensures forall c :: c in Out(Run(cfg, acts).value.at) ==> Out(Run(cfg, acts).value.at)[c] == 1
  {
    var s := Run(cfg, acts).value;
    RunKeeps(cfg, acts);
    OutOnce(cfg, s, s.at.running[k]);
    OutSize(Out(s.at), |cfg.turns|);
    assert |Out(s.at)| == |s.at.queue| + |s.at.waiting| + |s.at.running|;
  }

  lemma {:induction false} OutSize(out: multiset<nat>, n: nat)
    requires forall c :: c in out ==> out[c] == 1 && c < n
    ensures |out| <= n
  {
    if n == 0 {
      assert out == multiset{};
    } else {
      var rest := out - multiset{n - 1};
      OutSize(rest, n - 1);
      assert out == rest || out == rest + multiset{n - 1};
    }
  }

  /** No more requests are under way than the limit allows, counting those whose
      task still holds the semaphore. */
  lemma {:induction false} LimitRespected(cfg: Config, acts: seq<Action>)
    requires Run(cfg, acts).Some? && cfg.limit.Some?
    ensures var s := Run(cfg, acts).value; |s.at.running| + s.closing <= cfg.limit.value
  {
    if acts != [] { LimitRespected(cfg, acts[..|acts| - 1]); }
  }

  /** What an action adds to the queue. */
  function Added(cfg: Config, s: State, a: Action): seq<nat>
    requires Enabled(cfg, s, a)
  {
    if a.Succeed? && s.done.finished[s.at.running[a.k]] + 1 < cfg.turns[s.at.running[a.k]]
    then [s.at.running[a.k]] else []
  }

  /** Conversations in the order in which they were queued: all of them first,
      then each that goes back. */
  function Enqueued(cfg: Config, acts: seq<Action>): seq<nat>
    requires Run(cfg, acts).Some?
  {
    if acts == [] then UpTo(|cfg.turns|)
    else
      var last := |acts| - 1;
      Enqueued(cfg, acts[..last]) + Added(cfg, Run(cfg, acts[..last]).value, acts[last])
  }

  lemma QueueStep(cfg: Config, s: State, a: Action)
    requires Enabled(cfg, s, a)
    ensures var t := Step(cfg, s, a);
            if a.Get? then t.yielded == s.yielded + 1 && [s.at.queue[0]] + t.at.queue == s.at.queue
            else t.yielded == s.yielded && t.at.queue == s.at.queue + Added(cfg, s, a)
    ensures a.Get? ==> Added(cfg, s, a) == []
  {
    if a.Get? {
      assert s.at.queue == [s.at.queue[0]] + s.at.queue[1..];
    } else if !a.Succeed? {
      assert s.at.queue + [] == s.at.queue;
    }
  }

  lemma SuffixNext(all: seq<nat>, y: nat, more: seq<nat>)
    requires y <= |all|
    ensures (all + more)[y..] == all[y..] + more
    ensures y < |all| ==> all[y..] == [all[y]] + all[y + 1..]
  {
  }

  /** The queue is first in, first out: what the generator has yielded so far is
      what was queued first, and the rest is queued in order. */
  lemma {:induction false} FirstInFirstOut(cfg: Config, acts: seq<Action>)
    requires Run(cfg, acts).Some?
    ensures var s, all := Run(cfg, acts).value, Enqueued(cfg, acts);
            s.yielded <= |all| && s.at.queue == all[s.yielded..]
  {
    hide UpTo, Step, Enabled, Added;
    if acts != [] {
      var last := |acts| - 1;
      var s, a, all := Run(cfg, acts[..last]).value, acts[last], Enqueued(cfg, acts[..last]);
      FirstInFirstOut(cfg, acts[..last]);
      QueueStep(cfg, s, a);
      SuffixNext(all, s.yielded, Added(cfg, s, a));
      if a.Get? { TailOf(s.at.queue, Step(cfg, s, a).at.queue, all, s.yielded); }
    }
  }

  lemma TailOf(queue: seq<nat>, rest: seq<nat>, all: seq<nat>, y: nat)
    requires y <= |all| && queue == all[y..] && queue != [] && [queue[0]] + rest == queue
    ensures y < |all| && rest == all[y + 1..] && all + [] == all
  {
    assert rest == queue[1..];
  }

  /** A task is started for exactly the conversation that was yielded. */
  lemma YieldedNext(cfg: Config, acts: seq<Action>)
    requires Run(cfg, acts).Some? && Enabled(cfg, Run(cfg, acts).value, Get)
    ensures var s, all := Run(cfg, acts).value, Enqueued(cfg, acts);
            && s.yielded < |all|
            && Step(cfg, s, Get).at.waiting == s.at.waiting + [all[s.yielded]]
            && Step(cfg, s, Get).yielded == s.yielded + 1
  {
    hide Run, Enqueued;
    FirstInFirstOut(cfg, acts);
    assert Run(cfg, acts).value.at.queue[0] == Enqueued(cfg, acts)[Run(cfg, acts).value.yielded];
  }

  // ---- Without failures and timeouts ----

  /** Some conversation can be taken, sent or answered. */
  ghost predicate CanGoOn(cfg: Config, s: State) {
    Enabled(cfg, s, Get) || Enabled(cfg, s, Begin(0)) || Enabled(cfg, s, Succeed(0)) || Enabled(cfg, s, Leave)
  }

  /** Work left; taking, sending and answering use it up. */
  function Work(cfg: Config, s: State): int {
    4 * (Total(cfg) - Sum(s.done.finished)) + 4 * |s.at.queue| + 3 * |s.at.waiting| + 2 * |s.at.running| + s.closing
  }

  lemma StepWork(cfg: Config, s: State, a: Action)
    requires Enabled(cfg, s, a)
    ensures Work(cfg, Step(cfg, s, a)) <= Work(cfg, s)
    ensures !a.Timeout? ==> Work(cfg, Step(cfg, s, a)) < Work(cfg, s)
  {
    if a.Succeed? {
      var c := s.at.running[a.k];
      SumUpdate(s.done.finished, c, s.done.finished[c] + 1);
    }
  }

  /** Every run ends: whatever fails or times out, the number of steps is bounded
      by the workload. */
  lemma {:induction false} RunsEnd(cfg: Config, acts: seq<Action>)
    requires ValidConfig(cfg) && Run(cfg, acts).Some?
    ensures |acts| + Work(cfg, Run(cfg, acts).value) <=
      4 * Total(cfg) + 4 * |cfg.turns| + if Run(cfg, acts).value.aborted then 1 else 0
    ensures 0 <= Work(cfg, Run(cfg, acts).value)
  {
    hide Inv, Work, Enabled, Step;
    if acts == [] {
      StartWork(cfg);
    } else {
      var last := |acts| - 1;
      RunsEnd(cfg, acts[..last]);
      StepWork(cfg, Run(cfg, acts[..last]).value, acts[last]);
      TimeoutOnce(cfg, Run(cfg, acts[..last]).value, acts[last]);
    }
    RunKeeps(cfg, acts);
    WorkLeft(cfg, Run(cfg, acts).value);
  }

  lemma StartWork(cfg: Config)
    ensures Work(cfg, Start(cfg)) == 4 * Total(cfg) + 4 * |cfg.turns| && !Start(cfg).aborted
  {
    ZeroSum(Start(cfg).done.finished);
  }

  lemma TimeoutOnce(cfg: Config, s: State, a: Action)
    requires Enabled(cfg, s, a)
    ensures a.Timeout? ==> !s.aborted && Step(cfg, s, a).aborted
    ensures s.aborted ==> Step(cfg, s, a).aborted
  {
  }

  lemma WorkLeft(cfg: Config, s: State)
    requires Inv(cfg, s)
    ensures 0 <= Work(cfg, s)
  {
    SumMonotone(s.done.finished, cfg.turns);
  }

  /** A conversation that failed before its last turn leaves the generator short
      of requests: only the timeout ends it. */
  lemma FailureStarvesGenerator(cfg: Config, acts: seq<Action>, c: nat)
    requires ValidConfig(cfg) && Run(cfg, acts).Some?
    requires var p := Run(cfg, acts).value.done; c in p.failed && c < |p.finished| && c < |cfg.turns|
    requires Run(cfg, acts).value.done.finished[c] + 1 < cfg.turns[c]
    ensures Run(cfg, acts).value.yielded < Total(cfg)
  {
    hide Inv, Run;
    RunKeeps(cfg, acts);
    Starved(cfg, Run(cfg, acts).value, c);
  }

  lemma Starved(cfg: Config, s: State, c: nat)
    requires Inv(cfg, s) && c in s.done.failed && c < |s.done.finished| && c < |cfg.turns|
    requires s.done.finished[c] + 1 < cfg.turns[c]
    ensures s.yielded < Total(cfg)
  {
    hide Out, TurnsOk, PlacesOk;
    var held := TakenSet(cfg, s);
    FailedUnfinished(cfg, Out(s.at), s.done);
    ShortOfTotal(s.done.finished, cfg.turns, held, s.done.failed, c);
  }

  /** Everyone in two disjoint sets is short of its bound, and `c` by two. */
  lemma ShortOfTotal(finished: seq<nat>, turns: seq<nat>, held: set<nat>, failed: set<nat>, c: nat)
    requires |finished| == |turns| && forall d :: 0 <= d < |turns| ==> finished[d] <= turns[d]
    requires held !! failed && forall d :: d in held + failed ==> d < |turns| && finished[d] < turns[d]
    requires c in failed && finished[c] + 1 < turns[c]
    ensures Sum(finished) + |held| + |failed| < Sum(turns)
  {
    hide Sum;
    var bumped := finished[c := finished[c] + 1];
    SumUpdate(finished, c, finished[c] + 1);
    UnfinishedBound(bumped, turns, held + failed);
    assert |held + failed| == |held| + |failed|;
  }

  lemma FailedUnfinished(cfg: Config, out: multiset<nat>, p: Progress)
    requires PlacesOk(cfg, out, p)
    ensures |p.finished| == |cfg.turns|
    ensures forall c :: 0 <= c < |p.finished| ==> p.finished[c] <= cfg.turns[c]
    ensures forall c :: c in p.failed ==> c < |p.finished| && p.finished[c] < cfg.turns[c]
  {
  }

  /** The conversations held by tasks. */
  lemma TakenSet(cfg: Config, s: State) returns (held: set<nat>)
    requires PlacesOk(cfg, Out(s.at), s.done)
    ensures |held| == |s.at.waiting| + |s.at.running| && held !! s.done.failed
    ensures forall d :: d in held ==> d < |s.done.finished| == |cfg.turns| && s.done.finished[d] < cfg.turns[d]
  {
    var taken := multiset(s.at.waiting) + multiset(s.at.running);
    TakenOnce(s.at, Out(s.at));
    held := set d | d in taken;
    BagOfSet(taken, held);
  }

  lemma TakenOnce(at: Places, out: multiset<nat>)
    requires out == Out(at)
    ensures forall d :: d in multiset(at.waiting) + multiset(at.running) ==> d in out
    ensures (forall d :: d in out ==> out[d] == 1) ==>
      forall d :: d in multiset(at.waiting) + multiset(at.running) ==>
        (multiset(at.waiting) + multiset(at.running))[d] == 1
    ensures |multiset(at.waiting) + multiset(at.running)| == |at.waiting| + |at.running|
  {
  }

  lemma {:induction false} BagOfSet(bag: multiset<nat>, elements: set<nat>)
    requires forall d :: d in bag ==> bag[d] == 1
    requires elements == set d | d in bag
    ensures |bag| == |elements|
    decreases |bag|
  {
    if bag == multiset{} {
      assert elements == {};
    } else {
      var d :| d in bag;
      BagOfSet(bag - multiset{d}, elements - {d});
      assert bag == (bag - multiset{d}) + multiset{d};
      assert elements == (elements - {d}) + {d};
    }
  }

  /** Every conversation that failed did so in its last turn. */
  ghost predicate LastTurnsOnly(cfg: Config, p: Progress) {
    forall c :: c in p.failed ==> c < |cfg.turns| == |p.finished| && p.finished[c] + 1 == cfg.turns[c]
  }

  /** A run without timeouts, and without failures before a last turn, comes to
      rest only after yielding and sending every turn of every conversation. */
  lemma RestsWhenAllSent(cfg: Config, acts: seq<Action>)
    requires ValidConfig(cfg) && (cfg.limit.Some? ==> cfg.limit.value >= 1)
    requires Run(cfg, acts).Some?
    requires var s := Run(cfg, acts).value; LastTurnsOnly(cfg, s.done) && !s.aborted && !CanGoOn(cfg, s)
    ensures var s := Run(cfg, acts).value;
            && s.yielded == Total(cfg)
            && |s.done.sent| == |cfg.turns|
            && forall c :: 0 <= c < |cfg.turns| ==> s.done.sent[c] == UpTo(cfg.turns[c])
  {
    hide Run, CanGoOn, UpTo;
    var s := Run(cfg, acts).value;
    RunKeeps(cfg, acts);
    AtRest(cfg, acts);
    assert Played(s.done.finished, s.done.failed) == cfg.turns by { AllPlayed(cfg, s); }
    PlayedSum(s.done.finished, s.done.failed);
  }

  lemma AllPlayed(cfg: Config, s: State)
    requires Inv(cfg, s) && Out(s.at) == multiset{} && LastTurnsOnly(cfg, s.done)
    ensures |s.done.finished| == |cfg.turns| && Played(s.done.finished, s.done.failed) == cfg.turns
  {
    hide TurnsOk, UpTo;
    var p := s.done;
    forall c: nat | c < |cfg.turns| ensures p.finished[c] + (if c in p.failed then 1 else 0) == cfg.turns[c] {
      assert c !in Out(s.at);
    }
  }

  lemma AtRest(cfg: Config, acts: seq<Action>)
    requires ValidConfig(cfg) && (cfg.limit.Some? ==> cfg.limit.value >= 1)
    requires Run(cfg, acts).Some?
    requires var s := Run(cfg, acts).value; !s.aborted && !CanGoOn(cfg, s)
    ensures var s := Run(cfg, acts).value; Out(s.at) == multiset{} && s.at.running == [] && s.at.waiting == []
  {
    hide Run, UpTo, Inv;
    var s := Run(cfg, acts).value;
    RunKeeps(cfg, acts);
    if s.at.running != [] { PutNeverBlocks(cfg, acts, 0); }
    assert s.at.running == [] && s.closing == 0;
    if s.at.waiting != [] { PlacesOnly(cfg, s); OutOnce(cfg, s, s.at.waiting[0]); }
    assert s.at.waiting == [];
    if s.at.queue != [] { QueueNotFinished(cfg, s); }
  }

  lemma PlacesOnly(cfg: Config, s: State)
    requires Inv(cfg, s)
    ensures PlacesOk(cfg, Out(s.at), s.done)
  {
  }

  lemma QueueNotFinished(cfg: Config, s: State)
    requires Inv(cfg, s) && s.at.queue != [] && s.at.waiting == [] && s.at.running == []
    ensures s.yielded < Total(cfg)
  {
    hide TurnsOk, UpTo;
    var c, p := s.at.queue[0], s.done;
    assert c in multiset(s.at.queue);
    assert c in Out(s.at);
    UnfinishedBound(p.finished, cfg.turns, p.failed + {c});
  }

  // ---- When the generator can still yield everything ----

  /** A conversation that failed stays failed, with the turns it has. */
  ghost predicate Settled(p: Progress, q: Progress) {
    && p.failed <= q.failed && |q.finished| == |p.finished|
    && forall c :: c in p.failed && c < |p.finished| ==> q.finished[c] == p.finished[c]
  }

  lemma SettledStep(cfg: Config, s: State, a: Action)
    requires Inv(cfg, s) && Enabled(cfg, s, a)
    ensures Settled(s.done, Step(cfg, s, a).done)
    ensures !a.Fail? ==> Step(cfg, s, a).done.failed == s.done.failed
  {
    hide Inv, Out, UpTo;
    if a.Succeed? {
      PlacesOnly(cfg, s);
      OutOnce(cfg, s, s.at.running[a.k]);
    }
  }

  lemma {:induction false} SettledRun(cfg: Config, acts: seq<Action>, more: seq<Action>)
    requires ValidConfig(cfg) && Run(cfg, acts + more).Some?
    ensures Run(cfg, acts).Some? && Settled(Run(cfg, acts).value.done, Run(cfg, acts + more).value.done)
  {
    hide Inv, Enabled, Step;
    if more == [] {
      assert acts + more == acts;
    } else {
      var last := |more| - 1;
      assert (acts + more)[..|acts| + last] == acts + more[..last];
      SettledRun(cfg, acts, more[..last]);
      RunKeeps(cfg, acts + more[..last]);
      SettledStep(cfg, Run(cfg, acts + more[..last]).value, more[last]);
    }
  }

  lemma Extend(cfg: Config, acts: seq<Action>, a: Action)
    requires Run(cfg, acts).Some? && Enabled(cfg, Run(cfg, acts).value, a)
    ensures Run(cfg, acts + [a]) == Some(Step(cfg, Run(cfg, acts).value, a))
  {
    hide Enabled, Step;
    assert (acts + [a])[..|acts|] == acts;
  }

  ghost predicate CanYieldAll(cfg: Config, acts: seq<Action>) {
    exists more :: Run(cfg, acts + more).Some? && Run(cfg, acts + more).value.yielded == Total(cfg)
  }

  lemma {:induction false} Completes(cfg: Config, acts: seq<Action>) returns (more: seq<Action>)
    requires ValidConfig(cfg) && (cfg.limit.Some? ==> cfg.limit.value >= 1) && Run(cfg, acts).Some?
    requires var s := Run(cfg, acts).value; LastTurnsOnly(cfg, s.done) && !s.aborted
    ensures Run(cfg, acts + more).Some? && Run(cfg, acts + more).value.yielded == Total(cfg)
    decreases Work(cfg, Run(cfg, acts).value)
  {
    hide Run, Inv, Enabled, Step, Work;
    var s := Run(cfg, acts).value;
    RunKeeps(cfg, acts);
    WorkLeft(cfg, s);
    if !CanGoOn(cfg, s) {
      more := [];
      assert acts + more == acts;
      RestsWhenAllSent(cfg, acts);
    } else {
      var a := if Enabled(cfg, s, Get) then Get
        else if Enabled(cfg, s, Begin(0)) then Begin(0)
        else if Enabled(cfg, s, Succeed(0)) then Succeed(0)
        else Leave;
      GoesOn(cfg, s, a);
      StepWork(cfg, s, a);
      Extend(cfg, acts, a);
      var rest := Completes(cfg, acts + [a]);
      more := [a] + rest;
      assert acts + [a] + rest == acts + more;
    }
  }

  lemma GoesOn(cfg: Config, s: State, a: Action)
    requires Inv(cfg, s) && Enabled(cfg, s, a) && !a.Fail? && !a.Timeout? && !s.aborted && LastTurnsOnly(cfg, s.done)
    ensures LastTurnsOnly(cfg, Step(cfg, s, a).done) && !Step(cfg, s, a).aborted
  {
    hide Inv;
    SettledStep(cfg, s, a);
  }

  /** As long as it has not given up, the generator can still yield all requests
      exactly if every conversation that failed did so in its last turn. */
  lemma CanYieldAllExactly(cfg: Config, acts: seq<Action>)
    requires ValidConfig(cfg) && (cfg.limit.Some? ==> cfg.limit.value >= 1)
    requires Run(cfg, acts).Some? && !Run(cfg, acts).value.aborted
    ensures CanYieldAll(cfg, acts) <==> LastTurnsOnly(cfg, Run(cfg, acts).value.done)
  {
    hide Run, Inv;
    var p := Run(cfg, acts).value.done;
    RunKeeps(cfg, acts);
    if LastTurnsOnly(cfg, p) {
      var more := Completes(cfg, acts);
    } else {
      EarlyFailure(cfg, Run(cfg, acts).value);
      var c :| c in p.failed && c < |cfg.turns| == |p.finished| && p.finished[c] + 1 < cfg.turns[c];
      forall more | Run(cfg, acts + more).Some? ensures Run(cfg, acts + more).value.yielded < Total(cfg) {
        SettledRun(cfg, acts, more);
        FailureStarvesGenerator(cfg, acts + more, c);
      }
    }
  }

  lemma EarlyFailure(cfg: Config, s: State)
    requires Inv(cfg, s) && !LastTurnsOnly(cfg, s.done)
    ensures var p := s.done;
            exists c :: c in p.failed && c < |cfg.turns| == |p.finished| && p.finished[c] + 1 < cfg.turns[c]
  {
    hide TurnsOk, Out;
    var p := s.done;
    var c :| c in p.failed && !(c < |cfg.turns| == |p.finished| && p.finished[c] + 1 == cfg.turns[c]);
    assert c < |cfg.turns| == |p.finished| && p.finished[c] + 1 < cfg.turns[c];
  }

  /** One conversation of two turns whose first turn fails starves the generator. */
  lemma StarvationReachable()
    ensures var cfg, acts := Config([2], None), [Get] + [Begin(0)] + [Fail(0)];
            && ValidConfig(cfg) && Run(cfg, acts).Some? && !Run(cfg, acts).value.aborted
            && !LastTurnsOnly(cfg, Run(cfg, acts).value.done)
  {
    hide Run;
    var cfg := Config([2], None);
    assert Total(cfg) == 2 && UpTo(1) == [0];
    StartRun(cfg);
    Extend(cfg, [], Get);
    assert [] + [Get] == [Get];
    Extend(cfg, [Get], Begin(0));
    Extend(cfg, [Get] + [Begin(0)], Fail(0));
    assert 0 in Run(cfg, [Get] + [Begin(0)] + [Fail(0)]).value.done.failed;
  }

  lemma StartRun(cfg: Config)
    ensures Run(cfg, []) == Some(Start(cfg))
  {
  }

  /** Flattening shared prefixes into single-turn conversations keeps the number
      of requests. */
  lemma {:induction false} FlattenKeepsTotal(turns: seq<nat>)
    ensures Sum(Flattened(turns)) == Sum(turns) == |Flattened(turns)|
    ensures ValidConfig(Config(Flattened(turns), None))
  {
    if turns != [] {
      FlattenKeepsTotal(turns[1..]);
      Ones(turns[0]);
      SumAppend(seq(turns[0], _ => 1), Flattened(turns[1..]));
    }
  }

  function Flattened(turns: seq<nat>): seq<nat> {
    if turns == [] then [] else seq(turns[0], _ => 1) + Flattened(turns[1..])
  }

  lemma {:induction false} Ones(n: nat)
    ensures Sum(seq(n, _ => 1)) == n
  {
    if n != 0 {
      Ones(n - 1);
      assert seq(n, _ => 1)[1..] == seq(n - 1, _ => 1);
    }
  }
}
