/** How the two threads leave: which answers the response thread misses, and
    when the sending loop, and the whole program, can still end. */
module MultiturnExit {
  import opened Sums
  import opened Multiturn
  import opened MultiturnInvariant
  import opened MultiturnProgress
  import opened MultiturnEnding

  predicate OfSender(a: Action) { a.SenderCheck? || a.SenderPop? || a.TaskReply? || a.TaskPut? }

  // ---- What the response thread misses ----

  /** What the response thread does between its last timeout and its end. */
  predicate AfterTimeout(a: Action) { OfSender(a) || a.HandlerTest? }

  predicate TimedOutOrGone(h: Handler) { h.TimedOut? || h.HandlerStopped? }

  lemma LeavingStep(cfg: Config, s: State, a: Action)
    requires Enabled(cfg, s, a) && TimedOutOrGone(Step(cfg, s, a).net.handler) && a != HandlerTimeout
    ensures AfterTimeout(a) && TimedOutOrGone(s.net.handler)
    ensures Step(cfg, s, a).count.completed == s.count.completed
  {
  }

  /** A response thread that is leaving has timed out once more before. */
  lemma {:induction false} LastTimeout(cfg: Config, acts: seq<Action>) returns (n: nat)
    requires |cfg.prompts| == |cfg.rounds| && Run(cfg, acts).Some?
    requires TimedOutOrGone(Run(cfg, acts).value.net.handler)
    ensures n < |acts| && acts[n] == HandlerTimeout
    ensures forall i :: n < i < |acts| ==> AfterTimeout(acts[i])
    ensures Run(cfg, acts[..n]).Some? && Enabled(cfg, Run(cfg, acts[..n]).value, HandlerTimeout)
    ensures Run(cfg, acts[..n]).value.count.completed == Run(cfg, acts).value.count.completed
  {
    hide Step, Enabled, AfterTimeout;
    var last := |acts| - 1;
    if acts[last] == HandlerTimeout {
      n := last;
      TimeoutKeepsCount(cfg, Run(cfg, acts[..n]).value);
    } else {
      LeavingStep(cfg, Run(cfg, acts[..last]).value, acts[last]);
      n := LastTimeout(cfg, acts[..last]);
      assert acts[..last][..n] == acts[..n];
    }
  }

  lemma TimeoutKeepsCount(cfg: Config, s: State)
    requires Enabled(cfg, s, HandlerTimeout)
    ensures Step(cfg, s, HandlerTimeout).count.completed == s.count.completed
  {
  }

  lemma RaisesPrefix(cfg: Config, acts: seq<Action>, n: nat)
    requires ValidConfig(cfg) && Run(cfg, acts).Some? && n <= |acts|
    ensures Raises(acts[..n]) <= Raises(acts)
  {
    hide Run, Raises;
    assert acts == acts[..n] + acts[n..];
    SettledRun(cfg, acts[..n], acts[n..]);
  }

  /** A response thread leaves only with the bar full. */
  lemma LeavingFull(cfg: Config, s: State)
    requires Inv(cfg, s) && Leaving(cfg, s)
    ensures s.count.ticks == Total(cfg)
  {
  }

  lemma CountedPlusUnhandled(cfg: Config, s: State, raises: nat)
    requires Inv(cfg, s) && Balanced(s, raises)
    ensures s.count.completed + |s.net.responses| + Bit(s.net.sender.Putting?) + Bit(s.net.handler.Got?) ==
      s.count.ticks + raises
  {
    hide PlacesOk, SupplyOk, SlotsOk, StopsOk, BarrierMode, Unhandled, Busy;
    UnhandledSize(s.net);
  }

  /** When the response thread leaves, every request has been sent and answered;
      the answers it misses are those queued or about to be. */
  lemma ExitAccounting(cfg: Config, acts: seq<Action>)
    requires ValidConfig(cfg) && Run(cfg, acts).Some? && Leaving(cfg, Run(cfg, acts).value)
    ensures var s := Run(cfg, acts).value;
            && s.count.sent == s.count.ticks == Total(cfg)
            && s.count.completed + |s.net.responses| + Bit(s.net.sender.Putting?) == Total(cfg)
  {
    hide Run, Inv, Balanced, Busy, Unhandled, Played;
    var s := Run(cfg, acts).value;
    RunKeeps(cfg, acts);
    LeavingFull(cfg, s);
    RunBalance(cfg, acts);
    BarFullExactly(cfg, acts);
    CountedPlusUnhandled(cfg, s, 0);
    NoneInFlight(cfg, s);
    SentUnhandled(cfg, s);
  }

  lemma SentUnhandled(cfg: Config, s: State)
    requires Inv(cfg, s) && s.net.inflight == []
    ensures s.count.sent - s.count.completed ==
      |s.net.responses| + Bit(s.net.sender.Putting?) + Bit(s.net.handler.Got?)
  {
    hide PlacesOk, SupplyOk, TicksOk, StopsOk, BarrierMode, Unhandled;
    UnhandledSize(s.net);
  }

  /** When the response thread leaves, it has handled every answer exactly if,
      when its last wait timed out, the bar was already full and no task was
      about to queue its answer. */
  lemma ExitExactly(cfg: Config, acts: seq<Action>) returns (n: nat)
    requires ValidConfig(cfg) && Run(cfg, acts).Some? && Leaving(cfg, Run(cfg, acts).value)
    ensures n < |acts| && acts[n] == HandlerTimeout && Run(cfg, acts[..n]).Some?
    ensures forall i :: n < i < |acts| ==> AfterTimeout(acts[i])
    ensures var s, t := Run(cfg, acts[..n]).value, Run(cfg, acts).value;
            t.count.completed == Total(cfg) <==> s.count.ticks == Total(cfg) && !s.net.sender.Putting?
  {
    hide Run, Inv, Balanced, Raises, Played, Busy;
    n := LastTimeout(cfg, acts);
    var s := Run(cfg, acts[..n]).value;
    RunKeeps(cfg, acts);
    LeavingFull(cfg, Run(cfg, acts).value);
    BarFullExactly(cfg, acts);
    RaisesPrefix(cfg, acts, n);
    RunKeeps(cfg, acts[..n]);
    RunBalance(cfg, acts[..n]);
    BarFullExactly(cfg, acts[..n]);
    CountedPlusUnhandled(cfg, s, 0);
  }

  /** The response thread waits on an empty queue for the last answer. */
  predicate LastAnswerDue(cfg: Config, s: State) {
    && s.net.handler.Waiting? && s.net.responses == []
    && s.net.sender.Checking? && s.net.inflight != []
    && s.count.ticks + 1 == Total(cfg)
  }

  /** From every such state the response thread can leave one answer behind: its
      wait times out, the last answer moves the progress bar, and the full bar
      is read before the answer is queued. */
  lemma ExitRace(cfg: Config, acts: seq<Action>, output: Tokens)
    requires ValidConfig(cfg) && Run(cfg, acts).Some? && LastAnswerDue(cfg, Run(cfg, acts).value)
    ensures var more := acts + [HandlerTimeout] + [TaskReply(0, Answered(output))] + [HandlerTest];
            && Run(cfg, more).Some?
            && Run(cfg, more).value.net.handler.HandlerStopped? && Run(cfg, more).value.net.sender.Putting?
            && Run(cfg, more).value.count.completed + 1 == Total(cfg)
  {
    hide Run, Inv;
    var reply := TaskReply(0, Answered(output));
    var more := acts + [HandlerTimeout] + [reply] + [HandlerTest];
    Extend(cfg, acts, HandlerTimeout);
    Extend(cfg, acts + [HandlerTimeout], reply);
    Extend(cfg, acts + [HandlerTimeout] + [reply], HandlerTest);
    ExitAccounting(cfg, more);
  }

  /** Such a state is reached with a single client and a single round. */
  lemma LastAnswerReachable(prompt: Tokens, subQuestion: Tokens)
    ensures var cfg := Config([1], 1, 1, false, true, [prompt], [subQuestion]);
            var acts := [SenderCheck] + [SenderPop(0)];
            && ValidConfig(cfg) && FailureFree(acts)
            && Run(cfg, acts).Some? && LastAnswerDue(cfg, Run(cfg, acts).value)
  {
    hide Run;
    var cfg := Config([1], 1, 1, false, true, [prompt], [subQuestion]);
    assert Total(cfg) == 1;
    StartRun(cfg);
    Extend(cfg, [], SenderCheck);
    assert [] + [SenderCheck] == [SenderCheck];
    Extend(cfg, [SenderCheck], SenderPop(0));
  }

  // ---- When the sending loop can end ----

  /** The response thread is gone or going, and as many slots as there are stay
      taken by answers that no one will count. */
  ghost predicate ShutOut(cfg: Config, s: State) {
    && Leaving(cfg, s)
    && (s.net.sender.Checking? || s.net.sender.Putting?)
    && s.count.sent - s.count.completed >= cfg.maxParallel
  }

  lemma ShutOutStep(cfg: Config, s: State, a: Action)
    requires Inv(cfg, s) && Enabled(cfg, s, a) && ShutOut(cfg, s)
    ensures ShutOut(cfg, Step(cfg, s, a))
  {
    hide Inv;
    LeavingFull(cfg, s);
    NoneInFlight(cfg, s);
  }

  lemma {:induction false} ShutOutForever(cfg: Config, acts: seq<Action>, more: seq<Action>)
    requires ValidConfig(cfg) && Run(cfg, acts).Some? && ShutOut(cfg, Run(cfg, acts).value)
    requires Run(cfg, acts + more).Some?
    ensures ShutOut(cfg, Run(cfg, acts + more).value)
  {
    hide Inv, Enabled, Step, ShutOut;
    if more == [] {
      assert acts + more == acts;
    } else {
      var last := |more| - 1;
      assert (acts + more)[..|acts| + last] == acts + more[..last];
      ShutOutForever(cfg, acts, more[..last]);
      RunKeeps(cfg, acts + more[..last]);
      ShutOutStep(cfg, Run(cfg, acts + more[..last]).value, more[last]);
    }
  }

  ghost predicate SenderCanEnd(cfg: Config, acts: seq<Action>)
    requires |cfg.prompts| == |cfg.rounds|
  {
    exists more :: Run(cfg, acts + more).Some? && Run(cfg, acts + more).value.net.sender.SenderStopped?
  }

  predicate BothStopped(s: State) { s.net.sender.SenderStopped? && s.net.handler.HandlerStopped? }

  /** The next step to the end, once the response thread is leaving. */
  function Finish(s: State): Action {
    if s.net.handler.TimedOut? then HandlerTest
    else match s.net.sender
      case Putting(_) => TaskPut
      case Popping => SenderPop(0)
      case _ => SenderCheck
  }

  function StepsToFinish(s: State): nat {
    (if s.net.handler.TimedOut? then 1 else 0) +
    match s.net.sender
    case Putting(_) => 3
    case Checking => 2
    case Popping => 1
    case SenderStopped => 0
  }

  lemma FinishStep(cfg: Config, s: State)
    requires Inv(cfg, s) && Leaving(cfg, s) && !ShutOut(cfg, s) && !BothStopped(s)
    ensures Enabled(cfg, s, Finish(s))
    ensures var t := Step(cfg, s, Finish(s));
            Leaving(cfg, t) && !ShutOut(cfg, t) && StepsToFinish(t) < StepsToFinish(s)
  {
    hide Inv;
    LeavingFull(cfg, s);
  }

  /** A leaving response thread lets a sending loop that is not shut out end. */
  lemma {:induction false} LeavingStops(cfg: Config, acts: seq<Action>) returns (more: seq<Action>)
    requires ValidConfig(cfg) && Run(cfg, acts).Some?
    requires Leaving(cfg, Run(cfg, acts).value) && !ShutOut(cfg, Run(cfg, acts).value)
    ensures Run(cfg, acts + more).Some? && BothStopped(Run(cfg, acts + more).value)
    decreases StepsToFinish(Run(cfg, acts).value)
  {
    hide Run, Inv, Enabled, Step, ShutOut, Leaving, StepsToFinish;
    var s := Run(cfg, acts).value;
    if BothStopped(s) {
      more := [];
      assert acts + more == acts;
    } else {
      RunKeeps(cfg, acts);
      FinishStep(cfg, s);
      Extend(cfg, acts, Finish(s));
      var rest := LeavingStops(cfg, acts + [Finish(s)]);
      more := [Finish(s)] + rest;
      assert acts + [Finish(s)] + rest == acts + more;
    }
  }

  /** Once the response thread is leaving, the slots still taken are those of the
      answers it leaves behind, and the sending loop can end exactly if it is
      past its slot check or these answers do not take all slots. */
  lemma SenderEndsExactly(cfg: Config, acts: seq<Action>)
    requires ValidConfig(cfg) && Run(cfg, acts).Some? && Leaving(cfg, Run(cfg, acts).value)
    ensures var s := Run(cfg, acts).value;
            && s.count.sent - s.count.completed == |s.net.responses| + Bit(s.net.sender.Putting?)
            && (SenderCanEnd(cfg, acts) <==> !ShutOut(cfg, s))
  {
    hide Run;
    ExitAccounting(cfg, acts);
    if ShutOut(cfg, Run(cfg, acts).value) {
      forall more | Run(cfg, acts + more).Some?
        ensures !Run(cfg, acts + more).value.net.sender.SenderStopped?
      {
        ShutOutForever(cfg, acts, more);
      }
    } else {
      var more := LeavingStops(cfg, acts);
    }
  }

  /** With a single slot, one answer left behind keeps the program from ever
      ending: the response thread is gone and the sending loop waits for good. */
  lemma LostAnswerHangs(cfg: Config, acts: seq<Action>, output: Tokens)
    requires ValidConfig(cfg) && cfg.maxParallel == 1 && Run(cfg, acts).Some?
    requires LastAnswerDue(cfg, Run(cfg, acts).value)
    ensures var more := acts + [HandlerTimeout] + [TaskReply(0, Answered(output))] + [HandlerTest];
            && Run(cfg, more).Some? && Run(cfg, more).value.net.handler.HandlerStopped?
            && !SenderCanEnd(cfg, more)
  {
    hide Run, SenderCanEnd;
    ExitRace(cfg, acts, output);
    SenderEndsExactly(cfg, acts + [HandlerTimeout] + [TaskReply(0, Answered(output))] + [HandlerTest]);
  }

  /** One client, one round and one slot are enough to hang: no failure, and the
      bar is full. */
  lemma HangReachable(prompt: Tokens, question: Tokens, output: Tokens)
    ensures var cfg := Config([1], 1, 1, false, true, [prompt], [question]);
            var acts := [SenderCheck] + [SenderPop(0)] + [HandlerTimeout] + [TaskReply(0, Answered(output))] +
                        [HandlerTest];
            && ValidConfig(cfg) && Run(cfg, acts).Some? && Run(cfg, acts).value.net.handler.HandlerStopped?
            && !SenderCanEnd(cfg, acts)
  {
    hide Run, SenderCanEnd;
    LastAnswerReachable(prompt, question);
    var cfg := Config([1], 1, 1, false, true, [prompt], [question]);
    LostAnswerHangs(cfg, [SenderCheck] + [SenderPop(0)], output);
  }

  // ---- When the program can end ----

  /** The response thread still handles answers. */
  predicate Handling(h: Handler) { !h.TimedOut? && !h.HandlerStopped? }

  lemma HandlingStep(cfg: Config, s: State, a: Action)
    requires Enabled(cfg, s, a) && Harmless(a) && Handling(s.net.handler)
    ensures Handling(Step(cfg, s, a).net.handler)
  {
  }

  lemma {:induction false} HandlingRun(cfg: Config, acts: seq<Action>, more: seq<Action>)
    requires ValidConfig(cfg) && Run(cfg, acts).Some? && Handling(Run(cfg, acts).value.net.handler)
    requires Run(cfg, acts + more).Some? && forall i :: 0 <= i < |more| ==> Harmless(more[i])
    ensures Handling(Run(cfg, acts + more).value.net.handler)
  {
    hide Enabled, Step, Handling, Harmless;
    if more == [] {
      assert acts + more == acts;
    } else {
      var last := |more| - 1;
      assert (acts + more)[..|acts| + last] == acts + more[..last];
      HandlingRun(cfg, acts, more[..last]);
      HandlingStep(cfg, Run(cfg, acts + more[..last]).value, more[last]);
    }
  }

  /** An answer is still on its way to being counted. */
  predicate Unsettled(n: Net) { !n.handler.Waiting? || n.sender.Putting? || n.responses != [] }

  function Drain(n: Net): Action {
    match n.handler
    case Got(_) => HandlerCount
    case Counted(_) => HandlerNext
    case Releasing(_) => HandlerRelease
    case _ => if n.sender.Putting? then TaskPut else HandlerGet
  }

  lemma DrainStep(cfg: Config, s: State)
    requires ValidConfig(cfg) && Inv(cfg, s) && Handling(s.net.handler) && Unsettled(s.net)
    ensures var a := Drain(s.net);
            && Enabled(cfg, s, a) && Productive(s, a) && Harmless(a)
            && Step(cfg, s, a).count.ticks == s.count.ticks
  {
    hide Inv, ValidConfig;
    if s.net.handler.Got? { CountKeeps(cfg, s); }
    if s.net.handler.Counted? { SupplyLeft(cfg, s); }
  }

  /** With the bar full, a response thread that still handles answers can handle
      them all, and then both threads can stop. */
  lemma {:induction false} DrainsAndStops(cfg: Config, acts: seq<Action>) returns (more: seq<Action>)
    requires ValidConfig(cfg) && cfg.maxParallel >= 1 && Run(cfg, acts).Some?
    requires var s := Run(cfg, acts).value; s.count.ticks == Total(cfg) && Handling(s.net.handler)
    ensures Run(cfg, acts + more).Some? && BothStopped(Run(cfg, acts + more).value)
    decreases Work(cfg, Run(cfg, acts).value)
  {
    hide Run, Inv, Enabled, Step, Work, Harmless, BothStopped;
    var s := Run(cfg, acts).value;
    var a := if Unsettled(s.net) then Drain(s.net) else HandlerTimeout;
    RunKeeps(cfg, acts);
    WorkLeft(cfg, s);
    var rest;
    if Unsettled(s.net) {
      DrainStep(cfg, s);
      StepWork(cfg, s, a);
      HandlingStep(cfg, s, a);
      Extend(cfg, acts, a);
      rest := DrainsAndStops(cfg, acts + [a]);
    } else {
      TimeoutLeaves(cfg, s);
      Extend(cfg, acts, a);
      rest := LeavingStops(cfg, acts + [a]);
    }
    more := [a] + rest;
    assert acts + [a] + rest == acts + more;
  }

  lemma TimeoutLeaves(cfg: Config, s: State)
    requires Inv(cfg, s) && cfg.maxParallel >= 1 && s.count.ticks == Total(cfg) && !Unsettled(s.net)
    ensures Enabled(cfg, s, HandlerTimeout)
    ensures var t := Step(cfg, s, HandlerTimeout); Leaving(cfg, t) && !ShutOut(cfg, t)
  {
    hide Inv;
    NoneInFlight(cfg, s);
    SentUnhandled(cfg, s);
  }

  /** With everything handled, two more steps of each thread are enough. */
  lemma BothCanStop(cfg: Config, acts: seq<Action>)
    requires ValidConfig(cfg) && cfg.maxParallel >= 1 && Run(cfg, acts).Some?
    requires var s := Run(cfg, acts).value;
             s.count.ticks == Total(cfg) && s.net.sender.Checking? && !Unsettled(s.net)
    ensures var more := acts + [SenderCheck] + [SenderPop(0)] + [HandlerTimeout] + [HandlerTest];
            Run(cfg, more).Some? && BothStopped(Run(cfg, more).value)
  {
    hide Run, Inv;
    var s := Run(cfg, acts).value;
    RunKeeps(cfg, acts);
    NoneInFlight(cfg, s);
    SentUnhandled(cfg, s);
    Extend(cfg, acts, SenderCheck);
    Extend(cfg, acts + [SenderCheck], SenderPop(0));
    Extend(cfg, acts + [SenderCheck] + [SenderPop(0)], HandlerTimeout);
    Extend(cfg, acts + [SenderCheck] + [SenderPop(0)] + [HandlerTimeout], HandlerTest);
  }

  /** From a finishable state whose response thread is not leaving, all remaining
      requests can be played and handled, and both threads stopped. */
  lemma Ends(cfg: Config, acts: seq<Action>) returns (more: seq<Action>)
    requires ValidConfig(cfg) && cfg.maxParallel >= 1 && Run(cfg, acts).Some?
    requires Finishable(cfg, Run(cfg, acts).value, Raises(acts)) && !Leaving(cfg, Run(cfg, acts).value)
    ensures Run(cfg, acts + more).Some? && BothStopped(Run(cfg, acts + more).value)
  {
    hide Run, Finishable, Raises, BothStopped;
    var s := Run(cfg, acts).value;
    var first := if s.net.handler.TimedOut? then [HandlerTest] else [];
    assert acts + [] == acts;
    if s.net.handler.TimedOut? { StillFinishable(cfg, acts, HandlerTest); }
    var fill := Completes(cfg, acts + first);
    HandlingRun(cfg, acts + first, fill);
    var rest := DrainsAndStops(cfg, acts + first + fill);
    more := first + fill + rest;
    assert acts + first + fill + rest == acts + more;
  }

  ghost predicate CanEnd(cfg: Config, acts: seq<Action>)
    requires |cfg.prompts| == |cfg.rounds|
  {
    exists more :: Run(cfg, acts + more).Some? && BothStopped(Run(cfg, acts + more).value)
  }

  /** The program can still end exactly if the bar can still fill and the sending
      loop is not shut out by answers that a leaving response thread misses. */
  lemma EndsExactly(cfg: Config, acts: seq<Action>)
    requires ValidConfig(cfg) && cfg.maxParallel >= 1 && Run(cfg, acts).Some?
    ensures var s := Run(cfg, acts).value;
            CanEnd(cfg, acts) <==> Finishable(cfg, s, Raises(acts)) && !ShutOut(cfg, s)
  {
    hide Run, Finishable, Raises;
    var s := Run(cfg, acts).value;
    if Finishable(cfg, s, Raises(acts)) && !ShutOut(cfg, s) {
      if Leaving(cfg, s) {
        var more := LeavingStops(cfg, acts);
      } else {
        var more := Ends(cfg, acts);
      }
    }
    if CanEnd(cfg, acts) {
      var more :| Run(cfg, acts + more).Some? && BothStopped(Run(cfg, acts + more).value);
      if !Finishable(cfg, s, Raises(acts)) { NeverEnds(cfg, acts, more); }
      if ShutOut(cfg, s) { ShutOutForever(cfg, acts, more); }
    }
  }
}
