/** Slots of the mixed workload's two threads. A failed response is reported and
    dropped without being counted as completed, so its slot is never freed. */
module SlotLoss {
  import opened Sums

  datatype Sender =
    | Checking   // about to compare the counters
    | Sleeping   // all slots taken; request tasks run only during this pause
    | Sending    // a slot was free; a user is taken and sent next
    | Testing    // one request was sent; the duration is tested next
    | Done       // the duration is over

  /** Replies are `true` for a success. `lost` counts dropped failures. */
  datatype State = State(
    sent: nat,
    completed: nat,
    inflight: nat,
    replies: seq<bool>,
    hand: Option<bool>,
    lost: nat,
    sender: Sender)

  datatype Action =
    | Check
    | Wake
    | Send
    | Test(over: bool)       // whether the clock is past the duration
    | Reply(success: bool)   // a task ends and queues its response
    | Raise                  // a task ends with an exception and counts itself
    | Get                    // the response thread takes a reply
    | Handle                 // and counts it, or drops it if it is a failure

  const START := State(0, 0, 0, [], None, 0, Checking)

  predicate Enabled(s: State, a: Action) {
    match a
    case Check => s.sender.Checking?
    case Wake => s.sender.Sleeping?
    case Send => s.sender.Sending?
    case Test(_) => s.sender.Testing?
    case Reply(_) => s.sender.Sleeping? && s.inflight > 0
    case Raise => s.sender.Sleeping? && s.inflight > 0
    case Get => s.hand.None? && s.replies != []
    case Handle => s.hand.Some?
  }

  function Step(maxParallel: int, s: State, a: Action): State
    requires Enabled(s, a)
  {
    match a
    case Check => s.(sender := if s.sent - s.completed < maxParallel then Sending else Sleeping)
    case Wake => s.(sender := Checking)
    case Send => s.(inflight := s.inflight + 1, sent := s.sent + 1, sender := Testing)
    case Test(over) => s.(sender := if over then Done else Checking)
    case Reply(success) => s.(inflight := s.inflight - 1, replies := s.replies + [success])
    case Raise => s.(inflight := s.inflight - 1, completed := s.completed + 1)
    case Get => s.(hand := Some(s.replies[0]), replies := s.replies[1..])
    case Handle =>
      if s.hand.value then s.(hand := None, completed := s.completed + 1)
      else s.(hand := None, lost := s.lost + 1)
  }

  /** From `s`, the state after `acts` if all were enabled in turn. */
  function RunFrom(maxParallel: int, s: State, acts: seq<Action>): Option<State>
    decreases |acts|
  {
    if acts == [] then Some(s)
    else if !Enabled(s, acts[0]) then None
    else RunFrom(maxParallel, Step(maxParallel, s, acts[0]), acts[1..])
  }

  /** Slots in use are unanswered requests, unhandled replies and lost failures. */
  predicate Inv(maxParallel: int, s: State) {
    && s.sent == s.completed + s.inflight + |s.replies| + (if s.hand.Some? then 1 else 0) + s.lost
    && (s.sent - s.completed <= maxParallel || s.sent == s.completed)
    && (s.sender.Sending? ==> s.sent - s.completed < maxParallel)
    && (s.sender.Testing? ==> s.inflight > 0)
  }

  lemma StepKeeps(maxParallel: int, s: State, a: Action)
    requires Inv(maxParallel, s) && Enabled(s, a)
    ensures Inv(maxParallel, Step(maxParallel, s, a))
  {
  }

  lemma {:induction false} RunKeeps(maxParallel: int, s: State, acts: seq<Action>)
    requires Inv(maxParallel, s) && RunFrom(maxParallel, s, acts).Some?
    ensures Inv(maxParallel, RunFrom(maxParallel, s, acts).value)
    decreases |acts|
  {
    if acts != [] {
      StepKeeps(maxParallel, s, acts[0]);
      RunKeeps(maxParallel, Step(maxParallel, s, acts[0]), acts[1..]);
    }
  }

  /** In every run the slots in use add up and stay within the limit. */
  lemma SlotsAddUp(maxParallel: int, acts: seq<Action>)
    requires RunFrom(maxParallel, START, acts).Some?
    ensures var s := RunFrom(maxParallel, START, acts).value;
            && s.sent - s.completed == s.inflight + |s.replies| + (if s.hand.Some? then 1 else 0) + s.lost
            && (s.sent - s.completed <= maxParallel || s.sent == s.completed)
  {
    RunKeeps(maxParallel, START, acts);
  }

  /** All slots are lost: nothing is sent any more, and the duration is never
      looked at again. */
  ghost predicate Stuck(maxParallel: int, s: State) {
    Inv(maxParallel, s) && s.lost >= maxParallel && (s.sender.Checking? || s.sender.Sleeping?)
  }

  lemma {:induction false} StuckForever(maxParallel: int, s: State, acts: seq<Action>)
    requires Stuck(maxParallel, s) && RunFrom(maxParallel, s, acts).Some?
    ensures var t := RunFrom(maxParallel, s, acts).value;
            Stuck(maxParallel, t) && t.sent == s.sent && t.lost == s.lost
    ensures forall i :: 0 <= i < |acts| ==> !acts[i].Send? && !acts[i].Test?
    decreases |acts|
  {
    if acts != [] {
      var t := Step(maxParallel, s, acts[0]);
      StepKeeps(maxParallel, s, acts[0]);
      assert Stuck(maxParallel, t) && t.sent == s.sent && t.lost == s.lost;
      StuckForever(maxParallel, t, acts[1..]);
      assert forall i :: 1 <= i < |acts| ==> acts[i] == acts[1..][i - 1];
    }
  }

  lemma {:induction false} RunSplit(maxParallel: int, s: State, acts: seq<Action>, more: seq<Action>)
    requires RunFrom(maxParallel, s, acts + more).Some?
    ensures RunFrom(maxParallel, s, acts).Some?
    ensures RunFrom(maxParallel, s, acts + more) == RunFrom(maxParallel, RunFrom(maxParallel, s, acts).value, more)
    decreases |acts|
  {
    if acts == [] {
      assert acts + more == more;
    } else {
      assert (acts + more)[1..] == acts[1..] + more;
      RunSplit(maxParallel, Step(maxParallel, s, acts[0]), acts[1..], more);
    }
  }

  /** Once as many failures as slots have been dropped before the duration was
      found to be over, no run ever sends or tests the duration again. */
  lemma FailuresExhaustSlots(maxParallel: int, acts: seq<Action>, more: seq<Action>)
    requires RunFrom(maxParallel, START, acts + more).Some?
    requires RunFrom(maxParallel, START, acts).Some?
    requires var s := RunFrom(maxParallel, START, acts).value; maxParallel >= 1 && s.lost >= maxParallel && !s.sender.Done?
    ensures var s, t := RunFrom(maxParallel, START, acts).value, RunFrom(maxParallel, START, acts + more).value;
            t.sent == s.sent && !t.sender.Done?
    ensures forall i :: 0 <= i < |more| ==> !more[i].Send? && !more[i].Test?
  {
    RunKeeps(maxParallel, START, acts);
    RunSplit(maxParallel, START, acts, more);
    StuckForever(maxParallel, RunFrom(maxParallel, START, acts).value, more);
  }

  /** A single slot is lost after one failed response. */
  lemma LossReachable()
    ensures var acts := [Check, Send, Test(false), Check, Reply(false), Get, Handle];
            RunFrom(1, START, acts) == Some(State(1, 0, 0, [], None, 1, Sleeping))
  {
    var acts := [Check, Send, Test(false), Check, Reply(false), Get, Handle];
    var s0 := START;
    var s3 := State(1, 0, 1, [], None, 0, Checking);
    var s5 := State(1, 0, 0, [false], None, 0, Sleeping);
    assert acts[1..][1..][1..] == [Check, Reply(false), Get, Handle];
    assert RunFrom(1, s0, acts) == RunFrom(1, s3, [Check, Reply(false), Get, Handle]);
    assert [Check, Reply(false), Get, Handle][1..] == [Reply(false), Get, Handle];
    assert RunFrom(1, s3, [Check, Reply(false), Get, Handle]) ==
      RunFrom(1, s3.(sender := Sleeping), [Reply(false), Get, Handle]);
    assert [Reply(false), Get, Handle][1..] == [Get, Handle] && [] + [false] == [false];
    assert RunFrom(1, s3.(sender := Sleeping), [Reply(false), Get, Handle]) == RunFrom(1, s5, [Get, Handle]);
    assert [Get, Handle][1..] == [Handle] && [Handle][1..] == [] && [false][1..] == [];
  }

  /** Short of that, the sender is never shut out for good: when the replies on
      their way have been handled, a slot is free exactly if one is not lost. */
  lemma SlotFreeAgain(maxParallel: int, acts: seq<Action>)
    requires RunFrom(maxParallel, START, acts).Some? && maxParallel >= 1
    requires var s := RunFrom(maxParallel, START, acts).value; s.inflight == 0 && s.replies == [] && s.hand.None?
    ensures var s := RunFrom(maxParallel, START, acts).value;
            s.sent - s.completed < maxParallel <==> s.lost < maxParallel
  {
    RunKeeps(maxParallel, START, acts);
  }

  // ---- Whether anything is sent again ----

  /** Failed responses in the queue. */
  function Failing(replies: seq<bool>): nat {
    if replies == [] then 0 else Failing(replies[1..]) + if replies[0] then 0 else 1
  }

  /** Failures so far, dropped or still on their way to the response thread. */
  function Failures(s: State): nat {
    s.lost + Failing(s.replies) + if s.hand == Some(false) then 1 else 0
  }

  lemma {:induction false} FailingAppend(replies: seq<bool>, success: bool)
    ensures Failing(replies + [success]) == Failing(replies) + if success then 0 else 1
  {
    if replies == [] {
      assert (replies + [success])[1..] == [];
    } else {
      FailingAppend(replies[1..], success);
      assert (replies + [success])[1..] == replies[1..] + [success];
    }
  }

  lemma {:induction false} FailingAtMost(replies: seq<bool>)
    ensures Failing(replies) <= |replies|
  {
    if replies != [] { FailingAtMost(replies[1..]); }
  }

  lemma FailuresGrow(maxParallel: int, s: State, a: Action)
    requires Enabled(s, a)
    ensures Failures(Step(maxParallel, s, a)) == Failures(s) + if a == Reply(false) then 1 else 0
  {
    if a.Reply? { FailingAppend(s.replies, a.success); }
  }

  /** With as many failures as slots, no continuation sends. */
  lemma {:induction false} NeverSends(maxParallel: int, s: State, more: seq<Action>)
    requires maxParallel >= 1 && Inv(maxParallel, s) && Failures(s) >= maxParallel
    requires RunFrom(maxParallel, s, more).Some?
    ensures forall i :: 0 <= i < |more| ==> !more[i].Send?
    decreases |more|
  {
    if more != [] {
      FailingAtMost(s.replies);
      FailuresGrow(maxParallel, s, more[0]);
      StepKeeps(maxParallel, s, more[0]);
      NeverSends(maxParallel, Step(maxParallel, s, more[0]), more[1..]);
      assert forall i :: 1 <= i < |more| ==> more[i] == more[1..][i - 1];
    }
  }

  lemma RunCons(maxParallel: int, s: State, a: Action, more: seq<Action>)
    requires Enabled(s, a) && RunFrom(maxParallel, Step(maxParallel, s, a), more).Some?
    ensures RunFrom(maxParallel, s, [a] + more).Some?
  {
    assert ([a] + more)[1..] == more;
  }

  /** The next step towards another send: answer and handle what is on its way
      until a slot is free. */
  function Toward(maxParallel: int, s: State): Action {
    match s.sender
    case Sending => Send
    case Testing => Test(false)
    case Checking => Check
    case _ =>
      if s.sent - s.completed < maxParallel then Wake
      else if s.hand.Some? then Handle
      else if s.replies != [] then Get
      else Reply(true)
  }

  function Distance(maxParallel: int, s: State): nat {
    4 * (3 * s.inflight + 2 * |s.replies| + if s.hand.Some? then 1 else 0) +
    match s.sender
    case Sending => 0
    case Testing => 3
    case Checking => if s.sent - s.completed < maxParallel then 1 else 2
    case _ => if s.sent - s.completed < maxParallel then 2 else 1
  }

  lemma TowardStep(maxParallel: int, s: State)
    requires Inv(maxParallel, s) && Failures(s) < maxParallel && !s.sender.Done? && !s.sender.Sending?
    ensures var a := Toward(maxParallel, s);
            && Enabled(s, a) && Failures(Step(maxParallel, s, a)) == Failures(s)
            && !Step(maxParallel, s, a).sender.Done?
            && Distance(maxParallel, Step(maxParallel, s, a)) < Distance(maxParallel, s)
  {
    FailuresGrow(maxParallel, s, Toward(maxParallel, s));
  }

  lemma {:induction false} SendsAgain(maxParallel: int, s: State) returns (more: seq<Action>)
    requires Inv(maxParallel, s) && Failures(s) < maxParallel && !s.sender.Done?
    ensures RunFrom(maxParallel, s, more).Some? && Send in more
    decreases Distance(maxParallel, s)
  {
    hide Failures, Distance;
    var a := Toward(maxParallel, s);
    if s.sender.Sending? {
      more := [Send];
      assert [Send][1..] == [];
    } else {
      TowardStep(maxParallel, s);
      StepKeeps(maxParallel, s, a);
      var rest := SendsAgain(maxParallel, Step(maxParallel, s, a));
      RunCons(maxParallel, s, a, rest);
      more := [a] + rest;
    }
  }

  ghost predicate CanSend(maxParallel: int, s: State) {
    exists more :: RunFrom(maxParallel, s, more).Some? && Send in more
  }

  /** Before the duration is found to be over, something can still be sent
      exactly if there have been fewer failures than slots. */
  lemma SendsAgainExactly(maxParallel: int, acts: seq<Action>)
    requires maxParallel >= 1 && RunFrom(maxParallel, START, acts).Some?
    requires !RunFrom(maxParallel, START, acts).value.sender.Done?
    ensures var s := RunFrom(maxParallel, START, acts).value;
            CanSend(maxParallel, s) <==> Failures(s) < maxParallel
  {
    hide Failures, RunFrom;
    var s := RunFrom(maxParallel, START, acts).value;
    RunKeeps(maxParallel, START, acts);
    if Failures(s) < maxParallel {
      var more := SendsAgain(maxParallel, s);
    } else {
      forall more | RunFrom(maxParallel, s, more).Some? ensures Send !in more {
        NeverSends(maxParallel, s, more);
      }
    }
  }
}
