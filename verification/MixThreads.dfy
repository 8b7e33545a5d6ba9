/** The mixed workload's two threads as they execute: shared counters and a
    response queue, updated by the sending loop, its tasks and the response loop. */
module MixThreads {
  import opened Sums
  import opened SlotLoss

  ghost predicate ReachedBy(maxParallel: int, trace: seq<Action>, s: State) {
    RunFrom(maxParallel, START, trace) == Some(s)
  }

  lemma {:induction false} RunMore(maxParallel: int, s: State, acts: seq<Action>, a: Action)
    requires RunFrom(maxParallel, s, acts).Some? && Enabled(RunFrom(maxParallel, s, acts).value, a)
    ensures RunFrom(maxParallel, s, acts + [a]) == Some(Step(maxParallel, RunFrom(maxParallel, s, acts).value, a))
    decreases |acts|
  {
    hide Enabled, Step;
    if acts == [] {
      assert acts + [a] == [a] && [a][1..] == [];
    } else {
      assert (acts + [a])[1..] == acts[1..] + [a];
      RunMore(maxParallel, Step(maxParallel, s, acts[0]), acts[1..], a);
    }
  }

  lemma Advance(maxParallel: int, trace: seq<Action>, s: State, a: Action, t: State)
    requires ReachedBy(maxParallel, trace, s) && Enabled(s, a) && t == Step(maxParallel, s, a)
    ensures ReachedBy(maxParallel, trace + [a], t)
  {
    hide Enabled, Step, RunFrom;
    RunMore(maxParallel, START, trace, a);
  }

  class Workload {
    const maxParallel: int
    var sent: nat
    var completed: nat
    var inflight: nat
    var replies: seq<bool>
    var done: bool
    ghost var lost: nat
    ghost var sender: Sender
    ghost var trace: seq<Action>

    ghost function View(): State
      reads this
    {
      State(sent, completed, inflight, replies, None, lost, sender)
    }

    ghost predicate Valid()
      reads this
    {
      done == sender.Done? && ReachedBy(maxParallel, trace, View())
    }

    constructor (limit: int)
      ensures Valid() && maxParallel == limit && trace == [] && sender.Checking?
    {
      maxParallel := limit;
      sent, completed, inflight, replies, done := 0, 0, 0, [], false;
      lost, sender, trace := 0, Checking, [];
    }

    /** One turn of the sending loop; `over` tells whether the clock has passed
        the duration. It pauses exactly when every slot is taken. */
    method SendTurn(over: bool) returns (pause: bool)
      requires Valid() && sender.Checking?
      modifies this
      ensures Valid() && (pause <==> old(sent) - old(completed) >= maxParallel)
      ensures trace == old(trace) + [Check] + if pause then [] else [Send] + [Test(over)]
      ensures sent == old(sent) + (if pause then 0 else 1) && lost == old(lost) && replies == old(replies)
      ensures sender == if pause then Sleeping else if over then Done else Checking
    {
      hide ReachedBy;
      ghost var was := View();
      pause := sent - completed >= maxParallel;
      sender := if pause then Sleeping else Sending;
      ghost var checked := View();
      Advance(maxParallel, trace, was, Check, checked);
      trace := trace + [Check];
      if pause { return; }
      inflight, sent := inflight + 1, sent + 1;
      sender := Testing;
      ghost var one := View();
      Advance(maxParallel, trace, checked, Send, one);
      sender := if over then Done else Checking;
      if over { done := true; }
      Advance(maxParallel, trace + [Send], one, Test(over), View());
      assert trace + [Send] + [Test(over)] == trace + ([Send] + [Test(over)]);
      trace := trace + [Send] + [Test(over)];
    }

    /** A task ends during the pause: with a response, or with an exception. */
    method EndTask(response: Option<bool>)
      requires Valid() && sender.Sleeping? && inflight > 0
      modifies this
      ensures Valid() && sender.Sleeping? && lost == old(lost)
      ensures trace == old(trace) + [if response.Some? then Reply(response.value) else Raise]
      ensures replies == if response.Some? then old(replies) + [response.value] else old(replies)
    {
      hide ReachedBy;
      ghost var was := View();
      inflight := inflight - 1;
      if response.Some? { replies := replies + [response.value]; } else { completed := completed + 1; }
      ghost var a := if response.Some? then Reply(response.value) else Raise;
      Advance(maxParallel, trace, was, a, View());
      trace := trace + [a];
    }

    /** The pause is over. */
    ghost method Wake()
      requires Valid() && sender.Sleeping?
      modifies this`sender, this`trace
      ensures Valid() && sender.Checking? && trace == old(trace) + [SlotLoss.Wake]
    {
      hide ReachedBy;
      var was := View();
      sender := Checking;
      Advance(maxParallel, trace, was, SlotLoss.Wake, View());
      trace := trace + [SlotLoss.Wake];
    }

    /** The response loop handles one reply; a failure keeps its slot for good. */
    method HandleTurn()
      requires Valid() && replies != []
      modifies this
      ensures Valid() && sender == old(sender) && trace == old(trace) + [Get] + [Handle]
      ensures completed == old(completed) + if old(replies)[0] then 1 else 0
      ensures lost == old(lost) + if old(replies)[0] then 0 else 1
    {
      hide ReachedBy;
      ghost var was := View();
      var success := replies[0];
      replies := replies[1..];
      ghost var taken := View().(hand := Some(success));
      Advance(maxParallel, trace, was, Get, taken);
      if success { completed := completed + 1; } else { lost := lost + 1; }
      Advance(maxParallel, trace + [Get], taken, Handle, View());
      trace := trace + [Get] + [Handle];
    }
  }
}
