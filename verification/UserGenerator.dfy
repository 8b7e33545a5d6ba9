/** The generator as it runs: user records are objects that are changed in place
    and shared between the queue and the requests under way. */
module UserGenerator {
  import opened Sums
  import opened UserFlow

  class UserData {
    var id: nat
    var current: nat
    var total: nat
    var prompt: string
    var tokens: int
    var start: real

    constructor (value: User)
      ensures Value() == value
    {
      id, current, total := value.id, value.current, value.total;
      prompt, tokens, start := value.prompt, value.tokens, value.start;
    }

    function Value(): User
      reads this
    {
      User(id, current, total, prompt, tokens, start)
    }
  }

  class Generator {
    const cfg: Config
    var queue: seq<UserData>
    var nextId: nat
    var input: Stats
    var output: Stats
    var totals: seq<nat>
    ghost var view: Gen

    ghost predicate Valid()
      reads this, queue
    {
      && ValidConfig(cfg) && Sized(cfg, view)
      && nextId == view.nextId && input == view.input && output == view.output && totals == view.totals
      && |queue| == |view.queue|
      && (forall i :: 0 <= i < |queue| ==> queue[i].Value() == view.queue[i])
      && Unique(queue)
    }

    constructor (config: Config)
      requires ValidConfig(config)
      ensures Valid() && cfg == config && view == Start(config) && queue == []
    {
      cfg := config;
      view := Start(config);
      var none := Stats(seq(NumRounds(config), _ => 0), seq(NumRounds(config), _ => 0));
      queue, nextId, input, output := [], 0, none, none;
      totals := seq(NumRounds(config), _ => 0);
    }

    method DrawRounds(ratio: int) returns (total: nat)
      requires Valid()
      ensures total == PickRounds(cfg.cumulative, ratio)
    {
      total := |cfg.cumulative|;
      var k := 0;
      while k < |cfg.cumulative|
        invariant k <= |cfg.cumulative| && total == |cfg.cumulative|
        invariant forall i :: 0 <= i < k ==> ratio >= cfg.cumulative[i]
      {
        if ratio < cfg.cumulative[k] {
          total := k + 1;
          break;
        }
        k := k + 1;
      }
    }

    method Generate(d: Draw) returns (u: UserData)
      requires Valid()
      modifies this
      ensures Valid() && fresh(u) && queue == old(queue)
      ensures view == Generated(cfg, old(view), d) && u.Value() == NewUser(cfg, old(view), d)
    {
      var total := DrawRounds(d.ratio);
      var prompt := Decimal(nextId) + " " + d.prompt;
      u := new UserData(User(nextId, 0, total, prompt, Tokens(d.tokens, cfg.meanReturn[0]), 0.0));
      nextId := nextId + 1;
      input := Bump(input, 0, d.promptLen);
      totals := totals[total - 1 := totals[total - 1] + 1];
      view := Generated(cfg, view, d);
    }

    /** The index the queue is searched for; the search runs over all entries
        and stops early at a later start. */
    method SearchIndex(start: real) returns (idx: nat)
      requires Valid()
      ensures idx == InsertIndex(view.queue, start)
    {
      idx := 0;
      var k := 0;
      while k < |queue|
        invariant k <= |queue| && idx == (if k == 0 then 0 else k - 1)
        invariant forall i :: 0 <= i < k ==> !(start < queue[i].start)
      {
        idx := k;
        if start < queue[k].start { break; }
        k := k + 1;
      }
      assert forall i :: 0 <= i < |queue| ==> queue[i].start == queue[i].Value().start;
    }

    method CountAnswer(u: UserData, gaps: nat)
      requires Valid() && u !in queue && InRounds(cfg, u.Value())
      modifies this`output, this`view, u`current
      ensures Valid() && view == old(view).(output := Bump(old(view).output, old(u.current), gaps + 1))
      ensures u.Value() == old(u.Value()).(current := old(u.current) + 1)
    {
      output := Bump(output, u.current, gaps + 1);
      view := view.(output := output);
      u.current := u.current + 1;
    }

    /** Prompt, answer length and start time of the user's next round. */
    method NextPrompt(u: UserData, text: string, d: Draw, now: real, ghost was: User)
      requires Valid() && u !in queue && InRounds(cfg, u.Value())
      requires u.current >= 1 && u.Value() == was.(current := was.current + 1)
      modifies this`input, this`view, u`prompt, u`tokens, u`start
      ensures Valid() && view == old(view).(input := Bump(old(view).input, u.current, d.promptLen))
      ensures u.Value() == Advanced(cfg, was, text, d, now)
      ensures u.prompt == old(u.prompt) + text + d.prompt
      ensures u.start - now == if d.interval > 0.0 then d.interval else cfg.meanInterval[u.current]
      ensures u.tokens == if d.tokens > 0 then d.tokens else cfg.meanReturn[u.current]
    {
      input := Bump(input, u.current, d.promptLen);
      view := view.(input := input);
      u.prompt := u.prompt + text + d.prompt;
      u.tokens := Tokens(d.tokens, cfg.meanReturn[u.current]);
      var interval := if d.interval <= 0.0 then cfg.meanInterval[u.current] else d.interval;
      u.start := now + interval;
    }

    method Enqueue(u: UserData)
      requires Valid() && u !in queue
      modifies this`queue, this`view
      ensures Valid() && view == old(view).(queue := Inserted(old(view).queue, u.Value()))
      ensures queue == Splice(old(queue), InsertIndex(old(view).queue, u.start), u)
    {
      var idx := 0;
      if |queue| != 0 {
        idx := SearchIndex(u.start);
      }
      SpliceUnique(queue, idx, u);
      queue := Splice(queue, idx, u);
      view := view.(queue := Inserted(view.queue, u.Value()));
    }

    /** Record an answer; the user is queued again unless its rounds are over. */
    method Push(u: UserData, text: string, gaps: nat, d: Draw, now: real)
      requires Valid() && u !in queue && InRounds(cfg, u.Value())
      modifies this, u
      ensures Valid() && view == Pushed(cfg, old(view), old(u.Value()), text, gaps, d, now)
      ensures old(Finishes(u.Value())) ==>
        queue == old(queue) && u.Value() == old(u.Value()).(current := old(u.current) + 1)
      ensures !old(Finishes(u.Value())) ==>
        && u.Value() == Advanced(cfg, old(u.Value()), text, d, now)
        && queue == Splice(old(queue), InsertIndex(old(view).queue, u.start), u)
    {
      ghost var was := u.Value();
      CountAnswer(u, gaps);
      if u.current >= u.total { return; }
      NextPrompt(u, text, d, now, was);
      Enqueue(u);
    }

    /** The next user to send: the head of the queue if it is due, else a new one. */
    method Pop(now: real, d: Draw) returns (u: UserData)
      requires Valid()
      modifies this
      ensures Valid() && u !in queue && u.Value() == PoppedUser(cfg, old(view), now, d)
      ensures view == Popped(cfg, old(view), now, d)
      ensures if old(HeadDue(view.queue, now)) then old(queue) == [u] + queue else queue == old(queue) && fresh(u)
    {
      if |queue| != 0 && now > queue[0].start {
        u := queue[0];
        queue := queue[1..];
        view := Popped(cfg, view, now, d);
      } else {
        u := Generate(d);
      }
    }
  }
}
