/** Users of the mixed workload: generated, sent, answered and queued again until
    their rounds are used up. Draws of random values and readings of the clock
    are parameters. */
module UserFlow {
  import opened Sums

  datatype User = User(id: nat, current: nat, total: nat, prompt: string, tokens: int, start: real)

  /** Per round, tokens and number of prompts or answers. */
  datatype Stats = Stats(tokens: seq<int>, count: seq<nat>)

  datatype Config = Config(cumulative: seq<int>, meanReturn: seq<int>, meanInterval: seq<real>)

  /** One rounds entry per round, and at least one round. */
  predicate ValidConfig(cfg: Config) {
    1 <= |cfg.cumulative| == |cfg.meanReturn| == |cfg.meanInterval|
  }

  function NumRounds(cfg: Config): nat { |cfg.cumulative| }

  /** Values drawn for one prompt. */
  datatype Draw = Draw(ratio: int, prompt: string, promptLen: int, tokens: int, interval: real)

  datatype Gen = Gen(queue: seq<User>, nextId: nat, input: Stats, output: Stats, totals: seq<nat>)

  predicate Sized(cfg: Config, g: Gen) {
    && |g.input.tokens| == |g.input.count| == NumRounds(cfg)
    && |g.output.tokens| == |g.output.count| == NumRounds(cfg)
    && |g.totals| == NumRounds(cfg)
  }

  function Start(cfg: Config): (g: Gen)
    requires ValidConfig(cfg)
    ensures Sized(cfg, g)
  {
    var none := Stats(seq(NumRounds(cfg), _ => 0), seq(NumRounds(cfg), _ => 0));
    Gen([], 0, none, none, seq(NumRounds(cfg), _ => 0))
  }

  function Bump(s: Stats, r: nat, tokens: int): Stats
    requires r < |s.tokens| == |s.count|
  {
    Stats(s.tokens[r := s.tokens[r] + tokens], s.count[r := s.count[r] + 1])
  }

  // ---- Generating ----

  /** One more than the first index whose cumulative ratio exceeds the draw. */
  function PickRounds(cumulative: seq<int>, ratio: int): (n: nat)
    requires cumulative != []
    ensures 1 <= n <= |cumulative|
    ensures forall i :: 0 <= i < n - 1 ==> ratio >= cumulative[i]
    ensures ratio < cumulative[n - 1] || (n == |cumulative| && forall i :: 0 <= i < n ==> ratio >= cumulative[i])
  {
    if ratio < cumulative[0] || |cumulative| == 1 then 1 else 1 + PickRounds(cumulative[1..], ratio)
  }

  function Tokens(drawn: int, mean: int): int { if drawn <= 0 then mean else drawn }

  const DIGITS := "0123456789"

  function Decimal(n: nat): (s: string)
    ensures s != ""
  {
    if n < 10 then [DIGITS[n]] else Decimal(n / 10) + [DIGITS[n % 10]]
  }

  /** A new user's prompt starts with its number, so that no two users share one. */
  function NewUser(cfg: Config, g: Gen, d: Draw): User
    requires ValidConfig(cfg)
  {
    User(g.nextId, 0, PickRounds(cfg.cumulative, d.ratio), Decimal(g.nextId) + " " + d.prompt,
         Tokens(d.tokens, cfg.meanReturn[0]), 0.0)
  }

  function Generated(cfg: Config, g: Gen, d: Draw): Gen
    requires ValidConfig(cfg) && Sized(cfg, g)
  {
    var total := PickRounds(cfg.cumulative, d.ratio);
    g.(nextId := g.nextId + 1, input := Bump(g.input, 0, d.promptLen),
       totals := g.totals[total - 1 := g.totals[total - 1] + 1])
  }

  // ---- Queueing again ----

  predicate Sorted(q: seq<User>) {
    forall i, j :: 0 <= i < j < |q| ==> q[i].start <= q[j].start
  }

  /** Where the loop variable stands when a user is inserted: at the first later
      start, or at the last entry if there is none. */
  function InsertIndex(q: seq<User>, start: real): (k: nat)
    ensures k <= |q| && (q != [] ==> k < |q|)
    ensures forall i :: 0 <= i < k ==> q[i].start <= start
    ensures q != [] ==> start < q[k].start || k == |q| - 1
  {
    if q == [] || start < q[0].start || |q| == 1 then 0 else 1 + InsertIndex(q[1..], start)
  }

  function Inserted(q: seq<User>, u: User): seq<User> {
    Splice(q, InsertIndex(q, u.start), u)
  }

  /** Insertion keeps a sorted queue sorted exactly when the new user starts no
      later than the last one queued. */
  lemma InsertSortedExactly(q: seq<User>, u: User)
    requires Sorted(q)
    ensures Sorted(Inserted(q, u)) <==> q == [] || u.start <= q[|q| - 1].start
  {
    var k, out := InsertIndex(q, u.start), Inserted(q, u);
    if q != [] && u.start > q[|q| - 1].start {
      assert out[|q| - 1] == u && out[|q|] == q[|q| - 1];
    }
  }

  /** Two users pushed in the order of their starts are queued in reverse. */
  lemma UnsortedQueue(a: User, b: User)
    requires a.start < b.start
    ensures Inserted(Inserted([], a), b) == [b, a]
    ensures !Sorted(Inserted(Inserted([], a), b))
  {
    assert Inserted([], a) == [a];
    assert Inserted([a], b) == [b, a];
    assert [b, a][0].start > [b, a][1].start;
  }

  /** The user as queued for its next round. */
  function Advanced(cfg: Config, u: User, text: string, d: Draw, now: real): User
    requires ValidConfig(cfg) && u.current + 1 < NumRounds(cfg)
  {
    var r := u.current + 1;
    var interval := if d.interval <= 0.0 then cfg.meanInterval[r] else d.interval;
    User(u.id, r, u.total, u.prompt + text + d.prompt, Tokens(d.tokens, cfg.meanReturn[r]), now + interval)
  }

  /** A user can be answered only in one of its rounds. */
  predicate InRounds(cfg: Config, u: User) { u.current < u.total <= NumRounds(cfg) }

  predicate Finishes(u: User) { u.current + 1 >= u.total }

  function Pushed(cfg: Config, g: Gen, u: User, text: string, gaps: nat, d: Draw, now: real): Gen
    requires ValidConfig(cfg) && Sized(cfg, g) && InRounds(cfg, u)
  {
    var answered := g.(output := Bump(g.output, u.current, gaps + 1));
    if Finishes(u) then answered
    else answered.(input := Bump(g.input, u.current + 1, d.promptLen),
                   queue := Inserted(g.queue, Advanced(cfg, u, text, d, now)))
  }

  // ---- Taking the next user ----

  predicate HeadDue(q: seq<User>, now: real) { q != [] && now > q[0].start }

  function Popped(cfg: Config, g: Gen, now: real, d: Draw): Gen
    requires ValidConfig(cfg) && Sized(cfg, g)
  {
    if HeadDue(g.queue, now) then g.(queue := g.queue[1..]) else Generated(cfg, g, d)
  }

  function PoppedUser(cfg: Config, g: Gen, now: real, d: Draw): User
    requires ValidConfig(cfg)
  {
    if HeadDue(g.queue, now) then g.queue[0] else NewUser(cfg, g, d)
  }

  predicate SomeDue(q: seq<User>, now: real) { exists i :: 0 <= i < |q| && now > q[i].start }

  /** At every time, a waiting user is served if one is due. */
  ghost predicate ServesDue(q: seq<User>) {
    forall now: real :: SomeDue(q, now) ==> HeadDue(q, now)
  }

  /** Nobody in the queue starts before its head. */
  predicate HeadFirst(q: seq<User>) { forall i :: 0 <= i < |q| ==> q[0].start <= q[i].start }

  /** Due users are never passed over exactly if none starts before the head. */
  lemma ServesDueExactly(q: seq<User>)
    ensures ServesDue(q) <==> HeadFirst(q)
  {
    if !HeadFirst(q) {
      var i :| 0 <= i < |q| && q[i].start < q[0].start;
      assert SomeDue(q, q[0].start) && !HeadDue(q, q[0].start);
    }
  }

  /** A push spoils that exactly if it adds a later user to a single one. */
  lemma InsertKeepsHead(q: seq<User>, u: User)
    requires HeadFirst(q)
    ensures HeadFirst(Inserted(q, u)) <==> |q| != 1 || u.start <= q[0].start
  {
    var k, r := InsertIndex(q, u.start), Inserted(q, u);
    assert r[k] == u && (k < |q| ==> r[k + 1] == q[k]);
    assert forall i :: 0 <= i < k ==> r[i] == q[i];
    assert forall i :: k < i < |r| ==> r[i] == q[i - 1];
  }

  /** However many users are taken off its front, no due user is passed over,
      exactly if the queue is sorted. */
  lemma ServesDueThroughout(q: seq<User>)
    ensures (forall k :: 0 <= k <= |q| ==> ServesDue(q[k..])) <==> Sorted(q)
  {
    hide ServesDue;
    forall k | 0 <= k <= |q| ensures ServesDue(q[k..]) <==> HeadFirst(q[k..]) { ServesDueExactly(q[k..]); }
    if forall k :: 0 <= k <= |q| ==> ServesDue(q[k..]) {
      forall i, j | 0 <= i < j < |q| ensures q[i].start <= q[j].start {
        assert ServesDue(q[i..]);
        assert q[i..][0] == q[i] && q[i..][j - i] == q[j];
      }
    }
  }

  /** On a sorted queue no due user is passed over. */
  lemma SortedServesDue(q: seq<User>)
    requires Sorted(q)
    ensures ServesDue(q)
  {
    ServesDueExactly(q);
  }

  /** Two users pushed in the order of their starts: as long as the later one is
      not due, the earlier one is passed over for a new user. */
  lemma UnsortedPassesOver(a: User, b: User, now: real)
    requires a.start < now <= b.start
    ensures var q := Inserted(Inserted([], a), b); SomeDue(q, now) && !HeadDue(q, now)
  {
    UnsortedQueue(a, b);
    assert [b, a][1].start < now;
  }

  // ---- Runs: the generator and the users it is waiting for ----

  /** The generator and the users sent out and not yet answered. */
  datatype System = System(g: Gen, out: set<User>)

  datatype Action =
    | Pop(now: real, draw: Draw)
    | Push(user: User, text: string, gaps: nat, draw: Draw, now: real)

  predicate Enabled(cfg: Config, s: System, a: Action) {
    match a
    case Pop(_, _) => true
    case Push(u, _, _, _, _) => u in s.out && InRounds(cfg, u)
  }

  function Step(cfg: Config, s: System, a: Action): System
    requires ValidConfig(cfg) && Sized(cfg, s.g) && Enabled(cfg, s, a)
  {
    match a
    case Pop(now, d) => System(Popped(cfg, s.g, now, d), s.out + {PoppedUser(cfg, s.g, now, d)})
    case Push(u, text, gaps, d, now) => System(Pushed(cfg, s.g, u, text, gaps, d, now), s.out - {u})
  }

  ghost function Queued(q: seq<User>): set<User> { set u | u in q }

  /** All users that are queued or unanswered. */
  ghost function Live(s: System): set<User> { Queued(s.g.queue) + s.out }

  ghost function AtRound(live: set<User>, r: nat): set<User> { set u | u in live && u.current == r }

  /** Prompts counted for a round, minus answers counted for it, are the users
      now in that round. */
  ghost predicate Conserved(cfg: Config, g: Gen, live: set<User>)
    requires Sized(cfg, g)
  {
    forall r: nat :: r < NumRounds(cfg) ==> g.input.count[r] == g.output.count[r] + |AtRound(live, r)|
  }

  ghost predicate UsersOk(cfg: Config, live: set<User>, nextId: nat) {
    && (forall u :: u in live ==> u.id < nextId && InRounds(cfg, u))
    && (forall u, v :: u in live && v in live && u.id == v.id ==> u == v)
  }

  /** Nobody is queued twice, and nobody is both queued and unanswered. */
  ghost predicate PlacesOk(q: seq<User>, out: set<User>) {
    Unique(q) && Queued(q) !! out
  }

  ghost predicate Inv(cfg: Config, s: System) {
    && Sized(cfg, s.g)
    && UsersOk(cfg, Live(s), s.g.nextId)
    && PlacesOk(s.g.queue, s.out)
    && Conserved(cfg, s.g, Live(s))
  }

  lemma AddAt(live: set<User>, u: User, r: nat)
    requires u !in live
    ensures |AtRound(live + {u}, r)| == |AtRound(live, r)| + if u.current == r then 1 else 0
  {
    if u.current == r {
      assert AtRound(live + {u}, r) == AtRound(live, r) + {u};
    } else {
      assert AtRound(live + {u}, r) == AtRound(live, r);
    }
  }

  lemma GenerateConserves(cfg: Config, g: Gen, live: set<User>, d: Draw)
    requires ValidConfig(cfg) && Sized(cfg, g) && Conserved(cfg, g, live) && UsersOk(cfg, live, g.nextId)
    ensures Sized(cfg, Generated(cfg, g, d))
    ensures Conserved(cfg, Generated(cfg, g, d), live + {NewUser(cfg, g, d)})
    ensures UsersOk(cfg, live + {NewUser(cfg, g, d)}, g.nextId + 1) && NewUser(cfg, g, d) !in live
  {
    var u, next := NewUser(cfg, g, d), Generated(cfg, g, d);
    forall r: nat | r < NumRounds(cfg)
      ensures next.input.count[r] == next.output.count[r] + |AtRound(live + {u}, r)|
    {
      AddAt(live, u, r);
    }
  }

  /** What is left of the live users when `u` has been answered. */
  ghost function AfterAnswer(cfg: Config, live: set<User>, u: User, text: string, d: Draw, now: real): set<User>
    requires ValidConfig(cfg) && InRounds(cfg, u)
  {
    live - {u} + if Finishes(u) then {} else {Advanced(cfg, u, text, d, now)}
  }

  lemma AnswerConserves(cfg: Config, g: Gen, live: set<User>, u: User, text: string, gaps: nat, d: Draw, now: real)
    requires ValidConfig(cfg) && Sized(cfg, g) && Conserved(cfg, g, live) && UsersOk(cfg, live, g.nextId)
    requires u in live
    ensures Sized(cfg, Pushed(cfg, g, u, text, gaps, d, now))
    ensures Conserved(cfg, Pushed(cfg, g, u, text, gaps, d, now), AfterAnswer(cfg, live, u, text, d, now))
    ensures UsersOk(cfg, AfterAnswer(cfg, live, u, text, d, now), g.nextId)
  {
    var rest, next := live - {u}, Pushed(cfg, g, u, text, gaps, d, now);
    assert rest + {u} == live;
    forall r: nat | r < NumRounds(cfg)
      ensures next.input.count[r] == next.output.count[r] + |AtRound(AfterAnswer(cfg, live, u, text, d, now), r)|
    {
      AddAt(rest, u, r);
      if !Finishes(u) { AddAt(rest, Advanced(cfg, u, text, d, now), r); }
    }
  }

  lemma InsertedPlaces(q: seq<User>, u: User, out: set<User>)
    requires PlacesOk(q, out) && u !in q && u !in out
    ensures PlacesOk(Inserted(q, u), out) && Queued(Inserted(q, u)) == Queued(q) + {u}
  {
    SpliceMembers(q, InsertIndex(q, u.start), u);
    SpliceUnique(q, InsertIndex(q, u.start), u);
  }

  lemma PopKeeps(cfg: Config, s: System, now: real, d: Draw)
    requires ValidConfig(cfg) && Inv(cfg, s)
    ensures Inv(cfg, Step(cfg, s, Pop(now, d)))
  {
    var t := Step(cfg, s, Pop(now, d));
    if HeadDue(s.g.queue, now) {
      var q := s.g.queue;
      assert q == [q[0]] + q[1..];
      assert Queued(q) == Queued(q[1..]) + {q[0]};
      assert Live(t) == Live(s);
    } else {
      GenerateConserves(cfg, s.g, Live(s), d);
      assert Live(t) == Live(s) + {NewUser(cfg, s.g, d)};
    }
  }

  lemma PushKeeps(cfg: Config, s: System, u: User, text: string, gaps: nat, d: Draw, now: real)
    requires ValidConfig(cfg) && Inv(cfg, s) && u in s.out && InRounds(cfg, u)
    ensures Inv(cfg, Step(cfg, s, Push(u, text, gaps, d, now)))
  {
    hide Conserved;
    var t := Step(cfg, s, Push(u, text, gaps, d, now));
    AnswerConserves(cfg, s.g, Live(s), u, text, gaps, d, now);
    assert u in Live(s) && u !in s.g.queue;
    if !Finishes(u) {
      var v := Advanced(cfg, u, text, d, now);
      assert v !in Live(s);
      InsertedPlaces(s.g.queue, v, s.out - {u});
    }
    assert Live(t) == AfterAnswer(cfg, Live(s), u, text, d, now);
  }

  function Run(cfg: Config, acts: seq<Action>): Option<System>
    requires ValidConfig(cfg)
  {
    if acts == [] then Some(System(Start(cfg), {}))
    else
      var last := |acts| - 1;
      match Run(cfg, acts[..last])
      case None => None
      case Some(s) =>
        if Sized(cfg, s.g) && Enabled(cfg, s, acts[last]) then Some(Step(cfg, s, acts[last])) else None
  }

  lemma StartOk(cfg: Config)
    requires ValidConfig(cfg)
    ensures Inv(cfg, System(Start(cfg), {}))
  {
    forall r: nat ensures AtRound({}, r) == {} {}
    assert Live(System(Start(cfg), {})) == {};
  }

  /** After any sequence of takings and answers: per round, prompts minus answers
      are the users in that round; every user is within its rounds; nobody is
      lost, duplicated, or in two places. */
  lemma {:induction false} UsersConserved(cfg: Config, acts: seq<Action>)
    requires ValidConfig(cfg) && Run(cfg, acts).Some?
    ensures Inv(cfg, Run(cfg, acts).value)
  {
    hide Inv, Step, Start;
    if acts == [] {
      StartOk(cfg);
    } else {
      var last := |acts| - 1;
      UsersConserved(cfg, acts[..last]);
      var s := Run(cfg, acts[..last]).value;
      match acts[last]
      case Pop(now, d) => PopKeeps(cfg, s, now, d);
      case Push(u, text, gaps, d, now) => PushKeeps(cfg, s, u, text, gaps, d, now);
    }
  }

  /** A taken user was due or is new; a due one leaves the queue and nothing else
      in it changes. */
  lemma PopFaithful(cfg: Config, s: System, now: real, d: Draw)
    requires ValidConfig(cfg) && Inv(cfg, s)
    ensures var t, u := Step(cfg, s, Pop(now, d)), PoppedUser(cfg, s.g, now, d);
            && u !in s.out && u in t.out
            && (if HeadDue(s.g.queue, now) then u.start < now && multiset(s.g.queue) == multiset(t.g.queue) + multiset{u}
                else u !in Live(s) && t.g.queue == s.g.queue)
  {
    var q := s.g.queue;
    if HeadDue(s.g.queue, now) {
      assert q == [q[0]] + q[1..];
      assert q[0] in Queued(q);
    } else {
      GenerateConserves(cfg, s.g, Live(s), d);
    }
  }

  // ---- What is queued ----

  /** A new user has the next number, which its prompt starts with, starts at
      once in round 0, plays the drawn number of rounds, and is counted once. */
  lemma NewContents(cfg: Config, g: Gen, d: Draw)
    requires ValidConfig(cfg) && Sized(cfg, g)
    ensures var u, next := NewUser(cfg, g, d), Generated(cfg, g, d);
            && u.id == g.nextId < next.nextId && u.current == 0 && u.start == 0.0
            && Decimal(u.id) + " " <= u.prompt && u.prompt[|Decimal(u.id)| + 1..] == d.prompt
            && u.tokens == (if d.tokens > 0 then d.tokens else cfg.meanReturn[0])
            && (forall i :: 0 <= i < u.total - 1 ==> d.ratio >= cfg.cumulative[i])
            && 1 <= u.total <= NumRounds(cfg) && (u.total < NumRounds(cfg) ==> d.ratio < cfg.cumulative[u.total - 1])
            && next.queue == g.queue && next.totals == g.totals[u.total - 1 := g.totals[u.total - 1] + 1]
  {
    hide Decimal;
  }

  /** A pushed user that is queued again carries its old prompt, the generated
      text and the drawn prompt; it waits for the drawn interval, and asks for the
      drawn number of tokens, or for its round's means where a draw is not
      positive. Nobody else in the queue changes. */
  lemma PushContents(cfg: Config, g: Gen, u: User, text: string, gaps: nat, d: Draw, now: real) returns (v: User)
    requires ValidConfig(cfg) && Sized(cfg, g) && InRounds(cfg, u) && !Finishes(u)
    ensures multiset(Pushed(cfg, g, u, text, gaps, d, now).queue) == multiset(g.queue) + multiset{v}
    ensures v.id == u.id && v.total == u.total && v.current == u.current + 1 < NumRounds(cfg)
    ensures u.prompt + text <= v.prompt && v.prompt[|u.prompt + text|..] == d.prompt
    ensures v.start - now == if d.interval > 0.0 then d.interval else cfg.meanInterval[v.current]
    ensures v.tokens == if d.tokens > 0 then d.tokens else cfg.meanReturn[v.current]
  {
    v := Advanced(cfg, u, text, d, now);
    SpliceMembers(g.queue, InsertIndex(g.queue, v.start), v);
  }

  /** Whoever has this number is `v`, or has gone on to a later round. */
  ghost predicate OnlyAs(live: set<User>, v: User) {
    forall w :: w in live && w.id == v.id ==> w == v || w.current > v.current
  }

  lemma OnlyAsStep(cfg: Config, s: System, a: Action, v: User)
    requires ValidConfig(cfg) && Inv(cfg, s) && Enabled(cfg, s, a) && OnlyAs(Live(s), v) && v.id < s.g.nextId
    ensures OnlyAs(Live(Step(cfg, s, a)), v) && v.id < Step(cfg, s, a).g.nextId
  {
    hide Conserved, Decimal, PlacesOk, Bump, InsertIndex, Splice, OnlyAs, Live;
    match a
    case Pop(now, d) => OnlyAsPop(cfg, s, now, d, v);
    case Push(u, text, gaps, d, now) => OnlyAsPush(cfg, s, u, text, gaps, d, now, v);
  }

  lemma OnlyAsPop(cfg: Config, s: System, now: real, d: Draw, v: User)
    requires ValidConfig(cfg) && Sized(cfg, s.g) && OnlyAs(Live(s), v) && v.id < s.g.nextId
    ensures OnlyAs(Live(Step(cfg, s, Pop(now, d))), v)
  {
    hide Decimal, Bump;
  }

  lemma OnlyAsPush(cfg: Config, s: System, u: User, text: string, gaps: nat, d: Draw, now: real, v: User)
    requires ValidConfig(cfg) && Sized(cfg, s.g) && OnlyAs(Live(s), v) && u in s.out && InRounds(cfg, u)
    ensures OnlyAs(Live(Step(cfg, s, Push(u, text, gaps, d, now))), v)
  {
    hide Bump, InsertIndex, Splice;
    assert u in Live(s);
    if !Finishes(u) {
      var w := Advanced(cfg, u, text, d, now);
      SpliceMembers(s.g.queue, InsertIndex(s.g.queue, w.start), w);
    }
  }

  lemma {:induction false} OnlyAsRun(cfg: Config, acts: seq<Action>, more: seq<Action>, v: User)
    requires ValidConfig(cfg) && Run(cfg, acts + more).Some? && Run(cfg, acts).Some?
    requires OnlyAs(Live(Run(cfg, acts).value), v) && v.id < Run(cfg, acts).value.g.nextId
    ensures OnlyAs(Live(Run(cfg, acts + more).value), v) && v.id < Run(cfg, acts + more).value.g.nextId
  {
    hide Step, Enabled, Inv, OnlyAs, Live;
    if more == [] {
      assert acts + more == acts;
    } else {
      var last := |more| - 1;
      assert (acts + more)[..|acts| + last] == acts + more[..last];
      OnlyAsRun(cfg, acts, more[..last], v);
      UsersConserved(cfg, acts + more[..last]);
      OnlyAsStep(cfg, Run(cfg, acts + more[..last]).value, more[last], v);
    }
  }

  lemma PushedIsOnly(cfg: Config, s: System, u: User, text: string, gaps: nat, d: Draw, now: real)
    requires ValidConfig(cfg) && Inv(cfg, s) && u in s.out && InRounds(cfg, u) && !Finishes(u)
    ensures var t, v := Step(cfg, s, Push(u, text, gaps, d, now)), Advanced(cfg, u, text, d, now);
            OnlyAs(Live(t), v) && v.id < t.g.nextId
  {
    hide Conserved, Decimal;
    assert u in Live(s);
    var w := Advanced(cfg, u, text, d, now);
    SpliceMembers(s.g.queue, InsertIndex(s.g.queue, w.start), w);
  }

  /** In every run, a user that was pushed at some time, with an interval until
      its next round, is returned for that round only by a pop later than that. */
  lemma ReturnedLate(cfg: Config, acts: seq<Action>, push: Action, more: seq<Action>, pop: Action)
    requires ValidConfig(cfg) && Run(cfg, acts + [push] + more + [pop]).Some? && push.Push? && pop.Pop?
    requires !Finishes(push.user) && Run(cfg, acts + [push] + more).Some?
    requires var p := PoppedUser(cfg, Run(cfg, acts + [push] + more).value.g, pop.now, pop.draw);
             p.id == push.user.id && p.current == push.user.current + 1
    ensures push.user.current + 1 < NumRounds(cfg)
    ensures pop.now > push.now +
      if push.draw.interval > 0.0 then push.draw.interval else cfg.meanInterval[push.user.current + 1]
  {
    hide Run, Inv, Enabled, Step, OnlyAs;
    var s := RunSplit(cfg, acts, push, more);
    UsersConserved(cfg, acts);
    StepEnabled(cfg, s, push);
    PushedIsOnly(cfg, s, push.user, push.text, push.gaps, push.draw, push.now);
    var v := Advanced(cfg, push.user, push.text, push.draw, push.now);
    OnlyAsRun(cfg, acts + [push], more, v);
    PoppedIsDue(cfg, Run(cfg, acts + [push] + more).value, v, pop.now, pop.draw);
  }

  lemma StepEnabled(cfg: Config, s: System, push: Action)
    requires push.Push? && Enabled(cfg, s, push)
    ensures push.user in s.out && InRounds(cfg, push.user)
  {
  }

  lemma PoppedIsDue(cfg: Config, s: System, v: User, now: real, d: Draw)
    requires ValidConfig(cfg) && OnlyAs(Live(s), v) && v.current > 0
    requires var p := PoppedUser(cfg, s.g, now, d); p.id == v.id && p.current == v.current
    ensures v.start < now
  {
    var p := PoppedUser(cfg, s.g, now, d);
    assert HeadDue(s.g.queue, now) ==> p in Live(s);
  }

  lemma {:induction false} RunSplit(cfg: Config, acts: seq<Action>, a: Action, more: seq<Action>) returns (s: System)
    requires ValidConfig(cfg) && Run(cfg, acts + [a] + more).Some?
    ensures Run(cfg, acts) == Some(s) && Sized(cfg, s.g) && Enabled(cfg, s, a)
    ensures Run(cfg, acts + [a]) == Some(Step(cfg, s, a))
  {
    hide Step, Enabled, Sized;
    if more == [] {
      assert acts + [a] + more == acts + [a] && (acts + [a])[..|acts|] == acts;
      s := Run(cfg, acts).value;
    } else {
      var last := |more| - 1;
      assert (acts + [a] + more)[..|acts| + 1 + last] == acts + [a] + more[..last];
      s := RunSplit(cfg, acts, a, more[..last]);
    }
  }

  lemma {:induction false} DecimalDigits(n: nat)
    ensures forall i :: 0 <= i < |Decimal(n)| ==> Decimal(n)[i] in DIGITS
  {
    if n >= 10 { DecimalDigits(n / 10); }
  }

  lemma DigitsDiffer(a: nat, b: nat)
    requires a < 10 && b < 10 && DIGITS[a] == DIGITS[b]
    ensures a == b
  {
  }

  lemma NoSpace()
    ensures ' ' !in DIGITS
  {
  }

  lemma {:induction false} DecimalInjective(a: nat, b: nat)
    requires Decimal(a) == Decimal(b)
    ensures a == b
  {
    var s, t := Decimal(a), Decimal(b);
    assert s[|s| - 1] == DIGITS[a % 10] && t[|t| - 1] == DIGITS[b % 10];
    DigitsDiffer(a % 10, b % 10);
    assert a < 10 <==> |s| == 1;
    if a >= 10 {
      assert s[..|s| - 1] == Decimal(a / 10) && t[..|t| - 1] == Decimal(b / 10);
      DecimalInjective(a / 10, b / 10);
    }
  }

  /** A prompt that starts with its user's number and a space. */
  ghost predicate Numbered(u: User) { Decimal(u.id) + " " <= u.prompt }

  /** The prompts of two users differ before either ends. */
  lemma PromptsDiffer(u: User, v: User)
    requires Numbered(u) && Numbered(v) && u.id != v.id
    ensures exists i :: 0 <= i < |u.prompt| && i < |v.prompt| && u.prompt[i] != v.prompt[i]
  {
    hide Decimal;
    var a, b := Decimal(u.id), Decimal(v.id);
    DecimalDigits(u.id);
    DecimalDigits(v.id);
    NoSpace();
    if |a| == |b| {
      if a == b { DecimalInjective(u.id, v.id); }
      var i :| 0 <= i < |a| && a[i] != b[i];
      assert u.prompt[i] == a[i] && v.prompt[i] == b[i];
    } else if |a| < |b| {
      assert u.prompt[|a|] == ' ' && v.prompt[|a|] == b[|a|];
    } else {
      assert v.prompt[|b|] == ' ' && u.prompt[|b|] == a[|b|];
    }
  }

  lemma NumberedStep(cfg: Config, s: System, a: Action)
    requires ValidConfig(cfg) && Sized(cfg, s.g) && Enabled(cfg, s, a) && forall u :: u in Live(s) ==> Numbered(u)
    ensures forall u :: u in Live(Step(cfg, s, a)) ==> Numbered(u)
  {
    hide Decimal;
    match a
    case Pop(now, d) =>
      if !HeadDue(s.g.queue, now) { assert Numbered(NewUser(cfg, s.g, d)); }
    case Push(u, text, gaps, d, now) =>
      assert u in Live(s);
      if !Finishes(u) {
        var v := Advanced(cfg, u, text, d, now);
        assert Numbered(v);
        SpliceMembers(s.g.queue, InsertIndex(s.g.queue, v.start), v);
      }
  }

  /** In every run, no user's prompt is the start of another's: two that are
      queued or unanswered differ before either ends. */
  lemma {:induction false} PromptsDistinct(cfg: Config, acts: seq<Action>)
    requires ValidConfig(cfg) && Run(cfg, acts).Some?
    ensures var live := Live(Run(cfg, acts).value);
            && (forall u :: u in live ==> Numbered(u))
            && forall u, v :: u in live && v in live && u.id != v.id ==>
                 exists i :: 0 <= i < |u.prompt| && i < |v.prompt| && u.prompt[i] != v.prompt[i]
  {
    hide Step, Enabled, Sized, Numbered, Live;
    if acts == [] {
      NobodyYet(cfg);
    } else {
      var last := |acts| - 1;
      PromptsDistinct(cfg, acts[..last]);
      NumberedStep(cfg, Run(cfg, acts[..last]).value, acts[last]);
    }
    var live := Live(Run(cfg, acts).value);
    forall u, v | u in live && v in live && u.id != v.id
      ensures exists i :: 0 <= i < |u.prompt| && i < |v.prompt| && u.prompt[i] != v.prompt[i]
    {
      PromptsDiffer(u, v);
    }
  }

  lemma NobodyYet(cfg: Config)
    requires ValidConfig(cfg)
    ensures Live(System(Start(cfg), {})) == {}
  {
  }

  // ---- Statistics ----

  /** What was issued and received so far: per prompt and per answer its round and
      its tokens, and the total rounds of each user generated. */
  datatype Ledger = Ledger(prompts: seq<(nat, int)>, answers: seq<(nat, int)>, users: seq<nat>)

  function Entered(cfg: Config, s: System, a: Action, led: Ledger): Ledger
    requires ValidConfig(cfg)
  {
    match a
    case Pop(now, d) =>
      if HeadDue(s.g.queue, now) then led
      else led.(prompts := led.prompts + [(0, d.promptLen)], users := led.users + [PickRounds(cfg.cumulative, d.ratio)])
    case Push(u, _, gaps, d, _) =>
      var led' := led.(answers := led.answers + [(u.current, gaps + 1)]);
      if Finishes(u) then led' else led'.(prompts := led.prompts + [(u.current + 1, d.promptLen)])
  }

  function LedgerOf(cfg: Config, acts: seq<Action>): Ledger
    requires ValidConfig(cfg) && Run(cfg, acts).Some?
  {
    if acts == [] then Ledger([], [], [])
    else
      var last := |acts| - 1;
      Entered(cfg, Run(cfg, acts[..last]).value, acts[last], LedgerOf(cfg, acts[..last]))
  }

  function TokensAt(entries: seq<(nat, int)>, r: nat): int {
    if entries == [] then 0
    else TokensAt(entries[1..], r) + if entries[0].0 == r then entries[0].1 else 0
  }

  function CountAt(entries: seq<(nat, int)>, r: nat): nat {
    if entries == [] then 0 else CountAt(entries[1..], r) + if entries[0].0 == r then 1 else 0
  }

  /** Statistics are the sums and numbers of the entries, round by round. */
  ghost predicate StatsOk(st: Stats, entries: seq<(nat, int)>, rounds: nat) {
    && |st.tokens| == |st.count| == rounds
    && forall r: nat :: r < rounds ==> st.tokens[r] == TokensAt(entries, r) && st.count[r] == CountAt(entries, r)
  }

  lemma {:induction false} EntryNext(entries: seq<(nat, int)>, e: (nat, int), r: nat)
    ensures TokensAt(entries + [e], r) == TokensAt(entries, r) + if e.0 == r then e.1 else 0
    ensures CountAt(entries + [e], r) == CountAt(entries, r) + if e.0 == r then 1 else 0
  {
    if entries == [] {
      assert (entries + [e])[1..] == [];
    } else {
      EntryNext(entries[1..], e, r);
      assert (entries + [e])[1..] == entries[1..] + [e];
    }
  }

  lemma StatsNext(st: Stats, entries: seq<(nat, int)>, rounds: nat, r: nat, tokens: int)
    requires StatsOk(st, entries, rounds) && r < rounds
    ensures StatsOk(Bump(st, r, tokens), entries + [(r, tokens)], rounds)
  {
    hide TokensAt, CountAt;
    forall k: nat | k < rounds
      ensures Bump(st, r, tokens).tokens[k] == TokensAt(entries + [(r, tokens)], k)
      ensures Bump(st, r, tokens).count[k] == CountAt(entries + [(r, tokens)], k)
    {
      EntryNext(entries, (r, tokens), k);
    }
  }

  ghost predicate BooksOk(cfg: Config, g: Gen, led: Ledger) {
    && StatsOk(g.input, led.prompts, NumRounds(cfg)) && StatsOk(g.output, led.answers, NumRounds(cfg))
    && |g.totals| == NumRounds(cfg)
    && (forall k: nat :: k < NumRounds(cfg) ==> g.totals[k] == multiset(led.users)[k + 1])
    && g.nextId == |led.users|
  }

  lemma BooksStep(cfg: Config, s: System, a: Action, led: Ledger)
    requires ValidConfig(cfg) && Sized(cfg, s.g) && Enabled(cfg, s, a) && BooksOk(cfg, s.g, led)
    ensures BooksOk(cfg, Step(cfg, s, a).g, Entered(cfg, s, a, led))
  {
    hide StatsOk, Bump, Inserted;
    match a
    case Pop(now, d) =>
      if !HeadDue(s.g.queue, now) { StatsNext(s.g.input, led.prompts, NumRounds(cfg), 0, d.promptLen); }
    case Push(u, text, gaps, d, now) =>
      StatsNext(s.g.output, led.answers, NumRounds(cfg), u.current, gaps + 1);
      if !Finishes(u) { StatsNext(s.g.input, led.prompts, NumRounds(cfg), u.current + 1, d.promptLen); }
  }

  /** In every run the statistics are exactly what was issued and received: per
      round the tokens and the number of prompts and of answers, and per total
      number of rounds the users generated. */
  lemma {:induction false} StatsExact(cfg: Config, acts: seq<Action>)
    requires ValidConfig(cfg) && Run(cfg, acts).Some?
    ensures BooksOk(cfg, Run(cfg, acts).value.g, LedgerOf(cfg, acts))
  {
    hide Step, Enabled, Sized, BooksOk, Entered;
    if acts == [] {
      assert BooksOk(cfg, Start(cfg), Ledger([], [], [])) by { BooksStart(cfg); }
    } else {
      var last := |acts| - 1;
      StatsExact(cfg, acts[..last]);
      BooksStep(cfg, Run(cfg, acts[..last]).value, acts[last], LedgerOf(cfg, acts[..last]));
    }
  }

  lemma BooksStart(cfg: Config)
    requires ValidConfig(cfg)
    ensures BooksOk(cfg, Start(cfg), Ledger([], [], []))
  {
  }

  // ---- Sorted throughout a run ----

  /** A user that is queued again starts no later than the last one queued. */
  predicate InOrder(cfg: Config, s: System, a: Action)
    requires ValidConfig(cfg) && Enabled(cfg, s, a)
  {
    a.Push? && !Finishes(a.user) && s.g.queue != [] ==>
      Advanced(cfg, a.user, a.text, a.draw, a.now).start <= s.g.queue[|s.g.queue| - 1].start
  }

  lemma SortedStep(cfg: Config, s: System, a: Action)
    requires ValidConfig(cfg) && Sized(cfg, s.g) && Enabled(cfg, s, a) && Sorted(s.g.queue)
    ensures Sorted(Step(cfg, s, a).g.queue) <==> InOrder(cfg, s, a)
  {
    if a.Push? && !Finishes(a.user) {
      InsertSortedExactly(s.g.queue, Advanced(cfg, a.user, a.text, a.draw, a.now));
    }
  }

  ghost predicate SortedAt(cfg: Config, acts: seq<Action>)
    requires ValidConfig(cfg)
  {
    Run(cfg, acts).Some? && Sorted(Run(cfg, acts).value.g.queue)
  }

  ghost predicate InOrderAt(cfg: Config, acts: seq<Action>, a: Action)
    requires ValidConfig(cfg)
  {
    Run(cfg, acts).Some? && Enabled(cfg, Run(cfg, acts).value, a) && InOrder(cfg, Run(cfg, acts).value, a)
  }

  /** The queue is sorted in every state of a run, and so serves every due user,
      exactly if every user queued again starts no later than the last one. */
  lemma {:induction false} SortedRunExactly(cfg: Config, acts: seq<Action>)
    requires ValidConfig(cfg) && Run(cfg, acts).Some?
    ensures (forall n :: 0 <= n <= |acts| ==> SortedAt(cfg, acts[..n])) <==>
      forall n :: 0 <= n < |acts| ==> InOrderAt(cfg, acts[..n], acts[n])
  {
    hide Step, Enabled, InOrder, Sized, Sorted;
    assert acts[..|acts|] == acts;
    if acts == [] {
      assert SortedAt(cfg, acts) by { EmptySorted(cfg); }
    } else {
      var last := |acts| - 1;
      var before := acts[..last];
      SortedRunExactly(cfg, before);
      assert forall n :: 0 <= n <= last ==> before[..n] == acts[..n];
      assert forall n :: 0 <= n < last ==> before[n] == acts[n];
      if SortedAt(cfg, before) { SortedStep(cfg, Run(cfg, before).value, acts[last]); }
      assert SortedAt(cfg, before) ==> (SortedAt(cfg, acts) <==> InOrderAt(cfg, before, acts[last]));
      assert before[..last] == before;
    }
  }

  lemma EmptySorted(cfg: Config)
    requires ValidConfig(cfg)
    ensures Sorted(Start(cfg).queue)
  {
  }
}
