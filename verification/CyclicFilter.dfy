/** Filtering chat conversations by token lengths, over and over, until enough
    have been collected. The tokenizer is a function that gives a length. */
module CyclicFilter {
  import opened Sums

  /** Length bounds that may be absent, and an output length that may be fixed. */
  datatype Filter = Filter(
    tokens: string -> nat,
    minPrompt: Option<int>,
    minOutput: Option<int>,
    maxPrompt: Option<int>,
    maxOutput: Option<int>,
    fixedOutput: Option<int>)

  /** A question and its answer. */
  type Exchange = (string, string)

  datatype Turn = Turn(prompt: string, promptLen: int, outputLen: int)

  function Measure(f: Filter, x: Exchange): Turn {
    Turn(x.0, f.tokens(x.0), if f.fixedOutput.Some? then f.fixedOutput.value else f.tokens(x.1))
  }

  predicate Rejected(f: Filter, t: Turn) {
    || (f.minPrompt.Some? && t.promptLen < f.minPrompt.value)
    || (f.minOutput.Some? && t.outputLen < f.minOutput.value)
    || (f.maxPrompt.Some? && t.promptLen > f.maxPrompt.value)
    || (f.maxOutput.Some? && t.outputLen > f.maxOutput.value)
  }

  /** The turns of the first `n` exchanges that pass. */
  function Kept(f: Filter, chat: seq<Exchange>, n: nat): seq<Turn>
    requires n <= |chat|
  {
    if n == 0 then []
    else
      var t := Measure(f, chat[n - 1]);
      Kept(f, chat, n - 1) + if Rejected(f, t) then [] else [t]
  }

  function Filtered(f: Filter, chat: seq<Exchange>): seq<Turn> { Kept(f, chat, |chat|) }

  /** The non-empty filtered conversations among the first `n`. */
  function Survivors(f: Filter, data: seq<seq<Exchange>>, n: nat): seq<seq<Turn>>
    requires n <= |data|
  {
    if n == 0 then []
    else
      var chat := Filtered(f, data[n - 1]);
      Survivors(f, data, n - 1) + if chat == [] then [] else [chat]
  }

  function AllSurvivors(f: Filter, data: seq<seq<Exchange>>): seq<seq<Turn>> { Survivors(f, data, |data|) }

  function PromptTokens(turns: seq<Turn>): int {
    if turns == [] then 0 else PromptTokens(turns[..|turns| - 1]) + turns[|turns| - 1].promptLen
  }

  function OutputTokens(turns: seq<Turn>): int {
    if turns == [] then 0 else OutputTokens(turns[..|turns| - 1]) + turns[|turns| - 1].outputLen
  }

  // ---- What passes ----

  predicate Within(low: Option<int>, high: Option<int>, n: int) {
    (low.Some? ==> low.value <= n) && (high.Some? ==> n <= high.value)
  }

  /** The output length counted for an exchange. */
  function OutputLen(f: Filter, x: Exchange): int {
    match f.fixedOutput
    case Some(n) => n
    case None => f.tokens(x.1)
  }

  /** Both lengths lie within the bounds that are given. */
  predicate Passes(f: Filter, x: Exchange) {
    Within(f.minPrompt, f.maxPrompt, f.tokens(x.0)) && Within(f.minOutput, f.maxOutput, OutputLen(f, x))
  }

  predicate TurnWithin(f: Filter, t: Turn) {
    Within(f.minPrompt, f.maxPrompt, t.promptLen) && Within(f.minOutput, f.maxOutput, t.outputLen)
  }

  function TurnOf(f: Filter, x: Exchange): Turn { Turn(x.0, f.tokens(x.0), OutputLen(f, x)) }

  /** The exchanges below `n` that pass. */
  function Passing(f: Filter, chat: seq<Exchange>, n: nat): seq<nat>
    requires n <= |chat|
  {
    if n == 0 then [] else Passing(f, chat, n - 1) + if Passes(f, chat[n - 1]) then [n - 1] else []
  }

  lemma {:induction false} PassingExactly(f: Filter, chat: seq<Exchange>, n: nat)
    requires n <= |chat|
    ensures Increasing(Passing(f, chat, n))
    ensures forall j: nat :: j in Passing(f, chat, n) <==> j < n && Passes(f, chat[j])
  {
    hide Passes, Increasing;
    if n == 0 {
      assert Increasing([]) by { NoneIncreasing(); }
    } else {
      PassingExactly(f, chat, n - 1);
      var before := Passing(f, chat, n - 1);
      assert before + [] == before;
      if Passes(f, chat[n - 1]) { IncreasingNext(before, n - 1); }
    }
  }

  /** The turns kept are those of the exchanges that pass, each once, in order. */
  lemma {:induction false} KeptExactly(f: Filter, chat: seq<Exchange>, n: nat)
    requires n <= |chat|
    ensures |Kept(f, chat, n)| == |Passing(f, chat, n)|
    ensures forall k :: 0 <= k < |Kept(f, chat, n)| ==>
      Passing(f, chat, n)[k] < |chat| && Kept(f, chat, n)[k] == TurnOf(f, chat[Passing(f, chat, n)[k]])
  {
    if n != 0 {
      KeptExactly(f, chat, n - 1);
      PassesExactly(f, chat[n - 1]);
    }
  }

  lemma PassesExactly(f: Filter, x: Exchange)
    ensures Passes(f, x) <==> !Rejected(f, Measure(f, x))
    ensures Measure(f, x) == TurnOf(f, x)
  {
  }

  /** Every turn that is kept lies within the bounds. */
  lemma KeptWithin(f: Filter, chat: seq<Exchange>)
    ensures forall k :: 0 <= k < |Filtered(f, chat)| ==> TurnWithin(f, Filtered(f, chat)[k])
  {
    hide Kept, Within, Passing;
    KeptExactly(f, chat, |chat|);
    PassingExactly(f, chat, |chat|);
    forall k | 0 <= k < |Filtered(f, chat)| ensures TurnWithin(f, Filtered(f, chat)[k]) {
      assert Passing(f, chat, |chat|)[k] in Passing(f, chat, |chat|);
    }
  }

  lemma SomePasses(f: Filter, chat: seq<Exchange>)
    ensures Filtered(f, chat) != [] <==> exists j :: 0 <= j < |chat| && Passes(f, chat[j])
  {
    hide Kept, Passes, Passing;
    var at := Passing(f, chat, |chat|);
    KeptExactly(f, chat, |chat|);
    PassingExactly(f, chat, |chat|);
    if at != [] { assert at[0] in at; }
  }

  predicate SomePassing(f: Filter, chat: seq<Exchange>) { exists j :: 0 <= j < |chat| && Passes(f, chat[j]) }

  /** The conversations below `n` with an exchange that passes. */
  function Surviving(f: Filter, data: seq<seq<Exchange>>, n: nat): seq<nat>
    requires n <= |data|
  {
    if n == 0 then [] else Surviving(f, data, n - 1) + if SomePassing(f, data[n - 1]) then [n - 1] else []
  }

  lemma {:induction false} SurvivingExactly(f: Filter, data: seq<seq<Exchange>>, n: nat)
    requires n <= |data|
    ensures Increasing(Surviving(f, data, n))
    ensures forall i: nat :: i in Surviving(f, data, n) <==> i < n && SomePassing(f, data[i])
  {
    hide SomePassing, Increasing;
    if n == 0 {
      assert Increasing([]) by { NoneIncreasing(); }
    } else {
      SurvivingExactly(f, data, n - 1);
      var before := Surviving(f, data, n - 1);
      assert before + [] == before;
      if SomePassing(f, data[n - 1]) { IncreasingNext(before, n - 1); }
    }
  }

  /** The conversations that survive are those with an exchange that passes, each
      once and in order, filtered. */
  lemma {:induction false} SurvivorsExactly(f: Filter, data: seq<seq<Exchange>>, n: nat)
    requires n <= |data|
    ensures |Survivors(f, data, n)| == |Surviving(f, data, n)|
    ensures forall k :: 0 <= k < |Survivors(f, data, n)| ==>
      Surviving(f, data, n)[k] < |data| && Survivors(f, data, n)[k] == Filtered(f, data[Surviving(f, data, n)[k]])
  {
    hide Filtered, Passes;
    if n != 0 {
      SurvivorsExactly(f, data, n - 1);
      SomePasses(f, data[n - 1]);
    }
  }

  // ---- When the loop ends ----

  /** One sweep over the data, stopping as soon as `num` are collected. */
  function Sweep(survivors: seq<seq<Turn>>, num: int, out: seq<seq<Turn>>): seq<seq<Turn>> {
    if |out| + |survivors| <= num then out + survivors
    else if |out| <= num then out + survivors[..num - |out|]
    else out
  }

  /** The list after `n` sweeps; sweeping stops when the list is long enough. */
  function Sweeps(survivors: seq<seq<Turn>>, num: int, n: nat): seq<seq<Turn>> {
    if n == 0 then []
    else
      var out := Sweeps(survivors, num, n - 1);
      if |out| < num then Sweep(survivors, num, out) else out
  }

  /** The filter's loop ends exactly when nothing is asked for or some exchange
      passes. */
  lemma EndsExactly(f: Filter, data: seq<seq<Exchange>>, num: int)
    ensures (exists n: nat :: |Sweeps(AllSurvivors(f, data), num, n)| >= num) <==>
      num <= 0 || exists i, j :: 0 <= i < |data| && 0 <= j < |data[i]| && Passes(f, data[i][j])
  {
    SomeSurvivor(f, data, |data|);
    var fs := AllSurvivors(f, data);
    if num <= 0 {
      assert |Sweeps(fs, num, 0)| >= num;
    } else if fs == [] {
      forall n: nat ensures |Sweeps(fs, num, n)| < num { NoSweepHelps(num, n); }
    } else {
      SweepsGrow(fs, num, num);
    }
  }

  /** One exchange, with a prompt longer than the bound, is swept for ever. */
  lemma EndlessWitness(tokens: string -> nat, prompt: string, answer: string, num: int, n: nat)
    requires num > 0 && tokens(prompt) > 0
    ensures var f := Filter(tokens, None, None, Some(0), None, None);
            |Sweeps(AllSurvivors(f, [[(prompt, answer)]]), num, n)| < num
  {
    hide Sweeps, Survivors;
    var f, data := Filter(tokens, None, None, Some(0), None, None), [[(prompt, answer)]];
    assert !Passes(f, data[0][0]);
    EndsExactly(f, data, num);
  }

  lemma {:induction false} NoSweepHelps(num: int, n: nat)
    requires num > 0
    ensures Sweeps([], num, n) == []
  {
    if n != 0 { NoSweepHelps(num, n - 1); }
  }

  lemma {:induction false} SweepsGrow(survivors: seq<seq<Turn>>, num: int, n: nat)
    requires survivors != []
    ensures |Sweeps(survivors, num, n)| >= num || |Sweeps(survivors, num, n)| >= n
  {
    if n != 0 { SweepsGrow(survivors, num, n - 1); }
  }

  lemma SomeSurvivor(f: Filter, data: seq<seq<Exchange>>, n: nat)
    requires n <= |data|
    ensures Survivors(f, data, n) != [] <==>
      exists i, j :: 0 <= i < n && 0 <= j < |data[i]| && Passes(f, data[i][j])
  {
    hide Survivors, Passes, Surviving;
    var at := Surviving(f, data, n);
    SurvivorsExactly(f, data, n);
    SurvivingExactly(f, data, n);
    if at != [] { assert at[0] in at; }
    if i, j :| 0 <= i < n && 0 <= j < |data[i]| && Passes(f, data[i][j]) { assert SomePassing(f, data[i]); }
  }

  /** No conversation of the result is empty. */
  lemma {:induction false} SurvivorsNonEmpty(f: Filter, data: seq<seq<Exchange>>, n: nat)
    requires n <= |data|
    ensures forall k :: 0 <= k < |Survivors(f, data, n)| ==> Survivors(f, data, n)[k] != []
  {
    if n != 0 { SurvivorsNonEmpty(f, data, n - 1); }
  }

  lemma {:induction false} SurvivorsPrefix(f: Filter, data: seq<seq<Exchange>>, n: nat, m: nat)
    requires n <= m <= |data|
    ensures Survivors(f, data, n) <= Survivors(f, data, m)
  {
    if n < m { SurvivorsPrefix(f, data, n, m - 1); }
  }

  // ---- One conversation ----

  /** One conversation of the result, a list that later stages change in place. */
  class ChatList {
    var turns: seq<Turn>

    constructor ()
      ensures turns == []
    {
      turns := [];
    }
  }

  lemma NoTokens(turns: seq<Turn>)
    requires |turns| == 0
    ensures PromptTokens(turns) == 0 && OutputTokens(turns) == 0
  {
  }

  lemma TokensNext(turns: seq<Turn>, t: Turn)
    ensures PromptTokens(turns + [t]) == PromptTokens(turns) + t.promptLen
    ensures OutputTokens(turns + [t]) == OutputTokens(turns) + t.outputLen
  {
    assert (turns + [t])[..|turns|] == turns;
  }

  /** Collect the turns of one conversation that pass, in a new list. */
  method Process(f: Filter, chat: seq<Exchange>) returns (list: ChatList, input: int, output: int)
    ensures fresh(list) && list.turns == Filtered(f, chat)
    ensures forall k :: 0 <= k < |list.turns| ==> TurnWithin(f, list.turns[k])
    ensures input == PromptTokens(list.turns) && output == OutputTokens(list.turns)
  {
    KeptWithin(f, chat);
    hide TurnWithin, Measure, Rejected, PromptTokens, OutputTokens;
    list := new ChatList();
    NoTokens(list.turns);
    input, output := 0, 0;
    var j := 0;
    while j < |chat|
      invariant j <= |chat| && fresh(list) && list.turns == Kept(f, chat, j)
      invariant input == PromptTokens(list.turns) && output == OutputTokens(list.turns)
    {
      var t := Measure(f, chat[j]);
      if !Rejected(f, t) {
        input, output := input + t.promptLen, output + t.outputLen;
        TokensNext(list.turns, t);
        list.turns := list.turns + [t];
      }
      j := j + 1;
    }
  }

  lemma MulSteps(d: int, m: nat)
    ensures d >= 1 ==> d * m >= m
    ensures d <= -1 ==> d * m + m <= 0
  {
    if d >= 1 { assert d * m == (d - 1) * m + m; }
    if d <= -1 { assert d * m == (d + 1) * m - m; }
  }

  lemma ModUnique(a: nat, m: nat, q: nat, r: nat)
    requires r < m && a == q * m + r
    ensures a % m == r
  {
    var d := q - a / m;
    assert d * m == q * m - a / m * m;
    MulSteps(d, m);
  }

  lemma ModAdd(a: nat, m: nat, b: nat)
    requires m >= 1 && b % m == 0
    ensures (b + a) % m == a % m
  {
    assert b + a == b / m * m + (a / m * m + a % m);
    assert b / m * m + a / m * m == (b / m + a / m) * m;
    ModUnique(b + a, m, b / m + a / m, a % m);
  }

  lemma ModSelf(a: nat, m: nat)
    requires m >= 1
    ensures a < m ==> a % m == a
    ensures m % m == 0
  {
    if a < m { ModUnique(a, m, 0, a); }
    ModUnique(m, m, 1, 0);
  }

  /** Entry `k` is survivor `k` modulo their number. */
  ghost predicate Cyclic(chats: seq<seq<Turn>>, survivors: seq<seq<Turn>>)
    requires survivors != []
  {
    forall k :: 0 <= k < |chats| ==> chats[k] == survivors[k % |survivors|]
  }

  /** After any number of passes the list is a piece of the endless repetition of
      the survivors; before the last pass it ends with a whole repetition. */
  lemma {:induction false} SweepsCyclic(survivors: seq<seq<Turn>>, num: nat, n: nat)
    requires survivors != []
    ensures var out := Sweeps(survivors, num, n);
            && |out| <= num && Cyclic(out, survivors)
            && (|out| < num ==> |out| % |survivors| == 0)
  {
    ModSelf(0, |survivors|);
    if n != 0 {
      SweepsCyclic(survivors, num, n - 1);
      var out := Sweeps(survivors, num, n - 1);
      if |out| < num { SweepCyclic(survivors, num, out); }
    }
  }

  lemma SweepCyclic(survivors: seq<seq<Turn>>, num: nat, out: seq<seq<Turn>>)
    requires survivors != [] && |out| < num && Cyclic(out, survivors) && |out| % |survivors| == 0
    ensures var next := Sweep(survivors, num, out);
            |next| <= num && Cyclic(next, survivors) && (|next| < num ==> |next| % |survivors| == 0)
  {
    var next, m := Sweep(survivors, num, out), |survivors|;
    forall k | 0 <= k < |next| ensures next[k] == survivors[k % m] {
      if k >= |out| {
        ModAdd(k - |out|, m, |out|);
        ModSelf(k - |out|, m);
      }
    }
    ModAdd(m, m, |out|);
    ModSelf(m, m);
  }

  // ---- The loop ----

  ghost function Contents(out: seq<ChatList>): (r: seq<seq<Turn>>)
    reads out
    ensures |r| == |out| && forall i :: 0 <= i < |r| ==> r[i] == out[i].turns
  {
    seq(|out|, i requires 0 <= i < |out| reads out => out[i].turns)
  }

  function PromptSum(chats: seq<seq<Turn>>): int {
    if chats == [] then 0 else PromptSum(chats[..|chats| - 1]) + PromptTokens(chats[|chats| - 1])
  }

  function OutputSum(chats: seq<seq<Turn>>): int {
    if chats == [] then 0 else OutputSum(chats[..|chats| - 1]) + OutputTokens(chats[|chats| - 1])
  }

  /** Different lists with these contents, and the two totals. */
  ghost predicate Collected(out: seq<ChatList>, chats: seq<seq<Turn>>, input: int, output: int)
    reads out
  {
    Unique(out) && Contents(out) == chats && input == PromptSum(chats) && output == OutputSum(chats)
  }

  lemma NothingCollected()
    ensures Collected([], [], 0, 0)
  {
  }

  lemma TotalsNext(chats: seq<seq<Turn>>, chat: seq<Turn>)
    ensures PromptSum(chats + [chat]) == PromptSum(chats) + PromptTokens(chat)
    ensures OutputSum(chats + [chat]) == OutputSum(chats) + OutputTokens(chat)
  {
    hide PromptTokens, OutputTokens;
    assert (chats + [chat])[..|chats|] == chats;
  }

  lemma CollectedNext(out: seq<ChatList>, chats: seq<seq<Turn>>, input: int, output: int, list: ChatList)
    requires Collected(out, chats, input, output) && list !in out
    ensures Collected(out + [list], chats + [list.turns], input + PromptTokens(list.turns),
                      output + OutputTokens(list.turns))
  {
    hide PromptTokens, OutputTokens, PromptSum, OutputSum, Unique, Contents;
    UniqueNext(out, list);
    TotalsNext(chats, list.turns);
    assert Contents(out + [list]) == chats + [list.turns];
  }

  lemma SurvivorsNext(f: Filter, data: seq<seq<Exchange>>, i: nat)
    requires i < |data|
    ensures var chat, before := Filtered(f, data[i]), Survivors(f, data, i);
            Survivors(f, data, i + 1) == if chat == [] then before else before + [chat]
  {
  }

  /** A pass that stops after `i` conversations, or at the end, is a sweep. */
  lemma PassIsSweep(f: Filter, data: seq<seq<Exchange>>, num: int, start: seq<seq<Turn>>, i: nat)
    requires i <= |data| && |start| + |Survivors(f, data, i)| <= num
    requires i == |data| || |start| + |Survivors(f, data, i)| == num
    ensures start + Survivors(f, data, i) == Sweep(AllSurvivors(f, data), num, start)
  {
    hide Survivors;
    SurvivorsPrefix(f, data, i, |data|);
  }

  /** One pass over the data, stopping when `num` lists are there. */
  method SweepOnce(num: int, data: seq<seq<Exchange>>, f: Filter, start: seq<ChatList>, input0: int, output0: int)
    returns (out: seq<ChatList>, input: int, output: int)
    requires |start| < num && Collected(start, Contents(start), input0, output0)
    ensures Collected(out, Sweep(AllSurvivors(f, data), num, old(Contents(start))), input, output)
    ensures start <= out && forall k :: |start| <= k < |out| ==> fresh(out[k])
  {
    hide Collected, Filtered, PromptTokens, OutputTokens, Survivors, Sweep;
    out, input, output := start, input0, output0;
    ghost var before := Contents(start);
    var i := 0;
    assert before + Survivors(f, data, 0) == before by { NoSurvivors(f, data); }
    while i < |data|
      invariant i <= |data| && |out| <= num && |out| == |before + Survivors(f, data, i)|
      invariant Collected(out, before + Survivors(f, data, i), input, output)
      invariant start <= out && forall k :: |start| <= k < |out| ==> fresh(out[k])
    {
      if |out| == num {
        PassIsSweep(f, data, num, before, i);
        return;
      }
      var list, more, longer := Process(f, data[i]);
      SurvivorsNext(f, data, i);
      if |list.turns| != 0 {
        CollectedNext(out, before + Survivors(f, data, i), input, output, list);
        assert before + Survivors(f, data, i) + [list.turns] == before + Survivors(f, data, i + 1);
        out := out + [list];
        input, output := input + more, output + longer;
      }
      i := i + 1;
    }
    PassIsSweep(f, data, num, before, i);
  }

  lemma NoSurvivors(f: Filter, data: seq<seq<Exchange>>)
    ensures Survivors(f, data, 0) == []
  {
  }

  lemma SweepSize(survivors: seq<seq<Turn>>, num: int, out: seq<seq<Turn>>)
    requires survivors != [] && |out| < num
    ensures |out| < |Sweep(survivors, num, out)| <= num
  {
  }

  /** The whole loop, where it ends: after `n` passes. */
  method FilterChat(num: int, data: seq<seq<Exchange>>, f: Filter)
    returns (out: seq<ChatList>, input: int, output: int, ghost n: nat)
    requires num <= 0 || AllSurvivors(f, data) != []
    ensures Collected(out, Sweeps(AllSurvivors(f, data), num, n), input, output)
    ensures |out| == (if num <= 0 then 0 else num)
    ensures num > 0 ==> Cyclic(Contents(out), AllSurvivors(f, data))
    ensures Unique(out) && forall k :: 0 <= k < |out| ==> fresh(out[k])
    ensures input == PromptSum(Contents(out)) && output == OutputSum(Contents(out))
    ensures forall k, i :: 0 <= k < |out| && 0 <= i < |out[k].turns| ==> TurnWithin(f, out[k].turns[i])
  {
    hide TurnWithin, AllSurvivors, Cyclic, PromptSum, OutputSum, Sweep, Unique, Contents;
    out, input, output, n := [], 0, 0, 0;
    NothingCollected();
    if num <= 0 { return; }
    ghost var fs := AllSurvivors(f, data);
    while |out| < num
      invariant |out| <= num && Collected(out, Sweeps(fs, num, n), input, output)
      invariant forall k :: 0 <= k < |out| ==> fresh(out[k])
      decreases num - |out|
    {
      SweepSize(fs, num, Contents(out));
      out, input, output := SweepOnce(num, data, f, out, input, output);
      n := n + 1;
    }
    SweepsCyclic(fs, num, n);
    CyclicWithin(f, data, Contents(out));
  }

  lemma CyclicWithin(f: Filter, data: seq<seq<Exchange>>, chats: seq<seq<Turn>>)
    requires AllSurvivors(f, data) != [] && Cyclic(chats, AllSurvivors(f, data))
    ensures forall k, i :: 0 <= k < |chats| && 0 <= i < |chats[k]| ==> TurnWithin(f, chats[k][i])
  {
    hide Survivors, TurnWithin, Filtered;
    var at, fs := Surviving(f, data, |data|), AllSurvivors(f, data);
    SurvivorsExactly(f, data, |data|);
    forall k, i | 0 <= k < |chats| && 0 <= i < |chats[k]| ensures TurnWithin(f, chats[k][i]) {
      KeptWithin(f, data[at[k % |fs|]]);
    }
  }

  // ---- Repeating and truncating a prompt ----

  function Repeat<T>(ids: seq<T>, times: nat): seq<T> {
    if times == 0 then [] else ids + Repeat(ids, times - 1)
  }

  /** Token ids stretched or cut to `n`. */
  function Fit<T>(ids: seq<T>, n: nat): seq<T>
    requires ids != []
  {
    if |ids| > n then ids[..n]
    else
      var ratio := (n + |ids| - 1) / |ids|;
      RepeatLength(ids, ratio);
      EnoughRepeats(n, |ids|);
      Repeat(ids, ratio)[..n]
  }

  lemma {:induction false} RepeatLength<T>(ids: seq<T>, times: nat)
    ensures |Repeat(ids, times)| == times * |ids|
  {
    if times != 0 { RepeatLength(ids, times - 1); }
  }

  lemma EnoughRepeats(n: nat, m: nat)
    requires m >= 1
    ensures (n + m - 1) / m * m >= n
  {
    var a := n + m - 1;
    assert a == a / m * m + a % m && a % m <= m - 1;
  }

  lemma {:induction false} RepeatAt<T>(ids: seq<T>, times: nat, k: nat)
    requires ids != [] && k < |Repeat(ids, times)|
    ensures Repeat(ids, times)[k] == ids[k % |ids|]
    decreases times
  {
    if k >= |ids| {
      RepeatAt(ids, times - 1, k - |ids|);
      ModSelf(|ids|, |ids|);
      ModAdd(k - |ids|, |ids|, |ids|);
    }
  }

  /** The result has exactly the asked length and repeats the ids cyclically. */
  lemma FitCyclic<T>(ids: seq<T>, n: nat, k: nat)
    requires ids != [] && k < n
    ensures |Fit(ids, n)| == n && Fit(ids, n)[k] == ids[k % |ids|]
  {
    if |ids| <= n {
      var ratio := (n + |ids| - 1) / |ids|;
      RepeatLength(ids, ratio);
      EnoughRepeats(n, |ids|);
      RepeatAt(ids, ratio, k);
    }
  }
}
