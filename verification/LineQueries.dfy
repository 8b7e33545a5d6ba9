/** Grouping resolved lines by chain length, and the queries that a benchmark
    run asks about a truncated copy of the lines. */
module LineQueries {
  import opened Sums
  import opened Redirects

  type Links = seq<Option<seq<nat>>>

  // ---- Groups ----

  predicate ValidLinks(links: Links, ring: set<nat>) {
    forall i: nat :: i < |links| && i !in ring ==> links[i].Some?
  }

  predicate InGroup(links: Links, ring: set<nat>, h: nat, i: nat)
    requires ValidLinks(links, ring) && i < |links|
  {
    i !in ring && |links[i].value| + 1 == h
  }

  /** The lines below `n` that take `h` hops, in line order. */
  function Members(links: Links, ring: set<nat>, h: nat, n: nat): seq<nat>
    requires ValidLinks(links, ring) && n <= |links|
  {
    if n == 0 then []
    else Members(links, ring, h, n - 1) + if InGroup(links, ring, h, n - 1) then [n - 1] else []
  }

  function GroupOf(groups: map<nat, seq<nat>>, h: nat): seq<nat> {
    if h in groups then groups[h] else []
  }

  ghost predicate GroupsUpTo(links: Links, ring: set<nat>, groups: map<nat, seq<nat>>, n: nat)
    requires ValidLinks(links, ring) && n <= |links|
  {
    forall h: nat :: GroupOf(groups, h) == Members(links, ring, h, n)
  }

  method GroupByHops(links: Links, ring: set<nat>) returns (groups: map<nat, seq<nat>>)
    requires ValidLinks(links, ring)
    ensures forall h: nat :: GroupOf(groups, h) == Members(links, ring, h, |links|)
  {
    hide GroupsUpTo, Members;
    groups := map[];
    var i := 0;
    GroupStart(links, ring);
    while i < |links|
      invariant i <= |links|
      invariant GroupsUpTo(links, ring, groups, i)
    {
      GroupNext(links, ring, groups, i);
      if i !in ring {
        var h := |links[i].value| + 1;
        groups := groups[h := GroupOf(groups, h) + [i]];
      }
      i := i + 1;
    }
    GroupDone(links, ring, groups);
  }

  lemma GroupStart(links: Links, ring: set<nat>)
    requires ValidLinks(links, ring)
    ensures GroupsUpTo(links, ring, map[], 0)
  {
  }

  lemma GroupDone(links: Links, ring: set<nat>, groups: map<nat, seq<nat>>)
    requires ValidLinks(links, ring) && GroupsUpTo(links, ring, groups, |links|)
    ensures forall h: nat :: GroupOf(groups, h) == Members(links, ring, h, |links|)
  {
  }

  lemma GroupNext(links: Links, ring: set<nat>, groups: map<nat, seq<nat>>, i: nat)
    requires ValidLinks(links, ring) && i < |links| && GroupsUpTo(links, ring, groups, i)
    ensures GroupsUpTo(links, ring,
                       if i in ring then groups
                       else var h := |links[i].value| + 1; groups[h := GroupOf(groups, h) + [i]], i + 1)
  {
    var next := if i in ring then groups
                else var h := |links[i].value| + 1; groups[h := GroupOf(groups, h) + [i]];
    forall h: nat ensures GroupOf(next, h) == Members(links, ring, h, i + 1) {
      assert GroupOf(groups, h) == Members(links, ring, h, i);
    }
  }

  /** A group lists each of its lines once, in ascending order, and nothing else. */
  lemma {:induction false} MembersExact(links: Links, ring: set<nat>, h: nat, n: nat)
    requires ValidLinks(links, ring) && n <= |links|
    ensures forall i: nat :: i in Members(links, ring, h, n) <==> i < n && InGroup(links, ring, h, i)
    ensures var m := Members(links, ring, h, n); forall a, b :: 0 <= a < b < |m| ==> m[a] < m[b]
  {
    if n != 0 {
      MembersExact(links, ring, h, n - 1);
      var init, m := Members(links, ring, h, n - 1), Members(links, ring, h, n);
      forall a, b | 0 <= a < b < |m| ensures m[a] < m[b] {
        assert m[a] == init[a];
        assert init[a] in Members(links, ring, h, n - 1);
        assert b < |init| ==> m[b] == init[b];
      }
    }
  }

  // ---- Resolving within a truncated text ----

  /** What a line of the text says. */
  datatype Line<V> = Content(value: V) | SameAs(target: nat)

  function TextOf<V>(r: Table, original: seq<V>): (text: seq<Line<V>>)
    requires |original| == |r|
    ensures |text| == |r|
  {
    seq(|r|, i requires 0 <= i < |r| => if r[i].Some? then SameAs(r[i].value) else Content(original[i]))
  }

  /** The first `n` entries, or all if there are fewer. */
  function Take<T>(s: seq<T>, n: nat): seq<T> { if n <= |s| then s[..n] else s }

  /** Reading `text` alone, line `q` leads to `v` through `k` references. */
  ghost predicate Resolves<V>(text: seq<Line<V>>, q: nat, k: nat, v: V)
    decreases k
  {
    q < |text| &&
    if k == 0 then text[q] == Content(v)
    else text[q].SameAs? && Resolves(text, text[q].target, k - 1, v)
  }

  ghost predicate Within(r: Table, q: nat, k: nat, n: nat)
    requires ValidTable(r) && q < |r|
  {
    forall j: nat :: j <= k ==> Hop(r, q, j).Some? && Hop(r, q, j).value < n
  }

  /** A truncated text resolves a line exactly as the table does, as long as the
      whole chain is in the part that was kept. */
  lemma {:induction false} ResolvesByTable<V>(r: Table, original: seq<V>, n: nat, q: nat, k: nat, v: V)
    requires ValidTable(r) && |original| == |r| && q < |r|
    ensures Resolves(Take(TextOf(r, original), n), q, k, v) <==>
      Within(r, q, k, n) && r[Hop(r, q, k).value].None? && original[Hop(r, q, k).value] == v
    decreases k
  {
    var text := Take(TextOf(r, original), n);
    if k == 0 {
      assert Hop(r, q, 0) == Some(q);
    } else if r[q].None? {
      assert Hop(r, q, 1) == None;
    } else {
      var t := r[q].value;
      forall j: nat ensures Hop(r, q, j + 1) == Hop(r, t, j) { HopAdd(r, q, 1, j); }
      ResolvesByTable(r, original, n, t, k - 1, v);
      assert Hop(r, q, k) == Hop(r, t, k - 1);
      if q < n && Within(r, t, k - 1, n) {
        forall j: nat | j <= k ensures Hop(r, q, j).Some? && Hop(r, q, j).value < n {
          if j != 0 { assert Hop(r, q, j) == Hop(r, t, j - 1); }
        }
      }
      if Within(r, q, k, n) {
        assert Hop(r, q, 0) == Some(q);
        forall j: nat | j <= k - 1 ensures Hop(r, t, j).Some? && Hop(r, t, j).value < n {
          assert Hop(r, q, j + 1) == Hop(r, t, j);
        }
      }
    }
  }

  // ---- Queries ----

  predicate Eligible(links: Links, src: int, q: nat)
    requires q < |links| && links[q].Some?
  {
    q < src && forall j :: 0 <= j < |links[q].value| ==> links[q].value[j] <= src
  }

  /** Everything a resolved data set is known to satisfy. */
  ghost predicate DataSet<V>(r: Table, original: seq<V>, links: Links, ring: set<nat>, values: seq<V>) {
    && ValidTable(r) && |original| == |links| == |values| == |r|
    && forall i: nat :: i < |r| ==> Resolved(r, original, i, links[i], i in ring, values[i])
  }

  /** A line can be resolved from the truncated text exactly when it is in no
      ring and the chain recorded for it stays within the kept part; the value
      found is then the recorded one. */
  lemma TruncationExact<V>(r: Table, original: seq<V>, links: Links, ring: set<nat>, values: seq<V>,
                           src: nat, q: nat, k: nat, v: V)
    requires DataSet(r, original, links, ring, values) && q < |r| && q < src
    ensures q in ring <==> links[q].None?
    ensures Resolves(Take(TextOf(r, original), src + 1), q, k, v) <==>
      q !in ring && Eligible(links, src, q) && k == |links[q].value| && v == values[q]
  {
    var n, link := src + 1, links[q];
    ResolvedMeaning(r, original, q, link, q in ring, values[q]);
    ResolvesByTable(r, original, n, q, k, v);
    if q in ring {
      assert Hop(r, q, k + 1).Some?;
    } else {
      var m := |link.value|;
      OnlyEnd(r, q, m, k);
      if k == m {
        WithinIsEligible(r, links, src, q);
      }
    }
  }

  lemma OnlyEnd(r: Table, q: nat, m: nat, k: nat)
    requires ValidTable(r) && q < |r| && Hop(r, q, m).Some? && r[Hop(r, q, m).value].None?
    ensures Hop(r, q, k).Some? && r[Hop(r, q, k).value].None? ==> k == m
  {
    assert Hop(r, q, m + 1) == None && (Hop(r, q, k).Some? && r[Hop(r, q, k).value].None? ==> Hop(r, q, k + 1) == None);
    if k < m { HopShorter(r, q, k + 1, m); }
    if m < k && Hop(r, q, k).Some? { HopShorter(r, q, m + 1, k); }
  }

  lemma WithinIsEligible(r: Table, links: Links, src: nat, q: nat)
    requires ValidTable(r) && q < |r| == |links| && q < src && links[q].Some?
    requires Hop(r, q, |links[q].value|).Some?
    requires forall j: nat :: j < |links[q].value| ==> Some(links[q].value[j]) == Hop(r, q, j + 1)
    ensures Within(r, q, |links[q].value|, src + 1) <==> Eligible(links, src, q)
  {
    var link := links[q].value;
    if Eligible(links, src, q) {
      forall j: nat | j <= |link| ensures Hop(r, q, j).Some? && Hop(r, q, j).value < src + 1 {
        if j != 0 { assert Some(link[j - 1]) == Hop(r, q, j); }
      }
    }
    if Within(r, q, |link|, src + 1) {
      forall j: nat | j < |link| ensures link[j] <= src {
        assert Some(link[j]) == Hop(r, q, j + 1);
      }
    }
  }

  /** The queries of a group that the truncated text can answer. */
  function Answerable(links: Links, group: seq<nat>, src: int): (qs: seq<nat>)
    requires forall i :: 0 <= i < |group| ==> group[i] < |links| && links[group[i]].Some?
    ensures forall q :: q in qs <==> q in group && Eligible(links, src, q)
  {
    if group == [] then []
    else (if Eligible(links, src, group[0]) then [group[0]] else []) + Answerable(links, group[1..], src)
  }

  /** The filter keeps the order of an increasing list. */
  lemma {:induction false} AnswerableOrdered(links: Links, group: seq<nat>, src: int)
    requires forall i :: 0 <= i < |group| ==> group[i] < |links| && links[group[i]].Some?
    requires Increasing(group)
    ensures Increasing(Answerable(links, group, src))
  {
    hide Eligible;
    if group != [] {
      var rest := Answerable(links, group[1..], src);
      AnswerableOrdered(links, group[1..], src);
      forall j | 0 <= j < |rest| ensures group[0] < rest[j] {
        assert rest[j] in rest;
        assert rest[j] in group[1..];
      }
    }
  }

  /** Position `k` is a fraction of the way into a list of `n`, the last if the
      fraction is beyond its end. */
  predicate IsShare(k: nat, n: nat, percent: real) {
    k < n && k as real <= n as real * percent && (k == n - 1 || n as real * percent < (k + 1) as real)
  }

  /** The query at a fraction of the list; an empty list is an index error. */
  function Pick(qs: seq<nat>, percent: real): (dst: Option<nat>)
    requires percent >= 0.0
    ensures dst.None? <==> qs == []
    ensures dst.Some? ==> dst.value in qs && exists k :: 0 <= k < |qs| && qs[k] == dst.value && IsShare(k, |qs|, percent)
  {
    if qs == [] then None
    else
      var k := (|qs| as real * percent).Floor;
      var at := if k < |qs| - 1 then k else |qs| - 1;
      assert IsShare(at, |qs|, percent);
      Some(qs[at])
  }

  /** The body cut in four, three quarters of equal length and the rest. */
  function Quarters<T>(body: seq<T>): (parts: seq<seq<T>>)
    ensures |parts| == 4
  {
    var p := |body| / 4;
    [body[..p], body[p..2 * p], body[2 * p..3 * p], body[3 * p..]]
  }

  lemma QuartersJoin<T>(body: seq<T>)
    ensures var parts := Quarters(body);
            && parts[0] + parts[1] + parts[2] + parts[3] == body
            && |parts[0]| == |parts[1]| == |parts[2]| <= |parts[3]| < |parts[0]| + 4
  {
  }

  datatype Query<V> = Query(parts: seq<seq<Line<V>>>, src: nat, dst: nat, expected: V)

  /** The generated data that an evaluation reads, for one number of hops. */
  datatype Data<V> = Data(text: seq<Line<V>>, links: Links, group: seq<nat>, values: seq<V>)

  predicate ValidData<V>(d: Data<V>) {
    && |d.links| == |d.values|
    && forall i :: 0 <= i < |d.group| ==> d.group[i] < |d.links| && d.links[d.group[i]].Some?
  }

  function MakeQuery<V>(d: Data<V>, src: nat, percent: real): Option<Query<V>>
    requires ValidData(d) && percent >= 0.0
  {
    match Pick(Answerable(d.links, d.group, src), percent)
    case None => None
    case Some(dst) => Some(Query(Quarters(Take(d.text, src + 1)), src, dst, d.values[dst]))
  }

  predicate ValidPercents(percents: seq<real>) {
    forall i :: 0 <= i < |percents| ==> percents[i] >= 0.0
  }

  /** The queries of the first `n` percentages at one source position. */
  function Row<V>(d: Data<V>, src: nat, percents: seq<real>, n: nat): Option<seq<Query<V>>>
    requires ValidData(d) && ValidPercents(percents) && n <= |percents|
  {
    if n == 0 then Some([])
    else match (Row(d, src, percents, n - 1), MakeQuery(d, src, percents[n - 1]))
      case (Some(qs), Some(q)) => Some(qs + [q])
      case _ => None
  }

  /** The queries of the first `m` source positions, an error if one has none. */
  function Batch<V>(d: Data<V>, srcs: seq<nat>, percents: seq<real>, m: nat): Option<seq<Query<V>>>
    requires ValidData(d) && ValidPercents(percents) && m <= |srcs|
  {
    if m == 0 then Some([])
    else match (Batch(d, srcs, percents, m - 1), Row(d, srcs[m - 1], percents, |percents|))
      case (Some(qs), Some(row)) => Some(qs + row)
      case _ => None
  }

  /** The inner loop: all percentages at one source position. */
  method BuildRow<V>(d: Data<V>, src: nat, percents: seq<real>) returns (row: Option<seq<Query<V>>>)
    requires ValidData(d) && ValidPercents(percents)
    ensures row == Row(d, src, percents, |percents|)
  {
    hide ValidData, Quarters, Answerable, Take, Pick;
    var out: seq<Query<V>> := [];
    var j := 0;
    while j < |percents|
      invariant j <= |percents|
      invariant Row(d, src, percents, j) == Some(out)
    {
      var query := MakeQuery(d, src, percents[j]);
      if query.None? {
        RowFails(d, src, percents, j, |percents|);
        return None;
      }
      out := out + [query.value];
      j := j + 1;
    }
    row := Some(out);
  }

  method BuildQueries<V>(d: Data<V>, srcs: seq<nat>, percents: seq<real>) returns (queries: Option<seq<Query<V>>>)
    requires ValidData(d) && ValidPercents(percents)
    ensures queries == Batch(d, srcs, percents, |srcs|)
  {
    hide ValidData, Row;
    var out: seq<Query<V>> := [];
    var i := 0;
    while i < |srcs|
      invariant i <= |srcs|
      invariant Batch(d, srcs, percents, i) == Some(out)
    {
      var row := BuildRow(d, srcs[i], percents);
      if row.None? {
        BatchFails(d, srcs, percents, i, |srcs|);
        return None;
      }
      out := out + row.value;
      i := i + 1;
    }
    queries := Some(out);
  }

  lemma {:induction false} RowFails<V>(d: Data<V>, src: nat, percents: seq<real>, j: nat, n: nat)
    requires ValidData(d) && ValidPercents(percents) && j < n <= |percents|
    requires MakeQuery(d, src, percents[j]).None?
    ensures Row(d, src, percents, n).None?
  {
    hide ValidData, MakeQuery;
    if j + 1 < n { RowFails(d, src, percents, j, n - 1); }
  }

  lemma {:induction false} BatchFails<V>(d: Data<V>, srcs: seq<nat>, percents: seq<real>, i: nat, m: nat)
    requires ValidData(d) && ValidPercents(percents) && i < m <= |srcs|
    requires Row(d, srcs[i], percents, |percents|).None?
    ensures Batch(d, srcs, percents, m).None?
  {
    hide ValidData, Row;
    if i + 1 < m { BatchFails(d, srcs, percents, i, m - 1); }
  }

  // ---- Every query can be answered from what is shown ----

  /** The parts make up the truncated text, and reading that text alone gives
      the expected value after the asked number of hops. */
  ghost predicate Sound<V>(text: seq<Line<V>>, hops: nat, q: Query<V>) {
    && |q.parts| == 4
    && q.parts[0] + q.parts[1] + q.parts[2] + q.parts[3] == Take(text, q.src + 1)
    && hops >= 1 && Resolves(Take(text, q.src + 1), q.dst, hops - 1, q.expected)
  }

  /** The data an evaluation loads from a generated data set. */
  ghost predicate Loaded<V>(r: Table, original: seq<V>, ring: set<nat>, hops: nat, d: Data<V>) {
    && DataSet(r, original, d.links, ring, d.values) && ValidLinks(d.links, ring)
    && d.text == TextOf(r, original) && d.group == Members(d.links, ring, hops, |d.links|)
  }

  lemma LoadedValid<V>(r: Table, original: seq<V>, ring: set<nat>, hops: nat, d: Data<V>)
    requires Loaded(r, original, ring, hops, d)
    ensures ValidData(d)
    ensures forall i :: 0 <= i < |d.group| ==> InGroup(d.links, ring, hops, d.group[i])
  {
    MembersExact(d.links, ring, hops, |d.links|);
    forall i | 0 <= i < |d.group|
      ensures d.group[i] < |d.links| && InGroup(d.links, ring, hops, d.group[i])
    {
      assert d.group[i] in Members(d.links, ring, hops, |d.links|);
    }
  }

  lemma QuerySound<V>(r: Table, original: seq<V>, ring: set<nat>, hops: nat, d: Data<V>, src: nat, percent: real)
    requires Loaded(r, original, ring, hops, d) && ValidData(d) && percent >= 0.0
    requires MakeQuery(d, src, percent).Some?
    ensures Sound(d.text, hops, MakeQuery(d, src, percent).value) && MakeQuery(d, src, percent).value.src == src
  {
    hide Resolves, Take, Quarters, TextOf, Members, Resolved;
    LoadedValid(r, original, ring, hops, d);
    var dst := MakeQuery(d, src, percent).value.dst;
    assert dst in Answerable(d.links, d.group, src);
    TruncationExact(r, original, d.links, ring, d.values, src, dst, hops - 1, d.values[dst]);
    QuartersJoin(Take(d.text, src + 1));
  }

  lemma {:induction false} RowSound<V>(r: Table, original: seq<V>, ring: set<nat>, hops: nat, d: Data<V>, src: nat,
                                       percents: seq<real>, n: nat)
    requires Loaded(r, original, ring, hops, d) && ValidData(d) && ValidPercents(percents) && n <= |percents|
    requires Row(d, src, percents, n).Some?
    ensures var qs := Row(d, src, percents, n).value;
            |qs| == n && forall j :: 0 <= j < n ==> Sound(d.text, hops, qs[j]) && qs[j].src == src
  {
    hide Loaded, Sound, MakeQuery, ValidData;
    if n != 0 {
      RowSound(r, original, ring, hops, d, src, percents, n - 1);
      QuerySound(r, original, ring, hops, d, src, percents[n - 1]);
    }
  }

  /** Every query of an evaluation shows its text in full and can be answered
      from it. */
  lemma {:induction false} BatchSound<V>(r: Table, original: seq<V>, ring: set<nat>, hops: nat, d: Data<V>,
                                         srcs: seq<nat>, percents: seq<real>, m: nat)
    requires Loaded(r, original, ring, hops, d) && ValidData(d) && ValidPercents(percents) && m <= |srcs|
    requires Batch(d, srcs, percents, m).Some?
    ensures var qs := Batch(d, srcs, percents, m).value;
            && |qs| == m * |percents|
            && forall t :: 0 <= t < |qs| ==> Sound(d.text, hops, qs[t]) && qs[t].src in srcs
  {
    hide Loaded, Sound, Row, ValidData;
    if m != 0 {
      BatchSound(r, original, ring, hops, d, srcs, percents, m - 1);
      RowSound(r, original, ring, hops, d, srcs[m - 1], percents, |percents|);
      assert m * |percents| == (m - 1) * |percents| + |percents|;
    }
  }

  lemma {:induction false} RowEntries<V>(d: Data<V>, src: nat, percents: seq<real>, n: nat)
    requires ValidData(d) && ValidPercents(percents) && n <= |percents| && Row(d, src, percents, n).Some?
    ensures var qs := Row(d, src, percents, n).value;
            |qs| == n && forall j :: 0 <= j < n ==> MakeQuery(d, src, percents[j]) == Some(qs[j])
  {
    hide MakeQuery, ValidData;
    if n != 0 { RowEntries(d, src, percents, n - 1); }
  }

  /** Queries come source position by source position, and percentage by
      percentage within one: each is the one made for its pair. */
  lemma {:induction false} BatchRows<V>(d: Data<V>, srcs: seq<nat>, percents: seq<real>, m: nat)
    returns (rows: seq<seq<Query<V>>>)
    requires ValidData(d) && ValidPercents(percents) && m <= |srcs| && Batch(d, srcs, percents, m).Some?
    ensures |rows| == m && Concat(rows) == Batch(d, srcs, percents, m).value
    ensures forall i :: 0 <= i < m ==> |rows[i]| == |percents|
    ensures forall i, j :: 0 <= i < m && 0 <= j < |percents| ==>
      MakeQuery(d, srcs[i], percents[j]) == Some(rows[i][j])
  {
    hide MakeQuery, ValidData, Row;
    rows := [];
    if m != 0 {
      var before := BatchRows(d, srcs, percents, m - 1);
      var row := Row(d, srcs[m - 1], percents, |percents|).value;
      RowEntries(d, srcs[m - 1], percents, |percents|);
      rows := before + [row];
      ConcatNext(before, row);
    }
  }

  /** A query is about its source position, and about the line at its percentage
      of those that can be resolved there. */
  lemma QueryPicked<V>(d: Data<V>, src: nat, percent: real) returns (k: nat)
    requires ValidData(d) && percent >= 0.0 && MakeQuery(d, src, percent).Some?
    ensures var q, qs := MakeQuery(d, src, percent).value, Answerable(d.links, d.group, src);
            q.src == src && k < |qs| && qs[k] == q.dst && IsShare(k, |qs|, percent)
  {
    hide Answerable, Quarters, Take, IsShare;
    var qs := Answerable(d.links, d.group, src);
    k :| 0 <= k < |qs| && qs[k] == Pick(qs, percent).value && IsShare(k, |qs|, percent);
  }

  /** An evaluation fails exactly when it asks something at a source position
      from which no line of the group can be resolved. */
  lemma {:induction false} BatchDefined<V>(d: Data<V>, srcs: seq<nat>, percents: seq<real>, m: nat)
    requires ValidData(d) && ValidPercents(percents) && m <= |srcs|
    ensures Batch(d, srcs, percents, m).None? <==>
      percents != [] && exists i :: 0 <= i < m && Answerable(d.links, d.group, srcs[i]) == []
  {
    hide ValidData, Row, Answerable;
    if m != 0 {
      BatchDefined(d, srcs, percents, m - 1);
      RowDefined(d, srcs[m - 1], percents, |percents|);
    }
  }

  lemma {:induction false} RowDefined<V>(d: Data<V>, src: nat, percents: seq<real>, n: nat)
    requires ValidData(d) && ValidPercents(percents) && n <= |percents|
    ensures Row(d, src, percents, n).None? <==> n > 0 && Answerable(d.links, d.group, src) == []
  {
    hide ValidData, Answerable, Quarters, Take;
    if n != 0 { RowDefined(d, src, percents, n - 1); }
  }

  // ---- From the redirect table to the queries ----

  /** Some line before `src` can be resolved in `hops` hops from the text up to
      `src` alone. */
  ghost predicate HasAnswer<V>(text: seq<Line<V>>, values: seq<V>, src: nat, hops: nat) {
    exists q: nat :: q < src && q < |values| && hops >= 1 && Resolves(Take(text, src + 1), q, hops - 1, values[q])
  }

  /** The filter finds a query exactly where the truncated text has an answer. */
  lemma AnswerableMeaning<V>(r: Table, original: seq<V>, ring: set<nat>, hops: nat, d: Data<V>, src: nat)
    requires Loaded(r, original, ring, hops, d) && ValidData(d)
    ensures Answerable(d.links, d.group, src) != [] <==> HasAnswer(d.text, d.values, src, hops)
  {
    hide Resolves, Take, TextOf, Members, Resolved, Answerable;
    LoadedValid(r, original, ring, hops, d);
    MembersExact(d.links, ring, hops, |d.links|);
    var qs := Answerable(d.links, d.group, src);
    if qs != [] {
      var q := qs[0];
      assert q in qs;
      TruncationExact(r, original, d.links, ring, d.values, src, q, hops - 1, d.values[q]);
    }
    if HasAnswer(d.text, d.values, src, hops) {
      var q: nat :| q < src && q < |d.values| && hops >= 1 &&
        Resolves(Take(d.text, src + 1), q, hops - 1, d.values[q]);
      TruncationExact(r, original, d.links, ring, d.values, src, q, hops - 1, d.values[q]);
      assert q in qs;
    }
  }

  lemma ResolvedIsLoaded<V>(r: Table, original: seq<V>, links: Links, ring: set<nat>, values: seq<V>, hops: nat,
                            d: Data<V>)
    requires DataSet(r, original, links, ring, values) && ValidLinks(links, ring)
    requires d == Data(TextOf(r, original), links, Members(links, ring, hops, |links|), values)
    ensures Loaded(r, original, ring, hops, d) && ValidData(d)
  {
    LoadedValid(r, original, ring, hops, d);
  }

  lemma ResolvedLinks<V>(r: Table, original: seq<V>, links: Links, ring: set<nat>, values: seq<V>)
    requires DataSet(r, original, links, ring, values)
    ensures ValidLinks(links, ring)
  {
    hide Resolved;
    forall i: nat | i < |links| && i !in ring ensures links[i].Some? {
      ResolvedMeaning(r, original, i, links[i], i in ring, values[i]);
    }
  }

  /** Resolve the lines in place, group them, and ask about them: every query can
      be answered from its own text, and the evaluation fails exactly if it asks
      something where no line can be. */
  method Evaluate<V>(r: Table, values: array<V>, hops: nat, srcs: seq<nat>, percents: seq<real>)
    returns (queries: Option<seq<Query<V>>>)
    requires ValidTable(r) && values.Length == |r| && ValidPercents(percents)
    modifies values
    ensures var text := TextOf(r, old(values[..]));
            && (queries.Some? ==>
                  && |queries.value| == |srcs| * |percents|
                  && forall t :: 0 <= t < |queries.value| ==>
                       Sound(text, hops, queries.value[t]) && queries.value[t].src in srcs)
            && (queries.None? <==>
                percents != [] && exists i :: 0 <= i < |srcs| && !HasAnswer(text, values[..], srcs[i], hops))
  {
    hide Resolved, Members, TextOf, Batch, Sound, HasAnswer, Answerable, ValidData;
    ghost var original := values[..];
    var text := TextOf(r, values[..]);
    var links, ring := ResolveAll(r, values);
    ResolvedLinks(r, original, links, ring, values[..]);
    var groups := GroupByHops(links, ring);
    var d := Data(text, links, GroupOf(groups, hops), values[..]);
    ResolvedIsLoaded(r, original, links, ring, values[..], hops, d);
    queries := BuildQueries(d, srcs, percents);
    if queries.Some? { BatchSound(r, original, ring, hops, d, srcs, percents, |srcs|); }
    BatchDefined(d, srcs, percents, |srcs|);
    forall i | 0 <= i < |srcs|
      ensures Answerable(d.links, d.group, srcs[i]) != [] <==> HasAnswer(text, values[..], srcs[i], hops)
    {
      AnswerableMeaning(r, original, ring, hops, d, srcs[i]);
    }
  }
}
