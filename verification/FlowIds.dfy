/** Flow arrows between linked spans: each link becomes a start node at its
    target and an end node at its source; a target keeps the id it got first,
    and new ids come from a counter. */
module FlowIds {
  import opened Sums

  datatype Node = Start(id: int, at: nat) | End(id: int, at: nat)

  datatype Flow = Flow(id: int, source: nat, target: nat)

  function Nodes(flows: seq<Flow>): seq<Node> {
    if flows == [] then []
    else Nodes(flows[..|flows| - 1]) + PairOf(flows[|flows| - 1])
  }

  function PairOf(f: Flow): seq<Node> { [Start(f.id, f.target), End(f.id, f.source)] }

  /** The links of one span whose target was converted. */
  function Usable(targets: seq<nat>, converted: set<nat>): seq<nat> {
    if targets == [] then []
    else
      var last := |targets| - 1;
      Usable(targets[..last], converted) + if targets[last] in converted then [targets[last]] else []
  }

  /** All usable links of a list of spans, as (source, target). */
  function AllLinks(spans: seq<nat>, links: map<nat, seq<nat>>, converted: set<nat>): seq<(nat, nat)> {
    if spans == [] then []
    else
      var last := |spans| - 1;
      AllLinks(spans[..last], links, converted) +
      From(spans[last], if spans[last] in links then Usable(links[spans[last]], converted) else [])
  }

  function From(source: nat, targets: seq<nat>): (r: seq<(nat, nat)>)
    ensures |r| == |targets|
    ensures forall i :: 0 <= i < |r| ==> r[i] == (source, targets[i])
  {
    seq(|targets|, i requires 0 <= i < |targets| => (source, targets[i]))
  }

  lemma CountNext(xs: seq<nat>, y: nat, x: nat)
    ensures multiset(xs + [y])[x] == multiset(xs)[x] + if x == y then 1 else 0
  {
  }

  /** Exactly the converted targets are usable, as often as they are linked, and
      in the order of the links. */
  lemma {:induction false} UsableExact(targets: seq<nat>, converted: set<nat>, x: nat)
    ensures multiset(Usable(targets, converted))[x] == if x in converted then multiset(targets)[x] else 0
  {
    if targets != [] {
      var last := |targets| - 1;
      var before, t := targets[..last], targets[last];
      UsableExact(before, converted, x);
      assert targets == before + [t];
      CountNext(before, t, x);
      CountNext(Usable(before, converted), t, x);
      assert Usable(before, converted) + [] == Usable(before, converted);
    }
  }

  lemma {:induction false} UsableConcat(a: seq<nat>, b: seq<nat>, converted: set<nat>)
    ensures Usable(a + b, converted) == Usable(a, converted) + Usable(b, converted)
  {
    if b == [] {
      assert a + b == a;
    } else {
      var last := |b| - 1;
      UsableConcat(a, b[..last], converted);
      assert (a + b)[..|a| + last] == a + b[..last];
      assert Usable(b, converted) == Usable(b[..last], converted) + if b[last] in converted then [b[last]] else [];
    }
  }

  function LinksFrom(x: nat, links: map<nat, seq<nat>>, converted: set<nat>): seq<(nat, nat)> {
    From(x, if x in links then Usable(links[x], converted) else [])
  }

  lemma LinksSnoc(spans: seq<nat>, x: nat, links: map<nat, seq<nat>>, converted: set<nat>)
    ensures AllLinks(spans + [x], links, converted) ==
      AllLinks(spans, links, converted) + LinksFrom(x, links, converted)
  {
    hide Usable, From;
    assert (spans + [x])[..|spans|] == spans;
  }

  /** Links come span by span, each span's in its own order. */
  lemma {:induction false} LinksConcat(a: seq<nat>, b: seq<nat>, links: map<nat, seq<nat>>, converted: set<nat>)
    ensures AllLinks(a + b, links, converted) == AllLinks(a, links, converted) + AllLinks(b, links, converted)
  {
    hide AllLinks, LinksFrom;
    if b == [] {
      assert a + b == a;
      NoLinks(links, converted);
    } else {
      var last := |b| - 1;
      var first, x := b[..last], b[last];
      LinksConcat(a, first, links, converted);
      LinksSnoc(a + first, x, links, converted);
      LinksSnoc(first, x, links, converted);
      assert b == first + [x];
      ConcatAssociates(a, first, [x]);
      ConcatAssociates(AllLinks(a, links, converted), AllLinks(first, links, converted), LinksFrom(x, links, converted));
    }
  }

  lemma NoLinks(links: map<nat, seq<nat>>, converted: set<nat>)
    ensures AllLinks([], links, converted) == []
  {
  }

  lemma LinksOne(x: nat, links: map<nat, seq<nat>>, converted: set<nat>)
    ensures AllLinks([x], links, converted) ==
      From(x, if x in links then Usable(links[x], converted) else [])
  {
    hide Usable, From;
    assert [x][..0] == [] && AllLinks([], links, converted) == [];
  }

  // ---- Handing out ids ----

  /** Targets of the links that had no id, in order of first use. */
  function Fresh(known: set<nat>, ps: seq<(nat, nat)>): (r: seq<nat>)
  {
    if ps == [] then []
    else
      var last := |ps| - 1;
      var before := Fresh(known, ps[..last]);
      if ps[last].1 in known || ps[last].1 in before then before else before + [ps[last].1]
  }

  lemma {:induction false} FreshExact(known: set<nat>, ps: seq<(nat, nat)>)
    ensures Unique(Fresh(known, ps))
    ensures forall t :: t in Fresh(known, ps) <==> t !in known && exists i :: 0 <= i < |ps| && ps[i].1 == t
  {
    if ps != [] {
      var last := |ps| - 1;
      var before, f := Fresh(known, ps[..last]), Fresh(known, ps);
      FreshExact(known, ps[..last]);
      assert ps == ps[..last] + [ps[last]];
      assert f == before || (f == before + [ps[last].1] && ps[last].1 !in before);
    }
  }

  /** Ids after the targets in `newly` were numbered from 0. */
  ghost predicate Numbered(given: map<nat, int>, newly: seq<nat>, ids: map<nat, int>) {
    && (forall t :: t in given ==> t in ids && ids[t] == given[t])
    && (forall i :: 0 <= i < |newly| ==> newly[i] !in given && newly[i] in ids && ids[newly[i]] == i)
    && (forall t :: t in ids ==> t in given || t in newly)
  }

  /** One flow per link, each with the id of its target. */
  ghost predicate FlowsOf(ps: seq<(nat, nat)>, ids: map<nat, int>, flows: seq<Flow>) {
    && |flows| == |ps|
    && forall k :: 0 <= k < |ps| ==> ps[k].1 in ids && flows[k] == Flow(ids[ps[k].1], ps[k].0, ps[k].1)
  }

  /** The linker's state after the links `ps`. */
  ghost predicate Linked(given: map<nat, int>, ps: seq<(nat, nat)>, ids: map<nat, int>, next: nat, flows: seq<Flow>) {
    && Numbered(given, Fresh(given.Keys, ps), ids) && next == |Fresh(given.Keys, ps)|
    && FlowsOf(ps, ids, flows)
  }

  /** One more link: its target keeps its id or gets the next number. */
  lemma LinkedNext(given: map<nat, int>, ps: seq<(nat, nat)>, ids: map<nat, int>, next: nat, flows: seq<Flow>,
                   source: nat, t: nat)
    requires Linked(given, ps, ids, next, flows)
    ensures var ids' := if t in ids then ids else ids[t := next];
            Linked(given, ps + [(source, t)], ids', if t in ids then next else next + 1,
                   flows + [Flow(ids'[t], source, t)])
  {
    var ps' := ps + [(source, t)];
    var f := Fresh(given.Keys, ps);
    assert ps'[..|ps|] == ps;
    var ids' := if t in ids then ids else ids[t := next];
    assert Fresh(given.Keys, ps') == if t in ids then f else f + [t];
    forall k | 0 <= k < |ps'|
      ensures ps'[k].1 in ids' && (flows + [Flow(ids'[t], source, t)])[k] == Flow(ids'[ps'[k].1], ps'[k].0, ps'[k].1)
    {
      if k < |ps| { assert ps'[k] == ps[k]; }
    }
  }

  class Linker {
    var nextId: nat
    var correlation: map<nat, int>

    /** Some spans may come with a correlation of their own. */
    constructor (given: map<nat, int>)
      ensures nextId == 0 && correlation == given
    {
      nextId, correlation := 0, given;
    }

    /** Append the two nodes of every usable link of one span. */
    method LinkSpan(source: nat, targets: seq<nat>, converted: set<nat>, ghost given: map<nat, int>,
                    ghost before: seq<(nat, nat)>, ghost made: seq<Flow>)
      returns (nodes: seq<Node>, ghost flows: seq<Flow>)
      requires Linked(given, before, correlation, nextId, made)
      modifies this
      ensures Linked(given, before + From(source, Usable(targets, converted)), correlation, nextId, made + flows)
      ensures nodes == Nodes(flows)
    {
      hide Linked, Usable, From;
      nodes, flows := [], [];
      ghost var ps := before;
      var i := 0;
      LinkStart(source, converted, targets, before, made);
      while i < |targets|
        invariant i <= |targets| && ps == before + From(source, Usable(targets[..i], converted))
        invariant Linked(given, ps, correlation, nextId, made + flows)
        invariant nodes == Nodes(flows)
      {
        var t := targets[i];
        UsableNext(source, targets, i, converted);
        if t in converted {
          LinkedNext(given, ps, correlation, nextId, made + flows, source, t);
          if t !in correlation {
            correlation := correlation[t := nextId];
            nextId := nextId + 1;
          }
          var flow := Flow(correlation[t], source, t);
          nodes := nodes + [Start(flow.id, t), End(flow.id, source)];
          NodesNext(flows, flow);
          assert made + flows + [flow] == made + (flows + [flow]);
          flows := flows + [flow];
          assert ps + [(source, t)] == before + (From(source, Usable(targets[..i], converted)) + [(source, t)]);
          ps := ps + [(source, t)];
        }
        i := i + 1;
      }
      assert targets[..i] == targets;
    }

    /** Link all spans in order; a span without a link list has no nodes. */
    method LinkAll(spans: seq<nat>, links: map<nat, seq<nat>>, converted: set<nat>)
      returns (lists: seq<seq<Node>>, ghost flows: seq<Flow>)
      requires nextId == 0
      modifies this
      ensures Linked(old(correlation), AllLinks(spans, links, converted), correlation, nextId, flows)
      ensures |lists| == |spans| && Concat(lists) == Nodes(flows)
    {
      hide Linked, AllLinks, Nodes;
      ghost var given := correlation;
      lists, flows := [], [];
      var i := 0;
      AllStart(spans, links, converted, given);
      while i < |spans|
        invariant i <= |spans| && |lists| == i && Concat(lists) == Nodes(flows)
        invariant Linked(given, AllLinks(spans[..i], links, converted), correlation, nextId, flows)
      {
        var targets := if spans[i] in links then links[spans[i]] else [];
        ghost var before := AllLinks(spans[..i], links, converted);
        AllNext(spans, i, links, converted);
        var nodes, more := LinkSpan(spans[i], targets, converted, given, before, flows);
        NodesConcat(flows, more);
        ConcatNext(lists, nodes);
        lists := lists + [nodes];
        flows := flows + more;
        i := i + 1;
      }
      assert spans[..i] == spans;
    }
  }

  lemma NodesNext(flows: seq<Flow>, f: Flow)
    ensures Nodes(flows + [f]) == Nodes(flows) + [Start(f.id, f.target), End(f.id, f.source)]
  {
    assert (flows + [f])[..|flows|] == flows;
  }

  lemma {:induction false} NodesConcat(a: seq<Flow>, b: seq<Flow>)
    ensures Nodes(a + b) == Nodes(a) + Nodes(b)
  {
    if b == [] {
      assert a + b == a;
    } else {
      var last := |b| - 1;
      NodesConcat(a, b[..last]);
      assert a + b == a + b[..last] + [b[last]] && b == b[..last] + [b[last]];
      NodesNext(a + b[..last], b[last]);
      NodesNext(b[..last], b[last]);
    }
  }

  lemma LinkStart(source: nat, converted: set<nat>, targets: seq<nat>, before: seq<(nat, nat)>, made: seq<Flow>)
    ensures before + From(source, Usable(targets[..0], converted)) == before && made + [] == made
  {
    assert targets[..0] == [];
    assert From(source, []) == [];
  }

  lemma UsableNext(source: nat, targets: seq<nat>, i: nat, converted: set<nat>)
    requires i < |targets|
    ensures var now, next := From(source, Usable(targets[..i], converted)), From(source, Usable(targets[..i + 1], converted));
            next == if targets[i] in converted then now + [(source, targets[i])] else now
  {
    assert targets[..i + 1][..i] == targets[..i];
  }

  lemma AllStart(spans: seq<nat>, links: map<nat, seq<nat>>, converted: set<nat>, given: map<nat, int>)
    ensures Linked(given, AllLinks(spans[..0], links, converted), given, 0, []) && Nodes([]) == Concat([])
  {
    assert spans[..0] == [];
  }

  lemma AllNext(spans: seq<nat>, i: nat, links: map<nat, seq<nat>>, converted: set<nat>)
    requires i < |spans|
    ensures AllLinks(spans[..i + 1], links, converted) ==
      AllLinks(spans[..i], links, converted) +
      From(spans[i], Usable(if spans[i] in links then links[spans[i]] else [], converted))
  {
    assert spans[..i + 1][..i] == spans[..i];
    assert Usable([], converted) == [];
  }

  // ---- What the ids tell ----

  predicate SameGiven(given: map<nat, int>, a: nat, b: nat) {
    a in given && b in given && given[a] == given[b]
  }

  /** Given correlations do not collide with each other or with the numbers that
      the links without one are going to get. */
  ghost predicate NoCollision(given: map<nat, int>, ps: seq<(nat, nat)>) {
    && (forall j, k :: 0 <= j < |ps| && 0 <= k < |ps| && SameGiven(given, ps[j].1, ps[k].1) ==> ps[j].1 == ps[k].1)
    && (forall j :: 0 <= j < |ps| && ps[j].1 in given ==> !(0 <= given[ps[j].1] < |Fresh(given.Keys, ps)|))
  }

  /** Two flows share an id exactly when they have the same target. */
  ghost predicate IdsIdentifyTargets(flows: seq<Flow>) {
    forall j, k :: 0 <= j < |flows| && 0 <= k < |flows| ==>
      (flows[j].id == flows[k].id <==> flows[j].target == flows[k].target)
  }

  /** Ids identify targets exactly when the given correlations do not collide. */
  lemma FlowIdsExact(given: map<nat, int>, ps: seq<(nat, nat)>, ids: map<nat, int>, next: nat, flows: seq<Flow>)
    requires Linked(given, ps, ids, next, flows)
    ensures IdsIdentifyTargets(flows) <==> NoCollision(given, ps)
  {
    FreshExact(given.Keys, ps);
    if NoCollision(given, ps) {
      CollisionFree(given, ps, ids, next, flows);
    } else {
      Collides(given, ps, ids, next, flows);
    }
  }

  lemma CollisionFree(given: map<nat, int>, ps: seq<(nat, nat)>, ids: map<nat, int>, next: nat, flows: seq<Flow>)
    requires Linked(given, ps, ids, next, flows) && NoCollision(given, ps)
    ensures IdsIdentifyTargets(flows)
  {
    forall k | 0 <= k < |ps| ensures IdKind(given, ps, ids, ps[k].1) {
      NumberOf(given, ps, ids, ps[k].1);
    }
  }

  /** The id of a linked target: its own, or its place among the new ones. */
  ghost predicate IdKind(given: map<nat, int>, ps: seq<(nat, nat)>, ids: map<nat, int>, t: nat) {
    var f := Fresh(given.Keys, ps);
    t in ids && if t in given then ids[t] == given[t] else 0 <= ids[t] < |f| && f[ids[t]] == t
  }

  lemma NumberOf(given: map<nat, int>, ps: seq<(nat, nat)>, ids: map<nat, int>, t: nat)
    requires Numbered(given, Fresh(given.Keys, ps), ids) && t in ids
    ensures IdKind(given, ps, ids, t)
  {
    var f := Fresh(given.Keys, ps);
    if t !in given {
      assert t in f;
      var x :| 0 <= x < |f| && f[x] == t;
    }
  }

  lemma Collides(given: map<nat, int>, ps: seq<(nat, nat)>, ids: map<nat, int>, next: nat, flows: seq<Flow>)
    requires Linked(given, ps, ids, next, flows) && !NoCollision(given, ps)
    ensures !IdsIdentifyTargets(flows)
  {
    var f := Fresh(given.Keys, ps);
    FreshExact(given.Keys, ps);
    if j, k :| 0 <= j < |ps| && 0 <= k < |ps| && SameGiven(given, ps[j].1, ps[k].1) && ps[j].1 != ps[k].1 {
      assert flows[j].id == flows[k].id && flows[j].target != flows[k].target;
    } else {
      var j :| 0 <= j < |ps| && ps[j].1 in given && 0 <= given[ps[j].1] < |f|;
      var t := f[given[ps[j].1]];
      assert t in f;
      var k :| 0 <= k < |ps| && ps[k].1 == t;
      assert flows[j].id == flows[k].id && flows[j].target != flows[k].target;
    }
  }

  /** A span that arrives with correlation 0 shares its id with the first span
      that gets one from the counter. */
  lemma CollisionWitness()
    ensures var given, ps := map[7 := 0], [(1, 8), (1, 7)];
            var flows := [Flow(0, 1, 8), Flow(0, 1, 7)];
            && Linked(given, ps, map[7 := 0, 8 := 0], 1, flows)
            && !IdsIdentifyTargets(flows) && !NoCollision(given, ps)
  {
    var given, ids := map[7 := 0], map[7 := 0, 8 := 0];
    assert Linked(given, [], given, 0, []);
    LinkedNext(given, [], given, 0, [], 1, 8);
    assert given[8 := 0] == ids;
    assert [] + [(1, 8)] == [(1, 8)] && [] + [Flow(0, 1, 8)] == [Flow(0, 1, 8)];
    LinkedNext(given, [(1, 8)], ids, 1, [Flow(0, 1, 8)], 1, 7);
    var ps, flows := [(1, 8)] + [(1, 7)], [Flow(0, 1, 8)] + [Flow(0, 1, 7)];
    assert flows[0].id == flows[1].id && flows[0].target != flows[1].target;
    FlowIdsExact(given, ps, ids, 1, flows);
  }

  /** Without given correlations, ids always identify targets. */
  lemma FreshIdsIdentify(ps: seq<(nat, nat)>, ids: map<nat, int>, next: nat, flows: seq<Flow>)
    requires Linked(map[], ps, ids, next, flows)
    ensures IdsIdentifyTargets(flows)
  {
    FlowIdsExact(map[], ps, ids, next, flows);
  }

  /** Nodes come in pairs: the start of a flow directly followed by its end. */
  lemma {:induction false} NodesPaired(flows: seq<Flow>, k: nat)
    requires k < |flows|
    ensures |Nodes(flows)| == 2 * |flows|
    ensures Nodes(flows)[2 * k] == Start(flows[k].id, flows[k].target)
    ensures Nodes(flows)[2 * k + 1] == End(flows[k].id, flows[k].source)
  {
    var last := |flows| - 1;
    if last > 0 { NodesPaired(flows[..last], if k < last then k else 0); }
  }
}
