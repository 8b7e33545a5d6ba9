/** Lines that hold a value or point at another line, and the resolution that
    follows every chain, detects rings and overwrites the values in place. */
module Redirects {
  import opened Sums

  /** `table[i]` is the line that line `i` redirects to, if it does. */
  type Table = seq<Option<nat>>

  predicate ValidTable(r: Table) {
    forall i :: 0 <= i < |r| && r[i].Some? ==> r[i].value < |r|
  }

  // ---- Chains ----

  /** The line reached from `i` after `k` redirects, if the chain is that long. */
  function Hop(r: Table, i: nat, k: nat): (h: Option<nat>)
    requires ValidTable(r) && i < |r|
    ensures h.Some? ==> h.value < |r|
    decreases k
  {
    if k == 0 then Some(i)
    else match Hop(r, i, k - 1)
      case None => None
      case Some(c) => r[c]
  }

  /** The chain from `i` never reaches a line with a value. */
  ghost predicate Endless(r: Table, i: nat)
    requires ValidTable(r) && i < |r|
  {
    forall k: nat :: Hop(r, i, k).Some?
  }

  /** The lines reached by the first `k` redirects. */
  ghost function Path(r: Table, i: nat, k: nat): (p: seq<nat>)
    requires ValidTable(r) && i < |r| && Hop(r, i, k).Some?
    ensures |p| == k
    decreases k
  {
    if k == 0 then [] else Path(r, i, k - 1) + [Hop(r, i, k).value]
  }

  ghost predicate Distinct(r: Table, i: nat, k: nat)
    requires ValidTable(r) && i < |r|
  {
    forall a: nat, b: nat :: a < b < k ==> Hop(r, i, a) != Hop(r, i, b)
  }

  ghost predicate Revisits(r: Table, i: nat, k: nat)
    requires ValidTable(r) && i < |r|
  {
    exists j: nat :: j < k && Hop(r, i, j) == Hop(r, i, k)
  }

  /** Following `i` stops after `k` redirects at `e`: a line with a value, or the
      first line met twice. */
  ghost predicate StopsAt(r: Table, i: nat, k: nat, e: nat)
    requires ValidTable(r) && i < |r|
  {
    && Hop(r, i, k) == Some(e) && Distinct(r, i, k)
    && (if r[e].None? then !Revisits(r, i, k) else Revisits(r, i, k))
  }

  lemma {:induction false} HopAdd(r: Table, i: nat, a: nat, b: nat)
    requires ValidTable(r) && i < |r| && Hop(r, i, a).Some?
    ensures Hop(r, i, a + b) == Hop(r, Hop(r, i, a).value, b)
    decreases b
  {
    if b != 0 { HopAdd(r, i, a, b - 1); }
  }

  lemma {:induction false} PathAt(r: Table, i: nat, k: nat, j: nat)
    requires ValidTable(r) && i < |r| && Hop(r, i, k).Some? && j < k
    ensures Some(Path(r, i, k)[j]) == Hop(r, i, j + 1)
    decreases k
  {
    if j < k - 1 { PathAt(r, i, k - 1, j); }
  }

  lemma {:induction false} HopShorter(r: Table, i: nat, a: nat, b: nat)
    requires ValidTable(r) && i < |r| && a <= b && Hop(r, i, b).Some?
    ensures Hop(r, i, a).Some?
    decreases b
  {
    if a != b { HopShorter(r, i, a, b - 1); }
  }

  /** A chain that meets a line twice goes on for ever. */
  lemma {:induction false} RevisitEndless(r: Table, i: nat, j: nat, k: nat, m: nat)
    requires ValidTable(r) && i < |r| && j < k && Hop(r, i, j) == Hop(r, i, k) && Hop(r, i, k).Some?
    ensures Hop(r, i, m).Some?
    decreases m
  {
    if m <= k {
      HopShorter(r, i, m, k);
    } else {
      RevisitEndless(r, i, j, k, j + (m - k));
      HopAdd(r, i, k, m - k);
      HopAdd(r, i, j, m - k);
    }
  }

  /** A line is endless exactly when its chain stops at a line met twice. */
  lemma StopDecides(r: Table, i: nat, k: nat, e: nat)
    requires ValidTable(r) && i < |r| && StopsAt(r, i, k, e)
    ensures Endless(r, i) <==> r[e].Some?
  {
    if r[e].Some? {
      var j: nat :| j < k && Hop(r, i, j) == Hop(r, i, k);
      forall m: nat ensures Hop(r, i, m).Some? {
        RevisitEndless(r, i, j, k, m);
      }
    } else {
      assert Hop(r, i, k + 1) == None;
    }
  }

  lemma StopUnique(r: Table, i: nat, k: nat, e: nat, k': nat, e': nat)
    requires ValidTable(r) && i < |r| && StopsAt(r, i, k, e) && StopsAt(r, i, k', e')
    ensures k == k' && e == e'
  {
    StopNotLater(r, i, k, e, k', e');
    StopNotLater(r, i, k', e', k, e);
  }

  lemma StopNotLater(r: Table, i: nat, k: nat, e: nat, k': nat, e': nat)
    requires ValidTable(r) && i < |r| && StopsAt(r, i, k, e) && StopsAt(r, i, k', e')
    ensures k' <= k
  {
    if r[e].None? {
      assert Hop(r, i, k + 1) == None;
      assert k + 1 <= k' ==> Hop(r, i, k + 1).Some? by {
        if k + 1 <= k' { HopShorter(r, i, k + 1, k'); }
      }
    } else {
      var j: nat :| j < k && Hop(r, i, j) == Hop(r, i, k);
    }
  }

  lemma HopsFrom(r: Table, i: nat, j: nat, n: nat, e: nat)
    requires ValidTable(r) && i < |r| && e < |r| && Hop(r, i, j) == Some(e)
    ensures forall a: nat :: a <= n ==> Hop(r, e, a) == Hop(r, i, j + a)
  {
    hide Hop;
    forall a: nat | a <= n ensures Hop(r, e, a) == Hop(r, i, j + a) {
      HopAdd(r, i, j, a);
    }
  }

  /** A line met twice is where its own chain stops. */
  lemma StopFixed(r: Table, i: nat, k: nat, e: nat) returns (k': nat)
    requires ValidTable(r) && i < |r| && StopsAt(r, i, k, e) && r[e].Some?
    ensures StopsAt(r, e, k', e)
  {
    hide Hop;
    var j: nat :| j < k && Hop(r, i, j) == Hop(r, i, k);
    k' := k - j;
    HopsFrom(r, i, j, k', e);
    assert Hop(r, e, 0) == Hop(r, e, k');
    forall a: nat, b: nat | a < b < k' ensures Hop(r, e, a) != Hop(r, e, b) {
      assert Hop(r, i, j + a) != Hop(r, i, j + b);
    }
    assert Revisits(r, e, k');
  }

  // ---- One chain, as the inner loop follows it ----

  /** The lines the first `k` redirects started from. */
  ghost function Visited(r: Table, i: nat, k: nat): set<nat>
    requires ValidTable(r) && i < |r| && Hop(r, i, k).Some?
    decreases k
  {
    if k == 0 then {} else Visited(r, i, k - 1) + {Hop(r, i, k - 1).value}
  }

  lemma {:induction false} VisitedHas(r: Table, i: nat, k: nat, j: nat)
    requires ValidTable(r) && i < |r| && Hop(r, i, k).Some? && j < k
    ensures Hop(r, i, j).Some? && Hop(r, i, j).value in Visited(r, i, k)
    decreases k
  {
    if j < k - 1 { VisitedHas(r, i, k - 1, j); }
  }

  lemma {:induction false} VisitedFrom(r: Table, i: nat, k: nat, c: nat) returns (j: nat)
    requires ValidTable(r) && i < |r| && Hop(r, i, k).Some? && c in Visited(r, i, k)
    ensures j < k && Hop(r, i, j) == Some(c) && c < |r|
    decreases k
  {
    if c == Hop(r, i, k - 1).value { j := k - 1; } else { j := VisitedFrom(r, i, k - 1, c); }
  }

  /** A line was visited exactly when some earlier redirect reached it. */
  lemma RevisitIsVisited(r: Table, i: nat, k: nat)
    requires ValidTable(r) && i < |r| && Hop(r, i, k).Some?
    ensures Revisits(r, i, k) <==> Hop(r, i, k).value in Visited(r, i, k)
    ensures Visited(r, i, k) <= Below(|r|)
  {
    if Hop(r, i, k).value in Visited(r, i, k) {
      var j := VisitedFrom(r, i, k, Hop(r, i, k).value);
    }
    if Revisits(r, i, k) {
      var j: nat :| j < k && Hop(r, i, j) == Hop(r, i, k);
      VisitedHas(r, i, k, j);
    }
    forall c | c in Visited(r, i, k) ensures c in Below(|r|) {
      var j := VisitedFrom(r, i, k, c);
    }
  }

  lemma DistinctNext(r: Table, i: nat, k: nat)
    requires ValidTable(r) && i < |r| && Distinct(r, i, k) && !Revisits(r, i, k)
    ensures Distinct(r, i, k + 1)
  {
    forall a: nat, b: nat | a < b < k + 1 ensures Hop(r, i, a) != Hop(r, i, b) {
      assert b == k ==> Hop(r, i, a) != Hop(r, i, k);
    }
  }

  /** A line met again has a redirect: it was followed before. */
  lemma RevisitedRedirects(r: Table, i: nat, k: nat)
    requires ValidTable(r) && i < |r| && Hop(r, i, k).Some? && Revisits(r, i, k)
    ensures r[Hop(r, i, k).value].Some?
  {
    var j: nat :| j < k && Hop(r, i, j) == Hop(r, i, k);
    HopShorter(r, i, j + 1, k);
  }

  /** One more redirect. */
  lemma FollowOne(r: Table, i: nat, k: nat, cur: nat)
    requires ValidTable(r) && i < |r| && Hop(r, i, k) == Some(cur) && cur < |r| && r[cur].Some?
    requires Distinct(r, i, k) && !Revisits(r, i, k)
    ensures Hop(r, i, k + 1) == r[cur]
    ensures Path(r, i, k + 1) == Path(r, i, k) + [r[cur].value]
    ensures Visited(r, i, k + 1) == Visited(r, i, k) + {cur} && cur !in Visited(r, i, k)
    ensures Visited(r, i, k + 1) <= Below(|r|)
    ensures Distinct(r, i, k + 1)
    ensures Revisits(r, i, k + 1) <==> r[cur].value in Visited(r, i, k + 1)
    ensures Revisits(r, i, k + 1) ==> r[r[cur].value].Some?
  {
    hide Distinct, Revisits;
    DistinctNext(r, i, k);
    if Revisits(r, i, k + 1) { RevisitedRedirects(r, i, k + 1); }
    RevisitIsVisited(r, i, k);
    RevisitIsVisited(r, i, k + 1);
  }

  method Follow(r: Table, i: nat) returns (cur: nat, link: Option<seq<nat>>, ghost k: nat)
    requires ValidTable(r) && i < |r| && r[i].Some?
    ensures cur < |r| && StopsAt(r, i, k, cur)
    ensures link.None? <==> r[cur].Some?
    ensures link.Some? ==> link.value == Path(r, i, k)
  {
    hide Distinct, Revisits, Path, Visited;
    cur, k := i, 0;
    var visited, path := {}, [];
    FollowNone(r, i);
    while r[cur].Some?
      invariant cur < |r| && Hop(r, i, k) == Some(cur) && path == Path(r, i, k)
      invariant Distinct(r, i, k) && !Revisits(r, i, k)
      invariant visited == Visited(r, i, k)
      decreases |r| - |visited|
    {
      FollowOne(r, i, k, cur);
      visited := visited + {cur};
      SubsetCardinality(visited, Below(|r|));
      path := path + [r[cur].value];
      cur := r[cur].value;
      k := k + 1;
      if cur in visited {
        link := None;
        return;
      }
    }
    link := Some(path);
  }

  lemma FollowNone(r: Table, i: nat)
    requires ValidTable(r) && i < |r|
    ensures Hop(r, i, 0) == Some(i) && Path(r, i, 0) == [] && Visited(r, i, 0) == {}
    ensures Distinct(r, i, 0) && !Revisits(r, i, 0)
  {
  }

  // ---- All lines, values overwritten in place ----

  /** What one line's entry looks like once it is resolved. */
  ghost predicate Resolved<V>(r: Table, original: seq<V>, i: nat, link: Option<seq<nat>>, inRing: bool, value: V)
    requires ValidTable(r) && |original| == |r| && i < |r|
  {
    exists k: nat, e: nat :: StopsAt(r, i, k, e) && ResolvedAt(r, original, i, k, e, link, inRing, value)
  }

  ghost predicate ResolvedAt<V>(r: Table, original: seq<V>, i: nat, k: nat, e: nat, link: Option<seq<nat>>,
                                inRing: bool, value: V)
    requires ValidTable(r) && |original| == |r| && i < |r| && StopsAt(r, i, k, e)
  {
    && value == original[e]
    && (inRing <==> r[e].Some?)
    && link == (if r[e].Some? then None else Some(Path(r, i, k)))
  }

  /** The loop's state after the first `i` lines. */
  ghost predicate ResolvedUpTo<V>(r: Table, original: seq<V>, i: nat, links: seq<Option<seq<nat>>>, ring: set<nat>,
                                  values: seq<V>)
    requires ValidTable(r)
  {
    && i <= |r| == |links| == |original| == |values| && ring <= Below(i)
    && (forall j: nat :: i <= j < |r| ==> values[j] == original[j] && links[j] == Some([]))
    && (forall j: nat :: j < i ==> Resolved(r, original, j, links[j], j in ring, values[j]))
  }

  method ResolveAll<V>(r: Table, values: array<V>) returns (links: seq<Option<seq<nat>>>, ring: set<nat>)
    requires ValidTable(r) && values.Length == |r|
    modifies values
    ensures |links| == |r| && ring <= Below(|r|)
    ensures forall i: nat :: i < |r| ==> Resolved(r, old(values[..]), i, links[i], i in ring, values[i])
  {
    hide ResolvedUpTo;
    ghost var original := values[..];
    links, ring := seq(|r|, _ => Some([])), {};
    var i := 0;
    ResolvedStart(r, original, links);
    while i < |r|
      invariant i <= |r| == |links|
      invariant ResolvedUpTo(r, original, i, links, ring, values[..])
    {
      if r[i].None? {
        ResolvedSkip(r, original, i, links, ring, values[..]);
        i := i + 1;
        continue;
      }
      var cur, link, k := Follow(r, i);
      ResolvedNext(r, original, i, links, ring, values[..], k, cur, link);
      ghost var next := values[..][i := values[cur]];
      values[i] := values[cur];
      assert values[..] == next;
      links := links[i := link];
      if link.None? { ring := ring + {i}; }
      i := i + 1;
    }
    ResolvedDone(r, original, links, ring, values[..]);
  }

  lemma ResolvedStart<V>(r: Table, original: seq<V>, links: seq<Option<seq<nat>>>)
    requires ValidTable(r) && |original| == |links| == |r|
    requires forall j :: 0 <= j < |links| ==> links[j] == Some([])
    ensures ResolvedUpTo(r, original, 0, links, {}, original)
  {
  }

  lemma ResolvedSkip<V>(r: Table, original: seq<V>, i: nat, links: seq<Option<seq<nat>>>, ring: set<nat>,
                        values: seq<V>)
    requires ValidTable(r) && ResolvedUpTo(r, original, i, links, ring, values) && i < |r| && r[i].None?
    ensures ResolvedUpTo(r, original, i + 1, links, ring, values)
  {
    ResolvedPlain(r, original, i);
  }

  /** The value found at the end of a chain is the original one, whether or not
      that line has been overwritten already. */
  lemma EndUntouched<V>(r: Table, original: seq<V>, i: nat, links: seq<Option<seq<nat>>>, ring: set<nat>,
                        values: seq<V>, k: nat, e: nat)
    requires ValidTable(r) && ResolvedUpTo(r, original, i, links, ring, values) && i < |r|
    requires StopsAt(r, i, k, e)
    ensures e < |r| == |values| && values[e] == original[e]
  {
    if e < i {
      assert Resolved(r, original, e, links[e], e in ring, values[e]);
      var k1: nat, e1: nat :| StopsAt(r, e, k1, e1) && ResolvedAt(r, original, e, k1, e1, links[e], e in ring, values[e]);
      if r[e].None? {
        FollowNone(r, e);
        StopUnique(r, e, 0, e, k1, e1);
      } else {
        var k2 := StopFixed(r, i, k, e);
        StopUnique(r, e, k2, e, k1, e1);
      }
    }
  }

  lemma ResolvedNext<V>(r: Table, original: seq<V>, i: nat, links: seq<Option<seq<nat>>>, ring: set<nat>,
                        values: seq<V>, k: nat, e: nat, link: Option<seq<nat>>)
    requires ValidTable(r) && ResolvedUpTo(r, original, i, links, ring, values) && i < |r|
    requires StopsAt(r, i, k, e)
    requires link == (if r[e].Some? then None else Some(Path(r, i, k)))
    ensures e < |values| && ResolvedUpTo(r, original, i + 1, links[i := link],
                                         if link.None? then ring + {i} else ring, values[i := values[e]])
  {
    hide StopsAt, Resolved;
    EndUntouched(r, original, i, links, ring, values, k, e);
    var ring' := if link.None? then ring + {i} else ring;
    var values', links' := values[i := values[e]], links[i := link];
    ResolvedHere(r, original, i, k, e, link, i in ring', values[e]);
    forall j: nat | j < i ensures Resolved(r, original, j, links'[j], j in ring', values'[j]) {
      assert j in ring' <==> j in ring;
    }
  }

  lemma ResolvedHere<V>(r: Table, original: seq<V>, i: nat, k: nat, e: nat, link: Option<seq<nat>>, inRing: bool,
                        value: V)
    requires ValidTable(r) && |original| == |r| && i < |r| && StopsAt(r, i, k, e)
    requires ResolvedAt(r, original, i, k, e, link, inRing, value)
    ensures Resolved(r, original, i, link, inRing, value)
  {
  }

  lemma ResolvedDone<V>(r: Table, original: seq<V>, links: seq<Option<seq<nat>>>, ring: set<nat>, values: seq<V>)
    requires ValidTable(r) && ResolvedUpTo(r, original, |r|, links, ring, values)
    ensures |values| == |original| == |links| == |r| && ring <= Below(|r|)
    ensures forall i: nat :: i < |r| ==> Resolved(r, original, i, links[i], i in ring, values[i])
  {
  }

  lemma ResolvedPlain<V>(r: Table, original: seq<V>, i: nat)
    requires ValidTable(r) && |original| == |r| && i < |r| && r[i].None?
    ensures Resolved(r, original, i, Some([]), false, original[i])
  {
    FollowNone(r, i);
    assert StopsAt(r, i, 0, i);
  }

  /** The line reached after `k` redirects is the first that was met before. */
  ghost predicate FirstRepeat(r: Table, i: nat, j: nat, k: nat)
    requires ValidTable(r) && i < |r|
  {
    && j < k && Hop(r, i, k).Some? && Hop(r, i, j) == Hop(r, i, k)
    && forall a: nat, b: nat :: a < b < k ==> Hop(r, i, a) != Hop(r, i, b)
  }

  /** What a resolved entry means: a line is in the ring set exactly when its
      chain never reaches a value; otherwise the link is its whole chain and the
      value is the original one of the line at the end. A line whose chain runs
      into a ring gets the original value of the first line met twice. */
  lemma ResolvedMeaning<V>(r: Table, original: seq<V>, i: nat, link: Option<seq<nat>>, inRing: bool, value: V)
    requires ValidTable(r) && |original| == |r| && i < |r|
    requires Resolved(r, original, i, link, inRing, value)
    ensures inRing <==> Endless(r, i)
    ensures inRing <==> link.None?
    ensures link.Some? ==>
      var k := |link.value|;
      var end := Hop(r, i, k);
      && end.Some? && r[end.value].None? && value == original[end.value]
      && forall j: nat :: j < k ==> Some(link.value[j]) == Hop(r, i, j + 1)
    ensures inRing ==> exists j: nat, k: nat :: FirstRepeat(r, i, j, k) && value == original[Hop(r, i, k).value]
  {
    var k: nat, e: nat :| StopsAt(r, i, k, e) && ResolvedAt(r, original, i, k, e, link, inRing, value);
    StopDecides(r, i, k, e);
    if link.Some? {
      forall j: nat | j < k ensures Some(link.value[j]) == Hop(r, i, j + 1) {
        PathAt(r, i, k, j);
      }
    } else {
      var j: nat :| j < k && Hop(r, i, j) == Hop(r, i, k);
      assert FirstRepeat(r, i, j, k);
    }
  }
}
