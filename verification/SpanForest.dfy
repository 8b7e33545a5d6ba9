/** The span forest: every engine span is appended to the child list of the span
    its parent id names, or becomes a root. Parent ids are arbitrary, so the
    graph may have cycles and orphans; the walks start at roots only. */
module SpanForest {
  import opened Sums
  import opened Redirects

  datatype Otel = Otel(id: string, parent: string, moduleName: string)

  predicate IsRoot(s: Otel) {
    s.moduleName == "sglang::request" || s.moduleName == "sglang::mooncake"
  }

  /** The span an id stands for: the last one that has it. */
  function Owner(spans: seq<Otel>, id: string): (o: Option<nat>)
    ensures o.Some? ==> o.value < |spans| && spans[o.value].id == id
    ensures o.Some? ==> forall i :: o.value < i < |spans| ==> spans[i].id != id
    ensures o.None? <==> forall i :: 0 <= i < |spans| ==> spans[i].id != id
  {
    if spans == [] then None
    else
      var last := |spans| - 1;
      if spans[last].id == id then Some(last) else Owner(spans[..last], id)
  }

  function ParentOf(spans: seq<Otel>, i: nat): (p: Option<nat>)
    requires i < |spans|
    ensures p.Some? ==> p.value < |spans|
  {
    if IsRoot(spans[i]) then None else Owner(spans, spans[i].parent)
  }

  /** Parents as a redirect table: chains go upwards. */
  function Parents(spans: seq<Otel>): (r: Table)
    ensures |r| == |spans| && ValidTable(r)
    ensures forall i :: 0 <= i < |spans| ==> r[i] == ParentOf(spans, i)
  {
    seq(|spans|, i requires 0 <= i < |spans| => ParentOf(spans, i))
  }

  // ---- Building the child lists ----

  /** The spans below `n` that were appended to `p`, in order. */
  function ChildrenOf(spans: seq<Otel>, p: nat, n: nat): seq<nat>
    requires n <= |spans|
  {
    if n == 0 then []
    else ChildrenOf(spans, p, n - 1) + if ParentOf(spans, n - 1) == Some(p) then [n - 1] else []
  }

  function RootsOf(spans: seq<Otel>, n: nat): seq<nat>
    requires n <= |spans|
  {
    if n == 0 then [] else RootsOf(spans, n - 1) + if IsRoot(spans[n - 1]) then [n - 1] else []
  }

  method BuildTree(spans: seq<Otel>) returns (child: seq<seq<nat>>, roots: seq<nat>)
    ensures Tree(spans, child) && roots == RootsOf(spans, |spans|)
  {
    child, roots := seq(|spans|, _ => []), [];
    var i := 0;
    while i < |spans|
      invariant i <= |spans| == |child| && roots == RootsOf(spans, i)
      invariant forall p :: 0 <= p < |spans| ==> child[p] == ChildrenOf(spans, p, i)
    {
      if IsRoot(spans[i]) {
        roots := roots + [i];
      } else {
        var parent := Owner(spans, spans[i].parent);
        if parent.Some? {
          child := child[parent.value := child[parent.value] + [i]];
        }
      }
      i := i + 1;
    }
  }

  lemma {:induction false} ChildrenExact(spans: seq<Otel>, p: nat, n: nat)
    requires n <= |spans|
    ensures forall c: nat :: c in ChildrenOf(spans, p, n) <==> c < n && ParentOf(spans, c) == Some(p)
    ensures Unique(ChildrenOf(spans, p, n)) && Increasing(ChildrenOf(spans, p, n))
  {
    hide ParentOf, Increasing;
    if n == 0 {
      NoneIncreasing();
    } else {
      var before := ChildrenOf(spans, p, n - 1);
      ChildrenExact(spans, p, n - 1);
      assert before + [] == before;
      if ParentOf(spans, n - 1) == Some(p) { IncreasingNext(before, n - 1); }
    }
  }

  lemma {:induction false} RootsExact(spans: seq<Otel>, n: nat)
    requires n <= |spans|
    ensures forall c: nat :: c in RootsOf(spans, n) <==>
      c < n && (spans[c].moduleName == "sglang::request" || spans[c].moduleName == "sglang::mooncake")
    ensures Unique(RootsOf(spans, n)) && Increasing(RootsOf(spans, n))
  {
    hide Increasing;
    if n == 0 {
      NoneIncreasing();
    } else {
      var before := RootsOf(spans, n - 1);
      RootsExact(spans, n - 1);
      assert before + [] == before;
      if IsRoot(spans[n - 1]) { IncreasingNext(before, n - 1); }
    }
  }

  // ---- Depth below a root ----

  /** `x` is `d` levels below a root. */
  ghost predicate RootedAt(spans: seq<Otel>, x: nat, d: nat) {
    x < |spans| && Hop(Parents(spans), x, d).Some? && IsRoot(spans[Hop(Parents(spans), x, d).value])
  }

  /** `x` is `y` or above it. */
  ghost predicate Above(spans: seq<Otel>, x: nat, y: nat)
    requires y < |spans|
  {
    exists k: nat :: Hop(Parents(spans), y, k) == Some(x)
  }

  lemma ChildRooted(spans: seq<Otel>, x: nat, d: nat, c: nat)
    requires RootedAt(spans, x, d) && c < |spans| && ParentOf(spans, c) == Some(x)
    ensures RootedAt(spans, c, d + 1)
  {
    var r := Parents(spans);
    assert Hop(r, c, 1) == Some(x) by { assert Hop(r, c, 0) == Some(c); }
    HopAdd(r, c, 1, d);
  }

  /** A rooted span's chain upwards is finite and meets no span twice. */
  lemma RootedDistinct(spans: seq<Otel>, x: nat, d: nat, a: nat, b: nat)
    requires RootedAt(spans, x, d) && a < b && Hop(Parents(spans), x, b).Some?
    ensures b <= d && Hop(Parents(spans), x, a) != Hop(Parents(spans), x, b)
  {
    var r := Parents(spans);
    assert Hop(r, x, d + 1) == None;
    if b > d { HopShorter(r, x, d + 1, b); }
    if Hop(r, x, a) == Hop(r, x, b) { RevisitEndless(r, x, a, b, d + 1); }
  }

  lemma {:induction false} VisitedSize(r: Table, x: nat, k: nat)
    requires ValidTable(r) && x < |r| && Hop(r, x, k).Some? && Distinct(r, x, k)
    ensures |Visited(r, x, k)| == k
    decreases k
  {
    if k != 0 {
      VisitedSize(r, x, k - 1);
      if Hop(r, x, k - 1).value in Visited(r, x, k - 1) {
        var j := VisitedFrom(r, x, k - 1, Hop(r, x, k - 1).value);
      }
    }
  }

  /** Depths are smaller than the number of spans: the walks terminate. */
  lemma DepthBound(spans: seq<Otel>, x: nat, d: nat)
    requires RootedAt(spans, x, d)
    ensures d < |spans|
  {
    var r := Parents(spans);
    forall a: nat, b: nat | a < b < d + 1 ensures Hop(r, x, a) != Hop(r, x, b) {
      HopShorter(r, x, b, d);
      RootedDistinct(spans, x, d, a, b);
    }
    VisitedSize(r, x, d);
    RevisitIsVisited(r, x, d);
    var top := Hop(r, x, d).value;
    assert top !in Visited(r, x, d);
    SubsetCardinality(Visited(r, x, d) + {top}, Below(|r|));
  }

  // ---- Walking down ----

  ghost predicate AllRootedAt(spans: seq<Otel>, xs: seq<nat>, d: nat) {
    forall i :: 0 <= i < |xs| ==> RootedAt(spans, xs[i], d)
  }

  lemma ChildrenRooted(spans: seq<Otel>, x: nat, d: nat)
    requires RootedAt(spans, x, d)
    ensures AllRootedAt(spans, ChildrenOf(spans, x, |spans|), d + 1)
    ensures d < |spans|
  {
    var cs := ChildrenOf(spans, x, |spans|);
    ChildrenExact(spans, x, |spans|);
    DepthBound(spans, x, d);
    forall i | 0 <= i < |cs| ensures RootedAt(spans, cs[i], d + 1) {
      assert cs[i] in cs;
      ChildRooted(spans, x, d, cs[i]);
    }
  }

  /** Levels that a walk at depth `d` may still go down. */
  ghost function Room(spans: seq<Otel>, d: nat): nat { if d < |spans| then |spans| - d else 0 }

  /** The spans met by a recursive walk from `x`, in the order of the walk. */
  ghost function Walk(spans: seq<Otel>, x: nat, d: nat): seq<nat>
    requires RootedAt(spans, x, d)
    decreases Room(spans, d), 0
  {
    ChildrenRooted(spans, x, d);
    [x] + WalkAll(spans, ChildrenOf(spans, x, |spans|), d + 1)
  }

  ghost function WalkAll(spans: seq<Otel>, xs: seq<nat>, d: nat): seq<nat>
    requires AllRootedAt(spans, xs, d)
    decreases Room(spans, d), 1 + |xs|
  {
    if xs == [] then [] else Walk(spans, xs[0], d) + WalkAll(spans, xs[1..], d)
  }

  ghost function Occurrences(y: nat, s: seq<nat>): nat { multiset(s)[y] }

  /** Some span of `xs` is `y` or above it. */
  ghost predicate SomeAbove(spans: seq<Otel>, xs: seq<nat>, y: nat)
    requires y < |spans|
  {
    exists i :: 0 <= i < |xs| && Above(spans, xs[i], y)
  }

  /** At one depth at most one span is above `y`. */
  lemma AboveUnique(spans: seq<Otel>, x: nat, x': nat, d: nat, y: nat)
    requires RootedAt(spans, x, d) && RootedAt(spans, x', d) && y < |spans|
    requires Above(spans, x, y) && Above(spans, x', y)
    ensures x == x'
  {
    hide Hop, ParentOf, RootedAt;
    var r := Parents(spans);
    var k: nat :| Hop(r, y, k) == Some(x);
    var k': nat :| Hop(r, y, k') == Some(x');
    AboveDepth(spans, x, d, y, k);
    AboveDepth(spans, x', d, y, k');
    RootedUnique(spans, y, k + d, k' + d);
  }

  lemma AboveDepth(spans: seq<Otel>, x: nat, d: nat, y: nat, k: nat)
    requires RootedAt(spans, x, d) && y < |spans| && Hop(Parents(spans), y, k) == Some(x)
    ensures RootedAt(spans, y, k + d)
  {
    HopAdd(Parents(spans), y, k, d);
  }

  lemma RootedUnique(spans: seq<Otel>, y: nat, a: nat, b: nat)
    requires RootedAt(spans, y, a) && RootedAt(spans, y, b)
    ensures a == b
  {
    hide Owner;
    var r := Parents(spans);
    assert Hop(r, y, a + 1) == None && Hop(r, y, b + 1) == None;
    if a < b { HopShorter(r, y, a + 1, b); }
    if b < a { HopShorter(r, y, b + 1, a); }
  }

  lemma AboveThroughChild(spans: seq<Otel>, x: nat, y: nat, k: nat)
    requires x < |spans| && y < |spans| && k >= 1 && Hop(Parents(spans), y, k) == Some(x)
    ensures SomeAbove(spans, ChildrenOf(spans, x, |spans|), y)
  {
    hide ParentOf, RootedAt, ChildrenOf;
    var r, cs := Parents(spans), ChildrenOf(spans, x, |spans|);
    ChildrenExact(spans, x, |spans|);
    HopShorter(r, y, k - 1, k);
    var c := Hop(r, y, k - 1).value;
    assert c in cs;
    var i :| 0 <= i < |cs| && cs[i] == c;
    assert Above(spans, cs[i], y);
  }

  lemma ChildIsBelow(spans: seq<Otel>, x: nat, d: nat, y: nat, c: nat, k: nat)
    requires RootedAt(spans, x, d) && y < |spans| && c < |spans| && ParentOf(spans, c) == Some(x)
    requires Hop(Parents(spans), y, k) == Some(c)
    ensures Hop(Parents(spans), y, k + 1) == Some(x) && x != y
  {
    hide ParentOf, RootedAt;
    assert Hop(Parents(spans), y, k + 1) == Some(x);
    AboveDepth(spans, x, d, y, k + 1);
    assert Hop(Parents(spans), y, 0) == Some(y);
    RootedDistinct(spans, y, k + 1 + d, 0, k + 1);
  }

  /** `x` is above `y` exactly when it is `y` or one of its children is above. */
  lemma AboveByChild(spans: seq<Otel>, x: nat, d: nat, y: nat)
    requires RootedAt(spans, x, d) && y < |spans|
    ensures Above(spans, x, y) <==> x == y || SomeAbove(spans, ChildrenOf(spans, x, |spans|), y)
    ensures x == y ==> !SomeAbove(spans, ChildrenOf(spans, x, |spans|), y)
  {
    hide ParentOf, ChildrenOf;
    var r, cs := Parents(spans), ChildrenOf(spans, x, |spans|);
    ChildrenExact(spans, x, |spans|);
    assert Hop(r, y, 0) == Some(y);
    if Above(spans, x, y) && x != y {
      var k: nat :| Hop(r, y, k) == Some(x);
      AboveThroughChild(spans, x, y, k);
    }
    if SomeAbove(spans, cs, y) {
      var i :| 0 <= i < |cs| && Above(spans, cs[i], y);
      assert cs[i] in cs;
      var k: nat :| Hop(r, y, k) == Some(cs[i]);
      ChildIsBelow(spans, x, d, y, cs[i], k);
    }
  }

  /** A walk meets every span below its start once and no other. */
  lemma {:induction false} WalkOnce(spans: seq<Otel>, x: nat, d: nat, y: nat)
    requires RootedAt(spans, x, d) && y < |spans|
    ensures Occurrences(y, Walk(spans, x, d)) == if Above(spans, x, y) then 1 else 0
    decreases Room(spans, d), 0
  {
    hide RootedAt, Above, SomeAbove;
    var cs := ChildrenOf(spans, x, |spans|);
    ChildrenRooted(spans, x, d);
    ChildrenExact(spans, x, |spans|);
    WalkAllOnce(spans, cs, d + 1, y);
    AboveByChild(spans, x, d, y);
    assert multiset(Walk(spans, x, d)) == multiset{x} + multiset(WalkAll(spans, cs, d + 1));
  }

  lemma {:induction false} WalkAllOnce(spans: seq<Otel>, xs: seq<nat>, d: nat, y: nat)
    requires AllRootedAt(spans, xs, d) && Unique(xs) && y < |spans|
    ensures Occurrences(y, WalkAll(spans, xs, d)) == if SomeAbove(spans, xs, y) then 1 else 0
    decreases Room(spans, d), 1 + |xs|
  {
    hide RootedAt, Above;
    if xs != [] {
      var rest := xs[1..];
      WalkOnce(spans, xs[0], d, y);
      WalkAllOnce(spans, rest, d, y);
      SomeAboveSplit(spans, xs, d, y);
      assert multiset(WalkAll(spans, xs, d)) == multiset(Walk(spans, xs[0], d)) + multiset(WalkAll(spans, rest, d));
    }
  }

  lemma SomeAboveSplit(spans: seq<Otel>, xs: seq<nat>, d: nat, y: nat)
    requires AllRootedAt(spans, xs, d) && Unique(xs) && y < |spans| && xs != []
    ensures SomeAbove(spans, xs, y) <==> Above(spans, xs[0], y) || SomeAbove(spans, xs[1..], y)
    ensures !(Above(spans, xs[0], y) && SomeAbove(spans, xs[1..], y))
  {
    hide RootedAt, Above;
    var rest := xs[1..];
    if SomeAbove(spans, rest, y) {
      var i :| 0 <= i < |rest| && Above(spans, rest[i], y);
      assert xs[i + 1] == rest[i];
      if Above(spans, xs[0], y) { AboveUnique(spans, xs[0], xs[i + 1], d, y); }
    }
    if SomeAbove(spans, xs, y) && !Above(spans, xs[0], y) {
      var i :| 0 <= i < |xs| && Above(spans, xs[i], y);
      assert rest[i - 1] == xs[i];
    }
  }

  // ---- The order of a walk ----

  /** `a` comes somewhere before `b`. */
  ghost predicate Precedes(s: seq<nat>, a: nat, b: nat) {
    exists i, j :: 0 <= i < j < |s| && s[i] == a && s[j] == b
  }

  lemma PrecedesWithin(before: seq<nat>, s: seq<nat>, after: seq<nat>, a: nat, b: nat)
    requires Precedes(s, a, b)
    ensures Precedes(before + s + after, a, b)
  {
    var i, j :| 0 <= i < j < |s| && s[i] == a && s[j] == b;
    var t := before + s + after;
    assert t[|before| + i] == a && t[|before| + j] == b;
  }

  lemma PrecedesAcross(s: seq<nat>, t: seq<nat>, a: nat, b: nat)
    requires a in s && b in t
    ensures Precedes(s + t, a, b)
  {
    var i :| 0 <= i < |s| && s[i] == a;
    var j :| 0 <= j < |t| && t[j] == b;
    assert (s + t)[i] == a && (s + t)[|s| + j] == b;
  }

  lemma {:induction false} WalkAllHas(spans: seq<Otel>, xs: seq<nat>, d: nat, i: nat, y: nat)
    requires AllRootedAt(spans, xs, d) && i < |xs| && RootedAt(spans, xs[i], d) && y in Walk(spans, xs[i], d)
    ensures y in WalkAll(spans, xs, d)
  {
    hide RootedAt, Walk;
    if i > 0 { WalkAllHas(spans, xs[1..], d, i - 1, y); }
  }

  /** What is below one of two spans is met before what is below the next. */
  lemma {:induction false} SiblingsInOrder(spans: seq<Otel>, xs: seq<nat>, d: nat, i: nat, j: nat, a: nat, b: nat)
    requires AllRootedAt(spans, xs, d) && i < j < |xs| && RootedAt(spans, xs[i], d) && RootedAt(spans, xs[j], d)
    requires a in Walk(spans, xs[i], d) && b in Walk(spans, xs[j], d)
    ensures Precedes(WalkAll(spans, xs, d), a, b)
  {
    hide RootedAt, Walk, Precedes;
    var first, rest := Walk(spans, xs[0], d), WalkAll(spans, xs[1..], d);
    if i > 0 {
      SiblingsInOrder(spans, xs[1..], d, i - 1, j - 1, a, b);
      PrecedesWithin(first, rest, [], a, b);
      assert first + rest + [] == first + rest;
    } else {
      WalkAllHas(spans, xs[1..], d, j - 1, b);
      PrecedesAcross(first, rest, a, b);
    }
  }

  lemma {:induction false} WalkAllEmbeds(spans: seq<Otel>, xs: seq<nat>, d: nat, i: nat, a: nat, b: nat)
    requires AllRootedAt(spans, xs, d) && i < |xs| && RootedAt(spans, xs[i], d)
    requires Precedes(Walk(spans, xs[i], d), a, b)
    ensures Precedes(WalkAll(spans, xs, d), a, b)
  {
    hide RootedAt, Walk, Precedes;
    var first, rest := Walk(spans, xs[0], d), WalkAll(spans, xs[1..], d);
    if i > 0 {
      WalkAllEmbeds(spans, xs[1..], d, i - 1, a, b);
      PrecedesWithin(first, rest, [], a, b);
      assert first + rest + [] == first + rest;
    } else {
      PrecedesWithin([], first, rest, a, b);
      assert [] + first + rest == first + rest;
    }
  }

  /** A walk meets a span before everything below it. */
  lemma {:induction false} ParentsFirst(spans: seq<Otel>, x: nat, d: nat, p: nat, y: nat)
    requires RootedAt(spans, x, d) && p < |spans| && y < |spans| && p != y
    requires Above(spans, x, p) && Above(spans, p, y)
    ensures Precedes(Walk(spans, x, d), p, y)
    decreases Room(spans, d)
  {
    hide RootedAt, Above, Precedes;
    ChildrenRooted(spans, x, d);
    var cs := ChildrenOf(spans, x, |spans|);
    var below := WalkAll(spans, cs, d + 1);
    RootedRange(spans, x, d);
    AboveTransitive(spans, x, p, y);
    if p == x {
      assert y in Walk(spans, x, d) by { WalkMeets(spans, x, d, y); }
      assert y in below;
      PrecedesAcross([x], below, x, y);
    } else {
      AboveByChild(spans, x, d, p);
      var i :| 0 <= i < |cs| && Above(spans, cs[i], p);
      ParentsFirst(spans, cs[i], d + 1, p, y);
      WalkAllEmbeds(spans, cs, d + 1, i, p, y);
      PrecedesWithin([x], below, [], p, y);
      assert [x] + below + [] == [x] + below;
    }
  }

  lemma WalkMeets(spans: seq<Otel>, x: nat, d: nat, y: nat)
    requires RootedAt(spans, x, d) && y < |spans| && Above(spans, x, y)
    ensures y in Walk(spans, x, d)
  {
    hide RootedAt, Above, Walk;
    WalkOnce(spans, x, d, y);
    assert multiset(Walk(spans, x, d))[y] == 1;
  }

  lemma AboveTransitive(spans: seq<Otel>, x: nat, p: nat, y: nat)
    requires x < |spans| && p < |spans| && y < |spans| && Above(spans, x, p) && Above(spans, p, y)
    ensures Above(spans, x, y)
  {
    hide ParentOf, Hop;
    var r := Parents(spans);
    var a: nat :| Hop(r, p, a) == Some(x);
    var b: nat :| Hop(r, y, b) == Some(p);
    HopAdd(r, y, b, a);
  }

  // ---- The spans that are laid out, trimmed and emitted ----

  /** The spans `d` levels below roots, level by level. */
  ghost function Level(spans: seq<Otel>, d: nat): seq<nat> {
    if d == 0 then RootsOf(spans, |spans|) else NextLevel(spans, Level(spans, d - 1))
  }

  ghost function NextLevel(spans: seq<Otel>, xs: seq<nat>): seq<nat> {
    if xs == [] then [] else ChildrenOf(spans, xs[0], |spans|) + NextLevel(spans, xs[1..])
  }

  lemma {:induction false} NextLevelExact(spans: seq<Otel>, xs: seq<nat>)
    requires Unique(xs)
    ensures Unique(NextLevel(spans, xs))
    ensures forall c: nat :: c in NextLevel(spans, xs) <==>
      c < |spans| && ParentOf(spans, c).Some? && ParentOf(spans, c).value in xs
  {
    hide ParentOf, ChildrenOf;
    if xs != [] {
      ChildrenExact(spans, xs[0], |spans|);
      NextLevelExact(spans, xs[1..]);
      assert xs == [xs[0]] + xs[1..];
      UniqueConcat(ChildrenOf(spans, xs[0], |spans|), NextLevel(spans, xs[1..]));
    }
  }

  lemma UniqueConcat(a: seq<nat>, b: seq<nat>)
    requires Unique(a) && Unique(b) && forall x :: x in a ==> x !in b
    ensures Unique(a + b)
  {
    forall i, j | 0 <= i < j < |a + b| ensures (a + b)[i] != (a + b)[j] {
      if i < |a| <= j { assert a[i] in a && b[j - |a|] in b; }
    }
  }

  lemma RootedByParent(spans: seq<Otel>, c: nat, d: nat)
    requires c < |spans| && d >= 1
    ensures RootedAt(spans, c, d) <==>
      ParentOf(spans, c).Some? && RootedAt(spans, ParentOf(spans, c).value, d - 1)
  {
    hide ParentOf, IsRoot;
    var r := Parents(spans);
    assert Hop(r, c, 1) == ParentOf(spans, c) by { assert Hop(r, c, 0) == Some(c); }
    if Hop(r, c, 1).Some? { HopAdd(r, c, 1, d - 1); }
    if Hop(r, c, d).Some? { HopShorter(r, c, 1, d); }
  }

  /** A level lists exactly the spans of its depth, each once. */
  lemma {:induction false} LevelExact(spans: seq<Otel>, d: nat)
    ensures Unique(Level(spans, d))
    ensures forall c: nat :: c in Level(spans, d) <==> RootedAt(spans, c, d)
  {
    hide RootedAt, ParentOf, NextLevel, RootsOf, Unique;
    if d == 0 {
      RootsExact(spans, |spans|);
      forall c: nat ensures RootedAt(spans, c, 0) <==> c < |spans| && IsRoot(spans[c]) { RootedRoot(spans, c); }
    } else {
      LevelExact(spans, d - 1);
      NextLevelExact(spans, Level(spans, d - 1));
      forall c: nat ensures c in Level(spans, d) <==> RootedAt(spans, c, d) {
        if c < |spans| { RootedByParent(spans, c, d); } else { RootedRange(spans, c, d); }
      }
    }
  }

  lemma RootedRoot(spans: seq<Otel>, c: nat)
    ensures RootedAt(spans, c, 0) <==> c < |spans| && IsRoot(spans[c])
  {
    if c < |spans| { assert Hop(Parents(spans), c, 0) == Some(c); }
  }

  lemma RootedRange(spans: seq<Otel>, c: nat, d: nat)
    ensures RootedAt(spans, c, d) ==> c < |spans|
  {
  }

  /** Spans with two levels between them and their root, or more. */
  ghost predicate Emittable(spans: seq<Otel>, y: nat) {
    exists d: nat :: d >= 2 && RootedAt(spans, y, d)
  }

  /** The top-level spans of all requests, in processing order. */
  ghost function Tops(spans: seq<Otel>): seq<nat> { Level(spans, 2) }

  lemma TopsRooted(spans: seq<Otel>)
    ensures AllRootedAt(spans, Tops(spans), 2) && Unique(Tops(spans))
  {
    hide RootedAt, Level;
    LevelExact(spans, 2);
    var tops := Tops(spans);
    forall i | 0 <= i < |tops| ensures RootedAt(spans, tops[i], 2) {
      assert tops[i] in Level(spans, 2);
    }
  }

  /** For arbitrary parent ids, and in whatever order the top-level spans are
      walked, every span at depth two or more below a root is met exactly once,
      and no other span is. */
  lemma EmittedOnce(spans: seq<Otel>, order: seq<nat>, y: nat)
    requires multiset(order) == multiset(Tops(spans)) && y < |spans|
    ensures AllRootedAt(spans, order, 2)
    ensures Occurrences(y, WalkAll(spans, order, 2)) == if Emittable(spans, y) then 1 else 0
  {
    hide RootedAt, Level, WalkAll, Above;
    TopsRooted(spans);
    TopAbove(spans, y);
    SameTops(spans, order, y);
    WalkAllOnce(spans, order, 2, y);
  }

  lemma SameTops(spans: seq<Otel>, order: seq<nat>, y: nat)
    requires multiset(order) == multiset(Tops(spans)) && y < |spans|
    requires AllRootedAt(spans, Tops(spans), 2) && Unique(Tops(spans))
    ensures AllRootedAt(spans, order, 2) && Unique(order)
    ensures SomeAbove(spans, order, y) <==> SomeAbove(spans, Tops(spans), y)
    ensures order == [] <==> Tops(spans) == []
  {
    hide RootedAt, Level, Above;
    var tops := Tops(spans);
    Reordered(order, tops);
    Reordered(tops, order);
    UniqueReordered(order, tops);
    forall i | 0 <= i < |order| ensures RootedAt(spans, order[i], 2) {
      var j :| 0 <= j < |tops| && tops[j] == order[i];
    }
    if SomeAbove(spans, order, y) {
      var i :| 0 <= i < |order| && Above(spans, order[i], y);
      var j :| 0 <= j < |tops| && tops[j] == order[i];
    }
    if SomeAbove(spans, tops, y) {
      var i :| 0 <= i < |tops| && Above(spans, tops[i], y);
      var j :| 0 <= j < |order| && order[j] == tops[i];
    }
  }

  lemma Reordered(a: seq<nat>, b: seq<nat>)
    requires multiset(a) == multiset(b)
    ensures |a| == |b|
    ensures forall i :: 0 <= i < |a| ==> exists j :: 0 <= j < |b| && b[j] == a[i]
  {
    assert |multiset(a)| == |a| && |multiset(b)| == |b|;
    forall i | 0 <= i < |a| ensures exists j :: 0 <= j < |b| && b[j] == a[i] {
      assert a[i] in multiset(b);
      assert a[i] in b;
    }
  }

  lemma UniqueReordered(a: seq<nat>, b: seq<nat>)
    requires multiset(a) == multiset(b) && Unique(b)
    ensures Unique(a)
  {
    forall i, j | 0 <= i < j < |a| ensures a[i] != a[j] {
      UniqueCount(b, a[i]);
      assert a == a[..i] + [a[i]] + a[i + 1..];
      assert multiset(a)[a[i]] == multiset(a[..i])[a[i]] + 1 + multiset(a[i + 1..])[a[i]];
      assert a[j] == a[i + 1..][j - i - 1];
      assert a[j] in multiset(a[i + 1..]);
    }
  }

  lemma {:induction false} UniqueCount(b: seq<nat>, x: nat)
    requires Unique(b)
    ensures multiset(b)[x] <= 1
  {
    if b != [] {
      UniqueCount(b[1..], x);
      assert b == [b[0]] + b[1..];
      assert forall i :: 0 <= i < |b[1..]| ==> b[1..][i] == b[i + 1];
    }
  }

  lemma TopAbove(spans: seq<Otel>, y: nat)
    requires y < |spans|
    ensures Emittable(spans, y) <==> SomeAbove(spans, Tops(spans), y)
  {
    hide Level;
    var r, tops := Parents(spans), Tops(spans);
    LevelExact(spans, 2);
    if Emittable(spans, y) {
      var d: nat :| d >= 2 && RootedAt(spans, y, d);
      HopShorter(r, y, d - 2, d);
      HopAdd(r, y, d - 2, 2);
      var x := Hop(r, y, d - 2).value;
      assert x in Level(spans, 2);
      var i :| 0 <= i < |tops| && tops[i] == x;
      assert Above(spans, tops[i], y);
    }
    if SomeAbove(spans, tops, y) {
      var i :| 0 <= i < |tops| && Above(spans, tops[i], y);
      assert tops[i] in Level(spans, 2);
      var k: nat :| Hop(r, y, k) == Some(tops[i]);
      AboveDepth(spans, tops[i], 2, y, k);
    }
  }

  // ---- Trimming in place ----

  lemma {:induction false} WalkAllConcat(spans: seq<Otel>, xs: seq<nat>, ys: seq<nat>, d: nat)
    requires AllRootedAt(spans, xs, d) && AllRootedAt(spans, ys, d)
    ensures AllRootedAt(spans, xs + ys, d)
    ensures WalkAll(spans, xs + ys, d) == WalkAll(spans, xs, d) + WalkAll(spans, ys, d)
  {
    hide RootedAt, Walk;
    if xs == [] {
      assert xs + ys == ys;
    } else {
      WalkAllConcat(spans, xs[1..], ys, d);
      assert (xs + ys)[1..] == xs[1..] + ys && (xs + ys)[0] == xs[0];
    }
  }

  lemma WalkAllSnoc(spans: seq<Otel>, xs: seq<nat>, x: nat, d: nat)
    requires AllRootedAt(spans, xs, d) && RootedAt(spans, x, d)
    ensures AllRootedAt(spans, xs + [x], d)
    ensures WalkAll(spans, xs + [x], d) == WalkAll(spans, xs, d) + Walk(spans, x, d)
  {
    hide RootedAt;
    WalkAllConcat(spans, xs, [x], d);
    assert [x][1..] == [];
    assert WalkAll(spans, [x], d) == Walk(spans, x, d) + [];
  }

  const TRIM := 1000

  /** Ends after a walk: one trim per visit. */
  ghost predicate Trimmed(before: seq<int>, after: seq<int>, walked: seq<nat>) {
    |before| == |after| &&
    forall y: nat :: y < |before| ==> after[y] == before[y] - TRIM * Occurrences(y, walked)
  }

  lemma TrimmedThen(a: seq<int>, b: seq<int>, c: seq<int>, first: seq<nat>, second: seq<nat>)
    requires Trimmed(a, b, first) && Trimmed(b, c, second)
    ensures Trimmed(a, c, first + second)
  {
    forall y: nat | y < |a| ensures c[y] == a[y] - TRIM * Occurrences(y, first + second) {
      assert multiset(first + second) == multiset(first) + multiset(second);
      assert Occurrences(y, first + second) == Occurrences(y, first) + Occurrences(y, second);
    }
  }

  /** The child lists of these spans. */
  ghost predicate Tree(spans: seq<Otel>, child: seq<seq<nat>>) {
    |child| == |spans| && forall p :: 0 <= p < |spans| ==> child[p] == ChildrenOf(spans, p, |spans|)
  }

  /** Convert a span and, recursively, its children. */
  method ConvertSpan(ghost spans: seq<Otel>, child: seq<seq<nat>>, x: nat, ghost d: nat, ends: array<int>)
    requires Tree(spans, child) && ends.Length == |spans| && RootedAt(spans, x, d)
    modifies ends
    ensures Trimmed(old(ends[..]), ends[..], Walk(spans, x, d))
    decreases Room(spans, d)
  {
    hide RootedAt, Trimmed, ChildrenOf;
    ghost var before := ends[..];
    ChildrenRooted(spans, x, d);
    assert x < ends.Length by { RootedRange(spans, x, d); }
    ends[x] := ends[x] - TRIM;
    var cs := child[x];
    TrimOne(before, ends[..], x);
    var j := 0;
    assert WalkAll(spans, cs[..0], d + 1) == [];
    assert [x] + WalkAll(spans, cs[..0], d + 1) == [x];
    while j < |cs|
      invariant j <= |cs|
      invariant Trimmed(before, ends[..], [x] + WalkAll(spans, cs[..j], d + 1))
    {
      ghost var mid := ends[..];
      ConvertSpan(spans, child, cs[j], d + 1, ends);
      WalkAllSnoc(spans, cs[..j], cs[j], d + 1);
      TrimmedThen(before, mid, ends[..], [x] + WalkAll(spans, cs[..j], d + 1), Walk(spans, cs[j], d + 1));
      assert cs[..j] + [cs[j]] == cs[..j + 1];
      assert [x] + WalkAll(spans, cs[..j], d + 1) + Walk(spans, cs[j], d + 1) ==
             [x] + WalkAll(spans, cs[..j + 1], d + 1);
      j := j + 1;
    }
    assert cs[..j] == cs;
  }

  lemma TrimOne(before: seq<int>, after: seq<int>, x: nat)
    requires x < |before| && after == before[x := before[x] - TRIM]
    ensures Trimmed(before, after, [x])
  {
  }

  /** Convert the spans of one thread. */
  method ConvertThread(ghost spans: seq<Otel>, child: seq<seq<nat>>, thread: nat, ends: array<int>)
    requires Tree(spans, child) && ends.Length == |spans| && RootedAt(spans, thread, 1)
    modifies ends
    ensures AllRootedAt(spans, ChildrenOf(spans, thread, |spans|), 2)
    ensures Trimmed(old(ends[..]), ends[..], WalkAll(spans, ChildrenOf(spans, thread, |spans|), 2))
  {
    hide RootedAt, Trimmed, ChildrenOf;
    ghost var before := ends[..];
    ChildrenRooted(spans, thread, 1);
    RootedRange(spans, thread, 1);
    var cs := child[thread];
    TrimNone(before);
    var j := 0;
    while j < |cs|
      invariant j <= |cs|
      invariant Trimmed(before, ends[..], WalkAll(spans, cs[..j], 2))
    {
      ghost var mid := ends[..];
      ConvertSpan(spans, child, cs[j], 2, ends);
      WalkAllSnoc(spans, cs[..j], cs[j], 2);
      TrimmedThen(before, mid, ends[..], WalkAll(spans, cs[..j], 2), Walk(spans, cs[j], 2));
      assert cs[..j] + [cs[j]] == cs[..j + 1];
      j := j + 1;
    }
    assert cs[..j] == cs;
  }

  lemma TrimNone(before: seq<int>)
    ensures Trimmed(before, before, [])
  {
  }

  lemma {:induction false} NextLevelConcat(spans: seq<Otel>, xs: seq<nat>, ys: seq<nat>)
    ensures NextLevel(spans, xs + ys) == NextLevel(spans, xs) + NextLevel(spans, ys)
  {
    hide ChildrenOf;
    if xs == [] {
      assert xs + ys == ys;
    } else {
      NextLevelConcat(spans, xs[1..], ys);
      assert (xs + ys)[1..] == xs[1..] + ys;
    }
  }

  lemma NextLevelOne(spans: seq<Otel>, x: nat)
    ensures NextLevel(spans, [x]) == ChildrenOf(spans, x, |spans|)
  {
    hide ChildrenOf;
    assert [x][1..] == [];
    assert NextLevel(spans, []) == [];
  }

  /** Convert all threads of one request; the spans found are its top-level spans. */
  method ConvertRequest(ghost spans: seq<Otel>, child: seq<seq<nat>>, root: nat, ends: array<int>)
    returns (tops: seq<nat>)
    requires Tree(spans, child) && ends.Length == |spans| && RootedAt(spans, root, 0)
    modifies ends
    ensures tops == NextLevel(spans, NextLevel(spans, [root])) && AllRootedAt(spans, tops, 2)
    ensures Trimmed(old(ends[..]), ends[..], WalkAll(spans, tops, 2))
  {
    hide RootedAt, Trimmed, ChildrenOf, NextLevel;
    ghost var before := ends[..];
    RootedRange(spans, root, 0);
    ChildrenRooted(spans, root, 0);
    NextLevelOne(spans, root);
    var threads := child[root];
    TrimNone(before);
    NextLevelNone(spans);
    tops := [];
    var i := 0;
    while i < |threads|
      invariant i <= |threads| && tops == NextLevel(spans, threads[..i]) && AllRootedAt(spans, tops, 2)
      invariant Trimmed(before, ends[..], WalkAll(spans, tops, 2))
    {
      ghost var mid := ends[..];
      ConvertThread(spans, child, threads[i], ends);
      RootedRange(spans, threads[i], 1);
      var found := child[threads[i]];
      WalkAllConcat(spans, tops, found, 2);
      TrimmedThen(before, mid, ends[..], WalkAll(spans, tops, 2), WalkAll(spans, found, 2));
      NextLevelConcat(spans, threads[..i], [threads[i]]);
      NextLevelOne(spans, threads[i]);
      assert threads[..i] + [threads[i]] == threads[..i + 1];
      tops := tops + found;
      i := i + 1;
    }
    assert threads[..i] == threads;
  }

  lemma NextLevelNone(spans: seq<Otel>)
    ensures NextLevel(spans, []) == []
  {
  }

  /** Convert all requests: every span at depth two or more below a root has been
      trimmed once, and no other span has been touched. */
  method ConvertForest(ghost spans: seq<Otel>, child: seq<seq<nat>>, roots: seq<nat>, ends: array<int>)
    returns (tops: seq<nat>)
    requires Tree(spans, child) && ends.Length == |spans| && roots == RootsOf(spans, |spans|)
    modifies ends
    ensures tops == Tops(spans)
    ensures forall y: nat :: y < |spans| ==>
      ends[y] == old(ends[y]) - if Emittable(spans, y) then 1000 else 0
  {
    hide RootedAt, Trimmed, NextLevel, RootsOf, Emittable, Tree;
    ghost var before := ends[..];
    RootsRooted(spans);
    TrimNone(before);
    NextLevelNone(spans);
    tops := [];
    var i := 0;
    while i < |roots|
      invariant i <= |roots| && tops == NextLevel(spans, NextLevel(spans, roots[..i])) && AllRootedAt(spans, tops, 2)
      invariant Trimmed(before, ends[..], WalkAll(spans, tops, 2))
    {
      ghost var mid := ends[..];
      var found := ConvertRequest(spans, child, roots[i], ends);
      WalkAllConcat(spans, tops, found, 2);
      TrimmedThen(before, mid, ends[..], WalkAll(spans, tops, 2), WalkAll(spans, found, 2));
      NextLevelConcat(spans, roots[..i], [roots[i]]);
      NextLevelConcat(spans, NextLevel(spans, roots[..i]), NextLevel(spans, [roots[i]]));
      assert roots[..i] + [roots[i]] == roots[..i + 1];
      tops := tops + found;
      i := i + 1;
    }
    assert roots[..i] == roots;
    TopsUnfold(spans);
    TrimmedForest(spans, before, ends[..]);
  }

  lemma RootsRooted(spans: seq<Otel>)
    ensures AllRootedAt(spans, RootsOf(spans, |spans|), 0)
  {
    var roots := RootsOf(spans, |spans|);
    RootsExact(spans, |spans|);
    forall i | 0 <= i < |roots| ensures RootedAt(spans, roots[i], 0) {
      assert roots[i] in roots;
      assert Hop(Parents(spans), roots[i], 0) == Some(roots[i]);
    }
  }

  lemma TopsUnfold(spans: seq<Otel>)
    ensures Tops(spans) == NextLevel(spans, NextLevel(spans, RootsOf(spans, |spans|)))
  {
    hide NextLevel, RootsOf;
    assert Level(spans, 0) == RootsOf(spans, |spans|);
    assert Level(spans, 1) == NextLevel(spans, Level(spans, 0));
  }

  lemma TrimmedForest(spans: seq<Otel>, before: seq<int>, after: seq<int>)
    requires AllRootedAt(spans, Tops(spans), 2) && |before| == |spans|
    requires Trimmed(before, after, WalkAll(spans, Tops(spans), 2))
    ensures |after| == |before|
    ensures forall y: nat :: y < |spans| ==> after[y] == before[y] - if Emittable(spans, y) then TRIM else 0
  {
    hide RootedAt, WalkAll, Emittable, Level;
    forall y: nat | y < |spans| ensures after[y] == before[y] - if Emittable(spans, y) then TRIM else 0 {
      EmittedOnce(spans, Tops(spans), y);
    }
  }

  /** The walked spans got this line, the others kept theirs. */
  ghost predicate LinesSet(before: seq<nat>, after: seq<nat>, walked: seq<nat>, line: nat) {
    |after| == |before| && forall y: nat :: y < |before| ==> after[y] == if y in walked then line else before[y]
  }

  lemma LinesSetThen(a: seq<nat>, b: seq<nat>, c: seq<nat>, first: seq<nat>, second: seq<nat>, line: nat)
    requires LinesSet(a, b, first, line) && LinesSet(b, c, second, line)
    ensures LinesSet(a, c, first + second, line)
  {
  }

  lemma LinesSetOne(before: seq<nat>, after: seq<nat>, x: nat, line: nat)
    requires x < |before| && after == before[x := line]
    ensures LinesSet(before, after, [x], line)
  {
  }

  /** Give a span and, recursively, its children the same line. */
  method SetLine(ghost spans: seq<Otel>, child: seq<seq<nat>>, x: nat, ghost d: nat, line: nat, tids: array<nat>)
    requires Tree(spans, child) && tids.Length == |spans| && RootedAt(spans, x, d)
    modifies tids
    ensures LinesSet(old(tids[..]), tids[..], Walk(spans, x, d), line)
    decreases Room(spans, d)
  {
    hide RootedAt, LinesSet, ChildrenOf;
    ghost var before := tids[..];
    ChildrenRooted(spans, x, d);
    assert x < tids.Length by { RootedRange(spans, x, d); }
    tids[x] := line;
    var cs := child[x];
    LinesSetOne(before, tids[..], x, line);
    var j := 0;
    assert WalkAll(spans, cs[..0], d + 1) == [];
    assert [x] + WalkAll(spans, cs[..0], d + 1) == [x];
    while j < |cs|
      invariant j <= |cs|
      invariant LinesSet(before, tids[..], [x] + WalkAll(spans, cs[..j], d + 1), line)
    {
      ghost var mid := tids[..];
      SetLine(spans, child, cs[j], d + 1, line, tids);
      WalkAllSnoc(spans, cs[..j], cs[j], d + 1);
      LinesSetThen(before, mid, tids[..], [x] + WalkAll(spans, cs[..j], d + 1), Walk(spans, cs[j], d + 1), line);
      assert cs[..j] + [cs[j]] == cs[..j + 1];
      assert [x] + WalkAll(spans, cs[..j], d + 1) + Walk(spans, cs[j], d + 1) ==
             [x] + WalkAll(spans, cs[..j + 1], d + 1);
      j := j + 1;
    }
    assert cs[..j] == cs;
  }

  /** Everything below one of these spans shows on that span's line. */
  ghost predicate ShownBelow(spans: seq<Otel>, tops: seq<nat>, lines: seq<nat>, tids: seq<nat>, n: nat) {
    n <= |tops| == |lines| && |tids| == |spans| &&
    forall i, y: nat :: 0 <= i < n && y < |spans| && Above(spans, tops[i], y) ==> tids[y] == lines[i]
  }

  lemma ShownNext(spans: seq<Otel>, tops: seq<nat>, lines: seq<nat>, before: seq<nat>, after: seq<nat>, n: nat)
    requires ShownBelow(spans, tops, lines, before, n) && n < |tops| && Unique(tops) && AllRootedAt(spans, tops, 2)
    requires RootedAt(spans, tops[n], 2) && LinesSet(before, after, Walk(spans, tops[n], 2), lines[n])
    ensures ShownBelow(spans, tops, lines, after, n + 1)
  {
    hide RootedAt, Above, Walk;
    forall i, y: nat | 0 <= i < n + 1 && y < |spans| && Above(spans, tops[i], y) ensures after[y] == lines[i] {
      WalkOnce(spans, tops[n], 2, y);
      assert y in Walk(spans, tops[n], 2) <==> multiset(Walk(spans, tops[n], 2))[y] > 0;
      if i < n && Above(spans, tops[n], y) { AboveUnique(spans, tops[i], tops[n], 2, y); }
    }
  }

  /** Show every span on the line given to the top-level span above it. */
  method ShowLines(ghost spans: seq<Otel>, child: seq<seq<nat>>, tops: seq<nat>, lines: seq<nat>, tids: array<nat>)
    requires Tree(spans, child) && tids.Length == |spans| && |lines| == |tops|
    requires Unique(tops) && AllRootedAt(spans, tops, 2)
    modifies tids
    ensures ShownBelow(spans, tops, lines, tids[..], |tops|)
  {
    hide RootedAt, ShownBelow, LinesSet, Tree, Walk;
    var i := 0;
    assert ShownBelow(spans, tops, lines, tids[..], 0) by { NothingShown(spans, tops, lines, tids[..]); }
    while i < |tops|
      invariant i <= |tops| && ShownBelow(spans, tops, lines, tids[..], i)
    {
      ghost var before := tids[..];
      SetLine(spans, child, tops[i], 2, lines[i], tids);
      ShownNext(spans, tops, lines, before, tids[..], i);
      i := i + 1;
    }
  }

  lemma NothingShown(spans: seq<Otel>, tops: seq<nat>, lines: seq<nat>, tids: seq<nat>)
    requires |tops| == |lines| && |tids| == |spans|
    ensures ShownBelow(spans, tops, lines, tids, 0)
  {
  }

  /** Collect a span and, recursively, its children. */
  method GatherSpan(ghost spans: seq<Otel>, child: seq<seq<nat>>, x: nat, ghost d: nat) returns (elems: seq<nat>)
    requires Tree(spans, child) && RootedAt(spans, x, d)
    ensures elems == Walk(spans, x, d)
    decreases Room(spans, d)
  {
    hide RootedAt, ChildrenOf;
    ChildrenRooted(spans, x, d);
    RootedRange(spans, x, d);
    elems := [x];
    var cs := child[x];
    var j := 0;
    while j < |cs|
      invariant j <= |cs|
      invariant elems == [x] + WalkAll(spans, cs[..j], d + 1)
    {
      var more := GatherSpan(spans, child, cs[j], d + 1);
      WalkAllSnoc(spans, cs[..j], cs[j], d + 1);
      assert cs[..j] + [cs[j]] == cs[..j + 1];
      elems := elems + more;
      j := j + 1;
    }
    assert cs[..j] == cs;
  }
}
