/** Sums and counts over sequences of naturals, and the cardinality facts the
    protocol proofs share. */
module Sums {

  datatype Option<+T> = None | Some(value: T)

  function Sum(s: seq<nat>): nat {
    if s == [] then 0 else s[0] + Sum(s[1..])
  }

  lemma {:induction false} SumAppend(s: seq<nat>, t: seq<nat>)
    ensures Sum(s + t) == Sum(s) + Sum(t)
  {
    if s == [] {
      assert s + t == t;
    } else {
      SumAppend(s[1..], t);
      assert (s + t)[1..] == s[1..] + t;
    }
  }

  lemma {:induction false} ZeroSum(s: seq<nat>)
    requires forall i :: 0 <= i < |s| ==> s[i] == 0
    ensures Sum(s) == 0
  {
    if s != [] { ZeroSum(s[1..]); }
  }

  lemma {:induction false} SumUpdate(s: seq<nat>, i: nat, v: nat)
    requires i < |s|
    ensures Sum(s[i := v]) + s[i] == Sum(s) + v
  {
    if i == 0 {
      assert s[i := v][1..] == s[1..];
    } else {
      SumUpdate(s[1..], i - 1, v);
      assert s[i := v][1..] == s[1..][i - 1 := v];
    }
  }

  /** Pointwise order carries over to sums, and equal sums force equal entries. */
  lemma {:induction false} SumMonotone(s: seq<nat>, t: seq<nat>)
    requires |s| == |t|
    requires forall i :: 0 <= i < |s| ==> s[i] <= t[i]
    ensures Sum(s) <= Sum(t)
    ensures Sum(s) == Sum(t) ==> s == t
  {
    if s != [] {
      SumMonotone(s[1..], t[1..]);
      if Sum(s) == Sum(t) {
        assert s[1..] == t[1..] && s[0] == t[0];
        assert s == [s[0]] + s[1..] && t == [t[0]] + t[1..];
      }
    }
  }

  /** The naturals below `n`. */
  function Below(n: nat): (r: set<nat>)
    ensures |r| == n
    ensures forall i: nat :: i in r <==> i < n
  {
    if n == 0 then {} else Below(n - 1) + {n - 1}
  }

  lemma SubsetCardinality<T>(a: set<T>, b: set<T>)
    requires a <= b
    ensures |a| <= |b|
    ensures |a| == |b| ==> a == b
  {
    assert b == a + (b - a);
    assert |b| == |a| + |b - a|;
  }

  /** Entries below their bound have at least one each to go. */
  lemma {:induction false} UnfinishedBound(round: seq<nat>, rounds: seq<nat>, some: set<nat>)
    requires |round| == |rounds|
    requires forall c :: 0 <= c < |round| ==> round[c] <= rounds[c]
    requires forall c :: c in some ==> c < |round| && round[c] < rounds[c]
    ensures Sum(round) + |some| <= Sum(rounds)
  {
    if round == [] {
      assert some == {};
    } else {
      var last := |round| - 1;
      UnfinishedBound(round[..last], rounds[..last], some - {last});
      SumAppend(round[..last], [round[last]]);
      SumAppend(rounds[..last], [rounds[last]]);
      assert round == round[..last] + [round[last]] && rounds == rounds[..last] + [rounds[last]];
      assert |some| <= |some - {last}| + 1;
    }
  }

  /** `round` with one more for everyone in `busy`. */
  ghost function Played(round: seq<nat>, busy: set<nat>): (r: seq<nat>)
    ensures |r| == |round|
    ensures forall c :: 0 <= c < |r| ==> r[c] == round[c] + if c in busy then 1 else 0
  {
    seq(|round|, c requires 0 <= c < |round| => round[c] + if c in busy then 1 else 0)
  }

  lemma {:induction false} PlayedSum(round: seq<nat>, busy: set<nat>)
    requires forall c :: c in busy ==> c < |round|
    ensures Sum(Played(round, busy)) == Sum(round) + |busy|
    decreases |busy|
  {
    hide Sum, Played;
    if busy == {} {
      assert Played(round, busy) == round;
    } else {
      var d :| d in busy;
      var fewer := busy - {d};
      PlayedSum(round, fewer);
      assert Played(round, busy) == Played(round, fewer)[d := round[d] + 1];
      SumUpdate(Played(round, fewer), d, round[d] + 1);
    }
  }

  /** `xs` without the entry at index `k`. */
  function RemoveAt<T>(xs: seq<T>, k: nat): (r: seq<T>)
    requires k < |xs|
    ensures |r| == |xs| - 1
    ensures multiset(r) + multiset{xs[k]} == multiset(xs)
  {
    assert xs == xs[..k] + [xs[k]] + xs[k + 1..];
    xs[..k] + xs[k + 1..]
  }

  /** `xs` with `x` put in at index `k`. */
  function Splice<T>(xs: seq<T>, k: nat, x: T): (r: seq<T>)
    requires k <= |xs|
    ensures |r| == |xs| + 1
    ensures forall i :: 0 <= i < |r| ==> r[i] == if i < k then xs[i] else if i == k then x else xs[i - 1]
  {
    xs[..k] + [x] + xs[k..]
  }

  lemma SpliceMembers<T>(xs: seq<T>, k: nat, x: T)
    requires k <= |xs|
    ensures multiset(Splice(xs, k, x)) == multiset(xs) + multiset{x}
    ensures forall y :: y in Splice(xs, k, x) <==> y in xs || y == x
  {
    assert xs == xs[..k] + xs[k..];
    var r := Splice(xs, k, x);
    assert multiset(r) == multiset(xs[..k]) + multiset{x} + multiset(xs[k..]);
    forall y ensures y in r <==> y in xs || y == x {
      assert y in r <==> y in multiset(r);
      assert y in xs <==> y in multiset(xs);
    }
  }

  predicate Increasing(xs: seq<nat>) { forall i, j :: 0 <= i < j < |xs| ==> xs[i] < xs[j] }

  lemma NoneIncreasing()
    ensures Increasing([])
  {
  }

  lemma IncreasingNext(xs: seq<nat>, x: nat)
    requires Increasing(xs) && forall y :: y in xs ==> y < x
    ensures Increasing(xs + [x])
  {
    forall i, j | 0 <= i < j < |xs + [x]| ensures (xs + [x])[i] < (xs + [x])[j] {
      assert xs[i] in xs;
    }
  }

  ghost predicate Unique<T>(xs: seq<T>) {
    forall i, j :: 0 <= i < j < |xs| ==> xs[i] != xs[j]
  }

  lemma SpliceUnique<T>(xs: seq<T>, k: nat, x: T)
    requires k <= |xs| && x !in xs && Unique(xs)
    ensures Unique(Splice(xs, k, x))
  {
  }

  lemma UniqueNext<T>(xs: seq<T>, x: T)
    requires Unique(xs) && x !in xs
    ensures Unique(xs + [x])
  {
  }

  lemma ConcatAssociates<T>(a: seq<T>, b: seq<T>, c: seq<T>)
    ensures a + b + c == a + (b + c)
  {
  }

  function Concat<T>(lists: seq<seq<T>>): seq<T> {
    if lists == [] then [] else lists[0] + Concat(lists[1..])
  }

  lemma {:induction false} ConcatNext<T>(lists: seq<seq<T>>, more: seq<T>)
    ensures Concat(lists + [more]) == Concat(lists) + more
  {
    if lists == [] {
      assert lists + [more] == [more] && [more][1..] == [];
    } else {
      ConcatNext(lists[1..], more);
      assert (lists + [more])[1..] == lists[1..] + [more];
    }
  }
}
