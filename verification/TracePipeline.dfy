/** From raw spans to lanes: building the forest, trimming it and laying out the
    top-level spans, in one piece. */
module TracePipeline {
  import opened Sums
  import opened SpanForest
  import opened SpanLanes
  import opened SpanLayout
  import opened LaneAllocator

  /** The raw spans, their start times, and the process ids of thread spans. */
  datatype Trace = Trace(spans: seq<Otel>, starts: seq<int>, pids: seq<int>)

  predicate ValidTrace(t: Trace) { |t.starts| == |t.pids| == |t.spans| }

  /** `order` lists all top-level spans, request by request, however sorted. */
  ghost predicate Arranged(t: Trace, order: seq<seq<nat>>) {
    multiset(Concat(order)) == multiset(Tops(t.spans))
  }

  /** A span that hangs below a thread span. */
  predicate Hangs(t: Trace, x: nat) { x < |t.spans| && ParentOf(t.spans, x).Some? }

  predicate AllHang(t: Trace, xs: seq<nat>) { forall i :: 0 <= i < |xs| ==> Hangs(t, xs[i]) }

  /** A top-level span as the layout sees it, on its thread's process. */
  function SpanOf(t: Trace, ends: seq<int>, x: nat): Span
    requires ValidTrace(t) && |ends| == |t.spans| && Hangs(t, x)
  {
    Span(t.pids[ParentOf(t.spans, x).value], Interval(t.starts[x], ends[x]))
  }

  function SpansOf(t: Trace, ends: seq<int>, xs: seq<nat>): (r: seq<Span>)
    requires ValidTrace(t) && |ends| == |t.spans| && AllHang(t, xs)
    ensures |r| == |xs| && forall i :: 0 <= i < |r| ==> r[i] == SpanOf(t, ends, xs[i])
  {
    seq(|xs|, i requires 0 <= i < |xs| => SpanOf(t, ends, xs[i]))
  }

  function RequestsOf(t: Trace, ends: seq<int>, order: seq<seq<nat>>): (r: seq<seq<Span>>)
    requires ValidTrace(t) && |ends| == |t.spans| && AllHang(t, Concat(order))
    ensures |r| == |order|
    ensures Concat(r) == SpansOf(t, ends, Concat(order))
  {
    if order == [] then []
    else
      HangParts(t, order[0], Concat(order[1..]));
      [SpansOf(t, ends, order[0])] + RequestsOf(t, ends, order[1..])
  }

  lemma HangParts(t: Trace, a: seq<nat>, b: seq<nat>)
    requires AllHang(t, a + b)
    ensures AllHang(t, a) && AllHang(t, b)
  {
    assert forall i :: 0 <= i < |a| ==> a[i] == (a + b)[i];
    assert forall i :: 0 <= i < |b| ==> b[i] == (a + b)[|a| + i];
  }

  lemma TopsHang(t: Trace, order: seq<seq<nat>>)
    requires Arranged(t, order)
    ensures AllHang(t, Concat(order))
    ensures forall i :: 0 <= i < |Concat(order)| ==> Emittable(t.spans, Concat(order)[i])
  {
    hide RootedAt, Level, Concat, ParentOf;
    var xs, tops := Concat(order), Tops(t.spans);
    TopsRooted(t.spans);
    Reordered(xs, tops);
    forall i | 0 <= i < |xs| ensures Hangs(t, xs[i]) && Emittable(t.spans, xs[i]) {
      var j :| 0 <= j < |tops| && tops[j] == xs[i];
      assert RootedAt(t.spans, xs[i], 2);
      RootedRange(t.spans, xs[i], 2);
      RootedByParent(t.spans, xs[i], 2);
    }
  }

  // ---- Every span is placed, in order ----

  function LogSpans(log: seq<Placed>): (r: seq<Span>)
    ensures |r| == |log| && forall i :: 0 <= i < |r| ==> r[i] == log[i].span
  {
    seq(|log|, i requires 0 <= i < |log| => log[i].span)
  }

  lemma OneLog(l: Layout, st: Status, span: Span)
    requires ValidStatus(l.graph, st)
    ensures LogSpans(Place(l, st, span).log) == LogSpans(l.log) + [span]
  {
    hide FindLine;
  }

  lemma {:induction false} RequestLog(l: Layout, st: Status, spans: seq<Span>)
    requires ValidStatus(l.graph, st)
    ensures LogSpans(PlaceRequest(l, st, spans).log) == LogSpans(l.log) + spans
    decreases |spans|
  {
    hide Place, NextStatus, LogSpans;
    if spans != [] {
      OneLog(l, st, spans[0]);
      RequestLog(Place(l, st, spans[0]), NextStatus(l, st, spans[0]), spans[1..]);
      assert spans == [spans[0]] + spans[1..];
    }
  }

  lemma {:induction false} AllLog(l: Layout, requests: seq<seq<Span>>)
    ensures LogSpans(PlaceAll(l, requests).log) == LogSpans(l.log) + Concat(requests)
    decreases |requests|
  {
    hide PlaceRequest, LogSpans;
    if requests != [] {
      RequestLog(l, map[], requests[0]);
      AllLog(PlaceRequest(l, map[], requests[0]), requests[1..]);
    }
  }

  // ---- Disjoint lanes, from the raw times ----

  /** No top-level span lasts exactly as long as the trim takes off. */
  ghost predicate NoneVanishes(t: Trace, before: seq<int>)
    requires ValidTrace(t) && |before| == |t.spans|
  {
    forall x: nat :: x < |t.spans| && x in Tops(t.spans) ==> before[x] - t.starts[x] != 1000
  }

  ghost predicate TrimmedOnce(t: Trace, before: seq<int>, after: seq<int>) {
    && |before| == |after| == |t.spans|
    && forall y: nat :: y < |t.spans| ==> after[y] == before[y] - if Emittable(t.spans, y) then 1000 else 0
  }

  lemma {:induction false} NoInstantParts(requests: seq<seq<Span>>)
    requires NoInstants(Concat(requests))
    ensures forall i :: 0 <= i < |requests| ==> NoInstants(requests[i])
  {
    if requests != [] {
      var a, b := requests[0], Concat(requests[1..]);
      assert forall i :: 0 <= i < |a| ==> a[i] == (a + b)[i];
      assert forall i :: 0 <= i < |b| ==> b[i] == (a + b)[|a| + i];
      NoInstantParts(requests[1..]);
    }
  }

  lemma TopsLast(t: Trace, before: seq<int>, after: seq<int>, xs: seq<nat>)
    requires ValidTrace(t) && multiset(xs) == multiset(Tops(t.spans)) && TrimmedOnce(t, before, after)
    requires AllHang(t, xs) && NoneVanishes(t, before)
    requires forall i :: 0 <= i < |xs| ==> Emittable(t.spans, xs[i])
    ensures NoInstants(SpansOf(t, after, xs))
  {
    hide Emittable, ParentOf, Level;
    Reordered(xs, Tops(t.spans));
    forall i | 0 <= i < |xs| ensures before[xs[i]] - t.starts[xs[i]] != 1000 {
      assert xs[i] in Tops(t.spans);
    }
  }

  /** Whatever the parent ids and the order of requests and spans: the layout
      places each top-level span once, with its end trimmed once, and unless some
      top-level span lasts exactly as long as the trim, no two of them overlap on
      a lane. */
  lemma TraceLanes(t: Trace, before: seq<int>, after: seq<int>, order: seq<seq<nat>>)
    requires ValidTrace(t) && Arranged(t, order) && TrimmedOnce(t, before, after)
    ensures AllHang(t, Concat(order))
    ensures var l := PlaceAll(EMPTY, RequestsOf(t, after, order));
            && |l.log| == |Concat(order)| && LogSpans(l.log) == SpansOf(t, after, Concat(order))
            && (forall i :: 0 <= i < |l.log| ==>
                  var x, span := Concat(order)[i], l.log[i].span;
                  && span.pid == t.pids[ParentOf(t.spans, x).value]
                  && span.iv.start == t.starts[x] && span.iv.end == before[x] - 1000)
            && (LogApart(l.log) <==> !HidesInAll(EMPTY, RequestsOf(t, after, order)))
            && (NoneVanishes(t, before) ==> AllChained(l.graph) && LogApart(l.log))
  {
    hide Concat, Level, PlaceAll, HidesInAll, AllChained, LogApart, Emittable, ParentOf, SlotsOk, LogOk, AllSorted;
    var xs := Concat(order);
    TopsHang(t, order);
    var requests := RequestsOf(t, after, order);
    AllLog(EMPTY, requests);
    assert LogSpans(PlaceAll(EMPTY, requests).log) == SpansOf(t, after, xs);
    LayoutChainedExactly(requests);
    if NoneVanishes(t, before) {
      TopsLast(t, before, after, xs);
      NoInstantParts(requests);
      NoInstantsAnywhere(EMPTY, requests);
    }
  }

  function LogLines(log: seq<Placed>): (r: seq<nat>)
    ensures |r| == |log| && forall i :: 0 <= i < |r| ==> r[i] == log[i].line
  {
    seq(|log|, i requires 0 <= i < |log| => log[i].line)
  }

  lemma OrderRooted(t: Trace, order: seq<seq<nat>>)
    requires Arranged(t, order)
    ensures Unique(Concat(order)) && AllRootedAt(t.spans, Concat(order), 2)
  {
    hide RootedAt, Level, Concat;
    var xs := Concat(order);
    TopsRooted(t.spans);
    Reordered(xs, Tops(t.spans));
    UniqueReordered(xs, Tops(t.spans));
    forall i | 0 <= i < |xs| ensures RootedAt(t.spans, xs[i], 2) {
      var j :| 0 <= j < |Tops(t.spans)| && Tops(t.spans)[j] == xs[i];
    }
  }

  /** The converter from raw spans to lanes: `ends` is trimmed in place, and every
      span below a top-level one is shown on the lane that one was given. */
  method Convert(t: Trace, ends: array<int>, tids: array<nat>, order: seq<seq<nat>>) returns (a: Allocator)
    requires ValidTrace(t) && ends.Length == tids.Length == |t.spans| && Arranged(t, order)
    modifies ends, tids
    ensures fresh(a) && fresh(a.repr) && a.Valid() && TrimmedOnce(t, old(ends[..]), ends[..])
    ensures AllHang(t, Concat(order)) && LogSpans(a.placed) == SpansOf(t, ends[..], Concat(order))
    ensures a.placed == PlaceAll(EMPTY, RequestsOf(t, ends[..], order)).log
    ensures ShownBelow(t.spans, Concat(order), LogLines(a.placed), tids[..], |a.placed|)
    ensures NoneVanishes(t, old(ends[..])) ==> LogApart(a.placed)
  {
    hide Concat, Level, PlaceAll, AllChained, LogApart, Emittable, ParentOf, NoneVanishes, AllHang, ShownBelow;
    var child, roots := BuildTree(t.spans);
    var tops := ConvertForest(t.spans, child, roots, ends);
    TraceLanes(t, old(ends[..]), ends[..], order);
    a := new Allocator();
    a.LayOut(RequestsOf(t, ends[..], order));
    OrderRooted(t, order);
    ShowLines(t.spans, child, Concat(order), LogLines(a.placed), tids);
  }
}
