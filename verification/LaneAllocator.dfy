/** The layout as the converter runs it: one mutable container per lane, found
    through a dictionary of dictionaries that is extended while it is searched.
    Every method is tied to the specification in `SpanLayout`. */
module LaneAllocator {
  import opened SpanLanes
  import opened SpanLayout
  import opened Sums

  class SpanLayoutContainer {
    var intervals: Lane

    constructor ()
      ensures intervals == []
    {
      intervals := [];
    }

    method CheckConflict(start: int, end: int) returns (conflict: bool)
      ensures conflict == CheckOverlap(intervals, start, end)
      ensures Sorted(intervals) && Chained(intervals) ==> conflict == ScanConflict(intervals, start, end)
    {
      if Sorted(intervals) && Chained(intervals) {
        NeighbourTestIsScan(intervals, start, end);
      }
      var k := LowerStart(intervals, start);
      if k > 0 {
        if intervals[k - 1].end > start { return true; }
      }
      if k < |intervals| {
        if intervals[k].start < end { return true; }
      }
      return false;
    }

    method InsertSpan(start: int, end: int)
      modifies this
      ensures intervals == Inserted(old(intervals), Interval(start, end))
      ensures Sorted(old(intervals)) ==> Sorted(intervals)
      ensures multiset(intervals) == multiset(old(intervals)) + multiset{Interval(start, end)}
    {
      var iv := Interval(start, end);
      InsertElements(intervals, iv);
      if Sorted(intervals) { InsertSorted(intervals, iv); }
      intervals := Splice(intervals, InsertAt(intervals, iv), iv);
    }
  }

  /** The layout between choosing a lane and inserting into it. */
  ghost function Opened(l: Layout, pid: int, line: nat): Layout {
    var lanes := Lanes(l.graph, pid);
    if line > |lanes| then Layout(l.graph[pid := lanes + [[]]], l.slots + [(pid, line)], l.log) else l
  }

  /** No container serves two lanes. */
  ghost predicate Separate(graph: map<int, seq<SpanLayoutContainer>>) {
    forall pid, i, q, j ::
      (pid in graph && 0 <= i < |graph[pid]| && q in graph && 0 <= j < |graph[q]| &&
       graph[pid][i] == graph[q][j]) ==> pid == q && i == j
  }

  lemma SeparateNext(graph: map<int, seq<SpanLayoutContainer>>, pid: int, lanes: seq<SpanLayoutContainer>,
                     lane: SpanLayoutContainer)
    requires Separate(graph) && lanes == if pid in graph then graph[pid] else []
    requires forall q, j :: q in graph && 0 <= j < |graph[q]| ==> graph[q][j] != lane
    ensures Separate(graph[pid := lanes + [lane]])
  {
  }

  class Allocator {
    var graph: map<int, seq<SpanLayoutContainer>>
    var slots: seq<(int, nat)>
    var placed: seq<Placed>
    ghost var view: Layout
    ghost var repr: set<SpanLayoutContainer>

    ghost predicate Valid()
      reads this, repr
    {
      && slots == view.slots && placed == view.log
      && graph.Keys == view.graph.Keys
      && (forall pid :: pid in graph ==> |graph[pid]| == |view.graph[pid]|)
      && (forall pid, i :: pid in graph && 0 <= i < |graph[pid]| ==>
            graph[pid][i] in repr && graph[pid][i].intervals == view.graph[pid][i])
      && Separate(graph)
    }

    constructor ()
      ensures Valid() && view == EMPTY && fresh(repr)
    {
      graph, slots, placed := map[], [], [];
      view, repr := EMPTY, {};
    }

    /** The first lane of `pid` with room, or one past the last. */
    method FirstLane(pid: int, iv: Interval) returns (k: nat)
      requires Valid() && pid in graph
      ensures k == FirstFree(view.graph[pid], iv)
    {
      k := 0;
      while k < |graph[pid]|
        invariant k <= |graph[pid]|
        invariant forall i :: 0 <= i < k ==> CheckOverlap(view.graph[pid][i], iv.start, iv.end)
      {
        var conflict := graph[pid][k].CheckConflict(iv.start, iv.end);
        if !conflict { return; }
        k := k + 1;
      }
    }

    method OpenLane(pid: int) returns (line: nat)
      requires Valid()
      modifies this
      ensures Valid() && fresh(repr - old(repr))
      ensures line == |Lanes(old(view).graph, pid)| + 1
      ensures view == Opened(old(view), pid, line)
      ensures old(repr) <= repr
    {
      hide Separate;
      var lane := new SpanLayoutContainer();
      var lanes := if pid in graph then graph[pid] else [];
      SeparateNext(graph, pid, lanes, lane);
      line := |lanes| + 1;
      graph := graph[pid := lanes + [lane]];
      slots := slots + [(pid, line)];
      repr := repr + {lane};
      view := Opened(view, pid, line);
    }

    /** Whether the lane that the request used last has room. */
    method CurrentFree(status: Status, span: Span) returns (free: bool)
      requires Valid() && ValidStatus(view.graph, status) && span.pid in status
      ensures free == !CheckOverlap(view.graph[span.pid][status[span.pid] - 1], span.iv.start, span.iv.end)
    {
      var conflict := graph[span.pid][status[span.pid] - 1].CheckConflict(span.iv.start, span.iv.end);
      free := !conflict;
    }

    /** The first lane with room, a new one if there is none. */
    method SearchLine(span: Span) returns (line: nat)
      requires Valid()
      modifies this
      ensures Valid() && fresh(repr - old(repr)) && old(repr) <= repr
      ensures line == 1 + FirstFree(Lanes(old(view).graph, span.pid), span.iv)
      ensures view == Opened(old(view), span.pid, line)
    {
      if span.pid in graph {
        var k := FirstLane(span.pid, span.iv);
        if k < |graph[span.pid]| { return k + 1; }
      }
      line := OpenLane(span.pid);
    }

    method ChooseLine(status: Status, span: Span) returns (line: nat, status': Status)
      requires Valid() && ValidStatus(view.graph, status)
      modifies this
      ensures Valid() && fresh(repr - old(repr)) && old(repr) <= repr
      ensures line == FindLine(old(view).graph, status, span)
      ensures status' == status[span.pid := line]
      ensures view == Opened(old(view), span.pid, line)
    {
      hide Valid;
      if span.pid in status {
        line := status[span.pid];
        status' := status;
        if span.iv.start == span.iv.end { return; }
        var free := CurrentFree(status, span);
        if free { return; }
      }
      line := SearchLine(span);
      status' := status[span.pid := line];
    }

    method PlaceSpan(status: Status, span: Span) returns (line: nat, status': Status)
      requires Valid() && ValidStatus(view.graph, status)
      modifies this, repr
      ensures Valid() && fresh(repr - old(repr)) && old(repr) <= repr
      ensures view == Place(old(view), status, span) && status' == NextStatus(old(view), status, span)
      ensures line == FindLine(old(view).graph, status, span)
    {
      line, status' := ChooseLine(status, span);
      InsertInto(line, span);
      FilledOpened(old(view), span, line);
    }

    method InsertInto(line: nat, span: Span)
      requires Valid() && span.pid in graph && 1 <= line <= |graph[span.pid]|
      modifies this`view, this`placed, repr
      ensures Valid() && view == PlaceAt(old(view), span, line)
    {
      graph[span.pid][line - 1].InsertSpan(span.iv.start, span.iv.end);
      placed := placed + [Placed(span, line)];
      view := PlaceAt(view, span, line);
    }

    method LayOut(requests: seq<seq<Span>>)
      requires Valid()
      modifies this, repr
      ensures Valid() && fresh(repr - old(repr))
      ensures view == PlaceAll(old(view), requests)
    {
      var i := 0;
      while i < |requests|
        invariant i <= |requests|
        invariant Valid() && fresh(repr - old(repr))
        invariant PlaceAll(view, requests[i..]) == PlaceAll(old(view), requests)
      {
        var status: Status := map[];
        var j, spans := 0, requests[i];
        ghost var before := view;
        while j < |spans|
          invariant j <= |spans|
          invariant Valid() && fresh(repr - old(repr)) && ValidStatus(view.graph, status)
          invariant PlaceRequest(view, status, spans[j..]) == PlaceRequest(before, map[], spans)
        {
          var line, next := PlaceSpan(status, spans[j]);
          assert spans[j..][1..] == spans[j + 1..];
          status := next;
          j := j + 1;
        }
        assert requests[i..][1..] == requests[i + 1..];
        i := i + 1;
      }
    }
  }

  lemma FilledOpened(l: Layout, span: Span, line: nat)
    requires 1 <= line <= |Lanes(l.graph, span.pid)| + 1
    ensures PlaceAt(Opened(l, span.pid, line), span, line) == PlaceAt(l, span, line)
  {
    var lanes := Lanes(l.graph, span.pid);
    if line > |lanes| {
      var wider := lanes + [[]];
      assert Inserted([], span.iv) == [span.iv];
      assert wider[line - 1 := [span.iv]] == lanes + [[span.iv]];
      assert Lanes(Opened(l, span.pid, line).graph, span.pid) == wider;
      assert l.graph[span.pid := wider][span.pid := lanes + [[span.iv]]] == l.graph[span.pid := lanes + [[span.iv]]];
    }
  }
}
