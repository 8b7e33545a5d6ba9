/** Which lane a span gets, said of the spans placed before it: the lane its
    request used last on that process if nothing there is in the way, otherwise
    the first lane where nothing is. */
module LaneChoice {
  import opened SpanLanes
  import opened SpanLayout

  // ---- In terms of lanes ----

  /** On lanes without overlaps, the lane chosen is the request's own if the span
      is an instant or nothing on it is in the way, and otherwise the least lane
      with nothing in the way, possibly a new one. */
  lemma FindLineExact(g: Graph, st: Status, span: Span)
    requires ValidStatus(g, st) && AllSorted(g) && AllChained(g)
    ensures var line, lanes, iv := FindLine(g, st, span), Lanes(g, span.pid), span.iv;
            if span.pid in st && (iv.start == iv.end || !ScanConflict(lanes[st[span.pid] - 1], iv.start, iv.end)) then
              line == st[span.pid]
            else
              && 1 <= line <= |lanes| + 1
              && (forall k :: 0 <= k < line - 1 ==> ScanConflict(lanes[k], iv.start, iv.end))
              && (line <= |lanes| ==> !ScanConflict(lanes[line - 1], iv.start, iv.end))
  {
    hide CheckOverlap, ScanConflict;
    var lanes := Lanes(g, span.pid);
    forall k | 0 <= k < |lanes|
      ensures CheckOverlap(lanes[k], span.iv.start, span.iv.end) <==> ScanConflict(lanes[k], span.iv.start, span.iv.end)
    {
      NeighbourTestIsScan(lanes[k], span.iv.start, span.iv.end);
    }
  }

  // ---- In terms of the spans placed ----

  /** Something placed on this lane is in the way of `iv`. */
  ghost predicate Blocked(log: seq<Placed>, pid: int, line: nat, iv: Interval) {
    exists j :: 0 <= j < |log| && log[j].span.pid == pid && log[j].line == line &&
      InTheWay(log[j].span.iv, iv.start, iv.end)
  }

  /** The lane that these placements used last on a process. */
  function LastLine(own: seq<Placed>, pid: int): (line: seq<nat>)
    ensures |line| <= 1
  {
    if own == [] then []
    else if own[|own| - 1].span.pid == pid then [own[|own| - 1].line]
    else LastLine(own[..|own| - 1], pid)
  }

  ghost predicate LeastFree(log: seq<Placed>, pid: int, iv: Interval, line: nat) {
    1 <= line && !Blocked(log, pid, line, iv) && forall k: nat :: 1 <= k < line ==> Blocked(log, pid, k, iv)
  }

  /** The lane a span should get after the placements `log`, the last of which,
      `own`, are of its own request. */
  ghost predicate RightLine(log: seq<Placed>, own: seq<Placed>, span: Span, line: nat) {
    var last := LastLine(own, span.pid);
    if last != [] && (span.iv.start == span.iv.end || !Blocked(log, span.pid, last[0], span.iv)) then line == last[0]
    else LeastFree(log, span.pid, span.iv, line)
  }

  /** The status table is what the request's own placements say. */
  ghost predicate StatusIs(own: seq<Placed>, st: Status) {
    forall pid :: LastLine(own, pid) == if pid in st then [st[pid]] else []
  }

  lemma BlockedIsConflict(l: Layout, pid: int, line: nat, iv: Interval)
    requires LogOk(l) && 1 <= line
    ensures Blocked(l.log, pid, line, iv) <==>
      line <= |Lanes(l.graph, pid)| && ScanConflict(Lanes(l.graph, pid)[line - 1], iv.start, iv.end)
  {
    hide InTheWay;
    var lanes := Lanes(l.graph, pid);
    if Blocked(l.log, pid, line, iv) {
      var j :| 0 <= j < |l.log| && l.log[j].span.pid == pid && l.log[j].line == line &&
        InTheWay(l.log[j].span.iv, iv.start, iv.end);
      assert InLane(l.graph, l.log[j]);
      var i :| 0 <= i < |lanes[line - 1]| && lanes[line - 1][i] == l.log[j].span.iv;
    }
    if line <= |lanes| && ScanConflict(lanes[line - 1], iv.start, iv.end) {
      var i :| 0 <= i < |lanes[line - 1]| && InTheWay(lanes[line - 1][i], iv.start, iv.end);
      assert lanes[line - 1][i] in l.graph[pid][line - 1];
      assert Placed(Span(pid, lanes[line - 1][i]), line - 1 + 1) in l.log;
      var j :| 0 <= j < |l.log| && l.log[j] == Placed(Span(pid, lanes[line - 1][i]), line);
    }
  }

  lemma ChoosesRight(l: Layout, st: Status, span: Span, own: seq<Placed>)
    requires ValidStatus(l.graph, st) && Good(l) && StatusIs(own, st)
    ensures RightLine(l.log, own, span, FindLine(l.graph, st, span))
  {
    hide FindLine, LastLine, LogApart, SlotsOk, Blocked, ScanConflict, LogOk;
    var line, lanes := FindLine(l.graph, st, span), Lanes(l.graph, span.pid);
    FindLineExact(l.graph, st, span);
    forall k: nat | 1 <= k
      ensures Blocked(l.log, span.pid, k, span.iv) <==>
        k <= |lanes| && ScanConflict(lanes[k - 1], span.iv.start, span.iv.end)
    {
      BlockedIsConflict(l, span.pid, k, span.iv);
    }
    assert LastLine(own, span.pid) == if span.pid in st then [st[span.pid]] else [];
  }

  // ---- Whole layouts ----

  /** From position `b` on, `n` placements of one request are right. */
  ghost predicate RequestRight(log: seq<Placed>, b: nat, n: nat) {
    b + n <= |log| && forall t :: b <= t < b + n ==> RightLine(log[..t], log[b..t], log[t].span, log[t].line)
  }

  /** From position `b` on, the placements of these requests are right. */
  ghost predicate AllRight(log: seq<Placed>, b: nat, requests: seq<seq<Span>>)
    decreases |requests|
  {
    requests != [] ==> RequestRight(log, b, |requests[0]|) && AllRight(log, b + |requests[0]|, requests[1..])
  }

  lemma LogAppends(l: Layout, st: Status, span: Span)
    requires ValidStatus(l.graph, st)
    ensures Place(l, st, span).log == l.log + [Placed(span, FindLine(l.graph, st, span))]
  {
    hide FindLine;
  }

  lemma StatusNext(own: seq<Placed>, st: Status, span: Span, line: nat)
    requires StatusIs(own, st)
    ensures StatusIs(own + [Placed(span, line)], st[span.pid := line])
  {
    var next := own + [Placed(span, line)];
    assert next[..|own|] == own;
  }

  lemma KeepsGood(l: Layout, st: Status, span: Span)
    requires ValidStatus(l.graph, st) && Good(l) && !Hides(l.graph, st, span)
    ensures Good(Place(l, st, span))
  {
    hide Place, Hides, SlotsOk, LogOk, AllSorted, AllChained, LogApart;
    PlaceInv(l, st, span);
    StepChained(l, st, span);
  }

  lemma {:induction false} RequestPlaced(l: Layout, st: Status, spans: seq<Span>, b: nat)
    requires ValidStatus(l.graph, st) && Good(l) && !HidesInRequest(l, st, spans)
    requires b <= |l.log| && StatusIs(l.log[b..], st)
    ensures var m := PlaceRequest(l, st, spans);
            && Good(m) && |m.log| == |l.log| + |spans| && l.log <= m.log
            && forall t :: |l.log| <= t < |m.log| ==> RightLine(m.log[..t], m.log[b..t], m.log[t].span, m.log[t].line)
    decreases |spans|
  {
    hide Good, Hides, Place, NextStatus, StatusIs, RightLine, FindLine;
    if spans != [] {
      var line := FindLine(l.graph, st, spans[0]);
      var next, m := Place(l, st, spans[0]), PlaceRequest(l, st, spans);
      LogAppends(l, st, spans[0]);
      StatusNext(l.log[b..], st, spans[0], line);
      assert next.log[b..] == l.log[b..] + [Placed(spans[0], line)];
      assert NextStatus(l, st, spans[0]) == st[spans[0].pid := line] by { StatusIsNext(l, st, spans[0]); }
      KeepsGood(l, st, spans[0]);
      RequestPlaced(next, NextStatus(l, st, spans[0]), spans[1..], b);
      ChoosesRight(l, st, spans[0], l.log[b..]);
      assert m.log[..|l.log|] == l.log && m.log[b..|l.log|] == l.log[b..];
      assert m.log[|l.log|] == next.log[|l.log|] == Placed(spans[0], line);
    }
  }

  lemma StatusIsNext(l: Layout, st: Status, span: Span)
    requires ValidStatus(l.graph, st)
    ensures NextStatus(l, st, span) == st[span.pid := FindLine(l.graph, st, span)]
  {
  }

  lemma RightPrefix(log: seq<Placed>, longer: seq<Placed>, b: nat, n: nat)
    requires log <= longer && RequestRight(log, b, n)
    ensures RequestRight(longer, b, n)
  {
    hide RightLine;
    forall t | b <= t < b + n ensures RightLine(longer[..t], longer[b..t], longer[t].span, longer[t].line) {
      assert longer[..t] == log[..t] && longer[b..t] == log[b..t] && longer[t] == log[t];
    }
  }

  lemma NoneYet(l: Layout)
    ensures StatusIs(l.log[|l.log|..], map[])
  {
  }

  lemma {:induction false} AllPlaced(l: Layout, requests: seq<seq<Span>>)
    requires Good(l) && !HidesInAll(l, requests)
    ensures l.log <= PlaceAll(l, requests).log && AllRight(PlaceAll(l, requests).log, |l.log|, requests)
    decreases |requests|
  {
    hide Good, HidesInRequest, PlaceRequest, StatusIs, RightLine;
    if requests != [] {
      NoneYet(l);
      RequestPlaced(l, map[], requests[0], |l.log|);
      var m := PlaceRequest(l, map[], requests[0]);
      AllPlaced(m, requests[1..]);
      RightPrefix(m.log, PlaceAll(l, requests).log, |l.log|, |requests[0]|);
    }
  }

  /** In a layout in which nothing is hidden, every span of every request is on
      the lane its request used last on that process if nothing placed there is
      in the way, and otherwise on the first lane where nothing is. */
  lemma PlacementExact(requests: seq<seq<Span>>)
    requires !HidesInAll(EMPTY, requests)
    ensures AllRight(PlaceAll(EMPTY, requests).log, 0, requests)
  {
    hide Good, HidesInAll, PlaceAll, AllRight;
    EmptyGood();
    AllPlaced(EMPTY, requests);
  }

  /** Affinity at work: [0,10), then a request with [5,15) and [20,30): the last
      span stays on lane 2, its request's own, although lane 1 is free. */
  lemma AffinityWitness(pid: int)
    ensures var a, b, c := Placed(Span(pid, Interval(0, 10)), 1), Placed(Span(pid, Interval(5, 15)), 2),
                           Span(pid, Interval(20, 30));
            && RightLine([a, b], [b], c, 2) && !RightLine([a, b], [b], c, 1)
            && LeastFree([a, b], pid, c.iv, 1)
  {
    var b := Placed(Span(pid, Interval(5, 15)), 2);
    assert LastLine([b], pid) == [2];
  }
}
