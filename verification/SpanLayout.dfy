/** The whole layout: one lane list per process id, requests placed one after
    another, each request preferring the lane it used last. */
module SpanLayout {
  import opened Sums
  import opened SpanLanes

  /** A top-level span after trimming. */
  datatype Span = Span(pid: int, iv: Interval)

  /** A span and the lane number it was given. */
  datatype Placed = Placed(span: Span, line: nat)

  /** Lane `l` of a process is the list at index `l - 1`. */
  type Graph = map<int, seq<Lane>>

  /** The lane each process was last given by the request being placed. */
  type Status = map<int, nat>

  /** The lanes, the slot metadata emitted so far, and every placement made. */
  datatype Layout = Layout(graph: Graph, slots: seq<(int, nat)>, log: seq<Placed>)

  const EMPTY := Layout(map[], [], [])

  predicate ValidStatus(g: Graph, st: Status) {
    forall pid :: pid in st ==> pid in g && 1 <= st[pid] <= |g[pid]|
  }

  /** The first lane with room, searching in lane order. */
  function FirstFree(lanes: seq<Lane>, iv: Interval): (k: nat)
    ensures k <= |lanes|
    ensures forall i :: 0 <= i < k ==> CheckOverlap(lanes[i], iv.start, iv.end)
    ensures k < |lanes| ==> !CheckOverlap(lanes[k], iv.start, iv.end)
  {
    if lanes == [] || !CheckOverlap(lanes[0], iv.start, iv.end) then 0
    else 1 + FirstFree(lanes[1..], iv)
  }

  /** The request stays on its lane: for an instant without looking. */
  predicate Stays(g: Graph, st: Status, span: Span)
    requires ValidStatus(g, st)
  {
    span.pid in st &&
    (span.iv.start == span.iv.end ||
     !CheckOverlap(g[span.pid][st[span.pid] - 1], span.iv.start, span.iv.end))
  }

  /** The lane number a span is given. */
  function FindLine(g: Graph, st: Status, span: Span): (line: nat)
    requires ValidStatus(g, st)
    ensures 1 <= line <= (if span.pid in g then |g[span.pid]| + 1 else 1)
  {
    if Stays(g, st, span) then st[span.pid]
    else if span.pid !in g then 1
    else FirstFree(g[span.pid], span.iv) + 1
  }

  function Lanes(g: Graph, pid: int): seq<Lane> { if pid in g then g[pid] else [] }

  /** The lanes of one process after `iv` went to lane `line`, new or not. */
  function Filled(lanes: seq<Lane>, line: nat, iv: Interval): seq<Lane>
    requires 1 <= line <= |lanes| + 1
  {
    if line <= |lanes| then lanes[line - 1 := Inserted(lanes[line - 1], iv)] else lanes + [[iv]]
  }

  function PlaceAt(l: Layout, span: Span, line: nat): Layout
    requires 1 <= line <= |Lanes(l.graph, span.pid)| + 1
  {
    var lanes := Lanes(l.graph, span.pid);
    Layout(l.graph[span.pid := Filled(lanes, line, span.iv)],
           if line > |lanes| then l.slots + [(span.pid, line)] else l.slots,
           l.log + [Placed(span, line)])
  }

  function Place(l: Layout, st: Status, span: Span): Layout
    requires ValidStatus(l.graph, st)
  {
    PlaceAt(l, span, FindLine(l.graph, st, span))
  }

  function NextStatus(l: Layout, st: Status, span: Span): (r: Status)
    requires ValidStatus(l.graph, st)
    ensures ValidStatus(Place(l, st, span).graph, r)
  {
    st[span.pid := FindLine(l.graph, st, span)]
  }

  /** Place the spans of one request. */
  function PlaceRequest(l: Layout, st: Status, spans: seq<Span>): Layout
    requires ValidStatus(l.graph, st)
    decreases |spans|
  {
    if spans == [] then l
    else PlaceRequest(Place(l, st, spans[0]), NextStatus(l, st, spans[0]), spans[1..])
  }

  /** Place all requests, each starting without a preferred lane. */
  function PlaceAll(l: Layout, requests: seq<seq<Span>>): Layout
    decreases |requests|
  {
    if requests == [] then l
    else PlaceAll(PlaceRequest(l, map[], requests[0]), requests[1..])
  }

  // ---- What every layout keeps ----

  ghost predicate AllSorted(g: Graph) {
    forall pid, i :: pid in g && 0 <= i < |g[pid]| ==> Sorted(g[pid][i])
  }

  ghost predicate AllChained(g: Graph) {
    forall pid, i :: pid in g && 0 <= i < |g[pid]| ==> Chained(g[pid][i])
  }

  /** Lane numbers of a process are 1 to n, each announced once. */
  ghost predicate SlotsOk(l: Layout) {
    forall pid, line: nat :: multiset(l.slots)[(pid, line)] ==
      if 1 <= line <= |Lanes(l.graph, pid)| then 1 else 0
  }

  /** The log and the lanes hold the same intervals. */
  ghost predicate LogOk(l: Layout) { LoggedInLanes(l) && LanesLogged(l) }

  /** Any two spans on one lane of one process are apart. */
  ghost predicate LogApart(log: seq<Placed>) {
    forall j, k :: 0 <= j < k < |log| && log[j].span.pid == log[k].span.pid && log[j].line == log[k].line ==>
      Apart(log[j].span.iv, log[k].span.iv)
  }

  /** The untested shortcut puts an instant inside an interval of its lane. */
  predicate Hides(g: Graph, st: Status, span: Span)
    requires ValidStatus(g, st)
  {
    span.pid in st && span.iv.start == span.iv.end &&
    ScanConflict(g[span.pid][st[span.pid] - 1], span.iv.start, span.iv.end)
  }

  lemma PlaceSorted(l: Layout, st: Status, span: Span)
    requires ValidStatus(l.graph, st) && AllSorted(l.graph)
    ensures AllSorted(Place(l, st, span).graph)
  {
    hide Inserted, CheckOverlap;
    var line := FindLine(l.graph, st, span);
    if span.pid in l.graph && line <= |l.graph[span.pid]| {
      InsertSorted(l.graph[span.pid][line - 1], span.iv);
    }
  }

  /** A placement keeps all lanes chained exactly when it hides nothing. */
  lemma PlaceChained(l: Layout, st: Status, span: Span)
    requires ValidStatus(l.graph, st) && AllSorted(l.graph) && AllChained(l.graph)
    ensures AllChained(Place(l, st, span).graph) <==> !Hides(l.graph, st, span)
  {
    hide Sorted, Inserted, ScanConflict, CheckOverlap;
    var line, iv := FindLine(l.graph, st, span), span.iv;
    var g := Place(l, st, span).graph;
    if span.pid in l.graph && line <= |l.graph[span.pid]| {
      var lane := l.graph[span.pid][line - 1];
      assert g[span.pid][line - 1] == Inserted(lane, iv);
      NeighbourTestIsScan(lane, iv.start, iv.end);
      if span.pid in st && iv.start == iv.end {
        InsertInstant(lane, iv.start);
      } else {
        InsertChained(lane, iv);
      }
    }
  }

  lemma PlaceUnchained(l: Layout, st: Status, span: Span)
    requires ValidStatus(l.graph, st) && !AllChained(l.graph)
    ensures !AllChained(Place(l, st, span).graph)
  {
    var pid, i :| pid in l.graph && 0 <= i < |l.graph[pid]| && !Chained(l.graph[pid][i]);
    InsertUnchained(l.graph[pid][i], span.iv);
    var g := Place(l, st, span).graph;
    assert g[pid][i] == l.graph[pid][i] || g[pid][i] == Inserted(l.graph[pid][i], span.iv);
  }

  lemma PlaceSlots(l: Layout, st: Status, span: Span)
    requires ValidStatus(l.graph, st) && SlotsOk(l)
    ensures SlotsOk(Place(l, st, span))
  {
    var line, next := FindLine(l.graph, st, span), Place(l, st, span);
    forall pid, k: nat
      ensures multiset(next.slots)[(pid, k)] == if 1 <= k <= |Lanes(next.graph, pid)| then 1 else 0
    {
      assert multiset(l.slots)[(pid, k)] == if 1 <= k <= |Lanes(l.graph, pid)| then 1 else 0;
    }
  }

  ghost predicate LoggedInLanes(l: Layout) {
    forall j :: 0 <= j < |l.log| ==> InLane(l.graph, l.log[j])
  }

  predicate InLane(g: Graph, p: Placed) {
    1 <= p.line <= |Lanes(g, p.span.pid)| && p.span.iv in Lanes(g, p.span.pid)[p.line - 1]
  }

  ghost predicate LanesLogged(l: Layout) {
    forall pid, i, iv :: pid in l.graph && 0 <= i < |l.graph[pid]| && iv in l.graph[pid][i] ==>
      Placed(Span(pid, iv), i + 1) in l.log
  }

  /** The chosen lane gains the new interval, all others keep theirs. */
  lemma FilledMembers(lanes: seq<Lane>, line: nat, iv: Interval)
    requires 1 <= line <= |lanes| + 1
    ensures var out := Filled(lanes, line, iv);
            && |out| == (if line <= |lanes| then |lanes| else line)
            && (forall i, x :: 0 <= i < |out| ==>
                  (x in out[i] <==> (i < |lanes| && x in lanes[i]) || (i == line - 1 && x == iv)))
  {
    if line <= |lanes| { InsertMembers(lanes[line - 1], iv); }
  }

  lemma PlaceLogged(l: Layout, st: Status, span: Span)
    requires ValidStatus(l.graph, st) && LoggedInLanes(l)
    ensures LoggedInLanes(Place(l, st, span))
  {
    hide Filled, FindLine;
    var line, next := FindLine(l.graph, st, span), Place(l, st, span);
    FilledMembers(Lanes(l.graph, span.pid), line, span.iv);
    forall j | 0 <= j < |next.log| ensures InLane(next.graph, next.log[j]) {
      if j == |l.log| {
        assert next.log[j] == Placed(span, line);
      } else {
        assert next.log[j] == l.log[j] && InLane(l.graph, l.log[j]);
      }
    }
  }

  lemma PlaceLanes(l: Layout, st: Status, span: Span)
    requires ValidStatus(l.graph, st) && LanesLogged(l)
    ensures LanesLogged(Place(l, st, span))
  {
    hide Filled, FindLine;
    var line, next := FindLine(l.graph, st, span), Place(l, st, span);
    FilledMembers(Lanes(l.graph, span.pid), line, span.iv);
    assert next.log[|l.log|] == Placed(Span(span.pid, span.iv), line);
    forall pid, i, iv | pid in next.graph && 0 <= i < |next.graph[pid]| && iv in next.graph[pid][i]
      ensures Placed(Span(pid, iv), i + 1) in next.log
    {
      if pid == span.pid && i == line - 1 && iv == span.iv {
        assert next.log[|l.log|] in next.log;
      } else {
        assert iv in l.graph[pid][i];
      }
    }
  }

  lemma PlaceLog(l: Layout, st: Status, span: Span)
    requires ValidStatus(l.graph, st) && LogOk(l)
    ensures LogOk(Place(l, st, span))
  {
    hide LoggedInLanes, LanesLogged, Place;
    PlaceLogged(l, st, span);
    PlaceLanes(l, st, span);
  }

  lemma InsertMembers(lane: Lane, iv: Interval)
    ensures forall x :: x in Inserted(lane, iv) <==> x in lane || x == iv
  {
    InsertElements(lane, iv);
    forall x ensures x in Inserted(lane, iv) <==> x in lane || x == iv {
      assert x in Inserted(lane, iv) <==> x in multiset(Inserted(lane, iv));
      assert x in lane <==> x in multiset(lane);
    }
  }

  /** Nothing on the chosen lane is in the way of the new span. */
  lemma ChosenLaneFree(l: Layout, st: Status, span: Span)
    requires ValidStatus(l.graph, st) && AllSorted(l.graph) && AllChained(l.graph) && !Hides(l.graph, st, span)
    ensures var line, lanes := FindLine(l.graph, st, span), Lanes(l.graph, span.pid);
            line <= |lanes| ==> !ScanConflict(lanes[line - 1], span.iv.start, span.iv.end)
  {
    var line, lanes := FindLine(l.graph, st, span), Lanes(l.graph, span.pid);
    if line <= |lanes| {
      NeighbourTestIsScan(lanes[line - 1], span.iv.start, span.iv.end);
    }
  }

  lemma PlaceApart(l: Layout, st: Status, span: Span)
    requires ValidStatus(l.graph, st) && AllSorted(l.graph) && AllChained(l.graph) && !Hides(l.graph, st, span)
    requires LogOk(l) && LogApart(l.log)
    ensures LogApart(Place(l, st, span).log)
  {
    hide Sorted, Chained, LanesLogged, CheckOverlap, Hides, Inserted;
    var line, lanes := FindLine(l.graph, st, span), Lanes(l.graph, span.pid);
    ChosenLaneFree(l, st, span);
    forall j | 0 <= j < |l.log| && l.log[j].span.pid == span.pid && l.log[j].line == line
      ensures Apart(l.log[j].span.iv, span.iv)
    {
      var iv := l.log[j].span.iv;
      assert InLane(l.graph, l.log[j]);
      var i :| 0 <= i < |lanes[line - 1]| && lanes[line - 1][i] == iv;
      assert !InTheWay(lanes[line - 1][i], span.iv.start, span.iv.end);
    }
  }

  /** A hidden interval and the instant inside it are not apart. */
  lemma HidesShows(l: Layout, st: Status, span: Span)
    requires ValidStatus(l.graph, st) && LogOk(l) && Hides(l.graph, st, span)
    ensures !LogApart(Place(l, st, span).log)
  {
    hide LoggedInLanes;
    var line, log := st[span.pid], Place(l, st, span).log;
    var lane := l.graph[span.pid][line - 1];
    var i :| 0 <= i < |lane| && InTheWay(lane[i], span.iv.start, span.iv.end);
    assert lane[i] in l.graph[span.pid][line - 1] && Placed(Span(span.pid, lane[i]), line - 1 + 1) in l.log;
    var j :| 0 <= j < |l.log| && l.log[j] == Placed(Span(span.pid, lane[i]), line);
    assert log[j] == l.log[j] && log[|l.log|] == Placed(span, line);
  }

  lemma LogGrows(l: Layout, st: Status, span: Span)
    requires ValidStatus(l.graph, st)
    ensures LogApart(Place(l, st, span).log) ==> LogApart(l.log)
  {
    hide FindLine, Apart;
    var log := Place(l, st, span).log;
    assert forall j :: 0 <= j < |l.log| ==> log[j] == l.log[j];
  }

  // ---- Whole layouts ----

  ghost predicate Inv(l: Layout) {
    AllSorted(l.graph) && SlotsOk(l) && LogOk(l)
  }

  lemma PlaceInv(l: Layout, st: Status, span: Span)
    requires ValidStatus(l.graph, st) && Inv(l)
    ensures Inv(Place(l, st, span))
  {
    hide AllSorted, SlotsOk, LogOk, Place;
    PlaceSorted(l, st, span);
    PlaceSlots(l, st, span);
    PlaceLog(l, st, span);
  }

  /** Some placement of this request hides an interval. */
  predicate HidesInRequest(l: Layout, st: Status, spans: seq<Span>)
    requires ValidStatus(l.graph, st)
    decreases |spans|
  {
    spans != [] &&
    (Hides(l.graph, st, spans[0]) ||
     HidesInRequest(Place(l, st, spans[0]), NextStatus(l, st, spans[0]), spans[1..]))
  }

  predicate HidesInAll(l: Layout, requests: seq<seq<Span>>)
    decreases |requests|
  {
    requests != [] &&
    (HidesInRequest(l, map[], requests[0]) ||
     HidesInAll(PlaceRequest(l, map[], requests[0]), requests[1..]))
  }

  /** Everything known about a layout that was chained so far. */
  ghost predicate Good(l: Layout) {
    Inv(l) && AllChained(l.graph) && LogApart(l.log)
  }

  lemma {:induction false} RequestChained(l: Layout, st: Status, spans: seq<Span>)
    requires ValidStatus(l.graph, st) && Inv(l)
    ensures Inv(PlaceRequest(l, st, spans))
    ensures Good(l) && !HidesInRequest(l, st, spans) ==> Good(PlaceRequest(l, st, spans))
    ensures AllChained(PlaceRequest(l, st, spans).graph) ==>
      AllChained(l.graph) && !HidesInRequest(l, st, spans)
    ensures LogApart(PlaceRequest(l, st, spans).log) ==> LogApart(l.log) && !HidesInRequest(l, st, spans)
    decreases |spans|
  {
    hide Inv, LogApart, AllChained, Hides, Place, NextStatus;
    if spans != [] {
      var next := Place(l, st, spans[0]);
      PlaceInv(l, st, spans[0]);
      RequestChained(next, NextStatus(l, st, spans[0]), spans[1..]);
      StepChained(l, st, spans[0]);
    }
  }

  lemma StepChained(l: Layout, st: Status, span: Span)
    requires ValidStatus(l.graph, st) && Inv(l)
    ensures Good(l) && !Hides(l.graph, st, span) ==> AllChained(Place(l, st, span).graph) && LogApart(Place(l, st, span).log)
    ensures AllChained(Place(l, st, span).graph) ==> AllChained(l.graph) && !Hides(l.graph, st, span)
    ensures LogApart(Place(l, st, span).log) ==> LogApart(l.log) && !Hides(l.graph, st, span)
  {
    hide AllSorted, SlotsOk, LogOk, LogApart, AllChained, Hides, Place;
    LogGrows(l, st, span);
    if Hides(l.graph, st, span) { HidesShows(l, st, span); }
    if AllChained(l.graph) {
      PlaceChained(l, st, span);
      if LogApart(l.log) && !Hides(l.graph, st, span) { PlaceApart(l, st, span); }
    } else {
      PlaceUnchained(l, st, span);
    }
  }

  lemma {:induction false} AllRequestsChained(l: Layout, requests: seq<seq<Span>>)
    requires Inv(l)
    ensures Inv(PlaceAll(l, requests))
    ensures Good(l) && !HidesInAll(l, requests) ==> Good(PlaceAll(l, requests))
    ensures AllChained(PlaceAll(l, requests).graph) ==> AllChained(l.graph) && !HidesInAll(l, requests)
    ensures LogApart(PlaceAll(l, requests).log) ==> LogApart(l.log) && !HidesInAll(l, requests)
    decreases |requests|
  {
    hide Inv, LogApart, AllChained, PlaceRequest, HidesInRequest;
    if requests != [] {
      RequestChained(l, map[], requests[0]);
      AllRequestsChained(PlaceRequest(l, map[], requests[0]), requests[1..]);
    }
  }

  /** A finished layout has every lane chained, and any two spans that share a
      lane of a process apart, exactly when no instant was put, untested, inside
      an interval of its lane. Slot announcements are right in any case. */
  lemma LayoutChainedExactly(requests: seq<seq<Span>>)
    ensures var l := PlaceAll(EMPTY, requests);
            && (AllChained(l.graph) <==> !HidesInAll(EMPTY, requests))
            && (LogApart(l.log) <==> !HidesInAll(EMPTY, requests))
            && SlotsOk(l) && LogOk(l) && AllSorted(l.graph)
  {
    hide LogApart, AllChained, PlaceAll, HidesInAll;
    assert Good(EMPTY) by { EmptyGood(); }
    AllRequestsChained(EMPTY, requests);
  }

  lemma EmptyGood()
    ensures Good(EMPTY)
  {
  }

  // ---- Spans that are not instants ----

  predicate NoInstants(spans: seq<Span>) {
    forall i :: 0 <= i < |spans| ==> spans[i].iv.start != spans[i].iv.end
  }

  lemma {:induction false} NoInstantsHideNothing(l: Layout, st: Status, spans: seq<Span>)
    requires ValidStatus(l.graph, st) && NoInstants(spans)
    ensures !HidesInRequest(l, st, spans)
    decreases |spans|
  {
    hide Place, NextStatus;
    if spans != [] {
      NoInstantsHideNothing(Place(l, st, spans[0]), NextStatus(l, st, spans[0]), spans[1..]);
    }
  }

  lemma {:induction false} NoInstantsAnywhere(l: Layout, requests: seq<seq<Span>>)
    requires forall i :: 0 <= i < |requests| ==> NoInstants(requests[i])
    ensures !HidesInAll(l, requests)
    decreases |requests|
  {
    hide PlaceRequest, HidesInRequest;
    if requests != [] {
      NoInstantsHideNothing(l, map[], requests[0]);
      NoInstantsAnywhere(PlaceRequest(l, map[], requests[0]), requests[1..]);
    }
  }

  /** Without instants, every lane is chained and no two spans that share a lane
      of a process overlap, whatever the order of requests and spans. */
  lemma LanesDisjoint(requests: seq<seq<Span>>, j: nat, k: nat)
    requires forall i :: 0 <= i < |requests| ==> NoInstants(requests[i])
    requires j < k < |PlaceAll(EMPTY, requests).log|
    ensures var l := PlaceAll(EMPTY, requests);
            && AllChained(l.graph)
            && (l.log[j].span.pid == l.log[k].span.pid && l.log[j].line == l.log[k].line ==>
                  Apart(l.log[j].span.iv, l.log[k].span.iv) && !Overlaps(l.log[j].span.iv, l.log[k].span.iv))
  {
    hide PlaceAll, HidesInAll, AllChained, SlotsOk, LogOk, AllSorted;
    NoInstantsAnywhere(EMPTY, requests);
    LayoutChainedExactly(requests);
  }

  /** A request that is on the only lane of its process, and may stay, stays. */
  lemma StayOnLane(l: Layout, lane: Lane, span: Span)
    requires span.pid in l.graph && l.graph[span.pid] == [lane]
    requires span.iv.start == span.iv.end || !CheckOverlap(lane, span.iv.start, span.iv.end)
    ensures var st := map[span.pid := 1];
            && ValidStatus(l.graph, st)
            && NextStatus(l, st, span) == st
            && Place(l, st, span).graph == l.graph[span.pid := [Inserted(lane, span.iv)]]
            && Place(l, st, span).log == l.log + [Placed(span, 1)]
  {
    var st := map[span.pid := 1];
    assert Stays(l.graph, st, span);
    assert [lane][0 := Inserted(lane, span.iv)] == [Inserted(lane, span.iv)];
    assert st[span.pid := 1] == st;
  }

  /** An instant can hide a running span: [0,10), [5,5), [7,9) share lane 1. */
  lemma InstantHidesOverlap(pid: int)
    ensures var a, b, c := Span(pid, Interval(0, 10)), Span(pid, Interval(5, 5)), Span(pid, Interval(7, 9));
            && PlaceAll(EMPTY, [[a, b, c]]).log == [Placed(a, 1), Placed(b, 1), Placed(c, 1)]
            && Overlaps(a.iv, c.iv)
  {
    var a, b, c := Span(pid, Interval(0, 10)), Span(pid, Interval(5, 5)), Span(pid, Interval(7, 9));
    var st := map[pid := 1];
    var l1 := Place(EMPTY, map[], a);
    FirstSpan(a);
    StayOnLane(l1, [a.iv], b);
    var l2 := Place(l1, st, b);
    assert Inserted([a.iv], b.iv) == [a.iv, b.iv] by { assert InsertAt([a.iv], b.iv) == 1; }
    assert LowerStart([a.iv, b.iv], 7) == 2 by {
      assert [a.iv, b.iv][1..] == [b.iv];
      assert LowerStart([b.iv], 7) == 1;
    }
    StayOnLane(l2, [a.iv, b.iv], c);
    ThreeSpans(a, b, c, st);
  }

  lemma FirstSpan(a: Span)
    ensures Place(EMPTY, map[], a) == Layout(map[a.pid := [[a.iv]]], [(a.pid, 1)], [Placed(a, 1)])
    ensures NextStatus(EMPTY, map[], a) == map[a.pid := 1]
  {
    var lanes: seq<Lane> := [];
    assert lanes + [[a.iv]] == [[a.iv]];
  }

  lemma ThreeSpans(a: Span, b: Span, c: Span, st: Status)
    requires ValidStatus(Place(EMPTY, map[], a).graph, st) && NextStatus(EMPTY, map[], a) == st
    requires NextStatus(Place(EMPTY, map[], a), st, b) == st
    ensures PlaceAll(EMPTY, [[a, b, c]]) == Place(Place(Place(EMPTY, map[], a), st, b), st, c)
  {
    hide Place, NextStatus;
    var l1 := Place(EMPTY, map[], a);
    var l2 := Place(l1, st, b);
    assert [a, b, c][1..] == [b, c] && [b, c][1..] == [c] && [c][1..] == [];
    assert PlaceRequest(l2, st, [c]) == Place(l2, st, c);
    assert PlaceRequest(l1, st, [b, c]) == Place(l2, st, c);
    assert [[a, b, c]][1..] == [];
  }

  // ---- How many lanes ----

  predicate Positive(spans: seq<Span>) {
    forall i :: 0 <= i < |spans| ==> spans[i].iv.start < spans[i].iv.end
  }

  ghost predicate PositiveLog(log: seq<Placed>) {
    forall j :: 0 <= j < |log| ==> log[j].span.iv.start < log[j].span.iv.end
  }

  /** Some span on this lane overlaps the span at `i`. */
  ghost predicate HasRival(log: seq<Placed>, line: nat, i: nat)
    requires i < |log|
  {
    exists j :: 0 <= j < |log| && log[j].line == line && Rival(log, i, j)
  }

  ghost predicate Rival(log: seq<Placed>, i: nat, j: nat)
    requires i < |log| && j < |log|
  {
    log[j].span.pid == log[i].span.pid && Overlaps(log[j].span.iv, log[i].span.iv)
  }

  /** The span at `i` meets a rival on every other of the first `n` lanes. */
  ghost predicate Crowded(log: seq<Placed>, pid: int, n: nat, i: nat) {
    && i < |log| && log[i].span.pid == pid
    && forall line: nat :: 1 <= line <= n && line != log[i].line ==> HasRival(log, line, i)
  }

  ghost predicate BoundOk(l: Layout) {
    forall pid :: pid in l.graph ==> exists i: nat :: Crowded(l.log, pid, |l.graph[pid]|, i)
  }

  lemma CrowdedStays(log: seq<Placed>, more: seq<Placed>, pid: int, n: nat, i: nat)
    requires Crowded(log, pid, n, i)
    ensures Crowded(log + more, pid, n, i)
  {
    forall line: nat | 1 <= line <= n && line != log[i].line ensures HasRival(log + more, line, i) {
      assert HasRival(log, line, i);
      var j :| 0 <= j < |log| && log[j].line == line && Rival(log, i, j);
      assert (log + more)[j] == log[j] && Rival(log + more, i, j);
    }
  }

  /** A span for which a lane is opened meets a rival on each lane there was. */
  lemma NewLaneCrowded(l: Layout, st: Status, span: Span)
    requires ValidStatus(l.graph, st) && Good(l) && PositiveLog(l.log) && span.iv.start < span.iv.end
    requires FindLine(l.graph, st, span) == |Lanes(l.graph, span.pid)| + 1
    ensures Crowded(Place(l, st, span).log, span.pid, |Lanes(l.graph, span.pid)| + 1, |l.log|)
  {
    hide Sorted, Chained, LoggedInLanes, LogApart, SlotsOk, Inserted;
    var log, lanes := Place(l, st, span).log, Lanes(l.graph, span.pid);
    forall line: nat | 1 <= line <= |lanes| ensures HasRival(log, line, |l.log|) {
      var lane := lanes[line - 1];
      LanePositive(l, span.pid, line - 1);
      NeighbourTestIsOverlap(lane, span.iv.start, span.iv.end);
      var k :| 0 <= k < |lane| && Overlaps(lane[k], span.iv);
      assert lane[k] in l.graph[span.pid][line - 1];
      assert Placed(Span(span.pid, lane[k]), line) in l.log;
      var j :| 0 <= j < |l.log| && l.log[j] == Placed(Span(span.pid, lane[k]), line);
      assert log[j] == l.log[j] && Rival(log, |l.log|, j);
    }
  }

  lemma LanePositive(l: Layout, pid: int, i: nat)
    requires LogOk(l) && PositiveLog(l.log) && pid in l.graph && i < |l.graph[pid]|
    ensures forall k :: 0 <= k < |l.graph[pid][i]| ==> l.graph[pid][i][k].start < l.graph[pid][i][k].end
  {
    forall k | 0 <= k < |l.graph[pid][i]| ensures l.graph[pid][i][k].start < l.graph[pid][i][k].end {
      assert l.graph[pid][i][k] in l.graph[pid][i];
    }
  }

  lemma PlaceBound(l: Layout, st: Status, span: Span)
    requires ValidStatus(l.graph, st) && Good(l) && PositiveLog(l.log) && span.iv.start < span.iv.end
    requires BoundOk(l)
    ensures BoundOk(Place(l, st, span))
  {
    hide Good, Crowded;
    var next, line := Place(l, st, span), FindLine(l.graph, st, span);
    forall pid | pid in next.graph ensures exists i: nat :: Crowded(next.log, pid, |next.graph[pid]|, i) {
      if pid == span.pid && line == |Lanes(l.graph, pid)| + 1 {
        NewLaneCrowded(l, st, span);
        assert Crowded(next.log, pid, |next.graph[pid]|, |l.log|);
      } else {
        var i: nat :| Crowded(l.log, pid, |l.graph[pid]|, i);
        CrowdedStays(l.log, [Placed(span, line)], pid, |l.graph[pid]|, i);
        assert Crowded(next.log, pid, |next.graph[pid]|, i);
      }
    }
  }

  /** The spans of the same process that overlap the span at `i`. */
  ghost function Rivals(log: seq<Placed>, i: nat): set<nat>
    requires i < |log|
  {
    set j: nat | j < |log| && j != i && Rival(log, i, j)
  }

  ghost function RivalsUpTo(log: seq<Placed>, i: nat, m: int): set<nat>
    requires i < |log|
  {
    set j | j in Rivals(log, i) && log[j].line <= m
  }

  lemma {:induction false} RivalsByLane(log: seq<Placed>, pid: int, n: nat, i: nat, m: nat)
    requires Crowded(log, pid, n, i) && m <= n && 1 <= log[i].line
    ensures |RivalsUpTo(log, i, m)| + (if log[i].line <= m then 1 else 0) >= m
  {
    if m != 0 {
      RivalsByLane(log, pid, n, i, m - 1);
      var low, all := RivalsUpTo(log, i, m - 1), RivalsUpTo(log, i, m);
      if m != log[i].line {
        assert HasRival(log, m, i);
        var j :| 0 <= j < |log| && log[j].line == m && Rival(log, i, j);
        assert low + {j} <= all;
        SubsetCardinality(low + {j}, all);
      } else {
        SubsetCardinality(low, all);
      }
    }
  }

  lemma {:induction false} RequestBound(l: Layout, st: Status, spans: seq<Span>)
    requires ValidStatus(l.graph, st) && Good(l) && PositiveLog(l.log) && BoundOk(l) && Positive(spans)
    ensures var m := PlaceRequest(l, st, spans); Good(m) && PositiveLog(m.log) && BoundOk(m)
    decreases |spans|
  {
    hide Good, BoundOk, NextStatus, Hides;
    if spans != [] {
      var next := Place(l, st, spans[0]);
      NoInstantsHideNothing(l, st, [spans[0]]);
      OneSpan(l, st, spans[0]);
      RequestChained(l, st, [spans[0]]);
      PlaceBound(l, st, spans[0]);
      RequestBound(next, NextStatus(l, st, spans[0]), spans[1..]);
    }
  }

  lemma OneSpan(l: Layout, st: Status, span: Span)
    requires ValidStatus(l.graph, st) && Good(l)
    ensures PlaceRequest(l, st, [span]) == Place(l, st, span)
    ensures Inv(l)
  {
    assert [span][1..] == [];
    assert PlaceRequest(Place(l, st, span), NextStatus(l, st, span), []) == Place(l, st, span);
  }

  lemma {:induction false} AllBound(l: Layout, requests: seq<seq<Span>>)
    requires Good(l) && PositiveLog(l.log) && BoundOk(l)
    requires forall i :: 0 <= i < |requests| ==> Positive(requests[i])
    ensures var m := PlaceAll(l, requests); Good(m) && BoundOk(m)
    decreases |requests|
  {
    hide Good, BoundOk, PositiveLog;
    if requests != [] {
      RequestBound(l, map[], requests[0]);
      AllBound(PlaceRequest(l, map[], requests[0]), requests[1..]);
    }
  }

  /** With positive lengths, the number of lanes of a process is at most one more
      than the number of other spans of that process that overlap one of its
      spans, whatever the order in which spans are placed. */
  lemma LaneBound(requests: seq<seq<Span>>, pid: int) returns (i: nat)
    requires forall r :: 0 <= r < |requests| ==> Positive(requests[r])
    requires pid in PlaceAll(EMPTY, requests).graph
    ensures var l := PlaceAll(EMPTY, requests);
            && i < |l.log| && l.log[i].span.pid == pid
            && |l.graph[pid]| <= 1 + |Rivals(l.log, i)|
  {
    hide PlaceAll;
    var l := PlaceAll(EMPTY, requests);
    EmptyGood();
    AllBound(EMPTY, requests);
    i :| Crowded(l.log, pid, |l.graph[pid]|, i);
    var n := |l.graph[pid]|;
    RivalsByLane(l.log, pid, n, i, n);
    SubsetCardinality(RivalsUpTo(l.log, i, n), Rivals(l.log, i));
  }
}
