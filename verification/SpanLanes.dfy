/** Lanes of time intervals, as the trace converter lays spans out: each lane is
    a list kept sorted by binary insertion, and a new span goes to the first
    lane whose two neighbouring intervals leave room for it. */
module SpanLanes {
  import opened Sums

  datatype Interval = Interval(start: int, end: int)

  type Lane = seq<Interval>

  // ---- One lane ----

  /** Tuple order on (start, end). */
  predicate Before(a: Interval, b: Interval) {
    a.start < b.start || (a.start == b.start && a.end < b.end)
  }

  /** By start, and by end where starts are equal. */
  predicate Sorted(lane: Lane) {
    forall i, j :: 0 <= i < j < |lane| ==>
      lane[i].start < lane[j].start || (lane[i].start == lane[j].start && lane[i].end <= lane[j].end)
  }

  /** Position of (start, minus infinity): the first interval not starting earlier. */
  function LowerStart(lane: Lane, start: int): (k: nat)
    ensures k <= |lane|
  {
    if lane == [] || lane[0].start >= start then 0 else 1 + LowerStart(lane[1..], start)
  }

  /** Position of `iv`: the first interval that is not before it. */
  function InsertAt(lane: Lane, iv: Interval): (k: nat)
    ensures k <= |lane|
  {
    if lane == [] || !Before(lane[0], iv) then 0 else 1 + InsertAt(lane[1..], iv)
  }

  /** The two-neighbour test. */
  predicate CheckOverlap(lane: Lane, start: int, end: int) {
    var k := LowerStart(lane, start);
    (k > 0 && lane[k - 1].end > start) || (k < |lane| && lane[k].start < end)
  }

  function Inserted(lane: Lane, iv: Interval): Lane {
    Splice(lane, InsertAt(lane, iv), iv)
  }

  // ---- What a lane should be ----

  /** Each interval ends before the following ones start. */
  predicate Chained(lane: Lane) {
    forall i, j :: 0 <= i < j < |lane| ==> lane[i].end <= lane[j].start
  }

  /** Half-open intervals with a common point. */
  predicate Overlaps(a: Interval, b: Interval) {
    a.start < b.end && b.start < a.end
  }

  /** One of the two is over before the other starts. */
  predicate Apart(a: Interval, b: Interval) {
    a.end <= b.start || b.end <= a.start
  }

  /** `busy` is in the way of a new interval: it is running when the new one
      starts, or starts while the new one runs. */
  predicate InTheWay(busy: Interval, start: int, end: int) {
    (busy.start < start < busy.end) || (start <= busy.start < end)
  }

  /** The answer a scan over the whole lane gives. */
  predicate ScanConflict(lane: Lane, start: int, end: int) {
    exists i :: 0 <= i < |lane| && InTheWay(lane[i], start, end)
  }

  lemma {:induction false} LowerStartSplits(lane: Lane, start: int, i: nat)
    requires Sorted(lane) && i < |lane|
    ensures i < LowerStart(lane, start) <==> lane[i].start < start
  {
    if lane != [] && lane[0].start < start && i > 0 {
      LowerStartSplits(lane[1..], start, i - 1);
    }
  }

  lemma {:induction false} InsertAtSplits(lane: Lane, iv: Interval, i: nat)
    requires Sorted(lane) && i < |lane|
    ensures i < InsertAt(lane, iv) <==> Before(lane[i], iv)
  {
    if lane != [] && Before(lane[0], iv) && i > 0 {
      InsertAtSplits(lane[1..], iv, i - 1);
    }
  }

  /** On a sorted, chained lane the two-neighbour test answers as a full scan does. */
  lemma NeighbourTestIsScan(lane: Lane, start: int, end: int)
    requires Sorted(lane) && Chained(lane)
    ensures CheckOverlap(lane, start, end) <==> ScanConflict(lane, start, end)
  {
    var k := LowerStart(lane, start);
    forall i: nat | i < |lane| ensures i < k <==> lane[i].start < start {
      LowerStartSplits(lane, start, i);
    }
    if CheckOverlap(lane, start, end) {
      if k > 0 && lane[k - 1].end > start {
        assert InTheWay(lane[k - 1], start, end);
      } else {
        assert InTheWay(lane[k], start, end);
      }
    } else {
      forall i | 0 <= i < |lane| ensures !InTheWay(lane[i], start, end) {
        assert i + 1 < k ==> lane[i].end <= lane[k - 1].start;
      }
    }
  }

  /** For positive lengths that scan is the half-open overlap test. */
  lemma NeighbourTestIsOverlap(lane: Lane, start: int, end: int)
    requires Sorted(lane) && Chained(lane) && start < end
    requires forall i :: 0 <= i < |lane| ==> lane[i].start < lane[i].end
    ensures CheckOverlap(lane, start, end) <==>
      exists i :: 0 <= i < |lane| && Overlaps(lane[i], Interval(start, end))
  {
    NeighbourTestIsScan(lane, start, end);
    forall i | 0 <= i < |lane| ensures InTheWay(lane[i], start, end) <==> Overlaps(lane[i], Interval(start, end)) {
    }
    if ScanConflict(lane, start, end) {
      var i :| 0 <= i < |lane| && InTheWay(lane[i], start, end);
      assert Overlaps(lane[i], Interval(start, end));
    }
  }

  /** Where the parts of a lane are after an insertion. */
  lemma InsertedParts(lane: Lane, iv: Interval, k: nat)
    requires Sorted(lane) && k == InsertAt(lane, iv)
    ensures var out := Inserted(lane, iv);
            && |out| == |lane| + 1 && out[k] == iv
            && (forall i :: 0 <= i < k ==> out[i] == lane[i] && Before(lane[i], iv))
            && (forall i :: k < i < |out| ==> out[i] == lane[i - 1] && !Before(lane[i - 1], iv))
  {
    forall i: nat | i < |lane| ensures i < k <==> Before(lane[i], iv) {
      InsertAtSplits(lane, iv, i);
    }
  }

  /** Insertion keeps a lane sorted, whatever is inserted. */
  lemma InsertSorted(lane: Lane, iv: Interval)
    requires Sorted(lane)
    ensures Sorted(Inserted(lane, iv))
  {
    InsertedParts(lane, iv, InsertAt(lane, iv));
  }

  lemma InsertElements(lane: Lane, iv: Interval)
    ensures multiset(Inserted(lane, iv)) == multiset(lane) + multiset{iv}
  {
    SpliceMembers(lane, InsertAt(lane, iv), iv);
  }

  /** A lane stays chained when nothing is in the way of the new interval. */
  lemma InsertChained(lane: Lane, iv: Interval)
    requires Sorted(lane) && Chained(lane) && !ScanConflict(lane, iv.start, iv.end)
    ensures Chained(Inserted(lane, iv))
  {
    InsertedParts(lane, iv, InsertAt(lane, iv));
  }

  /** An instant inserted without a test leaves the lane chained exactly when it
      lies in no interval's interior. */
  lemma InsertInstant(lane: Lane, at: int)
    requires Sorted(lane) && Chained(lane)
    ensures Chained(Inserted(lane, Interval(at, at))) <==> !ScanConflict(lane, at, at)
  {
    var iv := Interval(at, at);
    var k, out := InsertAt(lane, iv), Inserted(lane, iv);
    InsertedParts(lane, iv, k);
    if ScanConflict(lane, at, at) {
      var i :| 0 <= i < |lane| && InTheWay(lane[i], at, at);
      InsertAtSplits(lane, iv, i);
      assert out[i].end > out[k].start;
    } else {
      InsertChained(lane, iv);
    }
  }

  /** A lane that is not chained stays so. */
  lemma InsertUnchained(lane: Lane, iv: Interval)
    requires !Chained(lane)
    ensures !Chained(Inserted(lane, iv))
  {
    var i, j :| 0 <= i < j < |lane| && lane[i].end > lane[j].start;
    var k := InsertAt(lane, iv);
    var out := Inserted(lane, iv);
    var i', j' := if i < k then i else i + 1, if j < k then j else j + 1;
    assert out[i'] == lane[i] && out[j'] == lane[j];
  }
}
