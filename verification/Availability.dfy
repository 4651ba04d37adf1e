/**
 * The interval arithmetic behind free slots.  Instants are integers (microseconds, UTC) and every
 * interval is half-open.  The meaning of a list of intervals is the set of instants it covers.
 */
module Availability {
  import opened Collections

  datatype Span = Span(start: int, end: int) {
    predicate Covers(u: int) { start <= u < end }
    predicate Overlaps(other: Span) { start < other.end && other.start < end }
  }

  /** A span whose construction does not raise. */
  type Interval = s: Span | s.start < s.end witness Span(0, 1)

  datatype SlotList = Slots(slots: seq<Interval>) | BadStep

  ghost predicate Covered(s: seq<Interval>, u: int) {
    exists i | 0 <= i < |s| :: s[i].Covers(u)
  }

  ghost predicate SameInstants(a: seq<Interval>, b: seq<Interval>) {
    forall u :: Covered(a, u) <==> Covered(b, u)
  }

  /** In order, with at least one uncovered instant between neighbours. */
  ghost predicate Separated(s: seq<Interval>) {
    forall i, j | 0 <= i < j < |s| :: s[i].end < s[j].start
  }

  predicate OnGrid(t: int, step: int, anchor: int)
    requires step > 0
  {
    (t - anchor) % step == 0
  }

  /** Overlap is sharing an instant. */
  lemma OverlapIsSharedInstant(a: Interval, b: Interval)
    ensures a.Overlaps(b) <==> exists u :: a.Covers(u) && b.Covers(u)
  {
    if a.Overlaps(b) {
      var u := if a.start < b.start then b.start else a.start;
      assert a.Covers(u) && b.Covers(u);
    }
  }

  // ---- coverage of a list, one element at a time ----

  lemma CoveredAppend(s: seq<Interval>, x: Interval, u: int)
    ensures Covered(s + [x], u) <==> Covered(s, u) || x.Covers(u)
  {
    var t := s + [x];
    if Covered(s, u) {
      var i :| 0 <= i < |s| && s[i].Covers(u);
      assert t[i].Covers(u);
    }
    if x.Covers(u) {
      assert t[|s|].Covers(u);
    }
  }

  lemma CoveredPrefix(s: seq<Interval>, n: nat, u: int)
    requires n < |s|
    ensures Covered(s[..n + 1], u) <==> Covered(s[..n], u) || s[n].Covers(u)
  {
  }

  lemma CoveredPermutation(a: seq<Interval>, b: seq<Interval>)
    requires multiset(a) == multiset(b)
    ensures SameInstants(a, b)
  {
    SameElements(a, b);
    forall u ensures Covered(a, u) <==> Covered(b, u) {
      if Covered(a, u) {
        var i :| 0 <= i < |a| && a[i].Covers(u);
        assert a[i] in b;
      }
      if Covered(b, u) {
        var i :| 0 <= i < |b| && b[i].Covers(u);
        assert b[i] in a;
      }
    }
  }

  // ---- normalize ----

  predicate Before(a: Interval, b: Interval) {
    a.start < b.start || (a.start == b.start && a.end <= b.end)
  }

  /** What one pass of the merging loop does to the list built so far. */
  lemma MergeStep(was: seq<Interval>, current: Interval, now: seq<Interval>)
    requires was != [] && Separated(was) && was[|was| - 1].start <= current.start
    requires var last := was[|was| - 1];
             now == if last.end < current.start then was + [current]
                    else if last.end < current.end then was[..|was| - 1] + [Span(last.start, current.end)]
                    else was
    ensures now != [] && Separated(now) && now[|now| - 1].start <= current.start
    ensures forall u :: Covered(now, u) <==> Covered(was, u) || current.Covers(u)
  {
    var kept, last := was[..|was| - 1], was[|was| - 1];
    assert was == kept + [last];
    forall u ensures Covered(now, u) <==> Covered(was, u) || current.Covers(u) {
      CoveredAppend(kept, last, u);
      CoveredAppend(was, current, u);
      CoveredAppend(kept, now[|now| - 1], u);
    }
  }

  /** Intervals in the order of their dataclass comparison. */
  function InOrder(intervals: seq<Interval>): seq<Interval> {
    Sort(intervals, Before)
  }

  lemma InOrderSorts(intervals: seq<Interval>)
    ensures |InOrder(intervals)| == |intervals|
    ensures forall i, j | 0 <= i < j < |intervals| :: InOrder(intervals)[i].start <= InOrder(intervals)[j].start
    ensures SameInstants(InOrder(intervals), intervals)
  {
    assert TotalPreorder(Before);
    SortSorts(intervals, Before);
    CoveredPermutation(InOrder(intervals), intervals);
    forall i, j | 0 <= i < j < |intervals| ensures InOrder(intervals)[i].start <= InOrder(intervals)[j].start {
      assert Before(InOrder(intervals)[i], InOrder(intervals)[j]);
    }
  }

  /** The separated list of the same instants: one pass over the sorted intervals, growing the last one kept. */
  method Normalize(intervals: seq<Interval>) returns (merged: seq<Interval>)
    ensures SameInstants(merged, intervals)
    ensures Separated(merged)
    ensures Separated(intervals) ==> merged == intervals
  {
    var ordered := InOrder(intervals);
    InOrderSorts(intervals);
    if ordered == [] {
      return [];
    }
    merged := [ordered[0]];
    assert ordered[..1] == [ordered[0]];
    for i := 1 to |ordered|
      invariant merged != [] && Separated(merged)
      invariant merged[|merged| - 1].start <= ordered[i - 1].start
      invariant SameInstants(merged, ordered[..i])
    {
      var current, last := ordered[i], merged[|merged| - 1];
      ghost var was := merged;
      if current.start <= last.end {
        if current.end > last.end {
          merged := merged[..|merged| - 1] + [Span(last.start, current.end)];
        }
      } else {
        merged := merged + [current];
      }
      MergeStep(was, current, merged);
      forall u ensures Covered(merged, u) <==> Covered(ordered[..i + 1], u) {
        CoveredPrefix(ordered, i, u);
      }
    }
    assert ordered[..|ordered|] == ordered;
    if Separated(intervals) {
      CanonicalForm(merged, intervals);
    }
  }

  lemma SeparatedTail(s: seq<Interval>, u: int)
    requires Separated(s) && s != []
    ensures Separated(s[1..])
    ensures Covered(s, u) ==> s[0].start <= u
    ensures Covered(s[1..], u) <==> Covered(s, u) && s[0].end < u
    ensures !Covered(s, s[0].end) && Covered(s, s[0].start)
    ensures s[0].Covers(u) ==> Covered(s, u)
  {
  }

  /** A separated list is the only one covering its instants, so `Normalize` computes a canonical form. */
  lemma {:induction false} CanonicalForm(a: seq<Interval>, b: seq<Interval>)
    requires Separated(a) && Separated(b) && SameInstants(a, b)
    ensures a == b
  {
    if a == [] || b == [] {
      if a != [] { SeparatedTail(a, a[0].start); }
      if b != [] { SeparatedTail(b, b[0].start); }
    } else {
      SeparatedTail(a, b[0].start);
      SeparatedTail(a, b[0].end);
      SeparatedTail(b, a[0].start);
      SeparatedTail(b, a[0].end);
      assert a[0] == b[0];
      forall u ensures Covered(a[1..], u) <==> Covered(b[1..], u) {
        SeparatedTail(a, u);
        SeparatedTail(b, u);
      }
      CanonicalForm(a[1..], b[1..]);
    }
  }

  // ---- subtract ----

  /** `now` adds the instants from `lo` up to `hi` to what `was` covers, and ends by `hi`. */
  ghost predicate Extends(was: seq<Interval>, now: seq<Interval>, lo: int, hi: int, obstacles: seq<Interval>) {
    forall u :: Covered(now, u) <==> Covered(was, u) || (lo <= u < hi && !Covered(obstacles, u))
  }

  ghost predicate EndsBefore(s: seq<Interval>, limit: int) {
    forall i | 0 <= i < |s| :: s[i].end < limit
  }

  lemma ExtendsFree(was: seq<Interval>, now: seq<Interval>, lo: int, mid: int, hi: Interval, obstacles: seq<Interval>)
    requires Extends(was, now, lo, mid, obstacles)
    requires lo <= mid == hi.start
    requires forall u | hi.Covers(u) :: !Covered(obstacles, u)
    ensures Extends(was, now + [hi], lo, hi.end, obstacles)
  {
    forall u ensures Covered(now + [hi], u) <==> Covered(was, u) || (lo <= u < hi.end && !Covered(obstacles, u)) {
      CoveredAppend(now, hi, u);
    }
  }

  /** Between the obstacles already passed and the next one, nothing is covered. */
  lemma GapIsFree(obstacles: seq<Interval>, b: nat, lo: int, hi: int)
    requires Separated(obstacles) && b <= |obstacles|
    requires forall k | 0 <= k < b :: obstacles[k].end <= lo
    requires b < |obstacles| ==> hi <= obstacles[b].start
    ensures forall u | lo <= u < hi :: !Covered(obstacles, u)
  {
  }

  /** What is left of one span of the base, appended to `sofar`. */
  method SubtractFrom(span: Interval, obstacles: seq<Interval>, sofar: seq<Interval>) returns (remaining: seq<Interval>)
    requires Separated(obstacles)
    ensures Extends(sofar, remaining, span.start, span.end, obstacles)
    ensures Separated(sofar) && EndsBefore(sofar, span.start) ==>
              Separated(remaining) && EndsBefore(remaining, span.end + 1)
  {
    remaining := sofar;
    var cursor := span.start;
    var b := 0;
    while b < |obstacles|
      invariant 0 <= b <= |obstacles|
      invariant span.start <= cursor
      invariant forall k | 0 <= k < b :: obstacles[k].end <= cursor
      invariant cursor < span.end ==> Extends(sofar, remaining, span.start, cursor, obstacles)
      invariant span.end <= cursor ==> Extends(sofar, remaining, span.start, span.end, obstacles)
      invariant Separated(sofar) && EndsBefore(sofar, span.start) ==>
                  Separated(remaining) && EndsBefore(remaining, cursor) && EndsBefore(remaining, span.end + 1)
    {
      var block := obstacles[b];
      if block.end <= cursor {
        b := b + 1;
        continue;
      }
      if block.start >= span.end {
        break;
      }
      if block.start > cursor {
        GapIsFree(obstacles, b, cursor, block.start);
        var piece := Span(cursor, if block.start < span.end then block.start else span.end);
        ExtendsFree(sofar, remaining, span.start, cursor, piece, obstacles);
        remaining := remaining + [piece];
      }
      assert forall u | block.Covers(u) :: Covered(obstacles, u);
      cursor := if cursor < block.end then block.end else cursor;
      if cursor >= span.end {
        break;
      }
      b := b + 1;
    }
    if cursor < span.end {
      GapIsFree(obstacles, b, cursor, span.end);
      ExtendsFree(sofar, remaining, span.start, cursor, Span(cursor, span.end), obstacles);
      remaining := remaining + [Span(cursor, span.end)];
    }
  }

  /** The difference of two sets of instants, as lists. */
  method Subtract(base: seq<Interval>, blocks: seq<Interval>) returns (remaining: seq<Interval>)
    ensures forall u :: Covered(remaining, u) <==> Covered(base, u) && !Covered(blocks, u)
    ensures Separated(base) ==> Separated(remaining)
  {
    var obstacles := Normalize(blocks);
    if obstacles == [] {
      return base;
    }
    remaining := [];
    for s := 0 to |base|
      invariant forall u :: Covered(remaining, u) <==> Covered(base[..s], u) && !Covered(obstacles, u)
      invariant Separated(base) ==> Separated(remaining)
      invariant Separated(base) && s < |base| ==> EndsBefore(remaining, base[s].start)
    {
      ghost var was := remaining;
      remaining := SubtractFrom(base[s], obstacles, remaining);
      forall u ensures Covered(remaining, u) <==> Covered(base[..s + 1], u) && !Covered(obstacles, u) {
        CoveredPrefix(base, s, u);
      }
    }
    assert base[..|base|] == base;
  }

  /** In a separated list no interval begins where another ends. */
  lemma EndIsFree(s: seq<Interval>, i: nat)
    requires Separated(s) && i < |s|
    ensures !Covered(s, s[i].end)
  {
  }

  /** In a separated list a run of covered instants lies inside one interval. */
  lemma RunInOneSpan(s: seq<Interval>, lo: int, hi: int)
    requires Separated(s) && lo < hi
    requires forall u | lo <= u < hi :: Covered(s, u)
    ensures exists i | 0 <= i < |s| :: s[i].start <= lo && hi <= s[i].end
  {
    assert Covered(s, lo);
    var i :| 0 <= i < |s| && s[i].Covers(lo);
    EndIsFree(s, i);
  }

  // ---- the grid ----

  lemma MultipleBounds(k: int, step: int)
    requires step > 0
    ensures k >= 1 ==> step * k >= step
    ensures k <= 0 ==> step * k <= 0
    ensures k <= -1 ==> step * k <= -step
  {
  }

  lemma SameResidue(x: int, y: int, step: int)
    requires step > 0 && x % step == 0 && y % step == 0 && x < y
    ensures x + step <= y
  {
    assert x == step * (x / step) && y == step * (y / step);
    var k := y / step - x / step;
    assert y - x == step * k;
    MultipleBounds(k, step);
  }

  lemma NextOnGrid(t: int, step: int, anchor: int)
    requires step > 0 && OnGrid(t, step, anchor)
    ensures OnGrid(t + step, step, anchor)
  {
    var x := t - anchor;
    assert x == step * (x / step);
    assert x + step == step * (x / step + 1);
    MultipleOf(x / step + 1, step);
  }

  lemma MultipleOf(k: int, step: int)
    requires step > 0
    ensures (step * k) % step == 0
  {
    var x := step * k;
    assert x == step * (x / step) + x % step;
    assert x % step == step * (k - x / step);
    MultipleBounds(k - x / step, step);
  }

  /** The first grid point at or after `moment`. */
  function AlignUp(moment: int, step: int, anchor: int): (r: int)
    requires step > 0
    ensures moment <= r < moment + step && OnGrid(r, step, anchor)
    ensures forall g | moment <= g && OnGrid(g, step, anchor) :: r <= g
  {
    var offset := (moment - anchor) % step;
    var r := if offset == 0 then moment else moment + (step - offset);
    AlignUpIsLeast(moment, step, anchor, r);
    r
  }

  lemma AlignUpIsLeast(moment: int, step: int, anchor: int, r: int)
    requires step > 0
    requires var offset := (moment - anchor) % step;
             r == if offset == 0 then moment else moment + (step - offset)
    ensures OnGrid(r, step, anchor)
    ensures forall g | moment <= g && OnGrid(g, step, anchor) :: r <= g
  {
    var x := moment - anchor;
    if x % step != 0 {
      assert x == step * (x / step) + x % step;
      assert r - anchor == step * (x / step + 1);
      MultipleOf(x / step + 1, step);
    }
    forall g | moment <= g && OnGrid(g, step, anchor) ensures r <= g {
      if g < r {
        SameResidue(g - anchor, r - anchor, step);
      }
    }
  }

  // ---- slots ----

  /** `t` is a grid point, not too early, whose whole booking lies in one of the free spans. */
  ghost predicate Fits(free: seq<Interval>, duration: int, step: int, notBefore: int, anchor: int, t: int)
    requires step > 0
  {
    && OnGrid(t, step, anchor) && notBefore <= t
    && exists i | 0 <= i < |free| :: free[i].start <= t && t + duration <= free[i].end
  }

  ghost predicate StartsAt(slots: seq<Interval>, t: int) {
    exists i | 0 <= i < |slots| :: slots[i].start == t
  }

  ghost predicate Increasing(slots: seq<Interval>) {
    forall i, j | 0 <= i < j < |slots| :: slots[i].start < slots[j].start
  }

  ghost predicate AllLast(slots: seq<Interval>, duration: int) {
    forall i | 0 <= i < |slots| :: slots[i].end == slots[i].start + duration
  }

  lemma StartsAtAppend(s: seq<Interval>, x: Interval, t: int)
    ensures StartsAt(s + [x], t) <==> StartsAt(s, t) || x.start == t
  {
    var r := s + [x];
    if StartsAt(s, t) {
      var i :| 0 <= i < |s| && s[i].start == t;
      assert r[i].start == t;
    }
    assert r[|s|].start == x.start;
  }

  /** The slots of one free span, appended to `sofar`. */
  method SlotsOfSpan(span: Interval, duration: int, step: int, notBefore: int, anchor: int, sofar: seq<Interval>)
    returns (slots: seq<Interval>)
    requires duration > 0 && step > 0
    ensures forall t :: StartsAt(slots, t) <==>
              StartsAt(sofar, t) || (OnGrid(t, step, anchor) && notBefore <= t && span.start <= t &&
                                     t + duration <= span.end)
    ensures AllLast(sofar, duration) ==> AllLast(slots, duration)
    ensures Increasing(sofar) && (forall i | 0 <= i < |sofar| :: sofar[i].start < span.start) ==> Increasing(slots)
    ensures forall i | 0 <= i < |slots| :: slots[i] in sofar || slots[i].start < span.end
  {
    slots := sofar;
    var start := AlignUp(if span.start < notBefore then notBefore else span.start, step, anchor);
    while start + duration <= span.end
      invariant OnGrid(start, step, anchor) && span.start <= start && notBefore <= start
      invariant forall g | notBefore <= g && span.start <= g && OnGrid(g, step, anchor) ::
                  StartsAt(slots, g) || start <= g
      invariant forall t :: StartsAt(slots, t) ==>
                  (StartsAt(sofar, t) || (OnGrid(t, step, anchor) && notBefore <= t && span.start <= t &&
                                          t + duration <= span.end))
      invariant forall t :: StartsAt(sofar, t) ==> StartsAt(slots, t)
      invariant AllLast(sofar, duration) ==> AllLast(slots, duration)
      invariant Increasing(sofar) && (forall i | 0 <= i < |sofar| :: sofar[i].start < span.start) ==>
                  Increasing(slots) && forall i | 0 <= i < |slots| :: slots[i].start < start
      invariant forall i | 0 <= i < |slots| :: slots[i] in sofar || slots[i].start < span.end
      decreases span.end - start
    {
      ghost var was := slots;
      slots := slots + [Span(start, start + duration)];
      forall t ensures StartsAt(slots, t) <==> StartsAt(was, t) || t == start {
        StartsAtAppend(was, Span(start, start + duration), t);
      }
      NextOnGrid(start, step, anchor);
      forall g | start < g && OnGrid(g, step, anchor) ensures start + step <= g {
        SameResidue(start - anchor, g - anchor, step);
      }
      start := start + step;
    }
  }

  /** The slots of all the spans; a length that is not positive raises. */
  method SlotsIn(free: seq<Interval>, duration: int, step: int, notBefore: int, anchor: int) returns (r: SlotList)
    ensures r.BadStep? <==> duration <= 0 || step <= 0
    ensures r.Slots? ==> AllLast(r.slots, duration)
    ensures r.Slots? ==> forall t :: StartsAt(r.slots, t) <==> Fits(free, duration, step, notBefore, anchor, t)
    ensures r.Slots? && Separated(free) ==> Increasing(r.slots)
  {
    if duration <= 0 || step <= 0 {
      return BadStep;
    }
    var slots: seq<Interval> := [];
    for s := 0 to |free|
      invariant AllLast(slots, duration)
      invariant forall t :: StartsAt(slots, t) <==> Fits(free[..s], duration, step, notBefore, anchor, t)
      invariant Separated(free) ==> Increasing(slots)
      invariant Separated(free) && s < |free| ==> forall i | 0 <= i < |slots| :: slots[i].start < free[s].start
    {
      ghost var was := slots;
      slots := SlotsOfSpan(free[s], duration, step, notBefore, anchor, slots);
      forall t ensures StartsAt(slots, t) <==> Fits(free[..s + 1], duration, step, notBefore, anchor, t) {
        FitsPrefix(free, s, duration, step, notBefore, anchor, t);
      }
    }
    assert free[..|free|] == free;
    return Slots(slots);
  }

  lemma FitsPrefix(free: seq<Interval>, n: nat, duration: int, step: int, notBefore: int, anchor: int, t: int)
    requires step > 0 && n < |free|
    ensures Fits(free[..n + 1], duration, step, notBefore, anchor, t) <==>
              Fits(free[..n], duration, step, notBefore, anchor, t) ||
              (OnGrid(t, step, anchor) && notBefore <= t && free[n].start <= t && t + duration <= free[n].end)
  {
  }

  // ---- the whole engine ----

  /** The meaning of a slot, with no list in sight: on the grid, not too early, working time throughout, never busy. */
  ghost predicate Free(working: seq<Interval>, busy: seq<Interval>, duration: int, step: int, notBefore: int,
                       anchor: int, t: int)
    requires step > 0
  {
    && OnGrid(t, step, anchor) && notBefore <= t
    && forall u | t <= u < t + duration :: Covered(working, u) && !Covered(busy, u)
  }

  /** Exactly the free grid points, in order, each once. */
  method ComputeFreeSlots(working: seq<Interval>, busy: seq<Interval>, duration: int, step: int, notBefore: int,
                          anchor: int)
    returns (r: SlotList)
    ensures r.BadStep? <==> duration <= 0 || step <= 0
    ensures r.Slots? ==> Increasing(r.slots) && AllLast(r.slots, duration)
    ensures r.Slots? ==> forall t :: StartsAt(r.slots, t) <==> Free(working, busy, duration, step, notBefore, anchor, t)
  {
    var shifts := Normalize(working);
    var open := Subtract(shifts, busy);
    r := SlotsIn(open, duration, step, notBefore, anchor);
    if r.Slots? {
      forall t ensures Fits(open, duration, step, notBefore, anchor, t) <==>
                         Free(working, busy, duration, step, notBefore, anchor, t) {
        FitsIsFree(open, working, busy, duration, step, notBefore, anchor, t);
      }
    }
  }

  lemma FitsIsFree(open: seq<Interval>, working: seq<Interval>, busy: seq<Interval>,
                   duration: int, step: int, notBefore: int, anchor: int, t: int)
    requires duration > 0 && step > 0 && Separated(open)
    requires forall u :: Covered(open, u) <==> Covered(working, u) && !Covered(busy, u)
    ensures Fits(open, duration, step, notBefore, anchor, t) <==>
            Free(working, busy, duration, step, notBefore, anchor, t)
  {
    if Fits(open, duration, step, notBefore, anchor, t) {
      var i :| 0 <= i < |open| && open[i].start <= t && t + duration <= open[i].end;
      forall u | t <= u < t + duration ensures Covered(open, u) {
        assert open[i].Covers(u);
      }
    }
    if Free(working, busy, duration, step, notBefore, anchor, t) {
      RunInOneSpan(open, t, t + duration);
    }
  }

  /** The contract of `ComputeFreeSlots` leaves no choice: it determines the list. */
  lemma {:induction false} SlotListIsUnique(a: seq<Interval>, b: seq<Interval>, duration: int)
    requires Increasing(a) && Increasing(b) && AllLast(a, duration) && AllLast(b, duration)
    requires forall t :: StartsAt(a, t) <==> StartsAt(b, t)
    ensures a == b
  {
    if a == [] || b == [] {
      if a != [] { assert StartsAt(a, a[0].start); }
      if b != [] { assert StartsAt(b, b[0].start); }
    } else {
      assert StartsAt(a, a[0].start) && StartsAt(b, b[0].start);
      assert a[0].start <= b[0].start && b[0].start <= a[0].start;
      forall t ensures StartsAt(a[1..], t) <==> StartsAt(b[1..], t) {
        StartsAtTail(a, t);
        StartsAtTail(b, t);
      }
      SlotListIsUnique(a[1..], b[1..], duration);
    }
  }

  lemma StartsAtTail(s: seq<Interval>, t: int)
    requires s != [] && Increasing(s)
    ensures StartsAt(s[1..], t) <==> StartsAt(s, t) && t != s[0].start
  {
  }

  // ---- clip ----

  /** The part of each interval that lies in the window. */
  method Clip(intervals: seq<Interval>, window: Interval) returns (trimmed: seq<Interval>)
    ensures forall u :: Covered(trimmed, u) <==> Covered(intervals, u) && window.Covers(u)
  {
    trimmed := [];
    for i := 0 to |intervals|
      invariant forall u :: Covered(trimmed, u) <==> Covered(intervals[..i], u) && window.Covers(u)
    {
      var span := intervals[i];
      var start := if span.start < window.start then window.start else span.start;
      var end := if span.end < window.end then span.end else window.end;
      ghost var was := trimmed;
      if start < end {
        trimmed := trimmed + [Span(start, end)];
      }
      forall u ensures Covered(trimmed, u) <==> Covered(intervals[..i + 1], u) && window.Covers(u) {
        CoveredPrefix(intervals, i, u);
        if start < end {
          CoveredAppend(was, Span(start, end), u);
        }
      }
    }
    assert intervals[..|intervals|] == intervals;
  }
}
