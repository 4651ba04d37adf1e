/**
 * Wall clocks and instants.  A zone is two functions: the instant a local wall-clock reading denotes
 * (Python's `fold=0` reading of it) and the wall-clock reading at an instant.  Wall clocks count
 * microseconds from the start of day 0, and days are Python's date ordinals.
 */
module Zones {
  import opened Availability

  const MINUTE := 60_000_000
  const DAY := 1440 * MINUTE

  datatype Zone = Zone(toInstant: int -> int, toWall: int -> int) {
    function DayStart(day: int): int { toInstant(day * DAY) }

    function LocalDay(u: int): int { toWall(u) / DAY }

    /** The two readings agree at local midnights: the day at an instant is the last one begun by then. */
    ghost predicate Agrees() {
      forall u, day :: DayStart(day) <= u <==> day <= LocalDay(u)
    }
  }

  /** What converting a wall-clock range yields: an interval, nothing, or `Interval`'s ValueError. */
  datatype Conversion = Made(i: Interval) | Nothing | Raises

  function MakeInterval(start: int, end: int): Conversion {
    if end <= start then Raises else Made(Span(start, end))
  }

  function LocalDayBounds(day: int, zone: Zone): Conversion {
    MakeInterval(zone.DayStart(day), zone.DayStart(day + 1))
  }

  /** Python compares datetimes that share a zone by wall clock; `Interval` compares instants. */
  function WorkingInterval(day: int, startTime: int, endTime: int, zone: Zone): Conversion {
    var start, end := day * DAY + startTime, day * DAY + endTime;
    if end <= start then Nothing else MakeInterval(zone.toInstant(start), zone.toInstant(end))
  }

  // ---- local days ----

  lemma DayOfInstant(zone: Zone, u: int, day: int)
    requires zone.Agrees()
    ensures zone.LocalDay(u) == day <==> zone.DayStart(day) <= u < zone.DayStart(day + 1)
  {
  }

  /** Agreement can equally be stated day by day, for days that do not run backwards. */
  lemma AgreesDayByDay(zone: Zone)
    requires forall c, d | c <= d :: zone.DayStart(c) <= zone.DayStart(d)
    requires forall u :: zone.DayStart(zone.LocalDay(u)) <= u < zone.DayStart(zone.LocalDay(u) + 1)
    ensures zone.Agrees()
  {
  }

  /** The instants from the first midnight of a range of days to the midnight after it are those of its days. */
  lemma RangeIsItsDays(zone: Zone, first: int, last: int, u: int)
    requires zone.Agrees()
    ensures zone.DayStart(first) <= u < zone.DayStart(last + 1) <==> first <= zone.LocalDay(u) <= last
  {
  }

  // ---- a zone whose offset changes once ----

  function Max(a: int, b: int): int { if a < b then b else a }
  function Min(a: int, b: int): int { if a < b then a else b }

  function WallAt(boundary: int, before: int, after: int, u: int): int {
    if u < boundary then u + before else u + after
  }

  /** `fold=0`: a skipped reading keeps the old offset, a repeated one is its first occurrence. */
  function InstantOf(boundary: int, before: int, after: int, w: int): int {
    if w < boundary + Max(before, after) then w - before else w - after
  }

  /** Offset `before` until the instant `boundary`, `after` from then on. */
  function OneChange(boundary: int, before: int, after: int): Zone {
    Zone((w: int) => InstantOf(boundary, before, after, w), (u: int) => WallAt(boundary, before, after, u))
  }

  /** A wall reading that the change skips or repeats, other than the first one. */
  predicate Disturbed(boundary: int, before: int, after: int, w: int) {
    boundary + Min(before, after) < w < boundary + Max(before, after)
  }

  /** The shift starts before the clocks have settled and ends once they have. */
  predicate SpansChange(boundary: int, before: int, after: int, start: int, end: int) {
    start < boundary + Max(before, after) <= end
  }

  /** Real length is nominal length less the gap (or plus the repeat) when the shift spans the change. */
  lemma ShiftLength(boundary: int, before: int, after: int, day: int, startTime: int, endTime: int)
    ensures var start, end := day * DAY + startTime, day * DAY + endTime;
            var spans := SpansChange(boundary, before, after, start, end);
            var r := WorkingInterval(day, startTime, endTime, OneChange(boundary, before, after));
            && (r.Nothing? <==> endTime <= startTime)
            && (r.Raises? <==> startTime < endTime && spans && endTime - startTime <= after - before)
            && (r.Made? ==> r.i.end - r.i.start == endTime - startTime - if spans then after - before else 0)
  {
  }

  /**
   * A shift wholly inside a skipped hour is not dropped: it comes out with its full nominal length,
   * on real time after the change.
   */
  lemma ShiftInsideGapSurvives(boundary: int, before: int, after: int, day: int, startTime: int, endTime: int)
    requires before < after && startTime < endTime
    requires boundary + before <= day * DAY + startTime && day * DAY + endTime < boundary + after
    ensures var r := WorkingInterval(day, startTime, endTime, OneChange(boundary, before, after));
            && r.Made? && boundary <= r.i.start && r.i.end - r.i.start == endTime - startTime
            && forall u ::
                 !(day * DAY + startTime <= OneChange(boundary, before, after).toWall(u) < day * DAY + endTime)
  {
  }

  /** Off the disturbed stretch a reading is reached at its instant and stays reached. */
  lemma ReachedFrom(boundary: int, before: int, after: int, w: int, u: int)
    requires !Disturbed(boundary, before, after, w)
    ensures InstantOf(boundary, before, after, w) <= u <==> w <= WallAt(boundary, before, after, u)
  {
  }

  /** `fold=0`: if the clock ever shows the reading, this is the first instant at which it does. */
  lemma FirstOccurrence(boundary: int, before: int, after: int, w: int, u: int)
    requires WallAt(boundary, before, after, u) == w
    ensures InstantOf(boundary, before, after, w) <= u
    ensures WallAt(boundary, before, after, InstantOf(boundary, before, after, w)) == w
  {
  }

  /** And a reading it never shows is taken with the old offset, so it denotes an instant after the gap. */
  lemma SkippedReading(boundary: int, before: int, after: int, w: int)
    ensures (forall u :: WallAt(boundary, before, after, u) != w) <==> boundary + before <= w < boundary + after
    ensures boundary + before <= w < boundary + after ==> InstantOf(boundary, before, after, w) == w - before
  {
    assert WallAt(boundary, before, after, w - before) == w || boundary + before <= w;
    assert WallAt(boundary, before, after, w - after) == w || w < boundary + after;
  }

  ghost predicate SameClock(boundary: int, before: int, after: int, start: int, end: int) {
    forall u :: InstantOf(boundary, before, after, start) <= u < InstantOf(boundary, before, after, end) <==>
                start <= WallAt(boundary, before, after, u) < end
  }

  lemma DisturbedStartDiffers(boundary: int, before: int, after: int, start: int, end: int)
    requires start < end && Disturbed(boundary, before, after, start)
    requires InstantOf(boundary, before, after, start) < InstantOf(boundary, before, after, end)
    ensures !SameClock(boundary, before, after, start, end)
  {
    var lo, hi := InstantOf(boundary, before, after, start), InstantOf(boundary, before, after, end);
    // A gap: the boundary reads past `start` too early, unless everything reads past `end`.
    // A repeat: the boundary reads before `start`, between its two readings.
    var u := if before < after then (if boundary + after < end then boundary else lo)
             else if boundary < hi then boundary else start - after;
    assert !(lo <= u < hi <==> start <= WallAt(boundary, before, after, u) < end);
  }

  lemma DisturbedEndDiffers(boundary: int, before: int, after: int, start: int, end: int)
    requires start < end && !Disturbed(boundary, before, after, start) && Disturbed(boundary, before, after, end)
    ensures !SameClock(boundary, before, after, start, end)
  {
    // The last instant before `end`'s second reading in a repeat; the boundary itself in a gap.
    var u := if after < before then end - 1 - after else boundary;
    var lo, hi := InstantOf(boundary, before, after, start), InstantOf(boundary, before, after, end);
    assert !(lo <= u < hi <==> start <= WallAt(boundary, before, after, u) < end);
  }

  /**
   * A converted shift is the set of instants whose wall clock reads inside it, exactly when the change disturbs
   * neither end.
   */
  lemma ShiftIsItsWallClock(boundary: int, before: int, after: int, day: int, startTime: int, endTime: int)
    requires WorkingInterval(day, startTime, endTime, OneChange(boundary, before, after)).Made?
    ensures var zone := OneChange(boundary, before, after);
            var start, end := day * DAY + startTime, day * DAY + endTime;
            var i := WorkingInterval(day, startTime, endTime, zone).i;
            (forall u :: i.Covers(u) <==> start <= zone.toWall(u) < end) <==>
            !Disturbed(boundary, before, after, start) && !Disturbed(boundary, before, after, end)
  {
    var zone := OneChange(boundary, before, after);
    var start, end := day * DAY + startTime, day * DAY + endTime;
    var i := WorkingInterval(day, startTime, endTime, zone).i;
    assert forall u :: zone.toWall(u) == WallAt(boundary, before, after, u);
    assert forall u :: i.Covers(u) <==>
        InstantOf(boundary, before, after, start) <= u < InstantOf(boundary, before, after, end);
    if Disturbed(boundary, before, after, start) {
      DisturbedStartDiffers(boundary, before, after, start, end);
    } else if Disturbed(boundary, before, after, end) {
      DisturbedEndDiffers(boundary, before, after, start, end);
    } else {
      forall u ensures i.Covers(u) <==> start <= zone.toWall(u) < end {
        ReachedFrom(boundary, before, after, start, u);
        ReachedFrom(boundary, before, after, end, u);
      }
    }
  }

  /** The zone agrees at midnights exactly when no midnight falls strictly inside the disturbed stretch. */
  lemma OneChangeAgrees(boundary: int, before: int, after: int)
    ensures OneChange(boundary, before, after).Agrees() <==>
            forall day :: !Disturbed(boundary, before, after, day * DAY)
  {
    var zone := OneChange(boundary, before, after);
    forall u, day ensures zone.DayStart(day) == InstantOf(boundary, before, after, day * DAY)
                  ensures day <= zone.LocalDay(u) <==> day * DAY <= WallAt(boundary, before, after, u) {
      assert zone.toWall(u) == WallAt(boundary, before, after, u);
    }
    if zone.Agrees() {
      forall day ensures !Disturbed(boundary, before, after, day * DAY) {
        assert zone.DayStart(day) <= boundary <==> day <= zone.LocalDay(boundary);
      }
    }
    if forall day :: !Disturbed(boundary, before, after, day * DAY) {
      forall u, day ensures zone.DayStart(day) <= u <==> day <= zone.LocalDay(u) {
        ReachedFrom(boundary, before, after, day * DAY, u);
      }
    }
  }
}
