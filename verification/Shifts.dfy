/** The weekly schedule payload: one shift per item, checked day by day. */
module Shifts {
  import opened Collections

  /** Local times of day; 0 is Monday. */
  datatype Shift = Shift(weekday: int, start: int, end: int)

  predicate Proper(s: Shift) {
    0 <= s.weekday <= 6 && s.start < s.end
  }

  predicate Clash(a: Shift, b: Shift) {
    a.weekday == b.weekday && a.start < b.end && b.start < a.end
  }

  /** No two shifts of the list, wherever they stand in it, clash. */
  ghost predicate NoClash(items: seq<Shift>) {
    forall i, j | 0 <= i < j < |items| :: !Clash(items[i], items[j])
  }

  predicate StartsFirst(a: Shift, b: Shift) { a.start <= b.start }

  const MAX_SHIFTS := 50

  ghost predicate ValidWeek(items: seq<Shift>) {
    |items| <= MAX_SHIFTS && (forall i | 0 <= i < |items| :: Proper(items[i])) && NoClash(items)
  }

  // ---- one day at a time ----

  function OnDay(items: seq<Shift>, weekday: int): seq<Shift> {
    if items == [] then []
    else
      var rest := OnDay(items[..|items| - 1], weekday);
      if items[|items| - 1].weekday == weekday then rest + [items[|items| - 1]] else rest
  }

  lemma {:induction false} OnDayElements(items: seq<Shift>, weekday: int)
    ensures forall x :: x in OnDay(items, weekday) <==> x in items && x.weekday == weekday
  {
    if items != [] {
      OnDayElements(items[..|items| - 1], weekday);
      assert items == items[..|items| - 1] + [items[|items| - 1]];
    }
  }

  /** `byDay` lists each weekday's shifts in input order, and `days` the weekdays there are. */
  ghost predicate Grouped(items: seq<Shift>, byDay: map<int, seq<Shift>>, days: seq<int>) {
    (forall w :: w in days <==> w in byDay) && forall w :: OnDay(items, w) == if w in byDay then byDay[w] else []
  }

  lemma GroupNext(items: seq<Shift>, x: Shift, byDay: map<int, seq<Shift>>, days: seq<int>)
    requires Grouped(items, byDay, days)
    ensures var w := x.weekday;
            var known := if w in byDay then byDay else byDay[w := []];
            Grouped(items + [x], known[w := known[w] + [x]], if w in byDay then days else days + [w])
  {
    assert (items + [x])[..|items|] == items;
    assert [] + [x] == [x];
  }

  lemma NoClashAppend(s: seq<Shift>, x: Shift)
    ensures NoClash(s + [x]) <==> NoClash(s) && forall y | y in s :: !Clash(y, x)
  {
    var t := s + [x];
    if NoClash(t) {
      forall i, j | 0 <= i < j < |s| ensures !Clash(s[i], s[j]) { assert !Clash(t[i], t[j]); }
      forall y | y in s ensures !Clash(y, x) {
        var i :| 0 <= i < |s| && s[i] == y;
        assert !Clash(t[i], t[|s|]);
      }
    }
  }

  ghost predicate DaysClear(items: seq<Shift>) {
    forall w :: NoClash(OnDay(items, w))
  }

  /** Nothing clashes in the list exactly when nothing clashes on any one day. */
  lemma {:induction false} ClashesAreWithinDays(items: seq<Shift>)
    ensures NoClash(items) <==> DaysClear(items)
  {
    if items == [] {
      assert forall w :: OnDay(items, w) == [];
    } else {
      var rest, x := items[..|items| - 1], items[|items| - 1];
      assert items == rest + [x];
      ClashesAreWithinDays(rest);
      NoClashAppend(rest, x);
      var day := OnDay(rest, x.weekday);
      NoClashAppend(day, x);
      OnDayElements(rest, x.weekday);
      assert OnDay(items, x.weekday) == day + [x];
      assert (forall y | y in rest :: !Clash(y, x)) <==> forall y | y in day :: !Clash(y, x);
      assert forall w | w != x.weekday :: OnDay(items, w) == OnDay(rest, w);
      if DaysClear(rest) && NoClash(day + [x]) {
        forall w ensures NoClash(OnDay(items, w)) { assert NoClash(OnDay(rest, w)); }
      }
      if DaysClear(items) {
        assert NoClash(OnDay(items, x.weekday));
        forall w ensures NoClash(OnDay(rest, w)) { assert NoClash(OnDay(items, w)); }
      }
    }
  }

  // ---- sorting a day ----

  lemma NoClashPrepend(x: Shift, s: seq<Shift>)
    ensures NoClash([x] + s) <==> NoClash(s) && forall y | y in s :: !Clash(x, y)
  {
    var t := [x] + s;
    if NoClash(t) {
      forall i, j | 0 <= i < j < |s| ensures !Clash(s[i], s[j]) { assert !Clash(t[i + 1], t[j + 1]); }
      forall y | y in s ensures !Clash(x, y) {
        var i :| 0 <= i < |s| && s[i] == y;
        assert !Clash(t[0], t[i + 1]);
      }
    }
  }

  lemma {:induction false} InsertKeepsClashes(x: Shift, s: seq<Shift>)
    ensures NoClash(Insert(x, s, StartsFirst)) <==> NoClash([x] + s)
  {
    if s != [] && !StartsFirst(x, s[0]) {
      var rest := Insert(x, s[1..], StartsFirst);
      InsertKeepsClashes(x, s[1..]);
      InsertPermutes(x, s[1..], StartsFirst);
      SameElements(rest, [x] + s[1..]);
      SwapHeads(x, s[0], s[1..], rest);
      assert s == [s[0]] + s[1..];
    }
  }

  lemma SwapHeads(x: Shift, head: Shift, tail: seq<Shift>, rest: seq<Shift>)
    requires forall y :: y in rest <==> y in [x] + tail
    requires NoClash(rest) <==> NoClash([x] + tail)
    ensures NoClash([head] + rest) <==> NoClash([x] + ([head] + tail))
  {
    NoClashPrepend(head, rest);
    NoClashPrepend(head, tail);
    NoClashPrepend(x, [head] + tail);
    NoClashPrepend(x, tail);
    assert Clash(head, x) <==> Clash(x, head);
    assert (forall y | y in rest :: !Clash(head, y)) <==>
           !Clash(head, x) && forall y | y in tail :: !Clash(head, y) by {
      assert forall y :: y in rest <==> y == x || y in tail;
    }
    assert (forall y | y in [head] + tail :: !Clash(x, y)) <==>
           !Clash(x, head) && forall y | y in tail :: !Clash(x, y) by {
      assert forall y :: y in [head] + tail <==> y == head || y in tail;
    }
  }

  lemma {:induction false} SortKeepsClashes(s: seq<Shift>)
    ensures NoClash(Sort(s, StartsFirst)) <==> NoClash(s)
  {
    if s != [] {
      var rest := Sort(s[1..], StartsFirst);
      SortKeepsClashes(s[1..]);
      InsertKeepsClashes(s[0], rest);
      NoClashPrepend(s[0], rest);
      NoClashPrepend(s[0], s[1..]);
      SortSorts(s[1..], StartsFirst);
      assert s == [s[0]] + s[1..];
    }
  }

  /** Once sorted by start, looking at neighbours decides every pair. */
  lemma NeighboursDecide(ordered: seq<Shift>, weekday: int)
    requires SortedBy(ordered, StartsFirst)
    requires forall x | x in ordered :: Proper(x) && x.weekday == weekday
    ensures NoClash(ordered) <==> forall k | 0 <= k < |ordered| - 1 :: ordered[k].end <= ordered[k + 1].start
  {
    if NoClash(ordered) {
      forall k | 0 <= k < |ordered| - 1 ensures ordered[k].end <= ordered[k + 1].start {
        assert !Clash(ordered[k], ordered[k + 1]) && StartsFirst(ordered[k], ordered[k + 1]);
        assert ordered[k + 1] in ordered && ordered[k] in ordered;
      }
    }
    if forall k | 0 <= k < |ordered| - 1 :: ordered[k].end <= ordered[k + 1].start {
      forall i, j | 0 <= i < j < |ordered| ensures !Clash(ordered[i], ordered[j]) {
        assert ordered[i].end <= ordered[i + 1].start;
        assert i + 1 < j ==> StartsFirst(ordered[i + 1], ordered[j]);
      }
    }
  }

  function ByStart(slots: seq<Shift>): seq<Shift> {
    Sort(slots, StartsFirst)
  }

  lemma NeighboursDecideDay(slots: seq<Shift>, weekday: int)
    requires forall x | x in slots :: Proper(x) && x.weekday == weekday
    ensures var ordered := ByStart(slots);
            NoClash(slots) <==> forall k | 0 <= k < |ordered| - 1 :: ordered[k].end <= ordered[k + 1].start
  {
    SortSorts(slots, StartsFirst);
    SortKeepsClashes(slots);
    NeighboursDecide(ByStart(slots), weekday);
  }

  /** The groups hold proper shifts of their own day, and decide the whole list. */
  lemma GroupsDecide(items: seq<Shift>, byDay: map<int, seq<Shift>>, days: seq<int>)
    requires Grouped(items, byDay, days) && forall i | 0 <= i < |items| :: Proper(items[i])
    ensures forall d | 0 <= d < |days| ::
              days[d] in byDay && forall x | x in byDay[days[d]] :: Proper(x) && x.weekday == days[d]
    ensures NoClash(items) <==> forall d | 0 <= d < |days| :: NoClash(byDay[days[d]])
  {
    ClashesAreWithinDays(items);
    forall w
      ensures NoClash(OnDay(items, w)) <==> w !in byDay || NoClash(byDay[w])
      ensures forall x :: x in OnDay(items, w) <==> x in items && x.weekday == w
    {
      OnDayElements(items, w);
    }
    forall d | 0 <= d < |days|
      ensures days[d] in byDay && forall x | x in byDay[days[d]] :: Proper(x) && x.weekday == days[d]
    {
      var w := days[d];
      assert w in days && w in byDay && byDay[w] == OnDay(items, w);
    }
  }

  // ---- the validator ----

  /** Whether the day's shifts, in any order, are clear of each other: sort, then compare neighbours. */
  method DayIsClear(slots: seq<Shift>, weekday: int) returns (clear: bool)
    requires forall x | x in slots :: Proper(x) && x.weekday == weekday
    ensures clear <==> NoClash(slots)
  {
    var ordered := ByStart(slots);
    NeighboursDecideDay(slots, weekday);
    var k := 1;
    while k < |ordered|
      invariant 1 <= k
      invariant forall m | 0 <= m < k - 1 && m < |ordered| - 1 :: ordered[m].end <= ordered[m + 1].start
    {
      if ordered[k].start < ordered[k - 1].end {
        assert !(ordered[k - 1].end <= ordered[k - 1 + 1].start);
        return false;
      }
      k := k + 1;
    }
    return true;
  }

  /** The dictionary of the days' shifts, and its keys in order of appearance. */
  method GroupByDay(items: seq<Shift>) returns (byDay: map<int, seq<Shift>>, days: seq<int>)
    ensures Grouped(items, byDay, days)
  {
    byDay, days := map[], [];
    for i := 0 to |items|
      invariant Grouped(items[..i], byDay, days)
    {
      var slot := items[i];
      GroupNext(items[..i], slot, byDay, days);
      assert items[..i + 1] == items[..i] + [slot];
      if slot.weekday !in byDay {
        days := days + [slot.weekday];
        byDay := byDay[slot.weekday := []];
      }
      byDay := byDay[slot.weekday := byDay[slot.weekday] + [slot]];
    }
    assert items[..|items|] == items;
  }

  /** Accepts exactly the lists in which no two shifts of one weekday overlap, in whatever order they come. */
  method ShiftsDoNotOverlap(items: seq<Shift>) returns (ok: bool)
    requires forall i | 0 <= i < |items| :: Proper(items[i])
    ensures ok <==> NoClash(items)
  {
    var byDay, days := GroupByDay(items);
    GroupsDecide(items, byDay, days);
    for d := 0 to |days|
      invariant forall k | 0 <= k < d :: NoClash(byDay[days[k]])
    {
      var clear := DayIsClear(byDay[days[d]], days[d]);
      if !clear {
        return false;
      }
    }
    return true;
  }

  /** The whole payload: its length and each shift's own check first, then the week's. */
  method ValidateWeek(items: seq<Shift>) returns (ok: bool)
    ensures ok <==> ValidWeek(items)
  {
    if |items| > MAX_SHIFTS {
      return false;
    }
    for i := 0 to |items|
      invariant forall k | 0 <= k < i :: Proper(items[k])
    {
      if !Proper(items[i]) {
        return false;
      }
    }
    ok := ShiftsDoNotOverlap(items);
  }

  /** An accepted week meets the table's uniqueness of (weekday, start). */
  lemma ValidWeekHasDistinctStarts(items: seq<Shift>)
    requires ValidWeek(items)
    ensures forall i, j | 0 <= i < j < |items| ::
              items[i].weekday != items[j].weekday || items[i].start != items[j].start
  {
  }
}
