/** The booking services themselves: the tables are fields, requests read them and write them back. */
module Desk {
  import opened Collections
  import opened Availability
  import opened Zones
  import opened Shifts
  import opened Booking
  import opened BookingLaws

  /** The availability endpoint's answer. */
  datatype Offer = Shown(slots: seq<Interval>) | Refused(outcome: Outcome)

  class Database {
    var barbers: map<Id, Barber>
    var services: map<Id, Service>
    var shops: map<Id, Shop>
    var hours: seq<WorkingHours>
    var breaks: map<Id, Break>
    var closures: map<Id, Closure>
    var appointments: map<Id, Appointment>

    function View(): Tables
      reads this
    {
      Tables(barbers, services, shops, hours, breaks, closures, appointments)
    }

    // ---- app/services/slots.py ----

    /** The day's shifts as instant ranges; not ok when one of them cannot be built. */
    method ShiftsFor(barber: Id, day: int, zone: Zone) returns (ok: bool, shifts: seq<Interval>)
      ensures !ok <==> BadShift(View(), barber, day, zone)
      ensures ok ==> forall u :: Covered(shifts, u) <==> Working(View(), barber, day, zone, u)
    {
      shifts := [];
      for k := 0 to |hours|
        invariant forall m | 0 <= m < k :: !(Rostered(hours[m], barber, day) && ShiftOn(hours[m], day, zone).Raises?)
        invariant forall u :: Covered(shifts, u) <==> exists m | 0 <= m < k :: OnShift(hours[m], barber, day, zone, u)
      {
        if Rostered(hours[k], barber, day) {
          var shift := ShiftOn(hours[k], day, zone);
          if shift.Raises? {
            return false, [];
          }
          if shift.Made? {
            ghost var was := shifts;
            shifts := shifts + [shift.i];
            forall u ensures Covered(shifts, u) <==> Covered(was, u) || shift.i.Covers(u) {
              CoveredAppend(was, shift.i, u);
            }
          }
        }
      }
      ok := true;
    }

    /** The live appointments that reach into the window. */
    method Appointments(barber: Id, window: Interval, leaving: Leaving) returns (spans: seq<Interval>)
      requires WellFormed(View())
      ensures forall u | window.Covers(u) :: Covered(spans, u) <==> Taken(View(), barber, leaving, u)
    {
      spans := [];
      var left := appointments.Keys;
      while left != {}
        invariant left <= appointments.Keys
        invariant forall u | window.Covers(u) :: Covered(spans, u) <==>
                    exists a | a in appointments && a !in left ::
                      appointments[a].Holds(barber) && leaving.Keeps(a) && appointments[a].Time().Covers(u)
        decreases |left|
      {
        SomeMember(left);
        var id :| id in left;
        var row := appointments[id];
        ghost var was := spans;
        if row.Holds(barber) && leaving.Keeps(id) && row.start < window.end && window.start < row.end {
          spans := spans + [Span(row.start, row.end)];
          forall u ensures Covered(spans, u) <==> Covered(was, u) || row.Time().Covers(u) {
            CoveredAppend(was, Span(row.start, row.end), u);
          }
        }
        left := left - {id};
      }
    }

    method Breaks(barber: Id, window: Interval) returns (spans: seq<Interval>)
      requires WellFormed(View())
      ensures forall u | window.Covers(u) :: Covered(spans, u) <==> OnBreak(View(), barber, u)
    {
      spans := [];
      var left := breaks.Keys;
      while left != {}
        invariant left <= breaks.Keys
        invariant forall u | window.Covers(u) :: Covered(spans, u) <==>
                    exists k | k in breaks && k !in left :: breaks[k].barber == barber && breaks[k].Time().Covers(u)
        decreases |left|
      {
        SomeMember(left);
        var id :| id in left;
        var row := breaks[id];
        ghost var was := spans;
        if row.barber == barber && row.start < window.end && window.start < row.end {
          spans := spans + [Span(row.start, row.end)];
          forall u ensures Covered(spans, u) <==> Covered(was, u) || row.Time().Covers(u) {
            CoveredAppend(was, Span(row.start, row.end), u);
          }
        }
        left := left - {id};
      }
    }

    /** The slots of one barber on one local day: exactly the offered starts, in order. */
    method AvailableSlots(barber: Id, service: Id, day: int, now: int, leaving: Leaving) returns (r: Offer)
      requires WellFormed(View())
      ensures r.Refused? <==> Refusal(View(), barber, service, day) != Done
      ensures r.Refused? ==> r.outcome == Refusal(View(), barber, service, day)
      ensures r.Shown? ==> HasShop(View(), barber) && service in services
      ensures r.Shown? ==> Increasing(r.slots) && AllLast(r.slots, services[service].duration)
      ensures r.Shown? ==> forall t :: StartsAt(r.slots, t) <==> Offered(View(), barber, service, day, now, leaving, t)
    {
      var valid := LoadAndValidate(View(), barber, service);
      if valid != Done {
        return Refused(valid);
      }
      var zone := ZoneOf(View(), barber);
      var bounds := LocalDayBounds(day, zone);
      if bounds.Raises? {
        return Refused(ServerError);
      }
      var window := bounds.i;
      if Shut(View(), barbers[barber].shop, day) {
        return Shown([]);
      }
      var ok, shifts := ShiftsFor(barber, day, zone);
      if !ok {
        return Refused(ServerError);
      }
      if shifts == [] {
        NothingWithoutShifts(shifts, barber, service, day, now, leaving);
        return Shown([]);
      }
      var taken: seq<Interval> := [];
      if !leaving.Everybody? {
        taken := Appointments(barber, window, leaving);
      }
      var resting := Breaks(barber, window);
      var busy := Clip(taken + resting, window);
      var working := Clip(shifts, window);
      var slots := ComputeFreeSlots(working, busy, services[service].duration, SLOT_STEP, now + BOOKING_LEAD,
                                    window.start);
      forall u ensures Covered(taken + resting, u) <==> Covered(taken, u) || Covered(resting, u) {
        CoveredConcat(taken, resting, u);
      }
      forall t ensures StartsAt(slots.slots, t) <==> Offered(View(), barber, service, day, now, leaving, t) {
        FreeIsOffered(working, busy, barber, service, day, now, leaving, t);
      }
      r := Shown(slots.slots);
    }

    lemma NothingWithoutShifts(shifts: seq<Interval>, barber: Id, service: Id, day: int, now: int, leaving: Leaving)
      requires WellFormed(View()) && HasShop(View(), barber) && service in services
      requires shifts == [] && forall u :: Covered(shifts, u) <==>
               Working(View(), barber, day, ZoneOf(View(), barber), u)
      ensures forall t :: !Offered(View(), barber, service, day, now, leaving, t)
    {
      forall t ensures !Offered(View(), barber, service, day, now, leaving, t) {
        assert !Covered(shifts, t);
        assert !OpenAt(View(), barber, day, leaving, t);
      }
    }

    /** The engine's answer about the rows fetched for the window is the answer about the tables. */
    lemma FreeIsOffered(working: seq<Interval>, busy: seq<Interval>, barber: Id, service: Id, day: int, now: int,
                        leaving: Leaving, t: int)
      requires HasShop(View(), barber) && service in services
      requires !Shut(View(), barbers[barber].shop, day)
      requires var zone := ZoneOf(View(), barber);
               forall u :: Covered(working, u) <==>
                 Working(View(), barber, day, zone, u) && zone.DayStart(day) <= u < zone.DayStart(day + 1)
      requires var zone := ZoneOf(View(), barber);
               forall u | zone.DayStart(day) <= u < zone.DayStart(day + 1) ::
                 Covered(busy, u) <==> Taken(View(), barber, leaving, u) || OnBreak(View(), barber, u)
      ensures Free(working, busy, services[service].duration, SLOT_STEP, now + BOOKING_LEAD,
                   ZoneOf(View(), barber).DayStart(day), t) <==>
              Offered(View(), barber, service, day, now, leaving, t)
    {
      var end := t + services[service].duration;
      if Offered(View(), barber, service, day, now, leaving, t) {
        forall u | t <= u < end ensures Covered(working, u) && !Covered(busy, u) {
          assert OpenAt(View(), barber, day, leaving, u);
        }
      }
      if Free(working, busy, services[service].duration, SLOT_STEP, now + BOOKING_LEAD,
              ZoneOf(View(), barber).DayStart(day), t) {
        forall u | t <= u < end ensures OpenAt(View(), barber, day, leaving, u) {
          assert Covered(working, u) && !Covered(busy, u);
        }
      }
    }

    // ---- app/services/booking.py ----

    /** Judge a requested start by the list its own day would show, with and without the bookings. */
    method AssertOnOffer(barber: Id, service: Id, start: int, now: int, leaving: Leaving) returns (o: Outcome)
      requires WellFormed(View()) && HasShop(View(), barber)
      ensures o == OfferOutcome(View(), barber, service, start, now, leaving)
    {
      var localDay := ZoneOf(View(), barber).LocalDay(start);
      var offer := AvailableSlots(barber, service, localDay, now, leaving);
      if offer.Refused? {
        return offer.outcome;
      }
      if exists k | 0 <= k < |offer.slots| :: offer.slots[k].start == start {
        assert StartsAt(offer.slots, start);
        return Done;
      }
      assert !StartsAt(offer.slots, start);
      var ifEmpty := AvailableSlots(barber, service, localDay, now, Everybody);
      if exists k | 0 <= k < |ifEmpty.slots| :: ifEmpty.slots[k].start == start {
        assert StartsAt(ifEmpty.slots, start);
        return SlotTaken;
      }
      assert !StartsAt(ifEmpty.slots, start);
      return OutsideWorkingHours;
    }

    /** Write one row and commit; a refused write is rolled back. */
    method CommitRow(id: Id, row: Appointment, slotTaken: bool) returns (o: Outcome)
      modifies this`appointments
      ensures slotTaken ==> Reply(View(), o) == CommitOrSlotTaken(old(View()), id, row)
      ensures !slotTaken ==> Reply(View(), o) == Commit(old(View()), id, row)
    {
      if !RowChecks(row) {
        return ServerError;
      }
      if !Exclusive(View(), id, row) {
        return if slotTaken then SlotTaken else ServerError;
      }
      appointments := appointments[id := row];
      return Done;
    }

    method CreateAppointment(id: Id, customer: Id, barber: Id, service: Id, start: int, now: int) returns (o: Outcome)
      requires WellFormed(View()) && id !in appointments
      modifies this`appointments
      ensures Reply(View(), o) == Create(old(View()), id, customer, barber, service, start, now)
      ensures o == Done ==> barber in barbers && barbers[barber].shop in shops && service in services
      ensures o == Done ==>
                appointments == old(appointments)[id :=
                  Appointment(customer, barber, service, start, start + services[service].duration,
                              if shops[barbers[barber].shop].requiresConfirmation then Pending else Confirmed,
                              services[service].price, now)]
    {
      o := Resolve(View(), barber, service);
      if o != Done {
        return;
      }
      var shop := shops[barbers[barber].shop];
      var end := start + services[service].duration;
      o := AssertOnOffer(barber, service, start, now, Nobody);
      if o != Done {
        return;
      }
      var row := Appointment(customer, barber, service, start, end,
                             if shop.requiresConfirmation then Pending else Confirmed, services[service].price, now);
      o := CommitRow(id, row, true);
    }

    method CancelAppointment(id: Id, actor: Actor, now: int) returns (o: Outcome)
      modifies this`appointments
      ensures Reply(View(), o) == Cancel(old(View()), id, actor, now)
      ensures Invariant(old(View())) ==> Invariant(View()) && o != ServerError
    {
      ghost var was := View();
      if Invariant(was) {
        StatusRequestKeeps(was, CancelRequest(id, actor, now));
      }
      o := Load(View(), id, actor);
      if o != Done {
        return;
      }
      var row := appointments[id];
      if !row.status.Live() {
        return InvalidTransition;
      }
      if PastCutoff(row, now, actor) {
        return CutoffPassed;
      }
      o := CommitRow(id, row.(status := Cancelled), false);
    }

    method RescheduleAppointment(id: Id, newStart: int, actor: Actor, now: int) returns (o: Outcome)
      requires WellFormed(View())
      modifies this`appointments
      ensures Reply(View(), o) == Reschedule(old(View()), id, newStart, actor, now)
    {
      o := Load(View(), id, actor);
      if o != Done {
        return;
      }
      var row := appointments[id];
      if !row.status.Live() {
        return InvalidTransition;
      }
      if PastCutoff(row, now, actor) {
        return CutoffPassed;
      }
      o := Resolve(View(), row.barber, row.service);
      if o != Done {
        return;
      }
      o := AssertOnOffer(row.barber, row.service, newStart, now, One(id));
      if o != Done {
        return;
      }
      o := CommitRow(id, row.(start := newStart, end := newStart + services[row.service].duration), true);
    }

    method ConfirmAppointment(id: Id, actor: Actor) returns (o: Outcome)
      modifies this`appointments
      ensures Reply(View(), o) == Confirm(old(View()), id, actor)
      ensures Invariant(old(View())) ==> Invariant(View()) && o != ServerError
    {
      ghost var was := View();
      if Invariant(was) {
        StatusRequestKeeps(was, ConfirmRequest(id, actor));
      }
      o := Load(View(), id, actor);
      if o != Done {
        return;
      }
      if !actor.Staff? {
        return Forbidden;
      }
      if !appointments[id].status.Pending? {
        return InvalidTransition;
      }
      o := CommitRow(id, appointments[id].(status := Confirmed), false);
    }

    method CloseOutAppointment(id: Id, target: Status, actor: Actor, now: int) returns (o: Outcome)
      requires target == Completed || target == NoShow
      modifies this`appointments
      ensures Reply(View(), o) == CloseOut(old(View()), id, target, actor, now)
      ensures Invariant(old(View())) ==> Invariant(View()) && o != ServerError
    {
      ghost var was := View();
      if Invariant(was) {
        StatusRequestKeeps(was, CloseOutRequest(id, target.NoShow?, actor, now));
      }
      o := Load(View(), id, actor);
      if o != Done {
        return;
      }
      var row := appointments[id];
      if !actor.Staff? {
        return Forbidden;
      }
      if !row.status.Live() {
        return InvalidTransition;
      }
      if row.start > now {
        return InvalidTransition;
      }
      o := CommitRow(id, row.(status := target), false);
    }

    // ---- app/workers/tasks.py ----

    /** Cancel every booking that has waited too long for a confirmation. */
    method ExpireStalePending(now: int) returns (count: nat)
      modifies this`appointments
      ensures View() == Expire(old(View()), now)
      ensures count == |set a | a in old(appointments) && Stale(old(appointments)[a], now)|
    {
      var stale := set a | a in appointments && Stale(appointments[a], now);
      count := |stale|;
      var left := stale;
      while left != {}
        invariant left <= stale
        invariant appointments.Keys == old(appointments).Keys
        invariant forall a | a in appointments :: appointments[a] ==
                    if a in stale && a !in left then old(appointments)[a].(status := Cancelled)
                    else old(appointments)[a]
        decreases |left|
      {
        SomeMember(left);
        var id :| id in left;
        appointments := appointments[id := appointments[id].(status := Cancelled)];
        left := left - {id};
      }
      forall a | a in appointments ensures appointments[a] == Expire(old(View()), now).appointments[a] {
        assert a in stale <==> Stale(old(appointments)[a], now);
      }
    }

    // ---- app/services/schedule.py and app/services/closures.py ----

    method AddBreak(id: Id, k: Break, staff: bool) returns (o: Outcome)
      requires id !in breaks
      modifies this`breaks
      ensures Reply(View(), o) == CreateBreak(old(View()), id, k, staff)
      ensures Invariant(old(View())) ==> Invariant(View()) && o != ServerError
    {
      ghost var was := View();
      if Invariant(was) {
        HandleKeeps(was, CreateBreakRequest(id, k, staff));
      }
      if k.end <= k.start {
        return Invalid;
      }
      if k.barber !in barbers {
        return NotFound;
      }
      if !staff {
        return Forbidden;
      }
      if BookedDuring(View(), k.barber, k.Time()) {
        return Conflict;
      }
      breaks := breaks[id := k];
      return Done;
    }

    method RemoveBreak(id: Id, staff: bool) returns (o: Outcome)
      modifies this`breaks
      ensures Reply(View(), o) == DeleteBreak(old(View()), id, staff)
      ensures o == Done ==> breaks == old(breaks) - {id}
      ensures Invariant(old(View())) ==> Invariant(View())
    {
      ghost var was := View();
      if Invariant(was) {
        HandleKeeps(was, DeleteBreakRequest(id, staff));
      }
      if id !in breaks || breaks[id].barber !in barbers {
        return NotFound;
      }
      if !staff {
        return Forbidden;
      }
      breaks := breaks - {id};
      return Done;
    }

    method AddClosure(id: Id, c: Closure, staff: bool) returns (o: Outcome)
      requires id !in closures
      modifies this`closures
      ensures Reply(View(), o) == CreateClosure(old(View()), id, c, staff)
      ensures Invariant(old(View())) ==> Invariant(View()) && o != ServerError
    {
      ghost var was := View();
      if Invariant(was) {
        HandleKeeps(was, CreateClosureRequest(id, c, staff));
      }
      if c.last < c.first {
        return Invalid;
      }
      if c.shop !in shops || (!shops[c.shop].active && !staff) {
        return NotFound;
      }
      if !staff {
        return Forbidden;
      }
      var window := Span(shops[c.shop].zone.DayStart(c.first), shops[c.shop].zone.DayStart(c.last + 1));
      if ShopBookedDuring(View(), c.shop, window) {
        return Conflict;
      }
      if Recorded(View(), c) {
        return Conflict;
      }
      closures := closures[id := c];
      return Done;
    }

    method RemoveClosure(id: Id, staff: bool) returns (o: Outcome)
      modifies this`closures
      ensures Reply(View(), o) == DeleteClosure(old(View()), id, staff)
      ensures o == Done ==> closures == old(closures) - {id}
      ensures Invariant(old(View())) ==> Invariant(View())
    {
      ghost var was := View();
      if Invariant(was) {
        HandleKeeps(was, DeleteClosureRequest(id, staff));
      }
      if id !in closures || closures[id].shop !in shops {
        return NotFound;
      }
      if !shops[closures[id].shop].active && !staff {
        return NotFound;
      }
      if !staff {
        return Forbidden;
      }
      closures := closures - {id};
      return Done;
    }

    /** A barber's rows go, and those of the new week come. */
    method ReplaceWorkingHours(barber: Id, week: seq<Shift>, staff: bool) returns (o: Outcome)
      modifies this`hours
      ensures Reply(View(), o) == ReplaceHours(old(View()), barber, week, staff)
    {
      var ok := ValidateWeek(week);
      if !ok {
        return Invalid;
      }
      if barber !in barbers {
        return NotFound;
      }
      if !staff {
        return Forbidden;
      }
      hours := HoursOfOthers(hours, barber);
      hours := hours + HoursFor(barber, week);
      return Done;
    }
  }

  lemma CoveredConcat(a: seq<Interval>, b: seq<Interval>, u: int)
    ensures Covered(a + b, u) <==> Covered(a, u) || Covered(b, u)
  {
    var c := a + b;
    if Covered(a, u) {
      var i :| 0 <= i < |a| && a[i].Covers(u);
      assert c[i].Covers(u);
    }
    if Covered(b, u) {
      var i :| 0 <= i < |b| && b[i].Covers(u);
      assert c[|a| + i].Covers(u);
    }
    if Covered(c, u) {
      var i :| 0 <= i < |c| && c[i].Covers(u);
      assert i < |a| ==> a[i].Covers(u);
      assert i >= |a| ==> b[i - |a|].Covers(u);
    }
  }
}
