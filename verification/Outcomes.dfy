/**
 * What each request answers and what it leaves behind, run alone, said in the columns of the rows: no guard,
 * query or row constructor of the model is named on the right-hand sides.
 */
module Outcomes {
  import opened Availability
  import opened Zones
  import opened Shifts
  import opened Booking
  import opened BookingLaws

  /** PENDING and CONFIRMED hold their time; the other three do not. */
  predicate Standing(a: Appointment) {
    a.status in {Pending, Confirmed}
  }

  /** The settings, in microseconds. */
  lemma SettingsInMicroseconds()
    ensures MINUTE == 60 * 1_000_000 && DAY == 24 * 60 * MINUTE
    ensures SLOT_STEP == 15 * MINUTE && BOOKING_LEAD == 30 * MINUTE
    ensures CHANGE_CUTOFF == 2 * 60 * MINUTE && PENDING_LIFETIME == 30 * MINUTE
  {
  }

  // ---- which rows of the roster a date uses ----

  /** Day 1 of the ordinals, 1 January of year 1, is a Monday, and each day takes the next weekday. */
  lemma WeekdaysFollow(day: int)
    ensures Weekday(1) == 0
    ensures 0 <= Weekday(day) < 7 && Weekday(day + 1) == (Weekday(day) + 1) % 7
  {
  }

  /** The weekday of a date is `weekday` exactly when the date is a whole number of weeks from such a day of week 0. */
  lemma WeekdayOfDate(day: int, weekday: int)
    requires 0 <= weekday < 7
    ensures Weekday(day) == weekday <==> (day - (weekday + 1)) % 7 == 0
  {
  }

  /** The instant is in a shift of the barber for the weekday of the date: Mondays are the days 1, 8, 15, ... */
  lemma WorkingMeans(s: Tables, barber: Id, day: int, zone: Zone, u: int)
    requires forall k | 0 <= k < |s.hours| :: 0 <= s.hours[k].shift.weekday < 7
    ensures Working(s, barber, day, zone, u) <==>
            exists k | 0 <= k < |s.hours| ::
              var row := s.hours[k];
              && row.barber == barber && (day - (row.shift.weekday + 1)) % 7 == 0 && row.shift.start < row.shift.end
              && zone.toInstant(day * DAY + row.shift.start) <= u < zone.toInstant(day * DAY + row.shift.end)
  {
    forall k | 0 <= k < |s.hours|
      ensures OnShift(s.hours[k], barber, day, zone, u) <==>
              (var row := s.hours[k];
               && row.barber == barber && (day - (row.shift.weekday + 1)) % 7 == 0 && row.shift.start < row.shift.end
               && zone.toInstant(day * DAY + row.shift.start) <= u < zone.toInstant(day * DAY + row.shift.end))
    {
      WeekdayOfDate(day, s.hours[k].shift.weekday);
    }
  }

  /** The rows of this barber for the weekday of the date are in both rosters or in neither. */
  ghost predicate SameRoster(s: Tables, t: Tables, barber: Id, day: int) {
    forall row: WorkingHours ::
      row.barber == barber && (day - (row.shift.weekday + 1)) % 7 == 0 ==> (row in s.hours <==> row in t.hours)
  }

  ghost predicate Weekly(s: Tables) {
    forall row | row in s.hours :: 0 <= row.shift.weekday < 7
  }

  lemma RosterDecidesShifts(s: Tables, t: Tables, barber: Id, day: int, zone: Zone)
    requires Weekly(s) && Weekly(t) && SameRoster(s, t, barber, day)
    ensures BadShift(s, barber, day, zone) ==> BadShift(t, barber, day, zone)
    ensures forall u :: Working(s, barber, day, zone, u) ==> Working(t, barber, day, zone, u)
  {
    forall row | row in s.hours && Rostered(row, barber, day) ensures row in t.hours {
      WeekdayOfDate(day, row.shift.weekday);
    }
    if BadShift(s, barber, day, zone) {
      var k :| 0 <= k < |s.hours| && Rostered(s.hours[k], barber, day) && ShiftOn(s.hours[k], day, zone).Raises?;
      var j :| 0 <= j < |t.hours| && t.hours[j] == s.hours[k];
    }
    forall u | Working(s, barber, day, zone, u) ensures Working(t, barber, day, zone, u) {
      var k :| 0 <= k < |s.hours| && OnShift(s.hours[k], barber, day, zone, u);
      var j :| 0 <= j < |t.hours| && t.hours[j] == s.hours[k];
      assert OnShift(t.hours[j], barber, day, zone, u);
    }
  }

  /** What is offered on a date, and whether a list can be shown, depends on the roster through those rows alone. */
  lemma OnlyTheDaysRosterMatters(s: Tables, t: Tables, barber: Id, service: Id, day: int, now: int, leaving: Leaving,
                                 u: int)
    requires t == s.(hours := t.hours) && HasShop(s, barber) && service in s.services
    requires Weekly(s) && Weekly(t) && SameRoster(s, t, barber, day)
    ensures Offered(s, barber, service, day, now, leaving, u) <==> Offered(t, barber, service, day, now, leaving, u)
    ensures Refusal(s, barber, service, day) == Refusal(t, barber, service, day)
  {
    var zone := ZoneOf(s, barber);
    RosterDecidesShifts(s, t, barber, day, zone);
    RosterDecidesShifts(t, s, barber, day, zone);
    forall v ensures OpenAt(s, barber, day, leaving, v) <==> OpenAt(t, barber, day, leaving, v) {
      assert Taken(s, barber, leaving, v) <==> Taken(t, barber, leaving, v);
      assert OnBreak(s, barber, v) <==> OnBreak(t, barber, v);
    }
  }

  // ---- what is offered ----

  /** The booking is one the query counts: all of them, all but one, or none. */
  predicate Counted(leaving: Leaving, id: Id) {
    match leaving
    case Nobody => true
    case One(left) => id != left
    case Everybody => false
  }

  lemma TakenMeans(s: Tables, barber: Id, leaving: Leaving, u: int)
    ensures Taken(s, barber, leaving, u) <==>
            exists a | a in s.appointments ::
              var row := s.appointments[a];
              row.barber == barber && Standing(row) && Counted(leaving, a) && row.start <= u < row.end
  {
    forall a | a in s.appointments
      ensures s.appointments[a].Holds(barber) && leaving.Keeps(a) && s.appointments[a].Time().Covers(u) <==>
              (var row := s.appointments[a];
               row.barber == barber && Standing(row) && Counted(leaving, a) && row.start <= u < row.end)
    {
    }
  }

  /** The instant is on the day, in a shift, in no break of the barber and in no counted booking that holds its time. */
  ghost predicate FreeAt(s: Tables, barber: Id, day: int, leaving: Leaving, u: int)
    requires HasShop(s, barber)
  {
    var zone := s.shops[s.barbers[barber].shop].zone;
    && zone.toInstant(day * DAY) <= u < zone.toInstant((day + 1) * DAY)
    && Working(s, barber, day, zone, u)
    && (forall k | k in s.breaks :: s.breaks[k].barber == barber ==> !(s.breaks[k].start <= u < s.breaks[k].end))
    && (forall a | a in s.appointments ::
          var row := s.appointments[a];
          row.barber == barber && Standing(row) && Counted(leaving, a) ==> !(row.start <= u < row.end))
  }

  lemma OpenMeans(s: Tables, barber: Id, day: int, leaving: Leaving, u: int)
    requires HasShop(s, barber)
    ensures OpenAt(s, barber, day, leaving, u) <==> FreeAt(s, barber, day, leaving, u)
  {
    TakenMeans(s, barber, leaving, u);
    assert OnBreak(s, barber, u) <==>
           exists k | k in s.breaks :: s.breaks[k].barber == barber && s.breaks[k].start <= u < s.breaks[k].end;
  }

  /**
   * A start is offered on a day exactly when no closure of the shop includes the day, it is a multiple of 15
   * minutes after the day's midnight and at least 30 minutes away, and the service's every instant is free.
   */
  lemma OfferedMeans(s: Tables, barber: Id, service: Id, day: int, now: int, leaving: Leaving, t: int)
    requires HasShop(s, barber) && service in s.services
    ensures var shop := s.barbers[barber].shop;
            Offered(s, barber, service, day, now, leaving, t) <==>
            && (forall c | c in s.closures ::
                  s.closures[c].shop == shop ==> !(s.closures[c].first <= day <= s.closures[c].last))
            && (t - s.shops[shop].zone.toInstant(day * DAY)) % (15 * MINUTE) == 0 && now + 30 * MINUTE <= t
            && forall u | t <= u < t + s.services[service].duration :: FreeAt(s, barber, day, leaving, u)
  {
    forall u ensures OpenAt(s, barber, day, leaving, u) <==> FreeAt(s, barber, day, leaving, u) {
      OpenMeans(s, barber, day, leaving, u);
    }
  }

  // ---- whom a request may name ----

  /** Barber and service must be there and active, of one shop, and the service one the barber performs. */
  lemma ResolveExactlyWhen(s: Tables, barber: Id, service: Id)
    ensures var found := barber in s.barbers && s.barbers[barber].active && service in s.services &&
            s.services[service].active;
            && (Resolve(s, barber, service) == NotFound <==> !found)
            && (Resolve(s, barber, service) == Invalid <==>
                (found && !(s.services[service].shop == s.barbers[barber].shop &&
                            service in s.barbers[barber].services)))
            && (Resolve(s, barber, service) == Done <==>
                (found && s.services[service].shop == s.barbers[barber].shop && service in s.barbers[barber].services))
  {
  }

  /** Some shift of the barber for the weekday of the date ends, in real time, no later than it starts. */
  lemma BadShiftMeans(s: Tables, barber: Id, day: int, zone: Zone)
    requires Weekly(s)
    ensures BadShift(s, barber, day, zone) <==>
            exists row | row in s.hours ::
              && row.barber == barber && (day - (row.shift.weekday + 1)) % 7 == 0 && row.shift.start < row.shift.end
              && zone.toInstant(day * DAY + row.shift.end) <= zone.toInstant(day * DAY + row.shift.start)
  {
    forall row | row in s.hours
      ensures Rostered(row, barber, day) && ShiftOn(row, day, zone).Raises? <==>
              (row.barber == barber && (day - (row.shift.weekday + 1)) % 7 == 0 && row.shift.start < row.shift.end &&
               zone.toInstant(day * DAY + row.shift.end) <= zone.toInstant(day * DAY + row.shift.start))
    {
      WeekdayOfDate(day, row.shift.weekday);
    }
  }

  /** A list can be shown exactly when that holds, the shop is active, the day has length and no shift of it raises. */
  lemma RefusalExactlyWhen(s: Tables, barber: Id, service: Id, day: int)
    requires HasShop(s, barber)
    ensures var shop := s.barbers[barber].shop;
            var zone := s.shops[shop].zone;
            var closed := exists c | c in s.closures ::
                            s.closures[c].shop == shop && s.closures[c].first <= day <= s.closures[c].last;
            Refusal(s, barber, service, day) == Done <==>
            (Resolve(s, barber, service) == Done && s.shops[shop].active &&
             zone.toInstant(day * DAY) < zone.toInstant((day + 1) * DAY) &&
             (closed || !BadShift(s, barber, day, zone)))
  {
  }

  // ---- creating and moving ----

  /** Some other booking of the barber that holds its time overlaps the one asked for. */
  predicate InTheWay(s: Tables, barber: Id, but: Leaving, start: int, end: int) {
    exists a | a in s.appointments ::
      var row := s.appointments[a];
      row.barber == barber && Standing(row) && Counted(but, a) && row.start < end && start < row.end
  }

  lemma ClearMeans(s: Tables, barber: Id, leaving: Leaving, time: Span)
    ensures ClearOfAppointments(s, barber, leaving, time) <==> !InTheWay(s, barber, leaving, time.start, time.end)
  {
    forall a | a in s.appointments
      ensures s.appointments[a].Holds(barber) && leaving.Keeps(a) && s.appointments[a].Time().Overlaps(time) <==>
              (var row := s.appointments[a];
               row.barber == barber && Standing(row) && Counted(leaving, a) && row.start < time.end &&
                   time.start < row.end)
    {
    }
  }

  /**
   * The inserted row, column by column: at a shop that vets its bookings it is PENDING, elsewhere CONFIRMED; it
   * lasts as long as the service and costs what the service costs now.
   */
  lemma CreatedRow(s: Tables, id: Id, customer: Id, barber: Id, service: Id, start: int, now: int)
    requires Create(s, id, customer, barber, service, start, now).outcome == Done
    ensures var t := Create(s, id, customer, barber, service, start, now).tables;
            && barber in s.barbers && s.barbers[barber].shop in s.shops && service in s.services
            && t == s.(appointments := t.appointments) && id in t.appointments
            && t.appointments.Keys == s.appointments.Keys + {id}
            && (forall o | o in s.appointments && o != id :: t.appointments[o] == s.appointments[o])
            && var row := t.appointments[id];
               && row.customer == customer && row.barber == barber && row.service == service
               && row.start == start && row.end == start + s.services[service].duration
               && row.price == s.services[service].price && row.created == now
               && row.status == if s.shops[s.barbers[barber].shop].requiresConfirmation then Pending else Confirmed
  {
  }

  /** A create, in every case but that of a list that cannot be shown. */
  lemma CreateExactlyWhen(s: Tables, id: Id, customer: Id, barber: Id, service: Id, start: int, now: int)
    requires Invariant(s) && id !in s.appointments && Resolve(s, barber, service) == Done
    requires Refusal(s, barber, service, ZoneOf(s, barber).LocalDay(start)) == Done
    ensures var r := Create(s, id, customer, barber, service, start, now);
            var free := Offered(s, barber, service, ZoneOf(s, barber).LocalDay(start), now, Everybody, start);
            var taken := exists a | a in s.appointments ::
                           var row := s.appointments[a];
                           && row.barber == barber && row.status in {Pending, Confirmed}
                           && row.start < start + s.services[service].duration && start < row.end;
            && (r.outcome == Done <==> free && !taken)
            && (r.outcome == SlotTaken <==> free && taken)
            && (r.outcome == OutsideWorkingHours <==> !free)
            && (r.outcome != Done ==> r.tables == s)
  {
    ClearMeans(s, barber, Nobody, Asked(s, service, start));
    CreateAcceptsExactlyTheOffered(s, id, customer, barber, service, start, now);
    OutcomeIsExact(s, barber, service, start, now, Nobody);
  }

  /**
   * A booking whose guards let it be moved: the caller's own or staff's, still standing, and in time unless
   * staff ask.
   */
  predicate MayChange(s: Tables, id: Id, actor: Actor, now: int) {
    && id in s.appointments && actor in {Staff, Customer} && s.appointments[id].status in {Pending, Confirmed}
    && (actor == Staff || now < s.appointments[id].start - 120 * MINUTE)
  }

  /**
   * A reschedule that gets past its guards: its own row never stands in its way, and every other row of the barber
   * that holds its time does.
   */
  lemma RescheduleExactlyWhen(s: Tables, id: Id, start: int, actor: Actor, now: int)
    requires Invariant(s) && MayChange(s, id, actor, now)
    requires var a := s.appointments[id];
             && Resolve(s, a.barber, a.service) == Done
             && Refusal(s, a.barber, a.service, ZoneOf(s, a.barber).LocalDay(start)) == Done
    ensures var r, was := Reschedule(s, id, start, actor, now), s.appointments[id];
            var end := start + s.services[was.service].duration;
            var free := Offered(s, was.barber, was.service, ZoneOf(s, was.barber).LocalDay(start), now, Everybody,
                                start);
            var taken := exists a | a in s.appointments ::
                           var row := s.appointments[a];
                           && a != id && row.barber == was.barber && row.status in {Pending, Confirmed}
                           && row.start < end && start < row.end;
            && (r.outcome == Done <==> free && !taken)
            && (r.outcome == SlotTaken <==> free && taken)
            && (r.outcome == OutsideWorkingHours <==> !free)
            && r.tables == if r.outcome != Done then s
                           else s.(appointments := s.appointments[id := was.(start := start, end := end)])
  {
    var a := s.appointments[id];
    ClearMeans(s, a.barber, One(id), Asked(s, a.service, start));
    OutcomeIsExact(s, a.barber, a.service, start, now, One(id));
    if OfferOutcome(s, a.barber, a.service, start, now, One(id)) == Done {
      RescheduleNeverViolates(s, id, start, now);
    }
  }

  /** The guards a cancel and a reschedule share: who is refused, and with what. */
  lemma ChangeGuardsExactlyWhen(s: Tables, id: Id, start: int, actor: Actor, now: int)
    requires Invariant(s)
    ensures var cancel, move := Cancel(s, id, actor, now), Reschedule(s, id, start, actor, now);
            && (id !in s.appointments ==> cancel == move == Reply(s, NotFound))
            && (id in s.appointments ==>
                  var row := s.appointments[id];
                  && (actor == Stranger ==> cancel == move == Reply(s, Forbidden))
                  && (actor != Stranger && row.status !in {Pending, Confirmed} ==>
                        cancel == move == Reply(s, InvalidTransition))
                  && (actor == Customer && row.status in {Pending, Confirmed} && row.start - 120 * MINUTE <= now ==>
                        cancel == move == Reply(s, CutoffPassed)))
            && (cancel.outcome == Done <==> MayChange(s, id, actor, now))
            && (cancel.outcome == Done ==>
                  cancel.tables == s.(appointments := s.appointments[id := s.appointments[id].(status := Cancelled)]))
            && (move.outcome == Done ==> MayChange(s, id, actor, now))
  {
    if MayChange(s, id, actor, now) {
      StatusChangeKeeps(s, id, Cancelled);
    }
  }

  /** Only staff confirm, and only a PENDING row. */
  lemma ConfirmExactlyWhen(s: Tables, id: Id, actor: Actor)
    requires Invariant(s)
    ensures var r := Confirm(s, id, actor);
            && (r.outcome == NotFound <==> id !in s.appointments)
            && (r.outcome == Forbidden <==> id in s.appointments && actor in {Customer, Stranger})
            && (r.outcome == InvalidTransition <==>
                id in s.appointments && actor == Staff && s.appointments[id].status != Pending)
            && (r.outcome == Done <==> id in s.appointments && actor == Staff && s.appointments[id].status == Pending)
            && r.tables == if r.outcome != Done then s
                           else s.(appointments := s.appointments[id := s.appointments[id].(status := Confirmed)])
  {
    if id in s.appointments && s.appointments[id].status == Pending {
      StatusChangeKeeps(s, id, Confirmed);
    }
  }

  /** Only staff close out, a PENDING or CONFIRMED row, from its start on. */
  lemma CloseOutExactlyWhen(s: Tables, id: Id, target: Status, actor: Actor, now: int)
    requires Invariant(s) && target in {Completed, NoShow}
    ensures var r := CloseOut(s, id, target, actor, now);
            && (r.outcome == NotFound <==> id !in s.appointments)
            && (r.outcome == Forbidden <==> id in s.appointments && actor in {Customer, Stranger})
            && (r.outcome == Done <==>
                id in s.appointments && actor == Staff && s.appointments[id].status in {Pending, Confirmed} &&
                s.appointments[id].start <= now)
            && (r.outcome !in {NotFound, Forbidden, Done} ==> r.outcome == InvalidTransition)
            && r.tables == if r.outcome != Done then s
                           else s.(appointments := s.appointments[id := s.appointments[id].(status := target)])
  {
    if id in s.appointments && s.appointments[id].status in {Pending, Confirmed} {
      StatusChangeKeeps(s, id, target);
    }
  }

  /** Writing a row that a create or a reschedule has made: the two checks first, and then the exclusion constraint. */
  lemma CommitExactlyWhen(s: Tables, id: Id, a: Appointment)
    ensures var r := CommitOrSlotTaken(s, id, a);
            var checks := a.start < a.end && 0 <= a.price;
            var clash := a.status in {Pending, Confirmed} && exists o | o in s.appointments ::
                           var row := s.appointments[o];
                           && o != id && row.barber == a.barber && row.status in {Pending, Confirmed}
                           && row.start < a.end && a.start < row.end;
            && (r.outcome == ServerError <==> !checks) && (r.outcome == SlotTaken <==> checks && clash)
            && (r.outcome == Done <==> checks && !clash)
            && r.tables == (if r.outcome == Done then s.(appointments := s.appointments[id := a]) else s)
            && Commit(s, id, a) == Reply(r.tables, if r.outcome == Done then Done else ServerError)
  {
    forall o | o in s.appointments
      ensures Clashing(a, s.appointments[o]) <==>
              (var row := s.appointments[o];
               a.status in {Pending, Confirmed} && row.barber == a.barber && row.status in {Pending, Confirmed} &&
               row.start < a.end && a.start < row.end)
    {
    }
  }

  /** Expiry adds and drops no row, and changes exactly the PENDING ones made more than thirty minutes ago. */
  lemma ExpiredRows(s: Tables, now: int)
    ensures var t := Expire(s, now);
            && t == s.(appointments := t.appointments) && t.appointments.Keys == s.appointments.Keys
            && forall a | a in s.appointments ::
                 var row := s.appointments[a];
                 t.appointments[a] == if row.status == Pending && row.created + 30 * MINUTE < now
                                      then row.(status := Cancelled) else row
  {
  }

  // ---- the schedule ----

  /** A break is refused exactly for a live booking of that barber that overlaps it, once its other checks pass. */
  lemma BreakExactlyWhen(s: Tables, id: Id, k: Break, staff: bool)
    requires id !in s.breaks
    ensures var r := CreateBreak(s, id, k, staff);
            var booked := exists a | a in s.appointments ::
                            var row := s.appointments[a];
                            && row.barber == k.barber && row.status in {Pending, Confirmed}
                            && row.start < k.end && k.start < row.end;
            && (r.outcome == Invalid <==> k.end <= k.start)
            && (r.outcome == NotFound <==> k.start < k.end && k.barber !in s.barbers)
            && (r.outcome == Forbidden <==> k.start < k.end && k.barber in s.barbers && !staff)
            && (r.outcome == Conflict <==> k.start < k.end && k.barber in s.barbers && staff && booked)
            && (r.outcome == Done <==> k.start < k.end && k.barber in s.barbers && staff && !booked)
            && r.tables == if r.outcome == Done then s.(breaks := s.breaks[id := k]) else s
  {
    assert BookedDuring(s, k.barber, k.Time()) <==>
           exists a | a in s.appointments ::
             var row := s.appointments[a];
             row.barber == k.barber && row.status in {Pending, Confirmed} && row.start < k.end && k.start < row.end by {
      forall a | a in s.appointments
        ensures s.appointments[a].Holds(k.barber) && s.appointments[a].Time().Overlaps(k.Time()) <==>
                (var row := s.appointments[a];
                 row.barber == k.barber && row.status in {Pending, Confirmed} && row.start < k.end && k.start < row.end)
      {
      }
    }
  }

  /**
   * A closure is refused exactly for a live booking of a barber of the shop between the first midnight and the
   * midnight after the last day, or because it is there already, once its other checks pass.
   */
  lemma ClosureExactlyWhen(s: Tables, id: Id, c: Closure, staff: bool)
    requires id !in s.closures
    ensures var r := CreateClosure(s, id, c, staff);
            var found := c.shop in s.shops && (s.shops[c.shop].active || staff);
            var booked := c.shop in s.shops && exists a | a in s.appointments ::
                            var row := s.appointments[a];
                            && row.status in {Pending, Confirmed}
                            && row.barber in s.barbers && s.barbers[row.barber].shop == c.shop
                            && row.start < s.shops[c.shop].zone.toInstant((c.last + 1) * DAY)
                            && s.shops[c.shop].zone.toInstant(c.first * DAY) < row.end;
            var known := exists o | o in s.closures :: s.closures[o] == c;
            && (r.outcome == Invalid <==> c.last < c.first)
            && (r.outcome == NotFound <==> c.first <= c.last && !found)
            && (r.outcome == Forbidden <==> c.first <= c.last && found && !staff)
            && (r.outcome == Conflict <==> c.first <= c.last && found && staff && (booked || known))
            && (r.outcome == Done <==> c.first <= c.last && found && staff && !booked && !known)
            && r.tables == if r.outcome == Done then s.(closures := s.closures[id := c]) else s
  {
    if c.shop in s.shops {
      ShopBookedMeans(s, c.shop, ClosedSpan(s.shops[c.shop].zone, c));
    }
  }

  /** Removing a break or a closure: staff only, and only what is there and can be seen. */
  lemma RemovalExactlyWhen(s: Tables, id: Id, staff: bool)
    requires WellFormed(s)
    ensures var r := DeleteBreak(s, id, staff);
            && (r.outcome == NotFound <==> id !in s.breaks || s.breaks[id].barber !in s.barbers)
            && (r.outcome == Forbidden <==> id in s.breaks && s.breaks[id].barber in s.barbers && !staff)
            && (r.outcome == Done <==> id in s.breaks && s.breaks[id].barber in s.barbers && staff)
            && r.tables == if r.outcome == Done then s.(breaks := s.breaks - {id}) else s
    ensures var r := DeleteClosure(s, id, staff);
            var found := id in s.closures && s.closures[id].shop in s.shops &&
                         (s.shops[s.closures[id].shop].active || staff);
            && (r.outcome == NotFound <==> !found) && (r.outcome == Forbidden <==> found && !staff)
            && (r.outcome == Done <==> found && staff)
            && r.tables == if r.outcome == Done then s.(closures := s.closures - {id}) else s
  {
  }

  lemma ShopBookedMeans(s: Tables, shop: Id, time: Span)
    ensures ShopBookedDuring(s, shop, time) <==>
            exists a | a in s.appointments ::
              var row := s.appointments[a];
              && row.status in {Pending, Confirmed} && row.barber in s.barbers && s.barbers[row.barber].shop == shop
              && row.start < time.end && time.start < row.end
  {
  }

  /** New working hours replace that barber's rows by the week's, and every other barber keeps exactly its rows. */
  lemma ReplacedRoster(s: Tables, barber: Id, week: seq<Shift>, staff: bool)
    ensures var r := ReplaceHours(s, barber, week, staff);
            && (r.outcome == Done <==> ValidWeek(week) && barber in s.barbers && staff)
            && r.tables == s.(hours := r.tables.hours)
            && (r.outcome != Done ==> r.tables == s)
            && (r.outcome == Done ==>
                  forall row: WorkingHours ::
                    multiset(r.tables.hours)[row] ==
                    if row.barber == barber then multiset(week)[row.shift] else multiset(s.hours)[row])
  {
    if ValidWeek(week) && barber in s.barbers && staff {
      forall row: WorkingHours
        ensures multiset(HoursOfOthers(s.hours, barber) + HoursFor(barber, week))[row] ==
                if row.barber == barber then multiset(week)[row.shift] else multiset(s.hours)[row]
      {
        OthersKeepTheirs(s.hours, barber, row);
        WeekIsTheirs(barber, week, row);
      }
    }
  }

  lemma {:induction false} OthersKeepTheirs(hours: seq<WorkingHours>, barber: Id, row: WorkingHours)
    ensures multiset(HoursOfOthers(hours, barber))[row] == if row.barber == barber then 0 else multiset(hours)[row]
  {
    if hours != [] {
      OthersKeepTheirs(hours[1..], barber, row);
      assert hours == [hours[0]] + hours[1..];
    }
  }

  lemma {:induction false} WeekIsTheirs(barber: Id, week: seq<Shift>, row: WorkingHours)
    ensures multiset(HoursFor(barber, week))[row] == if row.barber == barber then multiset(week)[row.shift] else 0
  {
    if week != [] {
      WeekIsTheirs(barber, week[1..], row);
      assert week == [week[0]] + week[1..];
      assert HoursFor(barber, week) == [WorkingHours(barber, week[0])] + HoursFor(barber, week[1..]);
    }
  }

  /**
   * A week is valid with at most fifty shifts, each on one of seven days and ending after it starts, none
   * overlapping.
   */
  lemma ValidWeekExactlyWhen(week: seq<Shift>)
    ensures ValidWeek(week) <==>
            && |week| <= 50
            && (forall i | 0 <= i < |week| :: 0 <= week[i].weekday <= 6 && week[i].start < week[i].end)
            && forall i, j | 0 <= i < j < |week| ::
                 week[i].weekday == week[j].weekday ==> week[i].end <= week[j].start || week[j].end <= week[i].start
  {
    if forall i | 0 <= i < |week| :: Proper(week[i]) {
      forall i, j | 0 <= i < j < |week|
        ensures Clash(week[i], week[j]) <==>
                week[i].weekday == week[j].weekday && !(week[i].end <= week[j].start || week[j].end <= week[i].start)
      {
        assert Proper(week[i]) && Proper(week[j]);
      }
    }
  }
}
