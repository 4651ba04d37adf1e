/** What holds of the booking tables when requests run one at a time. */
module BookingLaws {
  import opened Availability
  import opened Zones
  import opened Booking

  /** A booking of `service` starting at `t`. */
  function Asked(s: Tables, service: Id, t: int): Span
    requires service in s.services
  {
    Span(t, t + s.services[service].duration)
  }

  ghost predicate ClearOfAppointments(s: Tables, barber: Id, leaving: Leaving, time: Span) {
    forall a | a in s.appointments ::
      s.appointments[a].Holds(barber) && leaving.Keeps(a) ==> !s.appointments[a].Time().Overlaps(time)
  }

  ghost predicate ClearOfBreaks(breaks: map<Id, Break>, barber: Id, time: Span) {
    forall k | k in breaks :: breaks[k].barber == barber ==> !breaks[k].Time().Overlaps(time)
  }

  ghost predicate ClearOfClosures(s: Tables, shop: Id, time: Span)
    requires shop in s.shops
  {
    forall c | c in s.closures :: s.closures[c].shop == shop ==>
          !ClosedSpan(s.shops[shop].zone, s.closures[c]).Overlaps(time)
  }

  // ---- what an offer guarantees ----

  lemma TakenMeansOverlap(s: Tables, barber: Id, leaving: Leaving, time: Interval)
    requires WellFormed(s)
    ensures ClearOfAppointments(s, barber, leaving, time) <==>
            forall u | time.Covers(u) :: !Taken(s, barber, leaving, u)
  {
    if forall u | time.Covers(u) :: !Taken(s, barber, leaving, u) {
      forall a | a in s.appointments && s.appointments[a].Holds(barber) && leaving.Keeps(a)
        ensures !s.appointments[a].Time().Overlaps(time)
      {
        OverlapIsSharedInstant(s.appointments[a].Time(), time);
      }
    }
    if ClearOfAppointments(s, barber, leaving, time) {
      forall u | time.Covers(u) ensures !Taken(s, barber, leaving, u) {
        forall a | a in s.appointments && s.appointments[a].Holds(barber) && leaving.Keeps(a)
          ensures !s.appointments[a].Time().Covers(u)
        {
          OverlapIsSharedInstant(s.appointments[a].Time(), time);
        }
      }
    }
  }

  /**
   * Offers with and without the appointments differ by exactly the appointments in the way, so
   * what is offered can only shrink as appointments are added.
   */
  lemma OfferSplits(s: Tables, barber: Id, service: Id, day: int, now: int, leaving: Leaving, t: int)
    requires WellFormed(s) && HasShop(s, barber) && service in s.services
    ensures Offered(s, barber, service, day, now, leaving, t) <==>
            Offered(s, barber, service, day, now, Everybody, t) &&
            ClearOfAppointments(s, barber, leaving, Asked(s, service, t))
  {
    var time := Asked(s, service, t);
    TakenMeansOverlap(s, barber, leaving, time);
    assert forall u :: time.Covers(u) <==> t <= u < t + s.services[service].duration;
    assert forall u :: !Taken(s, barber, Everybody, u);
    if Offered(s, barber, service, day, now, leaving, t) {
      forall u | time.Covers(u) ensures !Taken(s, barber, leaving, u) {
        assert OpenAt(s, barber, day, leaving, u);
      }
      forall u | t <= u < t + s.services[service].duration ensures OpenAt(s, barber, day, Everybody, u) {
        assert OpenAt(s, barber, day, leaving, u);
      }
    }
    if Offered(s, barber, service, day, now, Everybody, t) && ClearOfAppointments(s, barber, leaving, time) {
      forall u | t <= u < t + s.services[service].duration ensures OpenAt(s, barber, day, leaving, u) {
        assert OpenAt(s, barber, day, Everybody, u) && time.Covers(u);
      }
    }
  }

  /** An offered start keeps clear of every break of the barber and every closure of the shop. */
  lemma OfferIsClear(s: Tables, barber: Id, service: Id, day: int, now: int, leaving: Leaving, t: int)
    requires WellFormed(s) && HasShop(s, barber) && service in s.services
    requires Offered(s, barber, service, day, now, leaving, t)
    ensures ZoneOf(s, barber).LocalDay(t) == day
    ensures ClearOfAppointments(s, barber, leaving, Asked(s, service, t))
    ensures ClearOfBreaks(s.breaks, barber, Asked(s, service, t))
    ensures ClearOfClosures(s, s.barbers[barber].shop, Asked(s, service, t))
  {
    var time, zone := Asked(s, service, t), ZoneOf(s, barber);
    OfferSplits(s, barber, service, day, now, leaving, t);
    assert OpenAt(s, barber, day, leaving, t) && OpenAt(s, barber, day, leaving, time.end - 1);
    DayOfInstant(zone, t, day);
    DayOfInstant(zone, time.end - 1, day);
    forall k | k in s.breaks && s.breaks[k].barber == barber ensures !s.breaks[k].Time().Overlaps(time) {
      var rest := s.breaks[k].Time();
      OverlapIsSharedInstant(rest, time);
      forall u | time.Covers(u) ensures !rest.Covers(u) {
        assert OpenAt(s, barber, day, leaving, u);
      }
    }
    forall c | c in s.closures && s.closures[c].shop == s.barbers[barber].shop
      ensures !ClosedSpan(zone, s.closures[c]).Overlaps(time)
    {
      var closure := s.closures[c];
      assert !(closure.first <= day <= closure.last);
      assert zone.DayStart(closure.first) <= time.end - 1 <==> closure.first <= zone.LocalDay(time.end - 1);
      assert zone.DayStart(closure.last + 1) <= t <==> closure.last + 1 <= zone.LocalDay(t);
    }
  }

  /** A slot shown for some day is on that day, so asking for it is judged by the same list. */
  lemma OfferedOnItsOwnDay(s: Tables, barber: Id, service: Id, day: int, now: int, t: int)
    requires WellFormed(s) && HasShop(s, barber) && service in s.services
    requires Refusal(s, barber, service, day) == Done && Offered(s, barber, service, day, now, Nobody, t)
    ensures OfferOutcome(s, barber, service, t, now, Nobody) == Done
  {
    OfferIsClear(s, barber, service, day, now, Nobody, t);
  }

  // ---- what is offered is what is accepted ----

  /** The check's verdict, in terms of the schedule and of the appointments in the way. */
  lemma OutcomeIsExact(s: Tables, barber: Id, service: Id, t: int, now: int, leaving: Leaving)
    requires WellFormed(s) && HasShop(s, barber) && service in s.services
    requires Refusal(s, barber, service, ZoneOf(s, barber).LocalDay(t)) == Done
    ensures var day := ZoneOf(s, barber).LocalDay(t);
            var outcome := OfferOutcome(s, barber, service, t, now, leaving);
            var ifEmpty := Offered(s, barber, service, day, now, Everybody, t);
            var clear := ClearOfAppointments(s, barber, leaving, Asked(s, service, t));
            && (outcome == Done <==> Offered(s, barber, service, day, now, leaving, t))
            && (outcome == Done <==> ifEmpty && clear)
            && (outcome == SlotTaken <==> ifEmpty && !clear)
            && (outcome == OutsideWorkingHours <==> !ifEmpty)
  {
    OfferSplits(s, barber, service, ZoneOf(s, barber).LocalDay(t), now, leaving, t);
  }

  /** For the create request as a whole: it books exactly the starts the endpoint shows on their local day. */
  lemma CreateAcceptsExactlyTheOffered(s: Tables, id: Id, customer: Id, barber: Id, service: Id, t: int, now: int)
    requires Invariant(s) && id !in s.appointments
    requires HasShop(s, barber) && service in s.services
    requires Refusal(s, barber, service, ZoneOf(s, barber).LocalDay(t)) == Done
    ensures var r := Create(s, id, customer, barber, service, t, now);
            && (r.outcome == Done <==> Offered(s, barber, service, ZoneOf(s, barber).LocalDay(t), now, Nobody, t))
            && (r.outcome == Done ==> r.tables == Put(s, id, NewRow(s, customer, barber, service, t, now)))
            && (r.outcome != Done ==> r.tables == s && (r.outcome == SlotTaken || r.outcome == OutsideWorkingHours))
  {
    if OfferOutcome(s, barber, service, t, now, Nobody) == Done {
      CreateNeverViolates(s, id, customer, barber, service, t, now);
    }
  }

  // ---- the check alone implies the constraint ----

  /** Whenever a create passes the slot check, its row meets every constraint: 23P01 is never raised. */
  lemma CreateNeverViolates(s: Tables, id: Id, customer: Id, barber: Id, service: Id, t: int, now: int)
    requires WellFormed(s)
    requires HasShop(s, barber) && service in s.services
    requires OfferOutcome(s, barber, service, t, now, Nobody) == Done
    ensures RowChecks(NewRow(s, customer, barber, service, t, now))
    ensures Exclusive(s, id, NewRow(s, customer, barber, service, t, now))
  {
    OfferIsClear(s, barber, service, ZoneOf(s, barber).LocalDay(t), now, Nobody, t);
  }

  /** The same for a reschedule, whose own row is left out of the check and of the constraint alike. */
  lemma RescheduleNeverViolates(s: Tables, id: Id, t: int, now: int)
    requires WellFormed(s) && id in s.appointments && 0 <= s.appointments[id].price
    requires var a := s.appointments[id];
             a.service in s.services && OfferOutcome(s, a.barber, a.service, t, now, One(id)) == Done
    ensures RowChecks(Moved(s, s.appointments[id], t))
    ensures Exclusive(s, id, Moved(s, s.appointments[id], t))
  {
    var a := s.appointments[id];
    OfferIsClear(s, a.barber, a.service, ZoneOf(s, a.barber).LocalDay(t), now, One(id), t);
  }

  // ---- the invariant ----

  /** No live appointment overlaps a break of its barber. */
  ghost predicate BreaksClear(rows: map<Id, Appointment>, breaks: map<Id, Break>) {
    forall a | a in rows :: rows[a].status.Live() ==> ClearOfBreaks(breaks, rows[a].barber, rows[a].Time())
  }

  /** No live appointment overlaps the instant range of a closure of its barber's shop. */
  ghost predicate ClosuresClear(s: Tables)
    requires WellFormed(s)
  {
    forall a | a in s.appointments ::
      s.appointments[a].status.Live() ==>
        ClearOfClosures(s, s.barbers[s.appointments[a].barber].shop, s.appointments[a].Time())
  }

  ghost predicate PricesValid(rows: map<Id, Appointment>) {
    forall a | a in rows :: 0 <= rows[a].price
  }

  ghost predicate Invariant(s: Tables) {
    WellFormed(s) && PricesValid(s.appointments) && NoDoubleBooking(s.appointments) &&
    BreaksClear(s.appointments, s.breaks) && ClosuresClear(s)
  }

  /** Writing a row that is live only where the schedule and the other rows leave room. */
  lemma PutKeeps(s: Tables, id: Id, a: Appointment)
    requires Invariant(s) && RowChecks(a) && Exclusive(s, id, a) && a.barber in s.barbers
    requires a.status.Live() ==>
               ClearOfBreaks(s.breaks, a.barber, a.Time()) && ClearOfClosures(s, s.barbers[a.barber].shop, a.Time())
    ensures Invariant(Put(s, id, a))
  {
    var t := Put(s, id, a);
    assert WellFormed(t);
    assert NoDoubleBooking(t.appointments);
    forall o | o in t.appointments && t.appointments[o].status.Live()
      ensures ClearOfClosures(t, t.barbers[t.appointments[o].barber].shop, t.appointments[o].Time())
    {
      var row := t.appointments[o];
      assert ClearOfClosures(s, s.barbers[row.barber].shop, row.Time());
    }
  }

  lemma CreateKeeps(s: Tables, id: Id, customer: Id, barber: Id, service: Id, t: int, now: int)
    requires Invariant(s) && id !in s.appointments
    ensures Invariant(Create(s, id, customer, barber, service, t, now).tables)
  {
    if Resolve(s, barber, service) == Done && OfferOutcome(s, barber, service, t, now, Nobody) == Done {
      CreateNeverViolates(s, id, customer, barber, service, t, now);
      OfferIsClear(s, barber, service, ZoneOf(s, barber).LocalDay(t), now, Nobody, t);
      PutKeeps(s, id, NewRow(s, customer, barber, service, t, now));
    }
  }

  lemma RescheduleKeeps(s: Tables, id: Id, t: int, actor: Actor, now: int)
    requires Invariant(s)
    ensures Invariant(Reschedule(s, id, t, actor, now).tables)
  {
    if Load(s, id, actor) == Done {
      var a := s.appointments[id];
      if Resolve(s, a.barber, a.service) == Done && OfferOutcome(s, a.barber, a.service, t, now, One(id)) == Done {
        RescheduleNeverViolates(s, id, t, now);
        OfferIsClear(s, a.barber, a.service, ZoneOf(s, a.barber).LocalDay(t), now, One(id), t);
        PutKeeps(s, id, Moved(s, a, t));
      }
    }
  }

  /** A change of status that makes no row live keeps the invariant and is never refused by a constraint. */
  lemma StatusChangeKeeps(s: Tables, id: Id, status: Status)
    requires Invariant(s) && id in s.appointments
    requires status.Live() ==> s.appointments[id].status.Live()
    ensures Commit(s, id, s.appointments[id].(status := status)).outcome == Done
    ensures Invariant(Commit(s, id, s.appointments[id].(status := status)).tables)
  {
    var a := s.appointments[id].(status := status);
    forall o | o in s.appointments && o != id ensures !Clashing(a, s.appointments[o]) {
      assert !Clashing(s.appointments[id], s.appointments[o]);
    }
    PutKeeps(s, id, a);
  }

  lemma ExpireKeeps(s: Tables, now: int)
    requires Invariant(s)
    ensures Invariant(Expire(s, now))
  {
  }

  lemma AddBreakKeeps(s: Tables, id: Id, k: Break)
    requires Invariant(s) && k.start < k.end && !BookedDuring(s, k.barber, k.Time())
    ensures Invariant(s.(breaks := s.breaks[id := k]))
  {
  }

  lemma AddClosureKeeps(s: Tables, id: Id, c: Closure)
    requires Invariant(s) && c.shop in s.shops
    requires !ShopBookedDuring(s, c.shop, ClosedSpan(s.shops[c.shop].zone, c))
    ensures Invariant(s.(closures := s.closures[id := c]))
  {
  }

  /** Taking rows out of the schedule, changing the hours, or a legal change of the catalog. */
  lemma LooserScheduleKeeps(s: Tables, t: Tables)
    requires Invariant(s) && WellFormed(t) && t.appointments == s.appointments
    requires forall b | b in s.barbers :: b in t.barbers && t.barbers[b].shop == s.barbers[b].shop
    requires forall h | h in s.shops :: h in t.shops && t.shops[h].zone == s.shops[h].zone
    requires forall k | k in t.breaks :: k in s.breaks && t.breaks[k] == s.breaks[k]
    requires forall c | c in t.closures :: c in s.closures && t.closures[c] == s.closures[c]
    ensures Invariant(t)
  {
  }

  lemma ScheduleRequestKeeps(s: Tables, r: Request)
    requires Invariant(s) && Legal(s, r)
    requires r.CreateBreakRequest? || r.DeleteBreakRequest? || r.CreateClosureRequest? || r.DeleteClosureRequest?
    ensures Invariant(Handle(s, r).tables)
  {
    if Handle(s, r).outcome == Done {
      match r
      case CreateBreakRequest(id, k, _) => AddBreakKeeps(s, id, k);
      case DeleteBreakRequest(id, _) => LooserScheduleKeeps(s, s.(breaks := s.breaks - {id}));
      case CreateClosureRequest(id, c, _) => AddClosureKeeps(s, id, c);
      case DeleteClosureRequest(id, _) => LooserScheduleKeeps(s, s.(closures := s.closures - {id}));
    }
  }

  lemma HoursOrCatalogKeeps(s: Tables, r: Request)
    requires Invariant(s) && Legal(s, r)
    requires r.ReplaceHoursRequest? || r.CatalogChange?
    ensures Invariant(Handle(s, r).tables)
  {
  }

  lemma StatusRequestKeeps(s: Tables, r: Request)
    requires Invariant(s)
    requires r.CancelRequest? || r.ConfirmRequest? || r.CloseOutRequest?
    ensures Invariant(Handle(s, r).tables)
    ensures Handle(s, r).outcome != ServerError
  {
    if Load(s, r.id, r.actor) == Done {
      if r.CancelRequest? {
        StatusChangeKeeps(s, r.id, Cancelled);
      } else if r.CloseOutRequest? {
        StatusChangeKeeps(s, r.id, if r.noShow then NoShow else Completed);
      } else if s.appointments[r.id].status.Pending? {
        StatusChangeKeeps(s, r.id, Confirmed);
      }
    }
  }

  /** Every request keeps the invariant. */
  lemma HandleKeeps(s: Tables, r: Request)
    requires Invariant(s) && Legal(s, r)
    ensures Invariant(Handle(s, r).tables)
  {
    match r
    case CreateRequest(id, customer, barber, service, start, now) =>
      CreateKeeps(s, id, customer, barber, service, start, now);
    case RescheduleRequest(id, start, actor, now) => RescheduleKeeps(s, id, start, actor, now);
    case ExpireTask(now) => ExpireKeeps(s, now);
    case CancelRequest(_, _, _) => StatusRequestKeeps(s, r);
    case ConfirmRequest(_, _) => StatusRequestKeeps(s, r);
    case CloseOutRequest(_, _, _, _) => StatusRequestKeeps(s, r);
    case ReplaceHoursRequest(_, _, _) => HoursOrCatalogKeeps(s, r);
    case CatalogChange(_, _, _) => HoursOrCatalogKeeps(s, r);
    case _ => ScheduleRequestKeeps(s, r);
  }

  /**
   * Over every serial run: no barber is double-booked, and no live appointment overlaps a break of
   * its barber or a closure of its shop.
   */
  lemma {:induction false} RunKeeps(s: Tables, run: seq<Request>)
    requires Invariant(s) && LegalRun(s, run)
    ensures Invariant(After(s, run))
    decreases |run|
  {
    if run != [] {
      var before := run[..|run| - 1];
      LastStep(s, run);
      RunKeeps(s, before);
      HandleKeeps(After(s, before), run[|run| - 1]);
    }
  }

  /** In a serial run no commit is ever refused: the exclusion branch of create and reschedule is dead code. */
  lemma NoCommitFails(s: Tables, run: seq<Request>, r: Request)
    requires Invariant(s) && LegalRun(s, run) && Legal(After(s, run), r)
    ensures var t := After(s, run);
            match r
            case CreateRequest(id, customer, barber, service, start, now) =>
              Create(t, id, customer, barber, service, start, now).outcome ==
              (if Resolve(t, barber, service) != Done then Resolve(t, barber, service)
               else OfferOutcome(t, barber, service, start, now, Nobody))
            case RescheduleRequest(id, start, actor, now) =>
              Load(t, id, actor) == Done && ChangeGuard(t.appointments[id], actor, now) == Done &&
              Resolve(t, t.appointments[id].barber, t.appointments[id].service) == Done ==>
                Reschedule(t, id, start, actor, now).outcome ==
                OfferOutcome(t, t.appointments[id].barber, t.appointments[id].service, start, now, One(id))
            case CancelRequest(_, _, _) => Handle(t, r).outcome != ServerError
            case ConfirmRequest(_, _) => Handle(t, r).outcome != ServerError
            case CloseOutRequest(_, _, _, _) => Handle(t, r).outcome != ServerError
            case _ => true
  {
    RunKeeps(s, run);
    var t := After(s, run);
    if r.CreateRequest? {
      if Resolve(t, r.barber, r.service) == Done &&
         OfferOutcome(t, r.barber, r.service, r.start, r.now, Nobody) == Done {
        CreateNeverViolates(t, r.id, r.customer, r.barber, r.service, r.start, r.now);
      }
    } else if r.RescheduleRequest? {
      if Load(t, r.id, r.actor) == Done {
        var a := t.appointments[r.id];
        if Resolve(t, a.barber, a.service) == Done &&
           OfferOutcome(t, a.barber, a.service, r.start, r.now, One(r.id)) == Done {
          RescheduleNeverViolates(t, r.id, r.start, r.now);
        }
      }
    } else if r.CancelRequest? || r.ConfirmRequest? || r.CloseOutRequest? {
      StatusRequestKeeps(t, r);
    }
  }
}
