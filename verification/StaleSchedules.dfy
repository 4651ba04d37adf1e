/**
 * Breaks and closures when requests interleave.  A booking's commit is checked against the other bookings but
 * not against the schedule, and a break or a closure is recorded without another look at the bookings.
 */
module StaleSchedules {
  import opened Availability
  import opened Zones
  import opened Booking
  import opened BookingLaws
  import opened Interleaving
  import opened Staleness

  // ---- one commit ----

  /** No break of the barber and no closure of the shop, as they are now, overlaps the time. */
  ghost predicate TimeClear(db: Tables, barber: Id, time: Span) {
    && ClearOfBreaks(db.breaks, barber, time)
    && (HasShop(db, barber) ==> ClearOfClosures(db, db.barbers[barber].shop, time))
  }

  /** The check a commit leaves out, on a row it leaves behind. */
  ghost predicate RowClear(db: Tables, a: Appointment) {
    a.status.Live() ==> TimeClear(db, a.barber, a.Time())
  }

  /** A successful commit keeps breaks clear exactly when each live row it leaves behind is clear of them. */
  lemma CommitKeepsBreaksExactlyWhen(db: Tables, seen: map<Id, Appointment>, rows: map<Id, Appointment>,
                                     slotTaken: bool)
    requires BreaksClear(db.appointments, db.breaks) && CommitRows(db, seen, rows, slotTaken).outcome == Done
    ensures var after := CommitRows(db, seen, rows, slotTaken).tables.appointments;
            BreaksClear(after, db.breaks) <==>
            forall id | id in Touched(db, seen, rows) ::
              after[id].status.Live() ==> ClearOfBreaks(db.breaks, after[id].barber, after[id].Time())
  {
  }

  /** And closures likewise. */
  lemma CommitKeepsClosuresExactlyWhen(db: Tables, seen: map<Id, Appointment>, rows: map<Id, Appointment>,
                                       slotTaken: bool)
    requires CommitRows(db, seen, rows, slotTaken).outcome == Done
    requires WellFormed(db) && ClosuresClear(db) && WellFormed(CommitRows(db, seen, rows, slotTaken).tables)
    ensures var after := CommitRows(db, seen, rows, slotTaken).tables;
            ClosuresClear(after) <==>
            forall id | id in Touched(db, seen, rows) ::
              after.appointments[id].status.Live() ==>
                ClearOfClosures(db, db.barbers[after.appointments[id].barber].shop, after.appointments[id].Time())
  {
    var after := CommitRows(db, seen, rows, slotTaken).tables;
    forall shop, time | shop in db.shops
      ensures ClearOfClosures(after, shop, time) <==> ClearOfClosures(db, shop, time)
    {
    }
  }

  // ---- one turn ----

  /** A row that was read is still there, with its barber. */
  ghost predicate SameBarber(db: Tables, id: Id, row: Appointment) {
    id in db.appointments && db.appointments[id].barber == row.barber
  }

  /** The barber is still there, in the same shop, and the shop in the same zone. */
  ghost predicate SamePlace(db: Tables, db': Tables, barber: Id) {
    HasShop(db, barber) ==>
      HasShop(db', barber) && db'.barbers[barber].shop == db.barbers[barber].shop &&
      ZoneOf(db', barber) == ZoneOf(db, barber)
  }

  ghost predicate RowsOk(db: Tables, seen: map<Id, Appointment>, rows: map<Id, Appointment>) {
    && (forall id | id in rows :: rows[id].barber in db.barbers)
    && (forall id | id in seen :: id in rows && rows[id].barber == seen[id].barber && SameBarber(db, id, seen[id]))
  }

  /** What a task holds is of known barbers, and of the barbers the stored rows have. */
  ghost predicate TaskOk(db: Tables, task: Task) {
    match task.phase
    case Loaded(row) =>
      row.barber in db.barbers && (task.request.RescheduleRequest? ==> SameBarber(db, task.request.id, row))
    case Looking(first, seen, rows) =>
      && RowsOk(db, seen, rows) && WellFormed(first)
      && (task.request.CreateRequest? || task.request.RescheduleRequest?)
      && rows.Keys == {task.request.id}
      && var row := rows[task.request.id];
         && HasShop(first, row.barber) && SamePlace(first, db, row.barber)
         && row.service in first.services && row.Time() == Asked(first, row.service, task.request.start)
    case Writing(seen, rows) => RowsOk(db, seen, rows)
    case _ => true
  }

  ghost predicate TasksOk(w: World) {
    forall i | 0 <= i < |w.tasks| :: TaskOk(w.db, w.tasks[i])
  }

  /** A catalog change is legal when its turn comes. */
  ghost predicate LegalTurn(w: World, i: nat) {
    i < |w.tasks| && w.tasks[i].phase.Begun? && OneStep(w.tasks[i].request) ==> Legal(w.db, w.tasks[i].request)
  }

  lemma CommitWellFormed(db: Tables, seen: map<Id, Appointment>, rows: map<Id, Appointment>, slotTaken: bool)
    requires WellFormed(db) && PricesValid(db.appointments)
    requires forall id | id in rows :: rows[id].barber in db.barbers
    ensures var after := CommitRows(db, seen, rows, slotTaken).tables;
            WellFormed(after) && PricesValid(after.appointments)
  {
    if CommitRows(db, seen, rows, slotTaken).outcome == Done {
      var after := Written(db, seen, rows).appointments;
      forall id | id in after ensures RowChecks(after[id]) && after[id].barber in db.barbers {
        assert id !in Touched(db, seen, rows) ==> after[id] == db.appointments[id];
      }
    }
  }

  /** The break or closure asked for would lie over this booking. */
  ghost predicate Blocks(db: Tables, r: Request, a: Appointment)
    requires Recording(r)
  {
    match r
    case CreateBreakRequest(_, k, _) => k.barber == a.barber && k.Time().Overlaps(a.Time())
    case CreateClosureRequest(_, c, _) =>
      HasShop(db, a.barber) && db.barbers[a.barber].shop == c.shop &&
      ClosedSpan(ZoneOf(db, a.barber), c).Overlaps(a.Time())
  }

  /** It would lie over some live booking: the look-up, made at the time of the record. */
  ghost predicate Overbooked(db: Tables, r: Request)
    requires Recording(r)
  {
    exists a | a in db.appointments :: db.appointments[a].status.Live() && Blocks(db, r, db.appointments[a])
  }

  lemma NotClear(rows: map<Id, Appointment>, breaks: map<Id, Break>, id: Id, breakId: Id)
    requires id in rows && breakId in breaks && rows[id].status.Live() && breaks[breakId].barber == rows[id].barber
    requires breaks[breakId].Time().Overlaps(rows[id].Time())
    ensures !BreaksClear(rows, breaks)
  {
  }

  lemma NotOpen(s: Tables, id: Id, closureId: Id)
    requires WellFormed(s) && id in s.appointments && closureId in s.closures && s.appointments[id].status.Live()
    requires s.closures[closureId].shop == s.barbers[s.appointments[id].barber].shop
    requires var c := s.closures[closureId]; ClosedSpan(s.shops[c.shop].zone, c).Overlaps(s.appointments[id].Time())
    ensures !ClosuresClear(s)
  {
    assert !ClearOfClosures(s, s.barbers[s.appointments[id].barber].shop, s.appointments[id].Time());
  }

  /** It is what the request looked up before. */
  lemma LookUpFindsOverbooked(db: Tables, r: Request)
    requires WellFormed(db) && Recording(r) && RecordingGuard(db, r) == Done
    ensures !Overbooked(db, r)
  {
    if r.CreateBreakRequest? {
      assert !BookedDuring(db, r.newBreak.barber, r.newBreak.Time());
    } else {
      assert !ShopBookedDuring(db, r.closure.shop, ClosedSpan(db.shops[r.closure.shop].zone, r.closure));
    }
  }

  /** A record that goes through keeps the invariant exactly when no live booking is in its way by then. */
  lemma RecordKeepsExactlyWhen(db: Tables, r: Request)
    requires Invariant(db) && Recording(r) && Record(db, r).outcome == Done
    ensures Invariant(Record(db, r).tables) <==> !Overbooked(db, r)
  {
    if Overbooked(db, r) {
      var a :| a in db.appointments && db.appointments[a].status.Live() && Blocks(db, r, db.appointments[a]);
      if r.CreateBreakRequest? {
        NotClear(db.appointments, Record(db, r).tables.breaks, a, r.id);
      } else if WellFormed(Record(db, r).tables) {
        NotOpen(Record(db, r).tables, a, r.id);
      }
    } else {
      match r
      case CreateBreakRequest(id, k, _) =>
        forall a | a in db.appointments
          ensures !(db.appointments[a].Holds(k.barber) && db.appointments[a].Time().Overlaps(k.Time()))
        {
          assert !(db.appointments[a].status.Live() && Blocks(db, r, db.appointments[a]));
        }
        AddBreakKeeps(db, id, k);
      case CreateClosureRequest(id, c, _) =>
        forall a | a in db.appointments && db.appointments[a].status.Live()
          ensures !Blocks(db, r, db.appointments[a])
        {}
        AddClosureKeeps(db, id, c);
    }
  }

  /**
   * The commit made by this turn, if one is made and accepted, passes the check it omits: a booking's leaves only
   * rows that are clear of the schedule, and a break or closure is recorded over no live booking.
   */
  ghost predicate CommitIsClear(w: World, i: nat) {
    i < |w.tasks| ==>
      match w.tasks[i].phase
      case Writing(seen, rows) =>
        CommitRows(w.db, seen, rows, true).outcome == Done ==>
          forall id | id in Touched(w.db, seen, rows) :: RowClear(w.db, Written(w.db, seen, rows).appointments[id])
      case Cleared =>
        var r := w.tasks[i].request;
        Recording(r) && Record(w.db, r).outcome == Done ==> !Overbooked(w.db, r)
      case _ => true
  }

  /** A commit keeps the whole serial invariant exactly when it passes the check it leaves out. */
  lemma CommitKeepsExactlyWhen(db: Tables, task: Task, slotTaken: bool)
    requires Invariant(db) && TaskOk(db, task) && task.phase.Writing?
    requires CommitRows(db, task.phase.seen, task.phase.rows, slotTaken).outcome == Done
    ensures var seen, rows := task.phase.seen, task.phase.rows;
            Invariant(CommitRows(db, seen, rows, slotTaken).tables) <==>
            forall id | id in Touched(db, seen, rows) :: RowClear(db, Written(db, seen, rows).appointments[id])
  {
    var seen, rows := task.phase.seen, task.phase.rows;
    CommitWellFormed(db, seen, rows, slotTaken);
    CommitExcludes(db, seen, rows, slotTaken);
    CommitKeepsBreaksExactlyWhen(db, seen, rows, slotTaken);
    CommitKeepsClosuresExactlyWhen(db, seen, rows, slotTaken);
    forall id | id in Touched(db, seen, rows) ensures HasShop(db, Written(db, seen, rows).appointments[id].barber) {
      assert Written(db, seen, rows).appointments[id].barber in db.barbers;
    }
  }

  /** A turn keeps the invariant exactly when its commit, if it makes one, is clear; every other turn keeps it. */
  lemma TurnKeepsExactlyWhen(w: World, i: nat)
    requires Invariant(w.db) && TasksOk(w) && LegalTurn(w, i)
    ensures Invariant(Turn(w, i).db) <==> CommitIsClear(w, i)
  {
    if i < |w.tasks| {
      var task := w.tasks[i];
      if task.phase.Writing? {
        var slotTaken := task.request.CreateRequest? || task.request.RescheduleRequest?;
        if CommitRows(w.db, task.phase.seen, task.phase.rows, slotTaken).outcome == Done {
          CommitKeepsExactlyWhen(w.db, task, slotTaken);
        }
      } else if task.phase.Cleared? {
        if Recording(task.request) && Record(w.db, task.request).outcome == Done {
          RecordKeepsExactlyWhen(w.db, task.request);
        }
      } else if task.phase.Begun? && OneStep(task.request) {
        HandleKeeps(w.db, task.request);
      }
    }
  }

  // ---- every turn ----

  /** No barber is gone or elsewhere, and no row is gone or another barber's. */
  ghost predicate Later(db: Tables, db': Tables) {
    && (forall b | b in db.barbers :: b in db'.barbers && SamePlace(db, db', b))
    && (forall id | id in db.appointments :: SameBarber(db', id, db.appointments[id]))
  }

  lemma LaterOk(db: Tables, db': Tables, task: Task)
    requires Later(db, db') && TaskOk(db, task)
    ensures TaskOk(db', task)
  {
  }

  lemma OneStepSamePlaces(db: Tables, r: Request)
    requires OneStep(r) && Legal(db, r)
    ensures forall b | b in db.barbers :: b in Handle(db, r).tables.barbers && SamePlace(db, Handle(db, r).tables, b)
  {
  }

  lemma AdvanceLater(db: Tables, task: Task)
    requires task.phase.Begun? && OneStep(task.request) ==> Legal(db, task.request)
    ensures Later(db, Advance(db, task).0)
  {
    forall id | id in db.appointments ensures SameBarber(Advance(db, task).0, id, db.appointments[id]) {
      AdvanceKeepsFacts(db, task, id);
    }
    if task.phase.Begun? && OneStep(task.request) {
      OneStepSamePlaces(db, task.request);
    } else {
      var t := Advance(db, task).0;
      assert t.barbers == db.barbers && t.shops == db.shops;
    }
  }

  lemma LookFirstOk(db: Tables, r: Request, seen: map<Id, Appointment>, row: Appointment)
    requires WellFormed(db) && (r.CreateRequest? || r.RescheduleRequest?)
    requires RowsOk(db, seen, map[r.id := row])
    requires row.service in db.services && row.Time() == Asked(db, row.service, r.start)
    ensures TaskOk(db, Task(r, LookFirst(db, r, seen, row)))
  {
  }

  lemma FirstReadOk(db: Tables, r: Request)
    requires WellFormed(db) && !OneStep(r)
    ensures TaskOk(db, Task(r, FirstRead(db, r)))
  {
    if r.CreateRequest? && Resolve(db, r.barber, r.service) == Done && HasShop(db, r.barber) {
      LookFirstOk(db, r, map[], NewRow(db, r.customer, r.barber, r.service, r.start, r.now));
    }
  }

  lemma AdvanceOk(db: Tables, task: Task)
    requires WellFormed(db) && TaskOk(db, task)
    ensures TaskOk(db, task.(phase := Advance(db, task).1)) || Advance(db, task).1.Ended?
  {
    match task.phase
    case Begun =>
      if !OneStep(task.request) {
        FirstReadOk(db, task.request);
      }
    case Loaded(row) =>
      if task.request.RescheduleRequest? && row.service in db.services {
        LookFirstOk(db, task.request, map[task.request.id := row], Moved(db, row, task.request.start));
      }
    case _ =>
  }

  lemma TurnOk(w: World, i: nat)
    requires WellFormed(w.db) && TasksOk(w) && LegalTurn(w, i)
    ensures TasksOk(Turn(w, i))
  {
    if i < |w.tasks| {
      AdvanceLater(w.db, w.tasks[i]);
      AdvanceOk(w.db, w.tasks[i]);
      forall j | 0 <= j < |w.tasks| && j != i ensures TaskOk(Turn(w, i).db, w.tasks[j]) {
        LaterOk(w.db, Turn(w, i).db, w.tasks[j]);
      }
      if !Advance(w.db, w.tasks[i]).1.Ended? {
        assert Turn(w, i).db == w.db;
      }
    }
  }

  // ---- whole runs ----

  ghost predicate Beginning(w: World) {
    forall i | 0 <= i < |w.tasks| :: w.tasks[i].phase == Begun
  }

  /** Every turn that comes up is legal. */
  ghost predicate LegalOrder(w: World, order: seq<nat>)
    decreases |order|
  {
    order == [] ||
    (var rest := order[..|order| - 1]; LegalOrder(w, rest) && LegalTurn(Play(w, rest), order[|order| - 1]))
  }

  /** Every commit of the run passes the check it leaves out. */
  ghost predicate CommitsAreClear(w: World, order: seq<nat>)
    decreases |order|
  {
    order == [] ||
    (var rest := order[..|order| - 1]; CommitsAreClear(w, rest) && CommitIsClear(Play(w, rest), order[|order| - 1]))
  }

  /** The serial invariant holds now and held after each turn before. */
  ghost predicate AlwaysInvariant(w: World, order: seq<nat>)
    decreases |order|
  {
    Invariant(Play(w, order).db) && (order == [] || AlwaysInvariant(w, order[..|order| - 1]))
  }

  /**
   * An interleaved run keeps bookings apart, clear of breaks and clear of closures all along exactly when each
   * of its commits passes the check that commits leave out.
   */
  lemma {:induction false} RunKeepsExactlyWhen(w: World, order: seq<nat>)
    requires Beginning(w) && Invariant(w.db) && LegalOrder(w, order)
    ensures AlwaysInvariant(w, order) <==> CommitsAreClear(w, order)
    ensures AlwaysInvariant(w, order) ==> TasksOk(Play(w, order))
    decreases |order|
  {
    if order != [] {
      var rest, i := order[..|order| - 1], order[|order| - 1];
      RunKeepsExactlyWhen(w, rest);
      if AlwaysInvariant(w, rest) {
        TurnKeepsExactlyWhen(Play(w, rest), i);
        TurnOk(Play(w, rest), i);
      }
    }
  }

  // ---- runs in which nothing comes between a check and its commit ----

  /** The task is about to take time for this row that the row did not have when it was read. */
  ghost predicate Claims(task: Task, id: Id) {
    task.phase.Writing? && id in task.phase.rows &&
    (id in task.phase.seen ==> task.phase.rows[id].Time() != task.phase.seen[id].Time())
  }

  /** The task has found the shop open on the day of this row, and has still to look at the rest. */
  ghost predicate LooksAt(task: Task, id: Id) {
    task.phase.Looking? && id in task.phase.rows
  }

  ghost predicate ShutOn(db: Tables, a: Appointment) {
    HasShop(db, a.barber) && Shut(db, db.barbers[a.barber].shop, ZoneOf(db, a.barber).LocalDay(a.start))
  }

  /**
   * What the task has found still holds: the shop is open on the day, the time it is about to take is clear, or
   * no booking is in the way of its record.
   */
  ghost predicate Pending(db: Tables, task: Task) {
    && (forall id | LooksAt(task, id) :: !ShutOn(db, task.phase.rows[id]))
    && (forall id | Claims(task, id) :: TimeClear(db, task.phase.rows[id].barber, task.phase.rows[id].Time()))
    && (task.phase.Cleared? && Recording(task.request) ==> !Overbooked(db, task.request))
  }

  /** The request would close the shop on the day of this row. */
  ghost predicate Shuts(db: Tables, r: Request, a: Appointment) {
    r.CreateClosureRequest? && HasShop(db, a.barber) && db.barbers[a.barber].shop == r.closure.shop &&
    r.closure.first <= ZoneOf(db, a.barber).LocalDay(a.start) <= r.closure.last
  }

  /**
   * If the one task is about to record a break or a closure, it is not over time the other is about to take, nor
   * over the day the other is looking at.
   */
  ghost predicate KeepsOff(db: Tables, recorder: Task, booker: Task) {
    recorder.phase.Cleared? && Recording(recorder.request) ==>
      && (forall id | Claims(booker, id) :: !Blocks(db, recorder.request, booker.phase.rows[id]))
      && (forall id | LooksAt(booker, id) :: !Shuts(db, recorder.request, booker.phase.rows[id]))
  }

  /** The commit revives no row, and mixes no start and end of two different moves. */
  ghost predicate WholeAndLive(db: Tables, seen: map<Id, Appointment>, rows: map<Id, Appointment>) {
    forall id | id in Touched(db, seen, rows) && id in seen ::
      var was, merged := db.appointments[id], Merge(seen[id], rows[id], db.appointments[id]);
      merged.status.Live() ==> was.status.Live() && (merged.Time() == was.Time() || merged.Time() == rows[id].Time())
  }

  ghost predicate Undisturbed(w: World, i: nat) {
    i < |w.tasks| ==>
      && (forall j | 0 <= j < |w.tasks| ::
            KeepsOff(w.db, w.tasks[i], w.tasks[j]) && KeepsOff(w.db, w.tasks[j], w.tasks[i]))
      && (w.tasks[i].phase.Writing? ==> WholeAndLive(w.db, w.tasks[i].phase.seen, w.tasks[i].phase.rows))
  }

  lemma UndisturbedCommitIsClear(w: World, i: nat)
    requires Invariant(w.db) && TasksOk(w) && Undisturbed(w, i)
    requires i < |w.tasks| ==> Pending(w.db, w.tasks[i])
    ensures CommitIsClear(w, i)
  {
    if i < |w.tasks| && w.tasks[i].phase.Writing? {
      var task, seen, rows := w.tasks[i], w.tasks[i].phase.seen, w.tasks[i].phase.rows;
      assert TaskOk(w.db, task);
      forall id | id in Touched(w.db, seen, rows) ensures RowClear(w.db, Written(w.db, seen, rows).appointments[id]) {
        if id in seen {
          var was, merged := w.db.appointments[id], Merge(seen[id], rows[id], w.db.appointments[id]);
          assert merged.barber == was.barber == rows[id].barber;
          assert was.status.Live() ==> TimeClear(w.db, was.barber, was.Time());
          assert rows[id].Time() == seen[id].Time() ==> merged.Time() == was.Time();
          assert rows[id].Time() != seen[id].Time() ==> Claims(task, id);
        } else {
          assert Claims(task, id);
        }
      }
    }
  }

  /** A time within an open day is clear of closures. */
  lemma OpenDayIsClear(db: Tables, barber: Id, time: Interval)
    requires WellFormed(db) && HasShop(db, barber)
    requires var zone := ZoneOf(db, barber);
             var day := zone.LocalDay(time.start);
             !Shut(db, db.barbers[barber].shop, day) && time.end <= zone.DayStart(day + 1)
    ensures ClearOfClosures(db, db.barbers[barber].shop, time)
  {
    var shop, zone := db.barbers[barber].shop, ZoneOf(db, barber);
    var day := zone.LocalDay(time.start);
    forall c | c in db.closures && db.closures[c].shop == shop
      ensures !ClosedSpan(zone, db.closures[c]).Overlaps(time)
    {
      var closure := db.closures[c];
      assert !(closure.first <= day <= closure.last);
      assert zone.DayStart(closure.first) <= time.end - 1 <==> closure.first <= zone.LocalDay(time.end - 1);
      assert zone.DayStart(closure.last + 1) <= time.start <==> closure.last + 1 <= day;
      DayOfInstant(zone, time.end - 1, day);
      DayOfInstant(zone, time.start, day);
    }
  }

  /** A query that began over other tables still finds the breaks there are, and the start on its own day. */
  lemma MixedOfferIsClear(first: Tables, db: Tables, barber: Id, service: Id, now: int, leaving: Leaving, start: int)
    requires WellFormed(first) && WellFormed(db) && HasShop(first, barber) && service in first.services
    requires Offered(Mixed(first, db), barber, service, ZoneOf(first, barber).LocalDay(start), now, leaving, start)
    ensures ClearOfBreaks(db.breaks, barber, Asked(first, service, start))
    ensures var zone := ZoneOf(first, barber);
            Asked(first, service, start).end <= zone.DayStart(zone.LocalDay(start) + 1)
  {
    var view := Mixed(first, db);
    var unbooked := view.(appointments := map[]);
    var day := ZoneOf(first, barber).LocalDay(start);
    forall u | start <= u < start + first.services[service].duration
      ensures OpenAt(unbooked, barber, day, Everybody, u)
    {
      assert OpenAt(view, barber, day, leaving, u);
      assert Working(unbooked, barber, day, ZoneOf(view, barber), u) <==>
             Working(view, barber, day, ZoneOf(view, barber), u);
      assert OnBreak(unbooked, barber, u) <==> OnBreak(view, barber, u);
    }
    OfferIsClear(unbooked, barber, service, day, now, Everybody, start);
    assert OpenAt(unbooked, barber, day, Everybody, start + first.services[service].duration - 1);
  }

  /** A query that ends with the start on offer leaves the time clear, if its day is still open. */
  lemma LookPending(db: Tables, task: Task)
    requires WellFormed(db) && TaskOk(db, task) && task.phase.Looking? && Pending(db, task)
    ensures Pending(db, task.(phase := Advance(db, task).1))
  {
    var r, phase := task.request, task.phase;
    if Advance(db, task).1.Writing? {
      var row := phase.rows[r.id];
      assert LooksAt(task, r.id);
      MixedOfferIsClear(phase.first, db, row.barber, row.service, r.now, Leaves(r), r.start);
      OpenDayIsClear(db, row.barber, row.Time());
    }
  }

  /** A query that has begun has found the day open. */
  lemma FirstLookPending(db: Tables, task: Task)
    requires (task.phase.Begun? && task.request.CreateRequest?) || task.phase.Loaded?
    ensures Pending(db, task.(phase := Advance(db, task).1))
  {
  }

  lemma RecordPending(db: Tables, r: Request)
    requires WellFormed(db) && Recording(r)
    ensures Pending(db, Task(r, FirstRead(db, r)))
  {
    if RecordingGuard(db, r) == Done {
      LookUpFindsOverbooked(db, r);
    }
  }

  /** Requests that only change a status take no time, and reads that fail take none. */
  lemma NothingClaimed(db: Tables, task: Task)
    requires task.phase.Begun? && !task.request.CreateRequest? && !Recording(task.request) && !OneStep(task.request)
    ensures var phase := Advance(db, task).1;
            !phase.Cleared? && !phase.Looking? && forall id :: !Claims(task.(phase := phase), id)
  {
  }

  /** What a task has just found holds. */
  lemma AdvancePending(db: Tables, task: Task)
    requires WellFormed(db) && !task.phase.Writing? && TaskOk(db, task) && Pending(db, task)
    ensures Pending(Advance(db, task).0, task.(phase := Advance(db, task).1))
  {
    match task.phase
    case Begun =>
      if task.request.CreateRequest? {
        FirstLookPending(db, task);
      } else if Recording(task.request) {
        RecordPending(db, task.request);
      } else if !OneStep(task.request) {
        NothingClaimed(db, task);
      }
    case Loaded(_) => FirstLookPending(db, task);
    case Looking(_, _, _) => LookPending(db, task);
    case _ =>
  }

  /** The bookings are the same and every known barber is where it was. */
  ghost predicate SameGround(db: Tables, t: Tables) {
    t.appointments == db.appointments && forall b | b in db.barbers :: HasShop(db, b) && SamePlace(db, t, b)
  }

  lemma SameGroundSameBlocks(db: Tables, t: Tables, r: Request)
    requires WellFormed(db) && SameGround(db, t) && Recording(r)
    ensures Overbooked(t, r) <==> Overbooked(db, r)
  {
    forall a | a in db.appointments ensures Blocks(t, r, db.appointments[a]) <==> Blocks(db, r, db.appointments[a]) {
      assert db.appointments[a].barber in db.barbers;
    }
  }

  /**
   * A change that leaves the ground the same keeps what a task has found if it keeps the schedule clear for its
   * rows.
   */
  lemma SameGroundKeepsPending(db: Tables, t: Tables, task: Task)
    requires WellFormed(db) && SameGround(db, t) && Pending(db, task)
    requires forall id | LooksAt(task, id) :: !ShutOn(t, task.phase.rows[id])
    requires forall id | Claims(task, id) :: TimeClear(t, task.phase.rows[id].barber, task.phase.rows[id].Time())
    ensures Pending(t, task)
  {
    if task.phase.Cleared? && Recording(task.request) {
      SameGroundSameBlocks(db, t, task.request);
    }
  }

  lemma OneStepSameGround(db: Tables, r: Request)
    requires WellFormed(db) && OneStep(r) && Legal(db, r)
    ensures SameGround(db, Handle(db, r).tables)
  {
    OneStepSamePlaces(db, r);
  }

  lemma OneStepAddsNothing(db: Tables, r: Request)
    requires OneStep(r)
    ensures var t := Handle(db, r).tables;
            && (forall k | k in t.breaks :: k in db.breaks && t.breaks[k] == db.breaks[k])
            && (forall c | c in t.closures :: c in db.closures && t.closures[c] == db.closures[c])
  {
  }

  /** Removals, new hours and legal catalog changes block no time and shut no day. */
  lemma OneStepLoosens(db: Tables, r: Request, a: Appointment)
    requires WellFormed(db) && OneStep(r) && Legal(db, r) && a.barber in db.barbers
    ensures TimeClear(db, a.barber, a.Time()) ==> TimeClear(Handle(db, r).tables, a.barber, a.Time())
    ensures !ShutOn(db, a) ==> !ShutOn(Handle(db, r).tables, a)
  {
    OneStepSameGround(db, r);
    OneStepAddsNothing(db, r);
    LooserIsClear(db, Handle(db, r).tables, a);
  }

  lemma LooserIsClear(db: Tables, t: Tables, a: Appointment)
    requires HasShop(db, a.barber) && SamePlace(db, t, a.barber)
    requires forall k | k in t.breaks :: k in db.breaks && t.breaks[k] == db.breaks[k]
    requires forall c | c in t.closures :: c in db.closures && t.closures[c] == db.closures[c]
    ensures TimeClear(db, a.barber, a.Time()) ==> TimeClear(t, a.barber, a.Time())
    ensures !ShutOn(db, a) ==> !ShutOn(t, a)
  {
  }

  lemma OneStepKeepsPending(db: Tables, r: Request, task: Task)
    requires WellFormed(db) && OneStep(r) && Legal(db, r) && TaskOk(db, task) && Pending(db, task)
    ensures Pending(Handle(db, r).tables, task)
  {
    OneStepSameGround(db, r);
    if task.phase.Looking? || task.phase.Writing? {
      forall id | id in task.phase.rows
        ensures LooksAt(task, id) ==> !ShutOn(Handle(db, r).tables, task.phase.rows[id])
        ensures Claims(task, id) ==> TimeClear(Handle(db, r).tables, task.phase.rows[id].barber,
                                               task.phase.rows[id].Time())
      {
        OneStepLoosens(db, r, task.phase.rows[id]);
      }
    }
    SameGroundKeepsPending(db, Handle(db, r).tables, task);
  }

  /** A record blocks only the times it blocks, and shuts only the days it shuts. */
  lemma RecordBlocksOnly(db: Tables, r: Request, a: Appointment)
    requires WellFormed(db) && Recording(r) && a.barber in db.barbers
    ensures TimeClear(db, a.barber, a.Time()) && !Blocks(db, r, a) ==>
              TimeClear(Record(db, r).tables, a.barber, a.Time())
    ensures !ShutOn(db, a) && !Shuts(db, r, a) ==> !ShutOn(Record(db, r).tables, a)
  {
    assert HasShop(db, a.barber);
  }

  /** A record that keeps off the task's time and day leaves what the task has found; it touches no booking. */
  lemma RecordKeepsPending(db: Tables, recorder: Task, task: Task)
    requires WellFormed(db) && recorder.phase.Cleared? && Recording(recorder.request)
    requires TaskOk(db, task) && Pending(db, task) && KeepsOff(db, recorder, task)
    ensures Pending(Record(db, recorder.request).tables, task)
  {
    var t := Record(db, recorder.request).tables;
    if task.phase.Looking? || task.phase.Writing? {
      forall id | id in task.phase.rows
        ensures LooksAt(task, id) ==> !ShutOn(t, task.phase.rows[id])
        ensures Claims(task, id) ==> TimeClear(t, task.phase.rows[id].barber, task.phase.rows[id].Time())
      {
        RecordBlocksOnly(db, recorder.request, task.phase.rows[id]);
      }
    }
    SameGroundKeepsPending(db, t, task);
  }

  /** A booking's commit takes no time over which the other is about to record. */
  lemma CommitKeepsPending(db: Tables, booker: Task, task: Task, slotTaken: bool)
    requires booker.phase.Writing? && TaskOk(db, booker) && WholeAndLive(db, booker.phase.seen, booker.phase.rows)
    requires Pending(db, task) && KeepsOff(db, task, booker)
    ensures Pending(CommitRows(db, booker.phase.seen, booker.phase.rows, slotTaken).tables, task)
  {
    var seen, rows := booker.phase.seen, booker.phase.rows;
    var t := CommitRows(db, seen, rows, slotTaken).tables;
    assert t == db.(appointments := t.appointments);
    assert forall barber, time :: TimeClear(db, barber, time) ==> TimeClear(t, barber, time);
    if task.phase.Cleared? && Recording(task.request) && t != db {
      forall id | id in t.appointments && t.appointments[id].status.Live()
        ensures !Blocks(t, task.request, t.appointments[id])
      {
        CommittedRowOffRecord(db, booker, task, id);
      }
    }
  }

  lemma CommittedRowOffRecord(db: Tables, booker: Task, task: Task, id: Id)
    requires booker.phase.Writing? && TaskOk(db, booker) && WholeAndLive(db, booker.phase.seen, booker.phase.rows)
    requires Pending(db, task) && KeepsOff(db, task, booker) && task.phase.Cleared? && Recording(task.request)
    requires id in Written(db, booker.phase.seen, booker.phase.rows).appointments
    ensures var a := Written(db, booker.phase.seen, booker.phase.rows).appointments[id];
            a.status.Live() ==> !Blocks(db, task.request, a)
  {
    var seen, rows := booker.phase.seen, booker.phase.rows;
    if id !in Touched(db, seen, rows) {
      assert !Overbooked(db, task.request);
    } else if id in seen {
      var was, merged := db.appointments[id], Merge(seen[id], rows[id], db.appointments[id]);
      assert was.status.Live() ==> !Blocks(db, task.request, was);
      assert rows[id].Time() == seen[id].Time() ==> merged.Time() == was.Time();
      assert rows[id].Time() != seen[id].Time() ==> Claims(booker, id);
    } else {
      assert Claims(booker, id);
    }
  }

  lemma OthersPending(db: Tables, task: Task, other: Task)
    requires WellFormed(db) && Pending(db, other) && TaskOk(db, other) && TaskOk(db, task)
    requires task.phase.Begun? && OneStep(task.request) ==> Legal(db, task.request)
    requires KeepsOff(db, task, other) && KeepsOff(db, other, task)
    requires task.phase.Writing? ==> WholeAndLive(db, task.phase.seen, task.phase.rows)
    ensures Pending(Advance(db, task).0, other)
  {
    if task.phase.Writing? {
      CommitKeepsPending(db, task, other, task.request.CreateRequest? || task.request.RescheduleRequest?);
    } else if task.phase.Cleared? && Recording(task.request) {
      RecordKeepsPending(db, task, other);
    } else if task.phase.Begun? && OneStep(task.request) {
      OneStepKeepsPending(db, task.request, other);
    }
  }

  ghost predicate AllPending(w: World) {
    forall j | 0 <= j < |w.tasks| :: Pending(w.db, w.tasks[j])
  }

  lemma TurnPending(w: World, i: nat)
    requires WellFormed(w.db) && TasksOk(w) && AllPending(w) && LegalTurn(w, i) && Undisturbed(w, i)
    ensures AllPending(Turn(w, i))
  {
    if i < |w.tasks| {
      forall j | 0 <= j < |w.tasks| && j != i ensures Pending(Turn(w, i).db, w.tasks[j]) {
        OthersPending(w.db, w.tasks[i], w.tasks[j]);
      }
      if !w.tasks[i].phase.Writing? {
        AdvancePending(w.db, w.tasks[i]);
      }
    }
  }

  ghost predicate UndisturbedOrder(w: World, order: seq<nat>)
    decreases |order|
  {
    order == [] ||
    (var rest := order[..|order| - 1]; UndisturbedOrder(w, rest) && Undisturbed(Play(w, rest), order[|order| - 1]))
  }

  /**
   * So if, at each commit, no task is about to record over time another is about to take, and no commit revives a
   * row or mixes two moves, the serial invariant holds all along the interleaving.
   */
  lemma {:induction false} UndisturbedRunKeeps(w: World, order: seq<nat>)
    requires Beginning(w) && Invariant(w.db) && LegalOrder(w, order) && UndisturbedOrder(w, order)
    ensures AlwaysInvariant(w, order) && TasksOk(Play(w, order)) && AllPending(Play(w, order))
    decreases |order|
  {
    if order != [] {
      var rest, i := order[..|order| - 1], order[|order| - 1];
      UndisturbedRunKeeps(w, rest);
      UndisturbedCommitIsClear(Play(w, rest), i);
      TurnKeepsExactlyWhen(Play(w, rest), i);
      TurnOk(Play(w, rest), i);
      TurnPending(Play(w, rest), i);
    }
  }

  // ---- reachable failures ----

  /** A create whose start is on offer. */
  ghost predicate OnOffer(db: Tables, r: Request) {
    && r.CreateRequest? && r.id !in db.appointments && Resolve(db, r.barber, r.service) == Done
    && OfferOutcome(db, r.barber, r.service, r.start, r.now, Nobody) == Done
  }

  function NewRowOf(db: Tables, r: Request): Appointment
    requires r.CreateRequest? && HasShop(db, r.barber) && r.service in db.services
  {
    NewRow(db, r.customer, r.barber, r.service, r.start, r.now)
  }

  /** It looks twice, and whatever happens to the schedule before its commit, the row goes in. */
  lemma CreateSteps(db: Tables, r: Request, later: Tables)
    requires WellFormed(db) && OnOffer(db, r) && later.appointments == db.appointments
    ensures var row := NewRowOf(db, r);
            var looking, writing := Looking(db, map[], map[r.id := row]), Writing(map[], map[r.id := row]);
            && Advance(db, Task(r, Begun)) == (db, looking) && Advance(db, Task(r, looking)) == (db, writing)
            && Advance(later, Task(r, writing)) == (Put(later, r.id, row), Ended(Done))
  {
    LookBoth(db, r, map[], NewRowOf(db, r));
    CreateNeverViolates(db, r.id, r.customer, r.barber, r.service, r.start, r.now);
    InsertResult(later, r.id, NewRowOf(db, r));
  }

  /** The request looks up, and records after other tables have come. */
  lemma RecordSteps(db: Tables, r: Request, later: Tables)
    requires Recording(r) && RecordingGuard(db, r) == Done && Record(later, r).outcome == Done
    ensures Advance(db, Task(r, Begun)) == (db, Cleared)
    ensures Advance(later, Task(r, Cleared)) == (Record(later, r).tables, Ended(Done))
  {
  }

  /** The create has begun its query; the two requests then end in the same tables, whichever of them commits last. */
  lemma CrossingHalfway(db: Tables, r: Request, k: Request, recorded: Tables)
    requires WellFormed(db) && OnOffer(db, r) && Recording(k) && RecordingGuard(db, k) == Done
    requires Record(db, k) == Reply(recorded, Done) && recorded.appointments == db.appointments
    requires var row := NewRowOf(db, r); Record(Put(db, r.id, row), k) == Reply(Put(recorded, r.id, row), Done)
    ensures var row := NewRowOf(db, r);
            var booker := Task(r, Looking(db, map[], map[r.id := row]));
            var first, second := World(db, [booker, Task(k, Begun)]), World(db, [Task(k, Begun), booker]);
            && Play(first, [0, 1, 1, 0]) ==
               World(Put(recorded, r.id, row), [Task(r, Ended(Done)), Task(k, Ended(Done))])
            && Play(second, [0, 1, 1, 0]) ==
               World(Put(recorded, r.id, row), [Task(k, Ended(Done)), Task(r, Ended(Done))])
            && Play(second, [0, 1, 1]).db == Put(db, r.id, row)
  {
    var row := NewRowOf(db, r);
    var booker, p := Task(r, Looking(db, map[], map[r.id := row])), Writing(map[], map[r.id := row]);
    CreateSteps(db, r, recorded);
    CreateSteps(db, r, db);
    RecordSteps(db, k, db);
    RecordSteps(db, k, Put(db, r.id, row));
    OverAnother(db, booker, p, Task(k, Begun), Cleared, recorded, Put(recorded, r.id, row));
    OverAnother(db, Task(k, Begun), Cleared, booker, p, Put(db, r.id, row), Put(recorded, r.id, row));
  }

  /** The same from the start. */
  lemma Crossing(db: Tables, r: Request, k: Request, recorded: Tables)
    requires WellFormed(db) && OnOffer(db, r) && Recording(k) && RecordingGuard(db, k) == Done
    requires Record(db, k) == Reply(recorded, Done) && recorded.appointments == db.appointments
    requires var row := NewRowOf(db, r); Record(Put(db, r.id, row), k) == Reply(Put(recorded, r.id, row), Done)
    ensures var row := NewRowOf(db, r);
            var first := World(db, [Task(r, Begun), Task(k, Begun)]);
            var second := World(db, [Task(k, Begun), Task(r, Begun)]);
            && Play(first, [0, 0, 1, 1, 0]) ==
               World(Put(recorded, r.id, row), [Task(r, Ended(Done)), Task(k, Ended(Done))])
            && Play(second, [1, 0, 1, 1, 0]) ==
               World(Put(recorded, r.id, row), [Task(k, Ended(Done)), Task(r, Ended(Done))])
            && Play(second, [1, 0, 1, 1]).db == Put(db, r.id, row)
  {
    var first, second := World(db, [Task(r, Begun), Task(k, Begun)]), World(db, [Task(k, Begun), Task(r, Begun)]);
    var looking := Looking(db, map[], map[r.id := NewRowOf(db, r)]);
    CreateSteps(db, r, db);
    CrossingHalfway(db, r, k, recorded);
    FirstMoves(db, Task(r, Begun), Task(k, Begun), db, looking);
    SecondMoves(db, Task(k, Begun), Task(r, Begun), db, looking);
    PlayFirst(first, 0, [0, 1, 1, 0]);
    PlayFirst(second, 1, [0, 1, 1, 0]);
    PlayFirst(second, 1, [0, 1, 1]);
    assert [0] + [0, 1, 1, 0] == [0, 0, 1, 1, 0] && [1] + [0, 1, 1, 0] == [1, 0, 1, 1, 0];
    assert [1] + [0, 1, 1] == [1, 0, 1, 1];
  }

  /** A break over just the time asked for. */
  function BreakOver(db: Tables, r: Request, breakId: Id): Request
    requires r.CreateRequest? && r.service in db.services
  {
    CreateBreakRequest(breakId, Break(r.barber, r.start, r.start + db.services[r.service].duration), true)
  }

  lemma OfferedTimeCanBeBlocked(db: Tables, r: Request, breakId: Id)
    requires WellFormed(db) && OnOffer(db, r) && breakId !in db.breaks
    ensures RecordingGuard(db, BreakOver(db, r, breakId)) == Done
  {
    OfferIsClear(db, r.barber, r.service, ZoneOf(db, r.barber).LocalDay(r.start), r.now, Nobody, r.start);
  }

  lemma BreakCrosses(db: Tables, r: Request, breakId: Id)
    requires WellFormed(db) && OnOffer(db, r) && breakId !in db.breaks
    ensures var k, row := BreakOver(db, r, breakId), NewRowOf(db, r);
            var after := Put(db.(breaks := db.breaks[breakId := k.newBreak]), r.id, row);
            && Play(World(db, [Task(r, Begun), Task(k, Begun)]), [0, 0, 1, 1, 0]) ==
               World(after, [Task(r, Ended(Done)), Task(k, Ended(Done))])
            && Play(World(db, [Task(k, Begun), Task(r, Begun)]), [1, 0, 1, 1, 0]) ==
               World(after, [Task(k, Ended(Done)), Task(r, Ended(Done))])
            && Play(World(db, [Task(k, Begun), Task(r, Begun)]), [1, 0, 1, 1]).db == Put(db, r.id, row)
            && !BreaksClear(after.appointments, after.breaks)
  {
    var k, row := BreakOver(db, r, breakId), NewRowOf(db, r);
    var rested := db.(breaks := db.breaks[breakId := k.newBreak]);
    OfferedTimeCanBeBlocked(db, r, breakId);
    Crossing(db, r, k, rested);
    NotClear(Put(rested, r.id, row).appointments, rested.breaks, r.id, breakId);
  }

  /**
   * Breaks are kept clear of bookings only in serial runs: for every start on offer, a break over just that
   * time can be looked up and recorded between the booking's check and its commit, and both succeed.
   */
  lemma BreakSlipsIn(db: Tables, r: Request, breakId: Id)
    requires WellFormed(db) && OnOffer(db, r) && breakId !in db.breaks
    ensures var k := BreakOver(db, r, breakId);
            var t := Play(World(db, [Task(r, Begun), Task(k, Begun)]), [0, 0, 1, 1, 0]);
            && t.tasks == [Task(r, Ended(Done)), Task(k, Ended(Done))]
            && r.id in t.db.appointments && breakId in t.db.breaks && !BreaksClear(t.db.appointments, t.db.breaks)
  {
    BreakCrosses(db, r, breakId);
  }

  /**
   * And the other way round: the booking can be checked and committed between the break's look-up and its record.
   * Until then all is well; the record breaks it.
   */
  lemma BookingSlipsUnderBreak(db: Tables, r: Request, breakId: Id)
    requires Invariant(db) && OnOffer(db, r) && breakId !in db.breaks
    ensures var k := BreakOver(db, r, breakId);
            var w := World(db, [Task(k, Begun), Task(r, Begun)]);
            var t := Play(w, [1, 0, 1, 1, 0]);
            && t.tasks == [Task(k, Ended(Done)), Task(r, Ended(Done))]
            && r.id in t.db.appointments && breakId in t.db.breaks && !BreaksClear(t.db.appointments, t.db.breaks)
            && Invariant(Play(w, [1, 0, 1, 1]).db)
  {
    BreakCrosses(db, r, breakId);
    CreateNeverViolates(db, r.id, r.customer, r.barber, r.service, r.start, r.now);
    CreateKeeps(db, r.id, r.customer, r.barber, r.service, r.start, r.now);
  }

  /** A closure of just the local day asked for. */
  function ClosureOver(db: Tables, r: Request, closureId: Id): Request
    requires r.CreateRequest? && HasShop(db, r.barber)
  {
    var day := ZoneOf(db, r.barber).LocalDay(r.start);
    CreateClosureRequest(closureId, Closure(db.barbers[r.barber].shop, day, day), true)
  }

  /** The shop has no live booking on the day of the start asked for. */
  predicate DayUnbooked(db: Tables, r: Request)
    requires r.CreateRequest? && HasShop(db, r.barber)
  {
    var zone := ZoneOf(db, r.barber);
    var day := zone.LocalDay(r.start);
    !ShopBookedDuring(db, db.barbers[r.barber].shop, Span(zone.DayStart(day), zone.DayStart(day + 1)))
  }

  lemma OfferedDayIsOpen(db: Tables, r: Request, closureId: Id)
    requires WellFormed(db) && OnOffer(db, r)
    ensures !Recorded(db, ClosureOver(db, r, closureId).closure)
  {
    var shut := ClosureOver(db, r, closureId).closure;
    forall c | c in db.closures ensures db.closures[c] != shut {
      assert !Shut(db, shut.shop, shut.first);
    }
  }

  lemma ClosureCrosses(db: Tables, r: Request, closureId: Id)
    requires WellFormed(db) && OnOffer(db, r) && closureId !in db.closures && DayUnbooked(db, r)
    ensures var k, row := ClosureOver(db, r, closureId), NewRowOf(db, r);
            var after := Put(db.(closures := db.closures[closureId := k.closure]), r.id, row);
            && Play(World(db, [Task(r, Begun), Task(k, Begun)]), [0, 0, 1, 1, 0]) ==
               World(after, [Task(r, Ended(Done)), Task(k, Ended(Done))])
            && Play(World(db, [Task(k, Begun), Task(r, Begun)]), [1, 0, 1, 1, 0]) ==
               World(after, [Task(k, Ended(Done)), Task(r, Ended(Done))])
            && Play(World(db, [Task(k, Begun), Task(r, Begun)]), [1, 0, 1, 1]).db == Put(db, r.id, row)
            && WellFormed(after) && !ClosuresClear(after)
  {
    var k, row, zone := ClosureOver(db, r, closureId), NewRowOf(db, r), ZoneOf(db, r.barber);
    var closed := db.(closures := db.closures[closureId := k.closure]);
    OfferedDayIsOpen(db, r, closureId);
    Crossing(db, r, k, closed);
    DayOfInstant(zone, r.start, zone.LocalDay(r.start));
    NotOpen(Put(closed, r.id, row), r.id, closureId);
  }

  /** The same for a closure of the day, if the shop has no booking then: between a booking's check and its commit. */
  lemma ClosureSlipsIn(db: Tables, r: Request, closureId: Id)
    requires WellFormed(db) && OnOffer(db, r) && closureId !in db.closures && DayUnbooked(db, r)
    ensures var k := ClosureOver(db, r, closureId);
            var t := Play(World(db, [Task(r, Begun), Task(k, Begun)]), [0, 0, 1, 1, 0]);
            && t.tasks == [Task(r, Ended(Done)), Task(k, Ended(Done))]
            && r.id in t.db.appointments && closureId in t.db.closures && WellFormed(t.db) && !ClosuresClear(t.db)
  {
    ClosureCrosses(db, r, closureId);
  }

  /** And a booking between a closure's look-up and its record. */
  lemma BookingSlipsUnderClosure(db: Tables, r: Request, closureId: Id)
    requires Invariant(db) && OnOffer(db, r) && closureId !in db.closures && DayUnbooked(db, r)
    ensures var k := ClosureOver(db, r, closureId);
            var w := World(db, [Task(k, Begun), Task(r, Begun)]);
            var t := Play(w, [1, 0, 1, 1, 0]);
            && t.tasks == [Task(k, Ended(Done)), Task(r, Ended(Done))]
            && r.id in t.db.appointments && closureId in t.db.closures && WellFormed(t.db) && !ClosuresClear(t.db)
            && Invariant(Play(w, [1, 0, 1, 1]).db)
  {
    ClosureCrosses(db, r, closureId);
    CreateNeverViolates(db, r.id, r.customer, r.barber, r.service, r.start, r.now);
    CreateKeeps(db, r.id, r.customer, r.barber, r.service, r.start, r.now);
  }
}
