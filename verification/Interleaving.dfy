/**
 * Requests as they really run: each is split into its reads and its commit, and takes no row lock, so
 * a commit may rest on rows that have changed since they were read.  Every read sees the latest
 * commit; every commit is checked against the table constraints as they stand then.
 */
module Interleaving {
  import opened Zones
  import opened Booking
  import opened BookingLaws

  datatype Phase =
    | Begun
      /** A reschedule that has read its row and passed its guards. */
    | Loaded(row: Appointment)
      /** An availability query half done: the shop is open on the day, as the tables were at `first`. */
    | Looking(first: Tables, seen: map<Id, Appointment>, rows: map<Id, Appointment>)
      /** The start was not on offer; whether it would be without appointments is read next. */
    | Missed(barber: Id, service: Id, start: int, now: int)
      /** A break or closure request that has found no booking in its way, and is about to record. */
    | Cleared
      /** About to commit `rows`; the ones that existed were read as `seen`. */
    | Writing(seen: map<Id, Appointment>, rows: map<Id, Appointment>)
    | Ended(outcome: Outcome)

  datatype Task = Task(request: Request, phase: Phase)

  datatype World = World(db: Tables, tasks: seq<Task>)

  // ---- a commit ----

  /** An update writes only the columns the request changed. */
  function Merge(read: Appointment, row: Appointment, current: Appointment): Appointment {
    current.(status := if row.status == read.status then current.status else row.status,
             start := if row.start == read.start then current.start else row.start,
             end := if row.end == read.end then current.end else row.end)
  }

  /** The rows a commit inserts, or updates because some column changed. */
  function Touched(db: Tables, seen: map<Id, Appointment>, rows: map<Id, Appointment>): set<Id> {
    set id | id in rows && (id in seen ==> id in db.appointments && seen[id] != rows[id])
  }

  function Written(db: Tables, seen: map<Id, Appointment>, rows: map<Id, Appointment>): Tables {
    db.(appointments := db.appointments + map id | id in Touched(db, seen, rows) ::
          if id in seen then Merge(seen[id], rows[id], db.appointments[id]) else rows[id])
  }

  predicate KeysFree(db: Tables, seen: map<Id, Appointment>, rows: map<Id, Appointment>) {
    forall id | id in rows && id !in seen :: id !in db.appointments
  }

  predicate ChecksHold(db: Tables, seen: map<Id, Appointment>, rows: map<Id, Appointment>) {
    forall id | id in Touched(db, seen, rows) :: RowChecks(Written(db, seen, rows).appointments[id])
  }

  predicate ExclusionHolds(db: Tables, seen: map<Id, Appointment>, rows: map<Id, Appointment>) {
    forall id | id in Touched(db, seen, rows) ::
      Exclusive(Written(db, seen, rows), id, Written(db, seen, rows).appointments[id])
  }

  /** A refused commit writes nothing; only create and reschedule turn an exclusion violation into SLOT_TAKEN. */
  function CommitRows(db: Tables, seen: map<Id, Appointment>, rows: map<Id, Appointment>, slotTaken: bool): Reply {
    if !KeysFree(db, seen, rows) || !ChecksHold(db, seen, rows) then Reply(db, ServerError)
    else if !ExclusionHolds(db, seen, rows) then Reply(db, if slotTaken then SlotTaken else ServerError)
    else Reply(Written(db, seen, rows), Done)
  }

  // ---- one step of one request ----

  /** The half of an availability query that reads barber, shop, service and closures, for the row to be written. */
  ghost function LookFirst(db: Tables, r: Request, seen: map<Id, Appointment>, row: Appointment): Phase
    requires r.CreateRequest? || r.RescheduleRequest?
  {
    if Resolve(db, row.barber, row.service) != Done then Ended(Resolve(db, row.barber, row.service))
    else if !HasShop(db, row.barber) then Ended(ServerError)
    else
      var day := ZoneOf(db, row.barber).LocalDay(r.start);
      if LoadAndValidate(db, row.barber, row.service) != Done then Ended(LoadAndValidate(db, row.barber, row.service))
      else if LocalDayBounds(day, ZoneOf(db, row.barber)).Raises? then Ended(ServerError)
      else if Shut(db, db.barbers[row.barber].shop, day) then Missed(row.barber, row.service, r.start, r.now)
      else Looking(db, seen, map[r.id := row])
  }

  /** What the query has seen by its end: working hours, bookings and breaks are read last. */
  function Mixed(first: Tables, db: Tables): Tables {
    first.(hours := db.hours, breaks := db.breaks, appointments := db.appointments)
  }

  /** The appointments a request's own query leaves out. */
  function Leaves(r: Request): Leaving {
    if r.RescheduleRequest? then One(r.id) else Nobody
  }

  /** The other half, which decides. */
  ghost function LookSecond(db: Tables, r: Request, first: Tables, seen: map<Id, Appointment>,
                            rows: map<Id, Appointment>): Phase
  {
    if !(r.CreateRequest? || r.RescheduleRequest?) || r.id !in rows then Ended(NotFound)
    else
      var row, view := rows[r.id], Mixed(first, db);
      if !HasShop(view, row.barber) || row.service !in view.services then Ended(NotFound)
      else
        var day := ZoneOf(view, row.barber).LocalDay(r.start);
        if BadShift(view, row.barber, day, ZoneOf(view, row.barber)) then Ended(ServerError)
        else if Offered(view, row.barber, row.service, day, r.now, Leaves(r), r.start) then Writing(seen, rows)
        else Missed(row.barber, row.service, r.start, r.now)
  }

  /** The second query, which only picks the error. */
  ghost function ReadIfEmpty(db: Tables, barber: Id, service: Id, start: int, now: int): Outcome {
    if !HasShop(db, barber) then ServerError
    else
      var day := ZoneOf(db, barber).LocalDay(start);
      var refusal := Refusal(db, barber, service, day);
      if refusal != Done then refusal
      else if Offered(db, barber, service, day, now, Everybody, start) then SlotTaken
      else OutsideWorkingHours
  }

  /** Guards of the requests that only change a status, on the row they read. */
  function StatusGuard(a: Appointment, r: Request): Outcome
    requires r.CancelRequest? || r.ConfirmRequest? || r.CloseOutRequest?
  {
    match r
    case CancelRequest(_, actor, now) => ChangeGuard(a, actor, now)
    case ConfirmRequest(_, actor) => ConfirmGuard(a, actor)
    case CloseOutRequest(_, _, actor, now) => CloseOutGuard(a, actor, now)
  }

  function TargetStatus(r: Request): Status
    requires r.CancelRequest? || r.ConfirmRequest? || r.CloseOutRequest?
  {
    if r.CancelRequest? then Cancelled else if r.ConfirmRequest? then Confirmed
    else if r.noShow then NoShow else Completed
  }

  function StaleRows(db: Tables, now: int): map<Id, Appointment> {
    map a | a in db.appointments && Stale(db.appointments[a], now) :: db.appointments[a]
  }

  function AllCancelled(rows: map<Id, Appointment>): map<Id, Appointment> {
    map a | a in rows :: rows[a].(status := Cancelled)
  }

  predicate OneStep(r: Request) {
    r.DeleteBreakRequest? || r.DeleteClosureRequest? || r.ReplaceHoursRequest? || r.CatalogChange?
  }

  /** Requests that add to the schedule: they look for bookings first, and record in a later step. */
  predicate Recording(r: Request) {
    r.CreateBreakRequest? || r.CreateClosureRequest?
  }

  function RecordingGuard(db: Tables, r: Request): Outcome
    requires Recording(r)
  {
    match r
    case CreateBreakRequest(_, k, staff) => BreakGuard(db, k, staff)
    case CreateClosureRequest(_, c, staff) => ClosureGuard(db, c, staff)
  }

  function Record(db: Tables, r: Request): Reply
    requires Recording(r)
  {
    match r
    case CreateBreakRequest(id, k, _) => RecordBreak(db, id, k)
    case CreateClosureRequest(id, c, _) => RecordClosure(db, id, c)
  }

  ghost function FirstRead(db: Tables, r: Request): Phase
    requires !OneStep(r)
  {
    if r.CreateRequest? then
      if Resolve(db, r.barber, r.service) != Done then Ended(Resolve(db, r.barber, r.service))
      else if !HasShop(db, r.barber) then Ended(ServerError)
      else
        LookFirst(db, r, map[], NewRow(db, r.customer, r.barber, r.service, r.start, r.now))
    else if Recording(r) then
      if RecordingGuard(db, r) != Done then Ended(RecordingGuard(db, r)) else Cleared
    else if r.ExpireTask? then
      Writing(StaleRows(db, r.now), AllCancelled(StaleRows(db, r.now)))
    else if Load(db, r.id, r.actor) != Done then Ended(Load(db, r.id, r.actor))
    else
      var a := db.appointments[r.id];
      if r.RescheduleRequest? then
        if ChangeGuard(a, r.actor, r.now) != Done then Ended(ChangeGuard(a, r.actor, r.now)) else Loaded(a)
      else if StatusGuard(a, r) != Done then Ended(StatusGuard(a, r))
      else Writing(map[r.id := a], map[r.id := a.(status := TargetStatus(r))])
  }

  /** The next step of a request; removals, new hours and catalog changes are taken as one step. */
  ghost function Advance(db: Tables, task: Task): (Tables, Phase) {
    var r := task.request;
    match task.phase
    case Begun =>
      if OneStep(r) then (Handle(db, r).tables, Ended(Handle(db, r).outcome)) else (db, FirstRead(db, r))
    case Loaded(row) =>
      if r.RescheduleRequest? && row.service in db.services then
        (db, LookFirst(db, r, map[r.id := row], Moved(db, row, r.start)))
      else (db, Ended(NotFound))
    case Looking(first, seen, rows) => (db, LookSecond(db, r, first, seen, rows))
    case Cleared => if Recording(r) then (Record(db, r).tables, Ended(Record(db, r).outcome)) else (db, Ended(NotFound))
    case Missed(barber, service, start, now) => (db, Ended(ReadIfEmpty(db, barber, service, start, now)))
    case Writing(seen, rows) =>
      var reply := CommitRows(db, seen, rows, r.CreateRequest? || r.RescheduleRequest?);
      (reply.tables, Ended(reply.outcome))
    case Ended(_) => (db, task.phase)
  }

  ghost function Turn(w: World, i: nat): World {
    if i >= |w.tasks| then w
    else
      var (db, phase) := Advance(w.db, w.tasks[i]);
      World(db, w.tasks[i := w.tasks[i].(phase := phase)])
  }

  /** The world after the requests have taken turns in the given order. */
  ghost function Play(w: World, order: seq<nat>): World
    decreases |order|
  {
    if order == [] then w else Turn(Play(w, order[..|order| - 1]), order[|order| - 1])
  }

  // ---- every request ends ----

  /** The most turns a request still needs. */
  function TurnsLeft(phase: Phase): nat {
    match phase
    case Begun => 4
    case Loaded(_) => 3
    case Looking(_, _, _) => 2
    case Missed(_, _, _, _) => 1
    case Cleared => 1
    case Writing(_, _) => 1
    case Ended(_) => 0
  }

  lemma AdvanceBringsOn(db: Tables, task: Task)
    ensures TurnsLeft(Advance(db, task).1) < TurnsLeft(task.phase) || TurnsLeft(Advance(db, task).1) == 0
  {
  }

  function TurnsOf(order: seq<nat>, i: nat): nat {
    if order == [] then 0 else TurnsOf(order[..|order| - 1], i) + if order[|order| - 1] == i then 1 else 0
  }

  /** Whatever the others do, a request has ended after four turns of its own. */
  lemma {:induction false} EndsWithinFourTurns(w: World, order: seq<nat>, i: nat)
    requires i < |w.tasks|
    ensures |Play(w, order).tasks| == |w.tasks|
    ensures TurnsLeft(Play(w, order).tasks[i].phase) <= if TurnsOf(order, i) < 4 then 4 - TurnsOf(order, i) else 0
    decreases |order|
  {
    if order != [] {
      var before, k := Play(w, order[..|order| - 1]), order[|order| - 1];
      EndsWithinFourTurns(w, order[..|order| - 1], i);
      if k < |before.tasks| {
        AdvanceBringsOn(before.db, before.tasks[k]);
      }
    }
  }

  // ---- no double booking, in every interleaving ----

  lemma CommitExcludes(db: Tables, seen: map<Id, Appointment>, rows: map<Id, Appointment>, slotTaken: bool)
    requires NoDoubleBooking(db.appointments)
    ensures NoDoubleBooking(CommitRows(db, seen, rows, slotTaken).tables.appointments)
  {
  }

  lemma AdvanceExcludes(db: Tables, task: Task)
    requires NoDoubleBooking(db.appointments)
    ensures NoDoubleBooking(Advance(db, task).0.appointments)
  {
    if task.phase.Writing? {
      CommitExcludes(db, task.phase.seen, task.phase.rows,
                     task.request.CreateRequest? || task.request.RescheduleRequest?);
    } else if OneStep(task.request) {
      assert Handle(db, task.request).tables.appointments == db.appointments;
    }
  }

  /**
   * Whatever requests run, in whatever order their steps interleave, and however stale their reads:
   * no two live rows of one barber ever overlap.
   */
  lemma {:induction false} NeverDoubleBooked(w: World, order: seq<nat>)
    requires NoDoubleBooking(w.db.appointments)
    ensures NoDoubleBooking(Play(w, order).db.appointments)
    decreases |order|
  {
    if order != [] {
      var before := Play(w, order[..|order| - 1]);
      NeverDoubleBooked(w, order[..|order| - 1]);
      if order[|order| - 1] < |before.tasks| {
        AdvanceExcludes(before.db, before.tasks[order[|order| - 1]]);
      }
    }
  }

  // ---- one request alone ----

  lemma PlayNext(w: World, order: seq<nat>, i: nat)
    ensures Play(w, order + [i]) == Turn(Play(w, order), i)
  {
    assert (order + [i])[..|order|] == order;
  }

  lemma PlayThree(w: World, i: nat, j: nat, k: nat)
    ensures Play(w, [i, j, k]) == Turn(Turn(Turn(w, i), j), k)
  {
    PlayNext(w, [], i);
    PlayNext(w, [i], j);
    PlayNext(w, [i, j], k);
    assert [] + [i] == [i] && [i] + [j] == [i, j] && [i, j] + [k] == [i, j, k];
  }

  lemma PlayFour(w: World, i: nat, j: nat, k: nat, l: nat)
    ensures Play(w, [i, j, k, l]) == Turn(Play(w, [i, j, k]), l)
  {
    PlayNext(w, [i, j, k], l);
    assert [i, j, k] + [l] == [i, j, k, l];
  }

  /** The first turn may be taken before the rest. */
  lemma {:induction false} PlayFirst(w: World, i: nat, order: seq<nat>)
    ensures Play(w, [i] + order) == Play(Turn(w, i), order)
    decreases |order|
  {
    if order == [] {
      PlayNext(w, [], i);
      assert [i] + order == [] + [i];
    } else {
      var rest, last := order[..|order| - 1], order[|order| - 1];
      PlayFirst(w, i, rest);
      PlayNext(w, [i] + rest, last);
      assert [i] + order == [i] + rest + [last];
    }
  }

  lemma TurnStep(w: World, i: nat, db: Tables, phase: Phase)
    requires i < |w.tasks| && Advance(w.db, w.tasks[i]) == (db, phase)
    ensures Turn(w, i) == World(db, w.tasks[i := w.tasks[i].(phase := phase)])
  {
  }

  /** Checking the constraint with the row in place is checking it before. */
  lemma ExclusiveOnceWritten(db: Tables, id: Id, row: Appointment)
    ensures Exclusive(Put(db, id, row), id, row) <==> Exclusive(db, id, row)
  {
    forall o | o in db.appointments && o != id ensures o in Put(db, id, row).appointments {}
  }

  lemma InsertResult(db: Tables, id: Id, row: Appointment)
    requires id !in db.appointments
    ensures CommitRows(db, map[], map[id := row], true) == CommitOrSlotTaken(db, id, row)
  {
    var rows := map[id := row];
    assert Touched(db, map[], rows) == {id};
    assert Written(db, map[], rows) == Put(db, id, row);
    ExclusiveOnceWritten(db, id, row);
  }

  lemma OneRowWritten(db: Tables, id: Id, a: Appointment, row: Appointment)
    requires id in db.appointments && row != a
    ensures var seen, rows := map[id := a], map[id := row];
            Touched(db, seen, rows) == {id} && Written(db, seen, rows) ==
                Put(db, id, Merge(a, row, db.appointments[id]))
  {
    assert Touched(db, map[id := a], map[id := row]) == {id};
  }

  /** A commit of one row read as `a`: its changed columns go into the row as it stands, if the constraints allow. */
  lemma OneRowCommit(db: Tables, id: Id, a: Appointment, row: Appointment, slotTaken: bool)
    requires id in db.appointments && row != a
    ensures var merged := Merge(a, row, db.appointments[id]);
            CommitRows(db, map[id := a], map[id := row], slotTaken) ==
            if slotTaken then CommitOrSlotTaken(db, id, merged) else Commit(db, id, merged)
  {
    OneRowWritten(db, id, a, row);
    ExclusiveOnceWritten(db, id, Merge(a, row, db.appointments[id]));
  }

  /** A row written back as it was read is not written. */
  lemma NothingToCommit(db: Tables, id: Id, a: Appointment, slotTaken: bool)
    ensures CommitRows(db, map[id := a], map[id := a], slotTaken) == Reply(db, Done)
  {
    assert Touched(db, map[id := a], map[id := a]) == {};
    assert Written(db, map[id := a], map[id := a]) == db;
  }

  /** Taking its turns with nobody else about, the request does what it is specified to do. */
  ghost predicate RunsAsSpecified(db: Tables, r: Request) {
    var reply := Handle(db, r);
    Play(World(db, [Task(r, Begun)]), [0, 0, 0, 0]) == World(reply.tables, [Task(r, Ended(reply.outcome))])
  }

  lemma OneTurn(db: Tables, task: Task)
    ensures var (t, p) := Advance(db, task);
            Turn(World(db, [task]), 0) == World(t, [task.(phase := p)])
  {
    TurnStep(World(db, [task]), 0, Advance(db, task).0, Advance(db, task).1);
  }

  lemma InFourTurns(db: Tables, r: Request, x: (Tables, Phase), y: (Tables, Phase), z: (Tables, Phase))
    requires x == Advance(db, Task(r, Begun)) && y == Advance(x.0, Task(r, x.1)) && z == Advance(y.0, Task(r, y.1))
    requires Advance(z.0, Task(r, z.1)) == (Handle(db, r).tables, Ended(Handle(db, r).outcome))
    ensures RunsAsSpecified(db, r)
  {
    var w := World(db, [Task(r, Begun)]);
    PlayThree(w, 0, 0, 0);
    PlayFour(w, 0, 0, 0, 0);
    OneTurn(db, Task(r, Begun));
    OneTurn(x.0, Task(r, x.1));
    OneTurn(y.0, Task(r, y.1));
    OneTurn(z.0, Task(r, z.1));
  }

  /** Once ended, a request stays ended. */
  lemma InTwoTurns(db: Tables, r: Request, x: (Tables, Phase))
    requires x == Advance(db, Task(r, Begun))
    requires Advance(x.0, Task(r, x.1)) == (Handle(db, r).tables, Ended(Handle(db, r).outcome))
    ensures RunsAsSpecified(db, r)
  {
    var y := (Handle(db, r).tables, Ended(Handle(db, r).outcome));
    InFourTurns(db, r, x, y, y);
  }

  /** Both halves of a query over the same tables decide as one. */
  lemma LookBoth(db: Tables, r: Request, seen: map<Id, Appointment>, row: Appointment)
    requires r.CreateRequest? || r.RescheduleRequest?
    requires Resolve(db, row.barber, row.service) == Done
    ensures var p := LookFirst(db, r, seen, row);
            var q := if p.Looking? then LookSecond(db, r, p.first, p.seen, p.rows) else p;
            var offer := OfferOutcome(db, row.barber, row.service, r.start, r.now, Leaves(r));
            if offer == Done then p.Looking? && q == Writing(seen, map[r.id := row])
            else q == Ended(offer) ||
                 (q == Missed(row.barber, row.service, r.start, r.now) &&
                  ReadIfEmpty(db, row.barber, row.service, r.start, r.now) == offer)
  {
    assert Mixed(db, db) == db;
  }

  /** From the start of its query on, a create or a reschedule ends as the offer and then the constraints decide. */
  lemma QueryAlone(db: Tables, r: Request, seen: map<Id, Appointment>, row: Appointment, committed: Reply)
    requires r.CreateRequest? || r.RescheduleRequest?
    requires Resolve(db, row.barber, row.service) == Done
    requires var offer := OfferOutcome(db, row.barber, row.service, r.start, r.now, Leaves(r));
             if offer == Done then CommitRows(db, seen, map[r.id := row], true) == committed
             else committed == Reply(db, offer)
    ensures var y := Advance(db, Task(r, LookFirst(db, r, seen, row)));
            Advance(y.0, Task(r, y.1)) == (committed.tables, Ended(committed.outcome))
  {
    LookBoth(db, r, seen, row);
  }

  lemma CreateAlone(db: Tables, r: Request)
    requires r.CreateRequest? && r.id !in db.appointments
    ensures RunsAsSpecified(db, r)
  {
    var x := (db, FirstRead(db, r));
    if Resolve(db, r.barber, r.service) != Done || !HasShop(db, r.barber) {
      InTwoTurns(db, r, x);
    } else {
      ResolvedCreateAlone(db, r);
      var y := Advance(db, Task(r, x.1));
      InFourTurns(db, r, x, y, Advance(y.0, Task(r, y.1)));
    }
  }

  /** A create from where it has resolved its barber and service. */
  lemma ResolvedCreateAlone(db: Tables, r: Request)
    requires r.CreateRequest? && r.id !in db.appointments
    requires Resolve(db, r.barber, r.service) == Done && HasShop(db, r.barber)
    ensures var y := Advance(db, Task(r, FirstRead(db, r)));
            Advance(y.0, Task(r, y.1)) == (Handle(db, r).tables, Ended(Handle(db, r).outcome))
  {
    var row := NewRow(db, r.customer, r.barber, r.service, r.start, r.now);
    InsertResult(db, r.id, row);
    QueryAlone(db, r, map[], row, Handle(db, r));
  }

  /** Cancel, confirm and close-out share one shape. */
  lemma StatusRequestShape(db: Tables, r: Request)
    requires r.CancelRequest? || r.ConfirmRequest? || r.CloseOutRequest?
    ensures Handle(db, r) ==
            if Load(db, r.id, r.actor) != Done then Reply(db, Load(db, r.id, r.actor))
            else if StatusGuard(db.appointments[r.id], r) != Done then Reply(db, StatusGuard(db.appointments[r.id], r))
            else Commit(db, r.id, db.appointments[r.id].(status := TargetStatus(r)))
  {
  }

  /** And one first step. */
  lemma StatusFirstRead(db: Tables, r: Request)
    requires r.CancelRequest? || r.ConfirmRequest? || r.CloseOutRequest?
    ensures FirstRead(db, r) ==
            if Load(db, r.id, r.actor) != Done then Ended(Load(db, r.id, r.actor))
            else if StatusGuard(db.appointments[r.id], r) != Done then Ended(StatusGuard(db.appointments[r.id], r))
            else Writing(map[r.id := db.appointments[r.id]],
                         map[r.id := db.appointments[r.id].(status := TargetStatus(r))])
  {
  }

  lemma StatusChangeAlone(db: Tables, r: Request)
    requires r.CancelRequest? || r.ConfirmRequest? || r.CloseOutRequest?
    ensures RunsAsSpecified(db, r)
  {
    StatusRequestShape(db, r);
    StatusFirstRead(db, r);
    if Load(db, r.id, r.actor) == Done && StatusGuard(db.appointments[r.id], r) == Done {
      var a := db.appointments[r.id];
      OneRowCommit(db, r.id, a, a.(status := TargetStatus(r)), false);
    }
    InTwoTurns(db, r, (db, FirstRead(db, r)));
  }

  lemma RescheduleAlone(db: Tables, r: Request)
    requires Invariant(db) && r.RescheduleRequest?
    ensures RunsAsSpecified(db, r)
  {
    if Load(db, r.id, r.actor) != Done || ChangeGuard(db.appointments[r.id], r.actor, r.now) != Done {
      InTwoTurns(db, r, (db, FirstRead(db, r)));
    } else {
      LoadedAlone(db, r);
      var y := Advance(db, Task(r, Loaded(db.appointments[r.id])));
      InFourTurns(db, r, (db, Loaded(db.appointments[r.id])), y, Advance(y.0, Task(r, y.1)));
    }
  }

  /** A reschedule from where it has read its row. */
  lemma LoadedAlone(db: Tables, r: Request)
    requires Invariant(db) && r.RescheduleRequest?
    requires Load(db, r.id, r.actor) == Done && ChangeGuard(db.appointments[r.id], r.actor, r.now) == Done
    ensures var y := Advance(db, Task(r, Loaded(db.appointments[r.id])));
            var z := Advance(y.0, Task(r, y.1));
            Advance(z.0, Task(r, z.1)) == (Handle(db, r).tables, Ended(Handle(db, r).outcome))
  {
    var a := db.appointments[r.id];
    if Resolve(db, a.barber, a.service) == Done {
      if OfferOutcome(db, a.barber, a.service, r.start, r.now, One(r.id)) == Done {
        MoveResult(db, r.id, r.start, r.now);
      }
      QueryAlone(db, r, map[r.id := a], Moved(db, a, r.start), Handle(db, r));
    }
  }

  /** A move to where the row already is writes nothing, which is also what the constraints allow. */
  lemma MoveResult(db: Tables, id: Id, start: int, now: int)
    requires Invariant(db) && id in db.appointments
    requires var a := db.appointments[id];
             a.service in db.services && OfferOutcome(db, a.barber, a.service, start, now, One(id)) == Done
    ensures var a := db.appointments[id];
            CommitRows(db, map[id := a], map[id := Moved(db, a, start)], true) ==
            CommitOrSlotTaken(db, id, Moved(db, a, start))
  {
    var a := db.appointments[id];
    var row := Moved(db, a, start);
    if row == a {
      RescheduleNeverViolates(db, id, start, now);
      NothingToCommit(db, id, a, true);
      assert Put(db, id, row) == db;
    } else {
      OneRowCommit(db, id, a, row, true);
    }
  }

  function Cancelling(db: Tables, ids: set<Id>): Tables {
    db.(appointments := map id | id in db.appointments ::
          if id in ids then db.appointments[id].(status := Cancelled) else db.appointments[id])
  }

  lemma BatchWritten(db: Tables, seen: map<Id, Appointment>)
    requires forall id | id in seen :: seen[id].status.Pending?
    ensures Written(db, seen, AllCancelled(seen)) == Cancelling(db, seen.Keys)
  {
    var rows := AllCancelled(seen);
    assert forall id | id in seen && id in db.appointments ::
        seen[id] != rows[id] && Merge(seen[id], rows[id], db.appointments[id]) ==
            db.appointments[id].(status := Cancelled);
    assert forall id :: id in Touched(db, seen, rows) <==> id in seen && id in db.appointments;
    assert Written(db, seen, rows).appointments == Cancelling(db, seen.Keys).appointments;
  }

  /** An expiry commits its whole batch as CANCELLED, whatever the rows have become; no constraint stops it. */
  lemma BatchCommit(db: Tables, seen: map<Id, Appointment>)
    requires forall id | id in seen :: seen[id].status.Pending?
    requires forall id | id in db.appointments :: RowChecks(db.appointments[id])
    ensures CommitRows(db, seen, AllCancelled(seen), false) == Reply(Cancelling(db, seen.Keys), Done)
  {
    BatchWritten(db, seen);
  }

  lemma StaleBatch(db: Tables, now: int)
    ensures Cancelling(db, StaleRows(db, now).Keys) == Expire(db, now)
  {
    assert Cancelling(db, StaleRows(db, now).Keys).appointments == Expire(db, now).appointments;
  }

  lemma ExpiryAlone(db: Tables, r: Request)
    requires Invariant(db) && r.ExpireTask?
    ensures RunsAsSpecified(db, r)
  {
    var seen := StaleRows(db, r.now);
    BatchCommit(db, seen);
    StaleBatch(db, r.now);
    InTwoTurns(db, r, (db, Writing(seen, AllCancelled(seen))));
  }

  /** A break or a closure request: the look-up, and then the record. */
  lemma RecordingAlone(db: Tables, r: Request)
    requires Recording(r)
    ensures RunsAsSpecified(db, r)
  {
    InTwoTurns(db, r, (db, FirstRead(db, r)));
  }

  lemma OneStepAlone(db: Tables, r: Request)
    requires OneStep(r)
    ensures RunsAsSpecified(db, r)
  {
    InTwoTurns(db, r, (Handle(db, r).tables, Ended(Handle(db, r).outcome)));
  }

  /** The steps of a request, taken without interruption, are the request: the two levels tell one story. */
  lemma AloneIsSerial(db: Tables, r: Request)
    requires Invariant(db) && Legal(db, r)
    ensures RunsAsSpecified(db, r)
  {
    if OneStep(r) {
      OneStepAlone(db, r);
    } else {
      match r
      case CreateRequest(_, _, _, _, _, _) => CreateAlone(db, r);
      case RescheduleRequest(_, _, _, _) => RescheduleAlone(db, r);
      case ExpireTask(_) => ExpiryAlone(db, r);
      case CreateBreakRequest(_, _, _) => RecordingAlone(db, r);
      case CreateClosureRequest(_, _, _) => RecordingAlone(db, r);
      case _ => StatusChangeAlone(db, r);
    }
  }
}
