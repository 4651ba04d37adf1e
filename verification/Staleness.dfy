/** Which serial guarantees survive stale reads, and exactly when the others fail. */
module Staleness {
  import opened Booking
  import opened BookingLaws
  import opened Lifecycle
  import opened Interleaving

  // ---- kept in every interleaving ----

  lemma CommitKeepsFacts(db: Tables, seen: map<Id, Appointment>, rows: map<Id, Appointment>, slotTaken: bool, id: Id)
    requires id in db.appointments
    ensures var t := CommitRows(db, seen, rows, slotTaken).tables;
            id in t.appointments &&
            var a, b := db.appointments[id], t.appointments[id];
            b == a.(status := b.status, start := b.start, end := b.end)
  {
  }

  lemma AdvanceKeepsFacts(db: Tables, task: Task, id: Id)
    requires id in db.appointments
    ensures id in Advance(db, task).0.appointments
    ensures var a, b := db.appointments[id], Advance(db, task).0.appointments[id];
            b == a.(status := b.status, start := b.start, end := b.end)
  {
    if task.phase.Writing? {
      CommitKeepsFacts(db, task.phase.seen, task.phase.rows,
                       task.request.CreateRequest? || task.request.RescheduleRequest?, id);
    } else {
      assert Advance(db, task).0.appointments == db.appointments;
    }
  }

  /** However the requests interleave, a row is never lost, and its price, customer, barber and service never change. */
  lemma {:induction false} PriceIsFinalAlways(w: World, order: seq<nat>, id: Id)
    requires id in w.db.appointments
    ensures id in Play(w, order).db.appointments
    ensures var a, b := w.db.appointments[id], Play(w, order).db.appointments[id];
            b == a.(status := b.status, start := b.start, end := b.end)
    decreases |order|
  {
    if order != [] {
      var before, i := Play(w, order[..|order| - 1]), order[|order| - 1];
      PriceIsFinalAlways(w, order[..|order| - 1], id);
      if i < |before.tasks| {
        AdvanceKeepsFacts(before.db, before.tasks[i], id);
      }
    }
  }

  // ---- terminal rows ----

  /** Tasks only ever hold rows they read as live. */
  ghost predicate HoldsLiveRows(task: Task) {
    match task.phase
    case Loaded(row) => row.status.Live()
    case Looking(_, seen, _) => forall id | id in seen :: seen[id].status.Live()
    case Writing(seen, _) => forall id | id in seen :: seen[id].status.Live()
    case _ => true
  }

  lemma AdvanceHoldsLiveRows(db: Tables, task: Task)
    requires HoldsLiveRows(task)
    ensures HoldsLiveRows(task.(phase := Advance(db, task).1))
  {
  }

  lemma {:induction false} TasksHoldLiveRows(w: World, order: seq<nat>)
    requires forall i | 0 <= i < |w.tasks| :: w.tasks[i].phase == Begun
    ensures forall i | 0 <= i < |Play(w, order).tasks| :: HoldsLiveRows(Play(w, order).tasks[i])
    decreases |order|
  {
    if order != [] {
      var before, k := Play(w, order[..|order| - 1]), order[|order| - 1];
      TasksHoldLiveRows(w, order[..|order| - 1]);
      if k < |before.tasks| {
        AdvanceHoldsLiveRows(before.db, before.tasks[k]);
      }
    }
  }

  /** The commit about to be made, if any, finds every row in the status in which it was read. */
  ghost predicate FreshTurn(w: World, i: nat) {
    i < |w.tasks| && w.tasks[i].phase.Writing? ==>
      forall id | id in w.tasks[i].phase.seen && id in w.db.appointments ::
        w.db.appointments[id].status == w.tasks[i].phase.seen[id].status
  }

  lemma FreshTurnKeepsTerminal(w: World, i: nat, id: Id)
    requires i < |w.tasks| ==> HoldsLiveRows(w.tasks[i])
    requires FreshTurn(w, i) && id in w.db.appointments && Terminal(w.db.appointments[id])
    ensures id in Turn(w, i).db.appointments && Turn(w, i).db.appointments[id] == w.db.appointments[id]
  {
    if i < |w.tasks| && w.tasks[i].phase.Writing? {
      assert id !in w.tasks[i].phase.seen;
    }
  }

  /** If every commit finds the statuses it read, terminal rows stay frozen in that interleaving too. */
  lemma {:induction false} TerminalIsFinalWhenFresh(w: World, order: seq<nat>, id: Id)
    requires forall i | 0 <= i < |w.tasks| :: w.tasks[i].phase == Begun
    requires forall k | 0 <= k < |order| :: FreshTurn(Play(w, order[..k]), order[k])
    requires id in w.db.appointments && Terminal(w.db.appointments[id])
    ensures id in Play(w, order).db.appointments && Play(w, order).db.appointments[id] == w.db.appointments[id]
    decreases |order|
  {
    if order != [] {
      var rest := order[..|order| - 1];
      forall k | 0 <= k < |rest| ensures FreshTurn(Play(w, rest[..k]), rest[k]) {
        assert rest[..k] == order[..k];
        assert FreshTurn(Play(w, order[..k]), order[k]);
      }
      TerminalIsFinalWhenFresh(w, rest, id);
      TasksHoldLiveRows(w, rest);
      assert FreshTurn(Play(w, order[..|order| - 1]), order[|order| - 1]);
      FreshTurnKeepsTerminal(Play(w, rest), order[|order| - 1], id);
    }
  }

  /** Some column the request changed is not what the stored row has there. */
  predicate Differs(read: Appointment, row: Appointment, current: Appointment) {
    || (row.status != read.status && row.status != current.status)
    || (row.start != read.start && row.start != current.start)
    || (row.end != read.end && row.end != current.end)
  }

  /** This turn commits over the row. */
  ghost predicate Overwrites(w: World, i: nat, id: Id) {
    i < |w.tasks| && w.tasks[i].phase.Writing? &&
    var seen, rows := w.tasks[i].phase.seen, w.tasks[i].phase.rows;
    && CommitRows(w.db, seen, rows, true).outcome == Done
    && id in seen && id in rows && id in w.db.appointments && Differs(seen[id], rows[id], w.db.appointments[id])
  }

  lemma CommitOverwrites(db: Tables, seen: map<Id, Appointment>, rows: map<Id, Appointment>, slotTaken: bool, id: Id)
    requires id in db.appointments && CommitRows(db, seen, rows, slotTaken).outcome == Done
    ensures var after := CommitRows(db, seen, rows, slotTaken).tables.appointments;
            id in after &&
            (after[id] != db.appointments[id] <==>
             id in seen && id in rows && Differs(seen[id], rows[id], db.appointments[id]))
  {
  }

  lemma TurnOverwrites(w: World, i: nat, id: Id)
    requires id in w.db.appointments
    ensures var after := Turn(w, i).db.appointments;
            id in after && (after[id] != w.db.appointments[id] <==> Overwrites(w, i, id))
  {
    if i < |w.tasks| {
      var task := w.tasks[i];
      if task.phase.Writing? {
        var slotTaken := task.request.CreateRequest? || task.request.RescheduleRequest?;
        if CommitRows(w.db, task.phase.seen, task.phase.rows, slotTaken).outcome == Done {
          CommitOverwrites(w.db, task.phase.seen, task.phase.rows, slotTaken, id);
        }
      } else {
        assert Turn(w, i).db.appointments == w.db.appointments;
      }
    }
  }

  /** The row is as it was, now and after each turn before. */
  ghost predicate AlwaysAsItWas(w: World, order: seq<nat>, id: Id)
    requires id in w.db.appointments
    decreases |order|
  {
    id in Play(w, order).db.appointments && Play(w, order).db.appointments[id] == w.db.appointments[id] &&
    (order == [] || AlwaysAsItWas(w, order[..|order| - 1], id))
  }

  ghost predicate NeverOverwritten(w: World, order: seq<nat>, id: Id)
    decreases |order|
  {
    order == [] ||
    (var rest := order[..|order| - 1];
     NeverOverwritten(w, rest, id) && !Overwrites(Play(w, rest), order[|order| - 1], id))
  }

  /** A row, and so a terminal one, stays as it is all along an interleaving exactly when no commit writes over it. */
  lemma {:induction false} StaysExactlyWhen(w: World, order: seq<nat>, id: Id)
    requires id in w.db.appointments
    ensures AlwaysAsItWas(w, order, id) <==> NeverOverwritten(w, order, id)
    decreases |order|
  {
    if order != [] {
      var rest := order[..|order| - 1];
      StaysExactlyWhen(w, rest, id);
      if AlwaysAsItWas(w, rest, id) {
        TurnOverwrites(Play(w, rest), order[|order| - 1], id);
      }
    }
  }

  /** A cancel, confirm or close-out that read the row as `a`, passed its guards, and is about to commit. */
  function AboutTo(r: Request, a: Appointment): Task
    requires r.CancelRequest? || r.ConfirmRequest? || r.CloseOutRequest?
  {
    Task(r, Writing(map[r.id := a], map[r.id := a.(status := TargetStatus(r))]))
  }

  lemma StatusCommit(db: Tables, r: Request, a: Appointment)
    requires r.CancelRequest? || r.ConfirmRequest? || r.CloseOutRequest?
    requires StatusGuard(a, r) == Done && r.id in db.appointments
    ensures var row := db.appointments[r.id].(status := TargetStatus(r));
            Advance(db, AboutTo(r, a)) ==
            if RowChecks(row) && Exclusive(db, r.id, row) then (Put(db, r.id, row), Ended(Done))
            else (db, Ended(ServerError))
  {
    OneRowCommit(db, r.id, a, a.(status := TargetStatus(r)), false);
  }

  /**
   * Terminality fails, exactly: a commit changes a row that has become terminal since it was read if and
   * only if it writes another status, and, for a confirm, the slot has not been given away meanwhile.
   */
  lemma TerminalOverwrittenExactlyWhen(db: Tables, r: Request, a: Appointment)
    requires r.CancelRequest? || r.ConfirmRequest? || r.CloseOutRequest?
    requires StatusGuard(a, r) == Done
    requires r.id in db.appointments && Terminal(db.appointments[r.id]) && RowChecks(db.appointments[r.id])
    ensures var row := db.appointments[r.id];
            Advance(db, AboutTo(r, a)).0.appointments[r.id] != row <==>
            row.status != TargetStatus(r) && (r.ConfirmRequest? ==> Exclusive(db, r.id, row.(status := Confirmed)))
  {
    StatusCommit(db, r, a);
  }

  /**
   * A reschedule moves a row that has become terminal since it was read exactly when its changed columns make
   * a difference there and leave the end after the start; the other bookings do not matter to a terminal row.
   */
  lemma TerminalMovedExactlyWhen(db: Tables, r: Request, a: Appointment, row: Appointment)
    requires r.RescheduleRequest? && row == a.(start := row.start, end := row.end)
    requires r.id in db.appointments && Terminal(db.appointments[r.id])
    ensures var was := db.appointments[r.id];
            Advance(db, Task(r, Writing(map[r.id := a], map[r.id := row]))).0.appointments[r.id] != was <==>
            (((row.start != a.start && row.start != was.start) || (row.end != a.end && row.end != was.end)) &&
             RowChecks(Merge(a, row, was)))
  {
    if row == a {
      NothingToCommit(db, r.id, a, true);
    } else {
      OneRowCommit(db, r.id, a, row, true);
    }
  }

  /** An expiry that is about to commit the batch it read. */
  function Expiring(now: int, seen: map<Id, Appointment>): Task {
    Task(ExpireTask(now), Writing(seen, AllCancelled(seen)))
  }

  /**
   * An expiry changes a row that has become terminal exactly when it had read it as overdue and it is not
   * CANCELLED.
   */
  lemma TerminalExpiredExactlyWhen(db: Tables, now: int, seen: map<Id, Appointment>, id: Id)
    requires forall o | o in seen :: seen[o].status.Pending?
    requires forall o | o in db.appointments :: RowChecks(db.appointments[o])
    requires id in db.appointments && Terminal(db.appointments[id])
    ensures Advance(db, Expiring(now, seen)).0.appointments[id] != db.appointments[id] <==>
            id in seen && db.appointments[id].status != Cancelled
  {
    BatchCommit(db, seen);
  }

  /** A commit whose row is still as it was read is the whole request, run at once. */
  lemma FreshCommitIsSerial(db: Tables, r: Request, a: Appointment)
    requires r.CancelRequest? || r.ConfirmRequest? || r.CloseOutRequest?
    requires !r.actor.Stranger? && StatusGuard(a, r) == Done
    requires r.id in db.appointments && db.appointments[r.id] == a
    ensures Advance(db, AboutTo(r, a)) == (Handle(db, r).tables, Ended(Handle(db, r).outcome))
  {
    StatusCommit(db, r, a);
  }

  // ---- reachable failures ----

  /** A confirm of a pending row commits over whatever status the row has taken since. */
  lemma ConfirmingOver(db: Tables, id: Id, status: Status)
    requires NoDoubleBooking(db.appointments) && id in db.appointments
    requires db.appointments[id].status.Pending? && RowChecks(db.appointments[id])
    ensures var a, confirm := db.appointments[id], ConfirmRequest(id, Staff);
            Advance(Put(db, id, a.(status := status)), AboutTo(confirm, a)) ==
                (Put(db, id, a.(status := Confirmed)), Ended(Done))
  {
    var a := db.appointments[id];
    var changed := Put(db, id, a.(status := status));
    StatusCommit(changed, ConfirmRequest(id, Staff), a);
    forall o | o in changed.appointments && o != id
      ensures !Clashing(a.(status := Confirmed), changed.appointments[o])
    {
      assert !Clashing(a, db.appointments[o]);
    }
    assert Put(changed, id, a.(status := Confirmed)) == Put(db, id, a.(status := Confirmed));
  }

  /**
   * A confirm that read PENDING revives a row whose cancellation was committed in between: from any
   * tables with a pending row, the order confirm-read, cancel-read, cancel-commit, confirm-commit does it.
   */
  lemma StaleConfirmRevives(db: Tables, id: Id, now: int)
    requires NoDoubleBooking(db.appointments) && id in db.appointments
    requires db.appointments[id].status.Pending? && RowChecks(db.appointments[id])
    ensures var confirm, cancel := ConfirmRequest(id, Staff), CancelRequest(id, Staff, now);
            var a, w := db.appointments[id], World(db, [Task(confirm, Begun), Task(cancel, Begun)]);
            && Play(w, [0, 1, 1]).db == Put(db, id, a.(status := Cancelled))
            && Play(w, [0, 1, 1, 0]) ==
               World(Put(db, id, a.(status := Confirmed)), [Task(confirm, Ended(Done)), Task(cancel, Ended(Done))])
  {
    var confirm, cancel := ConfirmRequest(id, Staff), CancelRequest(id, Staff, now);
    var a := db.appointments[id];
    var cancelled, confirmed := Put(db, id, a.(status := Cancelled)), Put(db, id, a.(status := Confirmed));
    StatusCommit(db, cancel, a);
    ConfirmingOver(db, id, Cancelled);
    OverAnother(db, Task(confirm, Begun), AboutTo(confirm, a).phase, Task(cancel, Begun), AboutTo(cancel, a).phase,
                cancelled, confirmed);
  }

  lemma FirstMoves(db: Tables, s: Task, t: Task, db': Tables, p: Phase)
    requires Advance(db, s) == (db', p)
    ensures Turn(World(db, [s, t]), 0) == World(db', [s.(phase := p), t])
  {
    TurnStep(World(db, [s, t]), 0, db', p);
  }

  lemma SecondMoves(db: Tables, s: Task, t: Task, db': Tables, p: Phase)
    requires Advance(db, t) == (db', p)
    ensures Turn(World(db, [s, t]), 1) == World(db', [s, t.(phase := p)])
  {
    TurnStep(World(db, [s, t]), 1, db', p);
  }

  /** The first task makes its last read, the second reads and commits, and then the first commits. */
  lemma OverAnother(db: Tables, s: Task, p: Phase, t: Task, o: Phase, between: Tables, after: Tables)
    requires Advance(db, s) == (db, p) && Advance(db, t) == (db, o)
    requires Advance(db, t.(phase := o)) == (between, Ended(Done))
    requires Advance(between, s.(phase := p)) == (after, Ended(Done))
    ensures var w := World(db, [s, t]);
            && Play(w, [0, 1, 1]).db == between
            && Play(w, [0, 1, 1, 0]) == World(after, [Task(s.request, Ended(Done)), Task(t.request, Ended(Done))])
  {
    var w := World(db, [s, t]);
    PlayThree(w, 0, 1, 1);
    PlayFour(w, 0, 1, 1, 0);
    FirstMoves(db, s, t, db, p);
    SecondMoves(db, s.(phase := p), t, db, o);
    SecondMoves(db, s.(phase := p), t.(phase := o), between, Ended(Done));
    FirstMoves(between, s.(phase := p), Task(t.request, Ended(Done)), after, Ended(Done));
  }

  /** Completing a booking that has started, step by step. */
  lemma Completing(db: Tables, id: Id, now: int)
    requires id in db.appointments && RowChecks(db.appointments[id])
    requires db.appointments[id].status.Live() && db.appointments[id].start <= now
    ensures var complete, a := CloseOutRequest(id, false, Staff, now), db.appointments[id];
            && Advance(db, Task(complete, Begun)) == (db, AboutTo(complete, a).phase)
            && Advance(db, AboutTo(complete, a)) == (Put(db, id, a.(status := Completed)), Ended(Done))
  {
    StatusCommit(db, CloseOutRequest(id, false, Staff, now), db.appointments[id]);
  }

  /** An expiry whose batch was read before a row of it changed status. */
  lemma ExpiringOver(db: Tables, id: Id, status: Status, now: int)
    requires forall o | o in db.appointments :: RowChecks(db.appointments[o])
    requires id in db.appointments && Stale(db.appointments[id], now)
    ensures Advance(db, Task(ExpireTask(now), Begun)) == (db, Expiring(now, StaleRows(db, now)).phase)
    ensures Advance(Put(db, id, db.appointments[id].(status := status)), Expiring(now, StaleRows(db, now))) ==
            (Expire(db, now), Ended(Done))
  {
    var seen, changed := StaleRows(db, now), Put(db, id, db.appointments[id].(status := status));
    BatchCommit(changed, seen);
    StaleBatch(db, now);
    assert Cancelling(changed, seen.Keys).appointments == Cancelling(db, seen.Keys).appointments;
  }

  /**
   * An expiry that read a row as overdue cancels it although it was completed in between, from any tables with
   * an overdue row that has started.
   */
  lemma StaleExpiryCancels(db: Tables, id: Id, now: int, closedAt: int)
    requires forall o | o in db.appointments :: RowChecks(db.appointments[o])
    requires id in db.appointments && Stale(db.appointments[id], now) && db.appointments[id].start <= closedAt
    ensures var expiry, complete := ExpireTask(now), CloseOutRequest(id, false, Staff, closedAt);
            var a, w := db.appointments[id], World(db, [Task(expiry, Begun), Task(complete, Begun)]);
            && Play(w, [0, 1, 1]).db == Put(db, id, a.(status := Completed))
            && Play(w, [0, 1, 1, 0]) == World(Expire(db, now), [Task(expiry, Ended(Done)), Task(complete, Ended(Done))])
            && Expire(db, now).appointments[id].status == Cancelled
  {
    var complete, a := CloseOutRequest(id, false, Staff, closedAt), db.appointments[id];
    Completing(db, id, closedAt);
    ExpiringOver(db, id, Completed, now);
    OverAnother(db, Task(ExpireTask(now), Begun), Expiring(now, StaleRows(db, now)).phase,
                Task(complete, Begun), AboutTo(complete, a).phase,
                Put(db, id, a.(status := Completed)), Expire(db, now));
  }

  /** A start is on offer for moving this booking, and staff ask for it. */
  ghost predicate MoveOffered(db: Tables, r: Request) {
    && WellFormed(db) && PricesValid(db.appointments) && r.RescheduleRequest? && r.actor.Staff?
    && r.id in db.appointments && db.appointments[r.id].status.Live()
    && var a := db.appointments[r.id];
       Resolve(db, a.barber, a.service) == Done &&
       OfferOutcome(db, a.barber, a.service, r.start, r.now, One(r.id)) == Done
  }

  function MovePhase(db: Tables, r: Request): Phase
    requires r.RescheduleRequest? && r.id in db.appointments && db.appointments[r.id].service in db.services
  {
    Writing(map[r.id := db.appointments[r.id]], map[r.id := Moved(db, db.appointments[r.id], r.start)])
  }

  function LookingPhase(db: Tables, r: Request): Phase
    requires r.RescheduleRequest? && r.id in db.appointments && db.appointments[r.id].service in db.services
  {
    Looking(db, map[r.id := db.appointments[r.id]], map[r.id := Moved(db, db.appointments[r.id], r.start)])
  }

  lemma OfferedMove(db: Tables, r: Request)
    requires MoveOffered(db, r)
    ensures Advance(db, Task(r, Begun)) == (db, Loaded(db.appointments[r.id]))
    ensures Advance(db, Task(r, Loaded(db.appointments[r.id]))) == (db, LookingPhase(db, r))
    ensures Advance(db, Task(r, LookingPhase(db, r))) == (db, MovePhase(db, r))
    ensures r.now + BOOKING_LEAD <= r.start
  {
    var a := db.appointments[r.id];
    LookBoth(db, r, map[r.id := a], Moved(db, a, r.start));
  }

  /** Its commit, over a row completed since. */
  lemma MovingOver(db: Tables, r: Request)
    requires MoveOffered(db, r) && db.appointments[r.id].start <= r.now
    ensures var a := db.appointments[r.id];
            Advance(Put(db, r.id, a.(status := Completed)), Task(r, MovePhase(db, r))) ==
            (Put(db, r.id, Moved(db, a, r.start).(status := Completed)), Ended(Done))
  {
    var a := db.appointments[r.id];
    var completed := Put(db, r.id, a.(status := Completed));
    OneRowCommit(completed, r.id, a, Moved(db, a, r.start), true);
    assert Put(completed, r.id, Moved(db, a, r.start).(status := Completed)) ==
           Put(db, r.id, Moved(db, a, r.start).(status := Completed));
  }

  lemma LookingMoveOverCompleted(db: Tables, r: Request)
    requires MoveOffered(db, r) && db.appointments[r.id].start <= r.now
    ensures var a, complete := db.appointments[r.id], CloseOutRequest(r.id, false, Staff, r.now);
            Play(World(db, [Task(r, LookingPhase(db, r)), Task(complete, Begun)]), [0, 1, 1, 0]) ==
            World(Put(db, r.id, Moved(db, a, r.start).(status := Completed)),
                  [Task(r, Ended(Done)), Task(complete, Ended(Done))])
  {
    var a, complete := db.appointments[r.id], CloseOutRequest(r.id, false, Staff, r.now);
    OfferedMove(db, r);
    Completing(db, r.id, r.now);
    MovingOver(db, r);
    OverAnother(db, Task(r, LookingPhase(db, r)), MovePhase(db, r), Task(complete, Begun), AboutTo(complete, a).phase,
                Put(db, r.id, a.(status := Completed)), Put(db, r.id, Moved(db, a, r.start).(status := Completed)));
  }

  /**
   * A reschedule moves a row that was completed in between, so that a completed row ends up starting in the
   * future: from any tables with a booking that has started and a later start on offer for it.
   */
  lemma StaleMoveOfCompleted(db: Tables, r: Request)
    requires MoveOffered(db, r) && db.appointments[r.id].start <= r.now
    ensures var a, complete := db.appointments[r.id], CloseOutRequest(r.id, false, Staff, r.now);
            && Play(World(db, [Task(r, Begun), Task(complete, Begun)]), [0, 0, 0, 1, 1, 0]) ==
               World(Put(db, r.id, Moved(db, a, r.start).(status := Completed)),
                     [Task(r, Ended(Done)), Task(complete, Ended(Done))])
            && r.now < r.start
  {
    var a, complete := db.appointments[r.id], CloseOutRequest(r.id, false, Staff, r.now);
    OfferedMove(db, r);
    LookingMoveOverCompleted(db, r);
    FirstMoves(db, Task(r, Begun), Task(complete, Begun), db, Loaded(a));
    FirstMoves(db, Task(r, Loaded(a)), Task(complete, Begun), db, LookingPhase(db, r));
    PlayFirst(World(db, [Task(r, Begun), Task(complete, Begun)]), 0, [0, 0, 1, 1, 0]);
    PlayFirst(World(db, [Task(r, Loaded(a)), Task(complete, Begun)]), 0, [0, 1, 1, 0]);
    assert [0] + [0, 1, 1, 0] == [0, 0, 1, 1, 0] && [0] + [0, 0, 1, 1, 0] == [0, 0, 0, 1, 1, 0];
  }
}
