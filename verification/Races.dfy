/** Any number of create requests racing for one calendar. */
module Races {
  import opened Booking
  import opened BookingLaws
  import opened Interleaving

  /** The request is a create whose start is on offer in the tables as they stand. */
  ghost predicate OnOffer(db: Tables, r: Request) {
    && r.CreateRequest? && r.id !in db.appointments
    && Resolve(db, r.barber, r.service) == Done && HasShop(db, r.barber)
    && Refusal(db, r.barber, r.service, ZoneOf(db, r.barber).LocalDay(r.start)) == Done
    && Offered(db, r.barber, r.service, ZoneOf(db, r.barber).LocalDay(r.start), r.now, Nobody, r.start)
  }

  /** Every task is a create request, not yet begun, for a start offered at the outset. */
  ghost predicate RaceStart(w: World) {
    && WellFormed(w.db) && NoDoubleBooking(w.db.appointments)
    && (forall i | 0 <= i < |w.tasks| :: w.tasks[i].phase == Begun && OnOffer(w.db, w.tasks[i].request))
    && (forall i, j | 0 <= i < j < |w.tasks| :: w.tasks[i].request.id != w.tasks[j].request.id)
  }

  function RowOf(db: Tables, r: Request): Appointment
    requires r.CreateRequest? && HasShop(db, r.barber) && r.service in db.services
  {
    NewRow(db, r.customer, r.barber, r.service, r.start, r.now)
  }

  /** The row task `i` asks for. */
  ghost function Wanted(w: World, i: nat): Appointment
    requires RaceStart(w) && i < |w.tasks|
  {
    RowOf(w.db, w.tasks[i].request)
  }

  predicate Won(w: World, i: nat) {
    i < |w.tasks| && w.tasks[i].phase == Ended(Done)
  }

  /** Some winner's booking overlaps the one task `i` asks for. */
  ghost predicate Beaten(w0: World, w: World, i: nat)
    requires RaceStart(w0) && i < |w0.tasks|
  {
    exists j | 0 <= j < |w0.tasks| :: Won(w, j) && Clashing(Wanted(w0, i), Wanted(w0, j))
  }

  ghost predicate PhaseOk(w0: World, w: World, i: nat)
    requires RaceStart(w0) && |w.tasks| == |w0.tasks| && i < |w0.tasks|
  {
    var r := w0.tasks[i].request;
    match w.tasks[i].phase
    case Begun => true
    case Loaded(_) => false
    case Looking(first, seen, rows) =>
      first == w0.db.(appointments := first.appointments) && seen == map[] && rows == map[r.id := Wanted(w0, i)]
    case Cleared => false
    case Missed(barber, service, start, now) =>
      barber == r.barber && service == r.service && start == r.start && now == r.now && Beaten(w0, w, i)
    case Writing(seen, rows) => seen == map[] && rows == map[r.id := Wanted(w0, i)]
    case Ended(o) => o == Done || (o == SlotTaken && Beaten(w0, w, i))
  }

  /** The tables are the initial ones plus exactly the winners' rows. */
  ghost predicate TableOk(w0: World, w: World)
    requires RaceStart(w0) && |w.tasks| == |w0.tasks|
  {
    && w.db == w0.db.(appointments := w.db.appointments)
    && (forall id | id in w0.db.appointments ::
          id in w.db.appointments && w.db.appointments[id] == w0.db.appointments[id])
    && (forall i | 0 <= i < |w.tasks| :: w0.tasks[i].request.id in w.db.appointments <==> Won(w, i))
    && (forall i | 0 <= i < |w.tasks| && Won(w, i) :: w.db.appointments[w0.tasks[i].request.id] == Wanted(w0, i))
    && (forall id | id in w.db.appointments && id !in w0.db.appointments ::
          exists i | 0 <= i < |w0.tasks| :: w0.tasks[i].request.id == id)
  }

  ghost predicate RaceOk(w0: World, w: World)
    requires RaceStart(w0)
  {
    && |w.tasks| == |w0.tasks|
    && (forall i | 0 <= i < |w.tasks| :: w.tasks[i].request == w0.tasks[i].request)
    && TableOk(w0, w)
    && forall i | 0 <= i < |w.tasks| :: PhaseOk(w0, w, i)
  }

  // ---- appointments do not matter to the rest of the check ----

  lemma SameButForAppointments(s: Tables, t: Tables, barber: Id, service: Id, day: int, now: int, start: int)
    requires t == s.(appointments := t.appointments)
    requires HasShop(s, barber) && service in s.services
    ensures Refusal(s, barber, service, day) == Refusal(t, barber, service, day)
    ensures Offered(s, barber, service, day, now, Everybody, start) <==>
            Offered(t, barber, service, day, now, Everybody, start)
  {
    forall u ensures OpenAt(s, barber, day, Everybody, u) <==> OpenAt(t, barber, day, Everybody, u) {
      var zone := ZoneOf(s, barber);
      assert Working(s, barber, day, zone, u) <==> Working(t, barber, day, zone, u);
      assert OnBreak(s, barber, u) <==> OnBreak(t, barber, u);
    }
    assert BadShift(s, barber, day, ZoneOf(s, barber)) <==> BadShift(t, barber, day, ZoneOf(s, barber));
  }

  /** A live row in the way of a start that was on offer at the outset belongs to a winner. */
  lemma InTheWayIsAWinner(w0: World, w: World, i: nat, id: Id)
    requires RaceStart(w0) && RaceOk(w0, w) && i < |w0.tasks|
    requires id in w.db.appointments && id != w0.tasks[i].request.id && Clashing(Wanted(w0, i), w.db.appointments[id])
    ensures Beaten(w0, w, i)
  {
    var r := w0.tasks[i].request;
    OfferIsClear(w0.db, r.barber, r.service, ZoneOf(w0.db, r.barber).LocalDay(r.start), r.now, Nobody, r.start);
    assert id !in w0.db.appointments;
    var j :| 0 <= j < |w0.tasks| && w0.tasks[j].request.id == id;
    assert Won(w, j) && w.db.appointments[id] == Wanted(w0, j);
  }

  lemma WellFormedRace(w0: World, w: World)
    requires RaceStart(w0) && RaceOk(w0, w)
    ensures WellFormed(w.db)
  {
  }

  /** A start offered at the outset and no longer on offer has been taken by a winner. */
  lemma MissedMeansBeaten(w0: World, w: World, i: nat)
    requires RaceStart(w0) && RaceOk(w0, w) && i < |w0.tasks| && !Won(w, i)
    requires var r := w0.tasks[i].request;
             !Offered(w.db, r.barber, r.service, ZoneOf(w.db, r.barber).LocalDay(r.start), r.now, Nobody, r.start)
    ensures Beaten(w0, w, i)
  {
    var r := w0.tasks[i].request;
    var day := ZoneOf(w0.db, r.barber).LocalDay(r.start);
    WellFormedRace(w0, w);
    OfferSplits(w0.db, r.barber, r.service, day, r.now, Nobody, r.start);
    OfferSplits(w.db, r.barber, r.service, day, r.now, Nobody, r.start);
    SameButForAppointments(w0.db, w.db, r.barber, r.service, day, r.now, r.start);
    var id :| id in w.db.appointments && w.db.appointments[id].Holds(r.barber) &&
              w.db.appointments[id].Time().Overlaps(Asked(w.db, r.service, r.start));
    assert Clashing(Wanted(w0, i), w.db.appointments[id]);
    InTheWayIsAWinner(w0, w, i, id);
  }

  // ---- one turn ----

  function WithPhase(w: World, db: Tables, i: nat, phase: Phase): World
    requires i < |w.tasks|
  {
    World(db, w.tasks[i := w.tasks[i].(phase := phase)])
  }

  lemma BeatenStays(w0: World, w: World, v: World, k: nat)
    requires RaceStart(w0) && k < |w0.tasks|
    requires forall j | 0 <= j < |w0.tasks| :: Won(w, j) ==> Won(v, j)
    ensures Beaten(w0, w, k) ==> Beaten(w0, v, k)
  {
  }

  /** Changing one phase leaves the others in order, as long as no winner is lost. */
  lemma OtherPhases(w0: World, w: World, v: World, i: nat)
    requires RaceStart(w0) && |w.tasks| == |v.tasks| == |w0.tasks|
    requires forall k | 0 <= k < |w.tasks| && k != i :: v.tasks[k] == w.tasks[k] && PhaseOk(w0, w, k)
    requires !Won(w, i)
    ensures forall k | 0 <= k < |w.tasks| && k != i :: PhaseOk(w0, v, k)
    ensures forall k | 0 <= k < |w.tasks| :: Beaten(w0, w, k) ==> Beaten(w0, v, k)
  {
    forall k | 0 <= k < |w.tasks|
      ensures k != i ==> PhaseOk(w0, v, k)
      ensures Beaten(w0, w, k) ==> Beaten(w0, v, k)
    {
      BeatenStays(w0, w, v, k);
      assert k != i ==> PhaseOk(w0, w, k);
    }
  }

  lemma PhaseTable(w0: World, w: World, i: nat, phase: Phase)
    requires RaceStart(w0) && RaceOk(w0, w) && i < |w.tasks| && !Won(w, i) && phase != Ended(Done)
    ensures TableOk(w0, WithPhase(w, w.db, i, phase))
    ensures forall k | 0 <= k < |w.tasks| :: Won(WithPhase(w, w.db, i, phase), k) <==> Won(w, k)
  {
    var v := WithPhase(w, w.db, i, phase);
    assert forall k | 0 <= k < |w.tasks| :: Won(v, k) <==> Won(w, k);
  }

  /** A turn that only changes the phase of task `i`, to one that is in order. */
  lemma PhaseTurn(w0: World, w: World, i: nat, phase: Phase)
    requires RaceStart(w0) && RaceOk(w0, w) && i < |w.tasks|
    requires !Won(w, i)
    requires var r := w0.tasks[i].request;
             || phase == Writing(map[], map[r.id := Wanted(w0, i)])
             || phase == Looking(w.db, map[], map[r.id := Wanted(w0, i)])
             || (phase == Missed(r.barber, r.service, r.start, r.now) && Beaten(w0, w, i))
             || (phase == Ended(SlotTaken) && Beaten(w0, w, i))
    ensures RaceOk(w0, WithPhase(w, w.db, i, phase))
  {
    var v := WithPhase(w, w.db, i, phase);
    PhaseTable(w0, w, i, phase);
    OtherPhases(w0, w, v, i);
  }

  /** The query of a request that was on offer at the outset, over tables that differ in appointments only. */
  lemma FirstReadResult(db0: Tables, db: Tables, r: Request)
    requires OnOffer(db0, r) && db == db0.(appointments := db.appointments)
    ensures FirstRead(db, r) == Looking(db, map[], map[r.id := RowOf(db0, r)])
  {
  }

  lemma LookResult(db0: Tables, first: Tables, db: Tables, r: Request)
    requires OnOffer(db0, r) && db == db0.(appointments := db.appointments)
    requires first == db0.(appointments := first.appointments)
    ensures LookSecond(db, r, first, map[], map[r.id := RowOf(db0, r)]) ==
            if Offered(db, r.barber, r.service, ZoneOf(db, r.barber).LocalDay(r.start), r.now, Nobody, r.start)
            then Writing(map[], map[r.id := RowOf(db0, r)]) else Missed(r.barber, r.service, r.start, r.now)
  {
    assert Mixed(first, db) == db;
    SameButForAppointments(db0, db, r.barber, r.service, ZoneOf(db0, r.barber).LocalDay(r.start), r.now, r.start);
  }

  lemma SecondReadResult(db0: Tables, db: Tables, r: Request)
    requires WellFormed(db0) && OnOffer(db0, r) && db == db0.(appointments := db.appointments)
    ensures ReadIfEmpty(db, r.barber, r.service, r.start, r.now) == SlotTaken
  {
    var day := ZoneOf(db0, r.barber).LocalDay(r.start);
    SameButForAppointments(db0, db, r.barber, r.service, day, r.now, r.start);
    OfferSplits(db0, r.barber, r.service, day, r.now, Nobody, r.start);
  }

  lemma FirstReadTurn(w0: World, w: World, i: nat)
    requires RaceStart(w0) && RaceOk(w0, w) && i < |w.tasks| && w.tasks[i].phase == Begun
    ensures RaceOk(w0, Turn(w, i))
  {
    FirstReadResult(w0.db, w.db, w0.tasks[i].request);
    PhaseTurn(w0, w, i, FirstRead(w.db, w0.tasks[i].request));
  }

  lemma LookTurn(w0: World, w: World, i: nat)
    requires RaceStart(w0) && RaceOk(w0, w) && i < |w.tasks| && w.tasks[i].phase.Looking?
    ensures RaceOk(w0, Turn(w, i))
  {
    assert PhaseOk(w0, w, i);
    var r, phase := w0.tasks[i].request, w.tasks[i].phase;
    var next := LookSecond(w.db, r, phase.first, phase.seen, phase.rows);
    LookResult(w0.db, phase.first, w.db, r);
    if next.Missed? {
      MissedMeansBeaten(w0, w, i);
    }
    PhaseTurn(w0, w, i, next);
  }

  lemma SecondReadTurn(w0: World, w: World, i: nat)
    requires RaceStart(w0) && RaceOk(w0, w) && i < |w.tasks| && w.tasks[i].phase.Missed?
    ensures RaceOk(w0, Turn(w, i))
  {
    assert PhaseOk(w0, w, i);
    SecondReadResult(w0.db, w.db, w0.tasks[i].request);
    PhaseTurn(w0, w, i, Ended(SlotTaken));
  }

  lemma WinTable(w0: World, w: World, i: nat)
    requires RaceStart(w0) && RaceOk(w0, w) && i < |w.tasks| && !Won(w, i)
    ensures TableOk(w0, WithPhase(w, Put(w.db, w0.tasks[i].request.id, Wanted(w0, i)), i, Ended(Done)))
  {
  }

  lemma WinTurn(w0: World, w: World, i: nat)
    requires RaceStart(w0) && RaceOk(w0, w) && i < |w.tasks| && !Won(w, i)
    ensures RaceOk(w0, WithPhase(w, Put(w.db, w0.tasks[i].request.id, Wanted(w0, i)), i, Ended(Done)))
  {
    WinTable(w0, w, i);
    OtherPhases(w0, w, WithPhase(w, Put(w.db, w0.tasks[i].request.id, Wanted(w0, i)), i, Ended(Done)), i);
  }

  lemma CommitTurn(w0: World, w: World, i: nat)
    requires RaceStart(w0) && RaceOk(w0, w) && i < |w.tasks| && w.tasks[i].phase.Writing?
    ensures RaceOk(w0, Turn(w, i))
  {
    var r, row := w0.tasks[i].request, Wanted(w0, i);
    assert PhaseOk(w0, w, i);
    InsertResult(w.db, r.id, row);
    if Exclusive(w.db, r.id, row) {
      WinTurn(w0, w, i);
    } else {
      var o :| o in w.db.appointments && o != r.id && Clashing(row, w.db.appointments[o]);
      InTheWayIsAWinner(w0, w, i, o);
      PhaseTurn(w0, w, i, Ended(SlotTaken));
    }
  }

  lemma EndedTurn(w0: World, w: World, i: nat)
    requires RaceStart(w0) && RaceOk(w0, w)
    requires i >= |w.tasks| || w.tasks[i].phase.Ended?
    ensures RaceOk(w0, Turn(w, i))
  {
    if i < |w.tasks| {
      assert w.tasks[i := w.tasks[i].(phase := w.tasks[i].phase)] == w.tasks;
    }
  }

  lemma {:induction false} RaceKeeps(w0: World, order: seq<nat>)
    requires RaceStart(w0)
    ensures RaceOk(w0, Play(w0, order))
    decreases |order|
  {
    if order != [] {
      var w, i := Play(w0, order[..|order| - 1]), order[|order| - 1];
      RaceKeeps(w0, order[..|order| - 1]);
      if i >= |w.tasks| {
        EndedTurn(w0, w, i);
      } else {
        assert PhaseOk(w0, w, i);
        match w.tasks[i].phase
        case Begun => FirstReadTurn(w0, w, i);
        case Looking(_, _, _) => LookTurn(w0, w, i);
        case Missed(_, _, _, _) => SecondReadTurn(w0, w, i);
        case Writing(_, _) => CommitTurn(w0, w, i);
        case Ended(_) => EndedTurn(w0, w, i);
      }
    }
  }

  // ---- the outcome of a finished race ----

  ghost predicate Finished(w: World) {
    forall i | 0 <= i < |w.tasks| :: w.tasks[i].phase.Ended?
  }

  /**
   * In every complete interleaving of create requests for starts offered at the outset: each ends
   * booked or with SLOT_TAKEN, the winners are pairwise disjoint, every loser overlaps a winner, and the
   * winners' rows are all that was added.
   */
  lemma RaceOutcome(w0: World, order: seq<nat>)
    requires RaceStart(w0) && Finished(Play(w0, order))
    ensures var w := Play(w0, order);
            && |w.tasks| == |w0.tasks|
            && (forall i | 0 <= i < |w.tasks| ::
                  w.tasks[i].phase == Ended(Done) || w.tasks[i].phase == Ended(SlotTaken))
            && (forall i, j | 0 <= i < j < |w.tasks| && Won(w, i) && Won(w, j) ::
                !Clashing(Wanted(w0, i), Wanted(w0, j)))
            && (forall i | 0 <= i < |w.tasks| && !Won(w, i) :: Beaten(w0, w, i))
            && TableOk(w0, w)
  {
    var w := Play(w0, order);
    RaceKeeps(w0, order);
    NeverDoubleBooked(w0, order);
    forall i | 0 <= i < |w.tasks|
      ensures w.tasks[i].phase == Ended(Done) || (w.tasks[i].phase == Ended(SlotTaken) && Beaten(w0, w, i))
    {
      assert PhaseOk(w0, w, i);
    }
    forall i, j | 0 <= i < j < |w.tasks| && Won(w, i) && Won(w, j) ensures !Clashing(Wanted(w0, i), Wanted(w0, j)) {
      assert w0.tasks[i].request.id != w0.tasks[j].request.id;
      assert !Clashing(w.db.appointments[w0.tasks[i].request.id], w.db.appointments[w0.tasks[j].request.id]);
    }
  }

  /** A winner's row, column by column. */
  lemma WinnersRow(w0: World, order: seq<nat>, i: nat)
    requires RaceStart(w0) && i < |w0.tasks| && Won(Play(w0, order), i)
    ensures var r, db := w0.tasks[i].request, w0.db;
            && r.id in Play(w0, order).db.appointments
            && r.barber in db.barbers && db.barbers[r.barber].shop in db.shops && r.service in db.services
            && var row := Play(w0, order).db.appointments[r.id];
               && row.customer == r.customer && row.barber == r.barber && row.service == r.service
               && row.start == r.start && row.end == r.start + db.services[r.service].duration
               && row.price == db.services[r.service].price && row.created == r.now
               && row.status == if db.shops[db.barbers[r.barber].shop].requiresConfirmation then Pending else Confirmed
  {
    RaceKeeps(w0, order);
  }

  /** A race is over once each racer has had four turns. */
  lemma RaceFinishes(w0: World, order: seq<nat>)
    requires forall i | 0 <= i < |w0.tasks| :: TurnsOf(order, i) >= 4
    ensures Finished(Play(w0, order))
  {
    SameTasks(w0, order);
    forall i | 0 <= i < |w0.tasks| ensures Play(w0, order).tasks[i].phase.Ended? {
      EndsWithinFourTurns(w0, order, i);
    }
  }

  lemma {:induction false} SameTasks(w: World, order: seq<nat>)
    ensures |Play(w, order).tasks| == |w.tasks|
    decreases |order|
  {
    if order != [] {
      SameTasks(w, order[..|order| - 1]);
    }
  }

  /** When all of them want overlapping time, exactly one wins. */
  lemma OneWinner(w0: World, order: seq<nat>)
    requires RaceStart(w0) && Finished(Play(w0, order)) && w0.tasks != []
    requires forall i, j | 0 <= i < |w0.tasks| && 0 <= j < |w0.tasks| :: Clashing(Wanted(w0, i), Wanted(w0, j))
    ensures exists i | 0 <= i < |w0.tasks| :: Won(Play(w0, order), i)
    ensures forall i, j | 0 <= i < j < |w0.tasks| :: !Won(Play(w0, order), i) || !Won(Play(w0, order), j)
  {
    RaceOutcome(w0, order);
    var w := Play(w0, order);
    assert Won(w, 0) || Beaten(w0, w, 0);
    forall i, j | 0 <= i < j < |w0.tasks| ensures !Won(w, i) || !Won(w, j) {
      assert Clashing(Wanted(w0, i), Wanted(w0, j));
    }
  }
}
