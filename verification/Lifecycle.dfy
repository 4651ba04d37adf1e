/** The life of one appointment row over every serial run. */
module Lifecycle {
  import opened Booking

  predicate Terminal(a: Appointment) {
    !a.status.Live()
  }

  /** What a request may do to a row that exists when it starts. */
  ghost predicate Moves(a: Appointment, b: Appointment, r: Request) {
    || b == a
    || (a.status.Live() && r.CancelRequest? && b == a.(status := Cancelled))
    || (a.status.Live() && r.RescheduleRequest? && b == a.(start := r.start, end := b.end))
    || (a.status.Pending? && r.ConfirmRequest? && r.actor.Staff? && b == a.(status := Confirmed))
    || (a.status.Pending? && r.ExpireTask? && b == a.(status := Cancelled))
    || (a.status.Live() && r.CloseOutRequest? && r.actor.Staff? && a.start <= r.now &&
        b == a.(status := if r.noShow then NoShow else Completed))
  }

  lemma HandleMoves(s: Tables, r: Request, id: Id)
    requires Legal(s, r) && id in s.appointments
    ensures id in Handle(s, r).tables.appointments
    ensures Moves(s.appointments[id], Handle(s, r).tables.appointments[id], r)
    ensures r.CancelRequest? || r.RescheduleRequest? || r.ConfirmRequest? || r.CloseOutRequest? ==>
              r.id == id || Handle(s, r).tables.appointments[id] == s.appointments[id]
  {
  }

  /** COMPLETED, CANCELLED and NO_SHOW rows are frozen for good. */
  lemma {:induction false} TerminalIsFinal(s: Tables, run: seq<Request>, id: Id)
    requires LegalRun(s, run) && id in s.appointments && Terminal(s.appointments[id])
    ensures id in After(s, run).appointments && After(s, run).appointments[id] == s.appointments[id]
    decreases |run|
  {
    if run != [] {
      LastStep(s, run);
      TerminalIsFinal(s, run[..|run| - 1], id);
      HandleMoves(After(s, run[..|run| - 1]), run[|run| - 1], id);
    }
  }

  /** The price is the snapshot taken at creation, whatever happens to the row or to the service. */
  lemma {:induction false} PriceIsFinal(s: Tables, run: seq<Request>, id: Id)
    requires LegalRun(s, run) && id in s.appointments
    ensures id in After(s, run).appointments
    ensures var a, b := s.appointments[id], After(s, run).appointments[id];
            b.price == a.price && b.customer == a.customer && b.barber == a.barber &&
            b.service == a.service && b.created == a.created
    decreases |run|
  {
    if run != [] {
      LastStep(s, run);
      PriceIsFinal(s, run[..|run| - 1], id);
      HandleMoves(After(s, run[..|run| - 1]), run[|run| - 1], id);
    }
  }

  ghost predicate ClosedOutBy(r: Request, id: Id, a: Appointment) {
    r.CloseOutRequest? && r.id == id && r.actor.Staff? && a.start <= r.now &&
    a.status == (if r.noShow then NoShow else Completed)
  }

  /**
   * A row that became COMPLETED or NO_SHOW within the run, in which it may have been created, was closed out by
   * staff, at or after the start it still has.
   */
  lemma {:induction false} ClosedOnlyAfterStart(s: Tables, run: seq<Request>, id: Id)
    requires LegalRun(s, run) && (id in s.appointments ==> s.appointments[id].status.Live())
    requires id in After(s, run).appointments && After(s, run).appointments[id].status in {Completed, NoShow}
    ensures exists k | 0 <= k < |run| :: ClosedOutBy(run[k], id, After(s, run).appointments[id])
    decreases |run|
  {
    if run != [] {
      var before, last := run[..|run| - 1], run[|run| - 1];
      LastStep(s, run);
      if id in After(s, before).appointments {
        HandleMoves(After(s, before), last, id);
        if After(s, before).appointments[id] == After(s, run).appointments[id] {
          ClosedOnlyAfterStart(s, before, id);
          var k :| 0 <= k < |before| && ClosedOutBy(before[k], id, After(s, before).appointments[id]);
          assert run[k] == before[k];
        } else {
          assert ClosedOutBy(run[|run| - 1], id, After(s, run).appointments[id]);
        }
      } else {
        CreatedLive(After(s, before), last, id);
      }
    }
  }

  /** Rows are created live, and by creating only. */
  lemma CreatedLive(s: Tables, r: Request, id: Id)
    requires id !in s.appointments
    ensures var after := Handle(s, r).tables.appointments;
            id in after ==> r.CreateRequest? && after[id].status.Live()
  {
  }

  /** Expiry cancels exactly the overdue PENDING rows and touches nothing else. */
  lemma ExpiryTouchesOnlyPending(s: Tables, now: int, id: Id)
    requires id in s.appointments
    ensures id in Expire(s, now).appointments
    ensures var a, b := s.appointments[id], Expire(s, now).appointments[id];
            && (b != a <==> a.status.Pending? && a.created + PENDING_LIFETIME < now)
            && (b != a ==> b == a.(status := Cancelled))
  {
  }
}
