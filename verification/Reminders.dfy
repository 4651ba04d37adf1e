/**
 * The reminder sweep: windows over the start times, and a unique claim inserted before each mail.  Any
 * number of sweeps run as concurrent transactions; an uncommitted claim makes another sweep wait.
 */
module Reminders {
  import opened Collections
  import opened Zones
  import opened Booking

  datatype Kind = DayBefore | HoursBefore

  // app/workers/tasks.py
  const REMINDER_WINDOW := 20 * MINUTE
  const KINDS := [DayBefore, HoursBefore]

  function Horizon(kind: Kind): int {
    if kind.DayBefore? then 1440 * MINUTE else 120 * MINUTE
  }

  datatype Key = Key(appointment: Id, kind: Kind)

  /** The sweep made at `moment` looks at starts in this window. */
  predicate Sees(moment: int, kind: Kind, start: int) {
    moment + Horizon(kind) <= start < moment + Horizon(kind) + REMINDER_WINDOW
  }

  predicate DueRow(row: Appointment, moment: int, kind: Kind) {
    row.status.Live() && Sees(moment, kind, row.start)
  }

  // ---- sweeps as transactions ----

  datatype Stage =
      /** About to select the rows of `KINDS[k]`; about to commit once k is past the last kind. */
    | Select(k: nat)
      /** Going through the selected rows. */
    | Claiming(k: nat, due: seq<Id>)
    | Committed
    | Aborted

  /** One run of the task; `own` are the claims it has inserted and not yet committed. */
  datatype Sweep = Sweep(moment: int, stage: Stage, own: set<Key>)
  {
    predicate Active() { stage.Select? || stage.Claiming? }
  }

  datatype World = World(appointments: map<Id, Appointment>, claims: set<Key>, outbox: seq<Key>, sweeps: seq<Sweep>)

  predicate ClaimedByAnother(w: World, i: nat, key: Key) {
    exists j | 0 <= j < |w.sweeps| && j != i :: w.sweeps[j].Active() && key in w.sweeps[j].own
  }

  /** The query may return the due rows in any order. */
  ghost predicate SelectStep(w: World, w': World, i: nat) {
    i < |w.sweeps| && w.sweeps[i].stage.Select? && w.sweeps[i].stage.k < |KINDS| &&
    exists due: seq<Id> ::
      && (forall a :: a in due <==>
            a in w.appointments && DueRow(w.appointments[a], w.sweeps[i].moment, KINDS[w.sweeps[i].stage.k]))
      && w' == w.(sweeps := w.sweeps[i := w.sweeps[i].(stage := Claiming(w.sweeps[i].stage.k, due))])
  }

  /**
   * Insert the claim of the first row left; a claim already committed is skipped, one still open makes the
   * sweep wait.
   */
  ghost predicate ClaimStep(w: World, w': World, i: nat) {
    i < |w.sweeps| && w.sweeps[i].stage.Claiming? && w.sweeps[i].stage.k < |KINDS| &&
    var sweep := w.sweeps[i];
    var k := sweep.stage.k;
    if sweep.stage.due == [] then w' == w.(sweeps := w.sweeps[i := sweep.(stage := Select(k + 1))])
    else
      var key, rest := Key(sweep.stage.due[0], KINDS[k]), Claiming(k, sweep.stage.due[1..]);
      && !ClaimedByAnother(w, i, key)
      && w' == if key in w.claims || key in sweep.own then w.(sweeps := w.sweeps[i := sweep.(stage := rest)])
               else w.(outbox := w.outbox + [key],
                       sweeps := w.sweeps[i := sweep.(stage := rest, own := sweep.own + {key})])
  }

  ghost predicate CommitStep(w: World, w': World, i: nat) {
    i < |w.sweeps| && w.sweeps[i].stage.Select? && w.sweeps[i].stage.k == |KINDS| &&
    w' == w.(claims := w.claims + w.sweeps[i].own, sweeps := w.sweeps[i := w.sweeps[i].(stage := Committed)])
  }

  /** A sweep dies and its claims are rolled back; the mails it queued are gone out. */
  ghost predicate AbortStep(w: World, w': World, i: nat) {
    i < |w.sweeps| && w.sweeps[i].Active() &&
    w' == w.(sweeps := w.sweeps[i := w.sweeps[i].(stage := Aborted)])
  }

  /** Bookings change behind the sweeps' backs. */
  ghost predicate BookingStep(w: World, w': World) {
    w' == w.(appointments := w'.appointments)
  }

  ghost predicate SweepStep(w: World, w': World, i: nat) {
    SelectStep(w, w', i) || ClaimStep(w, w', i) || CommitStep(w, w', i) || AbortStep(w, w', i)
  }

  ghost predicate Step(w: World, w': World) {
    BookingStep(w, w') || exists i: nat :: SweepStep(w, w', i)
  }

  /** Any number of sweeps and bookings, interleaved in any way; a sweep may die at any point. */
  ghost predicate Run(run: seq<World>) {
    run != [] && Begin(run[0]) && forall k | 0 <= k < |run| - 1 :: Step(run[k], run[k + 1])
  }

  ghost predicate Begin(w: World) {
    w.claims == {} && w.outbox == [] &&
    forall i | 0 <= i < |w.sweeps| :: w.sweeps[i].stage == Select(0) && w.sweeps[i].own == {}
  }

  // ---- how many times a reminder is mailed ----

  predicate Open(w: World, i: nat, key: Key) {
    i < |w.sweeps| && w.sweeps[i].Active() && key in w.sweeps[i].own
  }

  /** A claim is there, committed or open. */
  predicate Held(w: World, key: Key) {
    key in w.claims || exists i | 0 <= i < |w.sweeps| :: Open(w, i, key)
  }

  /** The sweeps that queued the mail and then died, taking their claim with them. */
  function Lost(w: World, key: Key): set<nat> {
    set i: nat | i < |w.sweeps| && w.sweeps[i].stage.Aborted? && key in w.sweeps[i].own
  }

  function Copies(w: World, key: Key): nat {
    multiset(w.outbox)[key]
  }

  /** One mail for the claim, if it is held, and one for every sweep that died with it. */
  ghost predicate Counted(w: World, key: Key) {
    Copies(w, key) == |Lost(w, key)| + if Held(w, key) then 1 else 0
  }

  ghost predicate Inv(w: World) {
    && (forall key :: Counted(w, key))
    && (forall i, key | 0 <= i < |w.sweeps| && Open(w, i, key) :: key !in w.claims)
    && (forall i, j, key | 0 <= i < |w.sweeps| && 0 <= j < |w.sweeps| && Open(w, i, key) && Open(w, j, key) :: i == j)
  }

  /** Changing the stage of a sweep that stays active. */
  lemma StageKeeps(w: World, w': World, i: nat, stage: Stage)
    requires Inv(w) && i < |w.sweeps| && w' == w.(sweeps := w.sweeps[i := w.sweeps[i].(stage := stage)])
    requires w.sweeps[i].Active() && w'.sweeps[i].Active()
    ensures Inv(w')
  {
    SameClaims(w, w');
  }

  lemma SameClaims(w: World, w': World)
    requires Inv(w) && w'.claims == w.claims && w'.outbox == w.outbox && |w'.sweeps| == |w.sweeps|
    requires forall j, key | 0 <= j < |w.sweeps| :: Open(w', j, key) <==> Open(w, j, key)
    requires forall key :: Lost(w', key) == Lost(w, key)
    ensures Inv(w')
  {
    forall key ensures Counted(w', key) {
      assert Counted(w, key);
      assert Held(w', key) <==> Held(w, key);
    }
  }

  lemma NewClaimKeeps(w: World, w': World, i: nat, key: Key, stage: Stage)
    requires Inv(w) && i < |w.sweeps| && w.sweeps[i].Active() && (stage.Select? || stage.Claiming?)
    requires key !in w.claims && key !in w.sweeps[i].own && !ClaimedByAnother(w, i, key)
    requires w' == w.(outbox := w.outbox + [key],
                      sweeps := w.sweeps[i := w.sweeps[i].(stage := stage, own := w.sweeps[i].own + {key})])
    ensures Inv(w')
  {
    assert forall j, c | 0 <= j < |w.sweeps| :: Open(w', j, c) <==> Open(w, j, c) || (j == i && c == key);
    assert forall j | 0 <= j < |w.sweeps| :: !Open(w, j, key);
    forall c ensures Counted(w', c) {
      assert Counted(w, c);
      assert Lost(w', c) == Lost(w, c);
      assert Open(w', i, key);
      assert Held(w', c) <==> Held(w, c) || c == key by {
        if c != key && Held(w, c) && c !in w.claims {
          var j :| 0 <= j < |w.sweeps| && Open(w, j, c);
          assert Open(w', j, c);
        }
      }
    }
  }

  lemma CommitKeeps(w: World, w': World, i: nat)
    requires Inv(w) && CommitStep(w, w', i)
    ensures Inv(w')
  {
    assert forall j, c | 0 <= j < |w.sweeps| :: Open(w', j, c) <==> Open(w, j, c) && j != i;
    assert forall c :: Open(w, i, c) <==> c in w.sweeps[i].own;
    forall c ensures Counted(w', c) {
      assert Counted(w, c);
      assert Lost(w', c) == Lost(w, c);
      assert Held(w', c) <==> Held(w, c) by {
        if Held(w, c) && c !in w'.claims {
          var j :| 0 <= j < |w.sweeps| && Open(w, j, c);
          assert Open(w', j, c);
        }
      }
    }
  }

  /** A dying sweep turns each claim it holds into a lost one. */
  lemma AbortCounts(w: World, w': World, i: nat, key: Key)
    requires Inv(w) && AbortStep(w, w', i)
    ensures Counted(w', key)
  {
    assert Counted(w, key);
    assert forall j | 0 <= j < |w.sweeps| :: Open(w', j, key) <==> Open(w, j, key) && j != i;
    if key in w.sweeps[i].own {
      assert Open(w, i, key) && !Held(w', key);
      assert Lost(w', key) == Lost(w, key) + {i};
    } else {
      assert !Open(w, i, key);
      assert Lost(w', key) == Lost(w, key);
    }
  }

  lemma AbortKeeps(w: World, w': World, i: nat)
    requires Inv(w) && AbortStep(w, w', i)
    ensures Inv(w')
  {
    forall key ensures Counted(w', key) {
      AbortCounts(w, w', i, key);
    }
    assert forall j, key | 0 <= j < |w.sweeps| :: Open(w', j, key) ==> Open(w, j, key);
  }

  lemma ClaimKeeps(w: World, w': World, i: nat)
    requires Inv(w) && ClaimStep(w, w', i)
    ensures Inv(w')
  {
    if w'.outbox == w.outbox {
      StageKeeps(w, w', i, w'.sweeps[i].stage);
    } else {
      NewClaimKeeps(w, w', i, Key(w.sweeps[i].stage.due[0], KINDS[w.sweeps[i].stage.k]), w'.sweeps[i].stage);
    }
  }

  lemma StepKeeps(w: World, w': World)
    requires Inv(w) && Step(w, w')
    ensures Inv(w') && |w'.sweeps| == |w.sweeps|
  {
    if BookingStep(w, w') {
      SameClaims(w, w');
    } else {
      var i: nat :| SweepStep(w, w', i);
      if SelectStep(w, w', i) {
        StageKeeps(w, w', i, w'.sweeps[i].stage);
      } else if ClaimStep(w, w', i) {
        ClaimKeeps(w, w', i);
      } else if CommitStep(w, w', i) {
        CommitKeeps(w, w', i);
      } else {
        AbortKeeps(w, w', i);
      }
    }
  }

  lemma {:induction false} RunKeeps(run: seq<World>, n: nat)
    requires Run(run) && n < |run|
    ensures Inv(run[n])
    ensures |run[n].sweeps| == |run[0].sweeps|
  {
    if n > 0 {
      RunKeeps(run, n - 1);
      assert Step(run[n - 1], run[n - 1 + 1]);
      StepKeeps(run[n - 1], run[n]);
    }
  }

  /**
   * However many sweeps run, repeat, overlap or die: a reminder has been queued once for its claim, if there
   * is one, and once for each sweep that died after queueing it.
   */
  lemma CopiesAreCounted(run: seq<World>, n: nat, key: Key)
    requires Run(run) && n < |run|
    ensures Copies(run[n], key) == |Lost(run[n], key)| + if Held(run[n], key) then 1 else 0
  {
    RunKeeps(run, n);
    assert Counted(run[n], key);
  }

  /** So it has gone out at most once exactly when no such sweep died, or one did and nobody claimed it again. */
  lemma AtMostOnce(run: seq<World>, n: nat, key: Key)
    requires Run(run) && n < |run|
    ensures Copies(run[n], key) <= 1 <==> Lost(run[n], key) == {} || (|Lost(run[n], key)| == 1 && !Held(run[n], key))
  {
    CopiesAreCounted(run, n, key);
  }

  // ---- a claim is for good ----

  lemma StepOfRun(run: seq<World>, n: nat)
    requires Run(run) && 0 < n < |run|
    ensures Step(run[n - 1], run[n])
  {
    assert Step(run[n - 1], run[n - 1 + 1]);
  }

  lemma ClaimedStep(w: World, w': World, key: Key)
    requires Inv(w) && Step(w, w') && key in w.claims
    ensures key in w'.claims && Copies(w', key) == Copies(w, key)
  {
    if !BookingStep(w, w') {
      var i: nat :| SweepStep(w, w', i);
      assert w'.outbox != w.outbox ==> ClaimStep(w, w', i);
    }
  }

  /**
   * Once its claim is committed a reminder is never queued again, so a booking moved after its reminder gets none
   * for its new time.
   */
  lemma {:induction false} ClaimedIsNotMailedAgain(run: seq<World>, m: nat, n: nat, key: Key)
    requires Run(run) && m <= n < |run| && key in run[m].claims
    ensures key in run[n].claims && Copies(run[n], key) == Copies(run[m], key)
    decreases n
  {
    if m < n {
      ClaimedIsNotMailedAgain(run, m, n - 1, key);
      RunKeeps(run, n - 1);
      StepOfRun(run, n);
      ClaimedStep(run[n - 1], run[n], key);
    }
  }

  // ---- and no mail without cause ----

  /** The windows and the kinds, in minutes. */
  lemma ReminderSettings()
    ensures Horizon(DayBefore) == 24 * 60 * MINUTE && Horizon(HoursBefore) == 2 * 60 * MINUTE
    ensures REMINDER_WINDOW == 20 * MINUTE && KINDS == [DayBefore, HoursBefore]
  {
  }

  /** A sweep selects a row exactly when it is PENDING or CONFIRMED and starts within the window after the horizon. */
  lemma DueExactlyWhen(row: Appointment, moment: int, kind: Kind)
    ensures DueRow(row, moment, kind) <==>
            row.status in {Pending, Confirmed} &&
            moment + Horizon(kind) <= row.start < moment + Horizon(kind) + 20 * MINUTE
  {
  }

  /** The row is not there, or does not hold its time, or starts outside the window of this sweep. */
  ghost predicate NoCause(w: World, i: nat, key: Key)
    requires i < |w.sweeps|
  {
    key.appointment !in w.appointments ||
    var row := w.appointments[key.appointment];
    row.status !in {Pending, Confirmed} || row.start < w.sweeps[i].moment + Horizon(key.kind) ||
    row.start >= w.sweeps[i].moment + Horizon(key.kind) + 20 * MINUTE
  }

  /** Some sweep that is still going has the row among those it selected. */
  ghost predicate Selected(w: World, key: Key) {
    exists i | 0 <= i < |w.sweeps| ::
      w.sweeps[i].stage.Claiming? && w.sweeps[i].stage.k < |KINDS| && KINDS[w.sweeps[i].stage.k] == key.kind &&
      key.appointment in w.sweeps[i].stage.due
  }

  ghost predicate NoSweepHasCause(w: World, key: Key) {
    forall i | 0 <= i < |w.sweeps| && w.sweeps[i].Active() :: NoCause(w, i, key)
  }

  /** What a sweep without cause selects does not hold the row. */
  lemma NoCauseSelect(w: World, w': World, i: nat, key: Key)
    requires SelectStep(w, w', i) && NoCause(w, i, key) && KINDS[w.sweeps[i].stage.k] == key.kind
    ensures key.appointment !in w'.sweeps[i].stage.due
  {
    if key.appointment in w.appointments {
      DueNever(w, i, key);
    }
  }

  lemma DueNever(w: World, i: nat, key: Key)
    requires i < |w.sweeps| && NoCause(w, i, key) && key.appointment in w.appointments
    ensures !DueRow(w.appointments[key.appointment], w.sweeps[i].moment, key.kind)
  {
    DueExactlyWhen(w.appointments[key.appointment], w.sweeps[i].moment, key.kind);
  }

  /** A claim of another reminder leaves this one alone. */
  lemma NoCauseClaim(w: World, w': World, i: nat, key: Key)
    requires ClaimStep(w, w', i) && !Selected(w, key)
    ensures Copies(w', key) == Copies(w, key)
    ensures w'.sweeps[i].stage.Claiming? && KINDS[w'.sweeps[i].stage.k] == key.kind ==>
              key.appointment !in w'.sweeps[i].stage.due
  {
    if w.sweeps[i].stage.due != [] {
      assert forall a | a in w.sweeps[i].stage.due[1..] :: a in w.sweeps[i].stage.due;
      assert w.sweeps[i].stage.due[0] in w.sweeps[i].stage.due;
    }
  }

  lemma NoCauseStep(w: World, w': World, key: Key)
    requires Step(w, w') && !Selected(w, key) && NoSweepHasCause(w, key)
    ensures !Selected(w', key) && Copies(w', key) == Copies(w, key)
  {
    if !BookingStep(w, w') {
      var i: nat :| SweepStep(w, w', i);
      assert forall j | 0 <= j < |w.sweeps| && j != i :: w'.sweeps[j] == w.sweeps[j];
      if SelectStep(w, w', i) {
        if KINDS[w.sweeps[i].stage.k] == key.kind {
          NoCauseSelect(w, w', i, key);
        }
      } else if ClaimStep(w, w', i) {
        NoCauseClaim(w, w', i, key);
      }
    }
  }

  /** While no sweep has selected a booking, and none that is going has cause to, no reminder of it goes out. */
  lemma {:induction false} NothingWithoutCause(run: seq<World>, m: nat, n: nat, key: Key)
    requires Run(run) && m <= n < |run| && !Selected(run[m], key)
    requires forall l | m <= l <= n :: NoSweepHasCause(run[l], key)
    ensures !Selected(run[n], key) && Copies(run[n], key) == Copies(run[m], key)
    decreases n
  {
    if m < n {
      NothingWithoutCause(run, m, n - 1, key);
      StepOfRun(run, n);
      NoCauseStep(run[n - 1], run[n], key);
    }
  }

  // ---- at least once ----

  /** How far sweep `i` has got with the row `a` for the k-th kind: still to be selected, selected, or claimed. */
  ghost predicate OnTheWay(w: World, i: nat, k: nat, a: Id)
    requires i < |w.sweeps| && k < |KINDS|
  {
    var key := Key(a, KINDS[k]);
    var claimed := key in w.claims || key in w.sweeps[i].own;
    match w.sweeps[i].stage
    case Select(m) => m <= |KINDS| && (m <= k || claimed)
    case Claiming(m, due) => m < |KINDS| && (m < k || claimed || (m == k && a in due))
    case Committed => key in w.claims
    case Aborted => true
  }

  lemma StepBringsOn(w: World, w': World, i: nat, k: nat, a: Id)
    requires Step(w, w') && i < |w.sweeps| && k < |KINDS| && OnTheWay(w, i, k, a)
    requires a in w.appointments && DueRow(w.appointments[a], w.sweeps[i].moment, KINDS[k])
    ensures i < |w'.sweeps| && w'.sweeps[i].moment == w.sweeps[i].moment && OnTheWay(w', i, k, a)
  {
    if !BookingStep(w, w') {
      var j: nat :| SweepStep(w, w', j);
      if j == i && ClaimStep(w, w', i) && w.sweeps[i].stage.due != [] {
        var due := w.sweeps[i].stage.due;
        assert due == [due[0]] + due[1..];
      }
    }
  }

  /** The row is live and unmoved from step `m` to step `n`. */
  ghost predicate Stays(run: seq<World>, m: nat, n: nat, a: Id, start: int)
    requires m <= n < |run|
  {
    forall l | m <= l <= n ::
      a in run[l].appointments && run[l].appointments[a].status.Live() && run[l].appointments[a].start == start
  }

  /** The sweep has still to select the rows of the k-th kind. */
  predicate Waiting(w: World, i: nat, k: nat) {
    i < |w.sweeps| && w.sweeps[i].stage.Select? && w.sweeps[i].stage.k <= k
  }

  /** From then on a row in its window stays on its way through the sweep. */
  lemma {:induction false} SeenIsMailed(run: seq<World>, m: nat, n: nat, i: nat, k: nat, a: Id, start: int)
    requires Run(run) && m <= n < |run| && Stays(run, m, n, a, start)
    requires k < |KINDS| && Waiting(run[m], i, k) && Sees(run[m].sweeps[i].moment, KINDS[k], start)
    ensures i < |run[n].sweeps| && run[n].sweeps[i].moment == run[m].sweeps[i].moment && OnTheWay(run[n], i, k, a)
    decreases n
  {
    if m < n {
      SeenIsMailed(run, m, n - 1, i, k, a, start);
      assert Step(run[n - 1], run[n - 1 + 1]);
      StepBringsOn(run[n - 1], run[n], i, k, a);
    }
  }

  // ---- the windows leave no gap ----

  ghost predicate GapsFit(moments: seq<int>) {
    forall k | 0 <= k < |moments| - 1 :: moments[k] <= moments[k + 1] <= moments[k] + REMINDER_WINDOW
  }

  ghost predicate Swept(moments: seq<int>, x: int) {
    exists k | 0 <= k < |moments| :: moments[k] <= x < moments[k] + REMINDER_WINDOW
  }

  /**
   * Sweeps in order cover every instant of their span exactly when no two neighbours are further apart than the
   * window.
   */
  lemma WindowsCoverExactlyWhen(moments: seq<int>)
    requires moments != [] && forall i, j | 0 <= i < j < |moments| :: moments[i] <= moments[j]
    ensures GapsFit(moments) <==>
            forall x :: moments[0] <= x < moments[|moments| - 1] + REMINDER_WINDOW ==> Swept(moments, x)
  {
    if GapsFit(moments) {
      forall x ensures moments[0] <= x < moments[|moments| - 1] + REMINDER_WINDOW ==> Swept(moments, x) {
        if moments[0] <= x < moments[|moments| - 1] + REMINDER_WINDOW {
          var k := CoveringSweep(moments, x);
        }
      }
    } else {
      var k :| 0 <= k < |moments| - 1 && !(moments[k] <= moments[k + 1] <= moments[k] + REMINDER_WINDOW);
      var x := moments[k] + REMINDER_WINDOW;
      assert moments[k] <= moments[k + 1] && moments[k + 1] <= moments[|moments| - 1] && moments[0] <= moments[k];
      forall j | 0 <= j < |moments| ensures !(moments[j] <= x < moments[j] + REMINDER_WINDOW) {
        assert j < k ==> moments[j] <= moments[k];
        assert j > k + 1 ==> moments[k + 1] <= moments[j];
      }
      assert !Swept(moments, x);
    }
  }

  lemma {:induction false} CoveringSweep(moments: seq<int>, x: int) returns (k: nat)
    requires moments != [] && GapsFit(moments)
    requires moments[0] <= x < moments[|moments| - 1] + REMINDER_WINDOW
    ensures k < |moments| && moments[k] <= x < moments[k] + REMINDER_WINDOW
    decreases |moments|
  {
    k := |moments| - 1;
    if x < moments[k] {
      assert moments[k - 1] <= moments[k - 1 + 1] <= moments[k - 1] + REMINDER_WINDOW;
      k := CoveringSweep(moments[..k], x);
    }
  }

  /**
   * A booking live and unmoved since step `m`, and sweeps that had still to select its kind then and have
   * committed by step `n`, no further apart than the window, with the start less the horizon in the span they
   * swept: the reminder has been mailed once, and once more for every sweep that died after queueing it.  The one
   * mail is queued after step `m` exactly when the claim was not held then.
   */
  lemma ExactlyOnce(run: seq<World>, m: nat, n: nat, sweeps: seq<nat>, k: nat, a: Id, start: int)
    requires Run(run) && m <= n < |run| && Stays(run, m, n, a, start) && k < |KINDS|
    requires sweeps != [] && forall j | 0 <= j < |sweeps| ::
               sweeps[j] < |run[m].sweeps| && Waiting(run[m], sweeps[j], k)
    requires forall j | 0 <= j < |sweeps| :: sweeps[j] < |run[n].sweeps| && run[n].sweeps[sweeps[j]].stage.Committed?
    requires GapsFit(MomentsOf(run[m], sweeps))
    requires var moments := MomentsOf(run[m], sweeps);
             moments[0] <= start - Horizon(KINDS[k]) < moments[|moments| - 1] + REMINDER_WINDOW
    ensures var key := Key(a, KINDS[k]);
            && Copies(run[n], key) == 1 + |Lost(run[n], key)|
            && (Copies(run[n], key) == 1 <==> Lost(run[n], key) == {})
            && Copies(run[n], key) - Copies(run[m], key) ==
               |Lost(run[n], key)| - |Lost(run[m], key)| + if Held(run[m], key) then 0 else 1
  {
    var j := CoveringSweep(MomentsOf(run[m], sweeps), start - Horizon(KINDS[k]));
    SeenIsMailed(run, m, n, sweeps[j], k, a, start);
    CopiesAreCounted(run, n, Key(a, KINDS[k]));
    CopiesAreCounted(run, m, Key(a, KINDS[k]));
  }

  function MomentsOf(w: World, sweeps: seq<nat>): seq<int>
    requires forall j | 0 <= j < |sweeps| :: sweeps[j] < |w.sweeps|
  {
    seq(|sweeps|, j requires 0 <= j < |sweeps| => w.sweeps[sweeps[j]].moment)
  }

  // ---- why a sweep must not die with mails queued ----

  /**
   * A sweep that aborts after queueing leaves no claim behind, and the next one in the window queues the mail
   * again.
   */
  lemma LateAbortSendsTwice(a: Id, row: Appointment, moment: int) returns (run: seq<World>)
    requires DueRow(row, moment, DayBefore)
    ensures Run(run) && run[0].appointments == map[a := row]
    ensures run[|run| - 1].outbox == [Key(a, DayBefore), Key(a, DayBefore)]
  {
    var key, waiting := Key(a, DayBefore), Sweep(moment, Select(0), {});
    var selected, claimed := waiting.(stage := Claiming(0, [a])), Sweep(moment, Claiming(0, []), {key});
    var w0 := World(map[a := row], {}, [], [waiting, waiting]);
    var w1 := w0.(sweeps := [selected, waiting]);
    var w2 := w1.(sweeps := [claimed, waiting], outbox := [key]);
    var w3 := w2.(sweeps := [claimed.(stage := Aborted), waiting]);
    var w4 := w3.(sweeps := [claimed.(stage := Aborted), selected]);
    var w5 := w4.(sweeps := [claimed.(stage := Aborted), claimed], outbox := [key, key]);
    assert [a][1..] == [] && {} + {key} == {key} && [] + [key] == [key] && [key] + [key] == [key, key];
    assert SelectStep(w0, w1, 0) && SweepStep(w0, w1, 0);
    assert ClaimStep(w1, w2, 0) && SweepStep(w1, w2, 0);
    assert AbortStep(w2, w3, 0) && SweepStep(w2, w3, 0);
    assert SelectStep(w3, w4, 1) && SweepStep(w3, w4, 1);
    assert ClaimStep(w4, w5, 1) && SweepStep(w4, w5, 1);
    run := [w0, w1, w2, w3, w4, w5];
  }

  // ---- sweeps waiting for one another ----

  function KindIndex(kind: Kind): nat {
    if kind.DayBefore? then 0 else 1
  }

  ghost predicate Rising(due: seq<Id>, rank: Id -> int) {
    forall i, j | 0 <= i < j < |due| :: rank(due[i]) < rank(due[j])
  }

  /** The claim comes before the row `a` of the k-th kind, kinds first and then ranks. */
  predicate ClaimedBefore(key: Key, k: nat, a: Id, rank: Id -> int) {
    KindIndex(key.kind) < k || (KindIndex(key.kind) == k && rank(key.appointment) < rank(a))
  }

  /** The sweep has claimed only what comes before all it still has to claim. */
  ghost predicate InOrder(sweep: Sweep, rank: Id -> int) {
    match sweep.stage
    case Select(k) => k <= |KINDS| && forall key | key in sweep.own :: KindIndex(key.kind) < k
    case Claiming(k, due) =>
      && k < |KINDS| && Rising(due, rank)
      && (forall key | key in sweep.own :: KindIndex(key.kind) <= k)
      && forall key, a | key in sweep.own && a in due :: ClaimedBefore(key, k, a, rank)
    case _ => true
  }

  ghost predicate AllInOrder(w: World, rank: Id -> int) {
    forall i | 0 <= i < |w.sweeps| :: InOrder(w.sweeps[i], rank)
  }

  ghost predicate SelectedInOrder(w: World, rank: Id -> int) {
    forall i | 0 <= i < |w.sweeps| && w.sweeps[i].stage.Claiming? :: Rising(w.sweeps[i].stage.due, rank)
  }

  lemma SweepStepKeepsOrder(w: World, w': World, i: nat, rank: Id -> int)
    requires SweepStep(w, w', i) && i < |w.sweeps| && InOrder(w.sweeps[i], rank) && SelectedInOrder(w', rank)
    ensures i < |w'.sweeps| && InOrder(w'.sweeps[i], rank)
  {
    if ClaimStep(w, w', i) && w.sweeps[i].stage.due != [] {
      var due := w.sweeps[i].stage.due;
      assert forall a | a in due[1..] :: rank(due[0]) < rank(a) && a in due;
    }
  }

  lemma {:induction false} RunKeepsOrder(run: seq<World>, n: nat, rank: Id -> int)
    requires Run(run) && n < |run| && forall m | 0 <= m <= n :: SelectedInOrder(run[m], rank)
    ensures AllInOrder(run[n], rank)
    decreases n
  {
    if n > 0 {
      var w, w' := run[n - 1], run[n];
      RunKeepsOrder(run, n - 1, rank);
      assert Step(run[n - 1], run[n - 1 + 1]);
      if !BookingStep(w, w') {
        var i: nat :| SweepStep(w, w', i);
        SweepStepKeepsOrder(w, w', i, rank);
        assert forall j | 0 <= j < |w.sweeps| && j != i :: w'.sweeps[j] == w.sweeps[j];
      }
    }
  }

  /** The sweep wants a claim that another one holds open. */
  predicate Blocked(w: World, i: nat) {
    i < |w.sweeps| && w.sweeps[i].stage.Claiming? && w.sweeps[i].stage.k < |KINDS| && w.sweeps[i].stage.due != [] &&
    ClaimedByAnother(w, i, Wanted(w.sweeps[i]))
  }

  function Wanted(sweep: Sweep): Key
    requires sweep.stage.Claiming? && sweep.stage.k < |KINDS| && sweep.stage.due != []
  {
    Key(sweep.stage.due[0], KINDS[sweep.stage.k])
  }

  /** The sweeps blocked on a row that comes after this claim. */
  function BlockedAfter(w: World, key: Key, rank: Id -> int): set<nat> {
    set i: nat | i < |w.sweeps| && Blocked(w, i) &&
                 ClaimedBefore(key, w.sweeps[i].stage.k, w.sweeps[i].stage.due[0], rank)
  }

  /** Following the waits leads on to a sweep that is not blocked. */
  lemma {:induction false} WaitsLeadOn(w: World, i: nat, rank: Id -> int) returns (j: nat)
    requires AllInOrder(w, rank) && Blocked(w, i)
    ensures j < |w.sweeps| && w.sweeps[j].Active() && !Blocked(w, j)
    decreases BlockedAfter(w, Wanted(w.sweeps[i]), rank)
  {
    var key := Wanted(w.sweeps[i]);
    j :| 0 <= j < |w.sweeps| && j != i && w.sweeps[j].Active() && key in w.sweeps[j].own;
    assert InOrder(w.sweeps[j], rank);
    if Blocked(w, j) {
      assert w.sweeps[j].stage.due[0] in w.sweeps[j].stage.due;
      assert KindIndex(KINDS[w.sweeps[j].stage.k]) == w.sweeps[j].stage.k;
      var lower, higher := BlockedAfter(w, key, rank), BlockedAfter(w, Wanted(w.sweeps[j]), rank);
      assert j in lower && j !in higher && higher <= lower;
      j := WaitsLeadOn(w, j, rank);
    }
  }

  /**
   * If every selection comes in one common order of rows, sweeps never wait for one another in a circle: while one
   * is unfinished, one is unfinished and not blocked.
   */
  lemma SomeSweepIsFree(run: seq<World>, n: nat, i: nat, rank: Id -> int) returns (j: nat)
    requires Run(run) && n < |run| && forall m | 0 <= m <= n :: SelectedInOrder(run[m], rank)
    requires i < |run[n].sweeps| && run[n].sweeps[i].Active()
    ensures j < |run[n].sweeps| && run[n].sweeps[j].Active() && !Blocked(run[n], j)
  {
    RunKeepsOrder(run, n, rank);
    j := i;
    if Blocked(run[n], i) {
      j := WaitsLeadOn(run[n], i, rank);
    }
  }

  /** Two sweeps, each with one row claimed and waiting for the other's. */
  function Crossed(a: Id, b: Id, row: Appointment, moment: int): World {
    var one, two := Key(a, DayBefore), Key(b, DayBefore);
    World(map[a := row, b := row], {}, [one, two],
          [Sweep(moment, Claiming(0, [b]), {one}), Sweep(moment, Claiming(0, [a]), {two})])
  }

  lemma CrossedIsBlocked(a: Id, b: Id, row: Appointment, moment: int)
    requires a != b
    ensures Blocked(Crossed(a, b, row, moment), 0) && Blocked(Crossed(a, b, row, moment), 1)
  {
    var w := Crossed(a, b, row, moment);
    assert w.sweeps[1].Active() && Key(b, DayBefore) in w.sweeps[1].own;
    assert w.sweeps[0].Active() && Key(a, DayBefore) in w.sweeps[0].own;
  }

  /** Both select the two rows, in opposite orders. */
  lemma SelectBoth(a: Id, b: Id, row: Appointment, moment: int) returns (w0: World, w1: World, w2: World)
    requires a != b && DueRow(row, moment, DayBefore)
    ensures Begin(w0) && w0.appointments == map[a := row, b := row] && Step(w0, w1) && Step(w1, w2)
    ensures w2 == w0.(sweeps := [Sweep(moment, Claiming(0, [a, b]), {}), Sweep(moment, Claiming(0, [b, a]), {})])
  {
    var waiting := Sweep(moment, Select(0), {});
    w0 := World(map[a := row, b := row], {}, [], [waiting, waiting]);
    w1 := w0.(sweeps := [waiting.(stage := Claiming(0, [a, b])), waiting]);
    w2 := w0.(sweeps := [waiting.(stage := Claiming(0, [a, b])), waiting.(stage := Claiming(0, [b, a]))]);
    assert SelectStep(w0, w1, 0) && SweepStep(w0, w1, 0);
    assert SelectStep(w1, w2, 1) && SweepStep(w1, w2, 1);
  }

  /** A first claim: nobody else holds it, and it is queued. */
  lemma ClaimFirst(w: World, i: nat, rest: seq<Id>, key: Key)
    requires i < |w.sweeps| && w.sweeps[i].stage == Claiming(0, [key.appointment] + rest) && w.sweeps[i].own == {}
    requires key.kind == DayBefore && key !in w.claims && !ClaimedByAnother(w, i, key)
    ensures Step(w, w.(outbox := w.outbox + [key],
                       sweeps := w.sweeps[i := w.sweeps[i].(stage := Claiming(0, rest), own := {key})]))
  {
    var w' := w.(outbox := w.outbox + [key],
                 sweeps := w.sweeps[i := w.sweeps[i].(stage := Claiming(0, rest), own := {key})]);
    assert ([key.appointment] + rest)[1..] == rest && {} + {key} == {key};
    assert ClaimStep(w, w', i);
    assert SweepStep(w, w', i);
  }

  /** Each claims its first row. */
  lemma ClaimBoth(a: Id, b: Id, row: Appointment, moment: int, w2: World) returns (w3: World)
    requires a != b && w2.claims == {} && w2.outbox == [] && w2.appointments == map[a := row, b := row]
    requires w2.sweeps == [Sweep(moment, Claiming(0, [a, b]), {}), Sweep(moment, Claiming(0, [b, a]), {})]
    ensures Step(w2, w3) && Step(w3, Crossed(a, b, row, moment))
  {
    var w4 := Crossed(a, b, row, moment);
    w3 := w2.(sweeps := [w4.sweeps[0], w2.sweeps[1]], outbox := [Key(a, DayBefore)]);
    assert [a] + [b] == [a, b] && [b] + [a] == [b, a];
    ClaimFirst(w2, 0, [b], Key(a, DayBefore));
    assert w3 == w2.(outbox := w2.outbox + [Key(a, DayBefore)], sweeps := w2.sweeps[0 := w4.sweeps[0]]);
    ClaimFirst(w3, 1, [a], Key(b, DayBefore));
    assert w4 == w3.(outbox := w3.outbox + [Key(b, DayBefore)], sweeps := w3.sweeps[1 := w4.sweeps[1]]);
  }

  /** The query asks for no order, and without one two sweeps can come to wait for each other. */
  lemma TwoSweepsCanBlock(a: Id, b: Id, row: Appointment, moment: int) returns (run: seq<World>)
    requires a != b && DueRow(row, moment, DayBefore)
    ensures Run(run) && run[0].appointments == map[a := row, b := row]
    ensures var w := run[|run| - 1]; |w.sweeps| == 2 && Blocked(w, 0) && Blocked(w, 1)
  {
    var w0, w1, w2 := SelectBoth(a, b, row, moment);
    var w3 := ClaimBoth(a, b, row, moment, w2);
    run := [w0, w1, w2, w3, Crossed(a, b, row, moment)];
    CrossedIsBlocked(a, b, row, moment);
  }

  // ---- the task itself, run alone ----

  /** Every reminder due at the moment, for either kind. */
  ghost function AllDue(rows: map<Id, Appointment>, moment: int, kinds: seq<Kind>): set<Key> {
    set a, kind | a in rows && kind in kinds && DueRow(rows[a], moment, kind) :: Key(a, kind)
  }

  class ReminderDesk {
    var appointments: map<Id, Appointment>
    var claims: set<Key>
    var outbox: seq<Key>

    /** Insert the claim unless it is there; the answer says whether this call inserted it. */
    method ClaimReminder(key: Key) returns (first: bool)
      modifies this`claims
      ensures first <==> key !in old(claims)
      ensures claims == old(claims) + {key}
    {
      first := key !in claims;
      claims := claims + {key};
    }

    /** The selected rows of one kind: claim each, and queue a mail for those not claimed before. */
    method RemindAll(due: set<Id>, kind: Kind) returns (queued: nat)
      modifies this`claims, this`outbox
      ensures claims == old(claims) + set a | a in due :: Key(a, kind)
      ensures |outbox| == |old(outbox)| + queued && outbox[..|old(outbox)|] == old(outbox)
      ensures forall key :: key in outbox[|old(outbox)|..] <==>
              key.appointment in due && key.kind == kind && key !in old(claims)
      ensures forall m, n | |old(outbox)| <= m < n < |outbox| :: outbox[m] != outbox[n]
    {
      queued := 0;
      var left := due;
      while left != {}
        invariant left <= due
        invariant claims == old(claims) + set a | a in due && a !in left :: Key(a, kind)
        invariant |outbox| == |old(outbox)| + queued && outbox[..|old(outbox)|] == old(outbox)
        invariant forall key :: key in outbox[|old(outbox)|..] <==>
                    key.appointment in due && key.appointment !in left && key.kind == kind && key !in old(claims)
        invariant forall m, n | |old(outbox)| <= m < n < |outbox| :: outbox[m] != outbox[n]
        decreases left
      {
        SomeMember(left);
        var a :| a in left;
        var key := Key(a, kind);
        ghost var was := outbox;
        assert key !in was[|old(outbox)|..];
        var first := ClaimReminder(key);
        left := left - {a};
        if first {
          outbox := outbox + [key];
          queued := queued + 1;
          assert outbox[|old(outbox)|..] == was[|old(outbox)|..] + [key];
          forall m | |old(outbox)| <= m < |was| ensures was[m] != key {
            assert was[m] == was[|old(outbox)|..][m - |old(outbox)|];
          }
        }
      }
    }

    /** The reminders due, said in the columns of the rows. */
    lemma AllDueExactlyWhen(key: Key, moment: int)
      ensures key in AllDue(appointments, moment, KINDS) <==>
              key.appointment in appointments &&
              var row := appointments[key.appointment];
              row.status in {Pending, Confirmed} &&
              moment + Horizon(key.kind) <= row.start < moment + Horizon(key.kind) + 20 * MINUTE
    {
      assert key == Key(key.appointment, key.kind);
      assert key.kind == KINDS[KindIndex(key.kind)];
    }

    /**
     * One sweep: afterwards every due reminder is claimed, and exactly those unclaimed before were mailed, once
     * each.
     */
    method SendAppointmentReminders(moment: int) returns (queued: nat)
      modifies this`claims, this`outbox
      ensures claims == old(claims) + AllDue(appointments, moment, KINDS)
      ensures |outbox| == |old(outbox)| + queued && outbox[..|old(outbox)|] == old(outbox)
      ensures forall key :: key in outbox[|old(outbox)|..] <==>
              key in AllDue(appointments, moment, KINDS) && key !in old(claims)
      ensures forall key :: key in outbox[|old(outbox)|..] <==>
              key.appointment in appointments && key !in old(claims) &&
              var row := appointments[key.appointment];
              row.status in {Pending, Confirmed} &&
              moment + Horizon(key.kind) <= row.start < moment + Horizon(key.kind) + 20 * MINUTE
      ensures forall m, n | |old(outbox)| <= m < n < |outbox| :: outbox[m] != outbox[n]
    {
      queued := 0;
      for k := 0 to |KINDS|
        invariant claims == old(claims) + AllDue(appointments, moment, KINDS[..k])
        invariant |outbox| == |old(outbox)| + queued && outbox[..|old(outbox)|] == old(outbox)
        invariant forall key :: key in outbox[|old(outbox)|..] <==>
                  key in AllDue(appointments, moment, KINDS[..k]) && key !in old(claims)
        invariant forall m, n | |old(outbox)| <= m < n < |outbox| :: outbox[m] != outbox[n]
      {
        var kind := KINDS[k];
        assert KINDS[..k + 1] == KINDS[..k] + [kind] && kind !in KINDS[..k];
        ghost var was := outbox;
        var more := RemindAll((set a | a in appointments && DueRow(appointments[a], moment, kind)), kind);
        queued := queued + more;
        ghost var base := |old(outbox)|;
        assert outbox[base..] == was[base..] + outbox[|was|..] by {
          assert outbox[..|was|] == was;
        }
        forall m, n | base <= m < n < |outbox| ensures outbox[m] != outbox[n] {
          if m < |was| <= n {
            assert was[m] == was[base..][m - base] && outbox[m] == was[m];
            assert outbox[n] == outbox[|was|..][n - |was|];
            assert was[m] in was[base..] && outbox[n] in outbox[|was|..];
          }
        }
      }
      assert KINDS[..|KINDS|] == KINDS;
      forall key {
        AllDueExactlyWhen(key, moment);
      }
    }
  }
}
