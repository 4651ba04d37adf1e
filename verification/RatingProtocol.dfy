/**
 * Review writers and the nightly repair as concurrent transactions.  A writer locks the barber's row,
 * inserts its review, recomputes and commits; the repair locks one barber after another, recomputing each,
 * and commits at the end.  Locks are held until the transaction ends.
 */
module RatingProtocol {
  import opened Booking
  import opened Ratings

  datatype WriterPhase = Asking | Holding | Inserted | Summed(pending: Summary) | Committed | Rejected

  datatype Txn =
    | Writer(review: Review, phase: WriterPhase)
      /** Barbers still to do, whether the first of them is locked, and the summaries computed so far. */
    | Repair(todo: seq<Id>, locked: bool, staged: map<Id, Summary>, finished: bool)
  {
    predicate Done() { if Writer? then phase.Committed? || phase.Rejected? else finished }

    /** Whether the transaction holds the barber's row lock. */
    predicate Holds(barber: Id) {
      if Writer? then review.barber == barber && (phase.Holding? || phase.Inserted? || phase.Summed?)
      else !finished && (barber in staged || (locked && todo != [] && todo[0] == barber))
    }
  }

  datatype Store = Store(stored: map<Id, Summary>, reviews: seq<Review>, locks: map<Id, nat>, txns: seq<Txn>)

  predicate Reviewed(reviews: seq<Review>, appointment: Id) {
    exists k | 0 <= k < |reviews| :: reviews[k].appointment == appointment
  }

  function Release(locks: map<Id, nat>, i: nat): map<Id, nat> {
    map b | b in locks && locks[b] != i :: locks[b]
  }

  /** A transaction waits only for a row lock another one holds. */
  predicate Enabled(s: Store, i: nat) {
    i < |s.txns| && !s.txns[i].Done() &&
    match s.txns[i]
    case Writer(review, phase) => phase.Asking? ==> review.barber !in s.locks
    case Repair(todo, locked, _, _) => todo != [] && !locked ==> todo[0] !in s.locks || s.locks[todo[0]] == i
  }

  function With(s: Store, i: nat, t: Txn): Store
    requires i < |s.txns|
  {
    s.(txns := s.txns[i := t])
  }

  function Step(s: Store, i: nat): Store
    requires Enabled(s, i)
  {
    match s.txns[i]
    case Writer(review, phase) =>
      (match phase
       case Asking => With(s, i, Writer(review, Holding)).(locks := s.locks[review.barber := i])
       case Holding =>
         if Reviewed(s.reviews, review.appointment)
         then With(s, i, Writer(review, Rejected)).(locks := Release(s.locks, i))
         else With(s, i, Writer(review, Inserted))
       case Inserted => With(s, i, Writer(review, Summed(Summarize(s.reviews + [review], review.barber))))
       case Summed(pending) =>
         With(s, i, Writer(review, Committed))
         .(reviews := s.reviews + [review], stored := s.stored[review.barber := pending], locks := Release(s.locks, i))
       case _ => s)
    case Repair(todo, locked, staged, _) =>
      if todo == [] then
        With(s, i, Repair([], false, staged, true)).(stored := s.stored + staged, locks := Release(s.locks, i))
      else if !locked then
        With(s, i, Repair(todo, true, staged, false)).(locks := s.locks[todo[0] := i])
      else
        With(s, i, Repair(todo[1..], false, staged[todo[0] := Summarize(s.reviews, todo[0])], false))
  }

  // ---- the invariant ----

  ghost predicate Correct(s: Store, barber: Id)
    requires Valid(s.reviews)
  {
    barber in s.stored && s.stored[barber] == Summarize(s.reviews, barber)
  }

  /** An appointment fixes its barber, in the table and in every writer. */
  ghost predicate SameBarbers(s: Store) {
    && (forall i, k | 0 <= i < |s.txns| && 0 <= k < |s.reviews| && s.txns[i].Writer? ::
          s.txns[i].review.appointment == s.reviews[k].appointment ==> s.txns[i].review.barber == s.reviews[k].barber)
    && (forall i, j | 0 <= i < |s.txns| && 0 <= j < |s.txns| && s.txns[i].Writer? && s.txns[j].Writer? ::
          s.txns[i].review.appointment == s.txns[j].review.appointment ==>
                s.txns[i].review.barber == s.txns[j].review.barber)
  }

  /** The lock table says exactly who holds what. */
  ghost predicate LocksAgree(s: Store) {
    && (forall b | b in s.locks :: s.locks[b] < |s.txns| && s.txns[s.locks[b]].Holds(b))
    && (forall i, b | 0 <= i < |s.txns| && s.txns[i].Holds(b) :: b in s.locks && s.locks[b] == i)
  }

  /** Work done under a lock is up to date. */
  ghost predicate WorkOk(s: Store, t: Txn)
    requires Valid(s.reviews)
  {
    match t
    case Writer(review, phase) =>
      && 1 <= review.stars <= 5
      && (phase.Inserted? || phase.Summed? ==> !Reviewed(s.reviews, review.appointment))
      && (phase.Summed? ==> phase.pending == Summarize(s.reviews + [review], review.barber))
    case Repair(_, _, staged, finished) =>
      !finished ==> forall b | b in staged :: staged[b] == Summarize(s.reviews, b)
  }

  ghost predicate Inv(s: Store) {
    && Valid(s.reviews) && SameBarbers(s) && LocksAgree(s)
    && forall i | 0 <= i < |s.txns| :: WorkOk(s, s.txns[i])
  }

  // ---- a review only matters to its own barber ----

  lemma AppendCounts(reviews: seq<Review>, review: Review, barber: Id)
    ensures Count(reviews + [review], barber) == Count(reviews, barber) + if review.barber == barber then 1 else 0
    ensures Stars(reviews + [review], barber) ==
            Stars(reviews, barber) + if review.barber == barber then review.stars else 0
  {
  }

  lemma AppendSummary(reviews: seq<Review>, review: Review, barber: Id)
    ensures review.barber != barber ==> Summarize(reviews + [review], barber) == Summarize(reviews, barber)
  {
  }

  lemma ValidAppend(reviews: seq<Review>, review: Review)
    requires Valid(reviews) && 1 <= review.stars <= 5 && !Reviewed(reviews, review.appointment)
    ensures Valid(reviews + [review])
  {
  }

  // ---- one step ----

  /** Changing one transaction, with the reviews as they are and the locks to match. */
  lemma LocalStep(s: Store, i: nat, t: Txn, locks: map<Id, nat>)
    requires Inv(s) && i < |s.txns| && WorkOk(s, t)
    requires t.Writer? <==> s.txns[i].Writer?
    requires t.Writer? ==> t.review == s.txns[i].review
    requires forall b :: t.Holds(b) <==> b in locks && locks[b] == i
    requires forall b | b in locks && locks[b] != i :: b in s.locks && s.locks[b] == locks[b]
    requires forall b | b in s.locks && s.locks[b] != i :: b in locks && s.locks[b] == locks[b]
    ensures Inv(With(s, i, t).(locks := locks))
  {
    var v := With(s, i, t).(locks := locks);
    forall k, b | 0 <= k < |v.txns| && v.txns[k].Holds(b) ensures b in v.locks && v.locks[b] == k {
      if k != i {
        assert s.txns[k].Holds(b);
      }
    }
  }

  /** A writer's commit: the other transactions work on other barbers, so their work stays up to date. */
  lemma CommitStep(s: Store, i: nat)
    requires Inv(s) && Enabled(s, i) && s.txns[i].Writer? && s.txns[i].phase.Summed?
    ensures Inv(Step(s, i))
    ensures forall b :: (Correct(s, b) ==> Correct(Step(s, i), b))
  {
    var review, pending := s.txns[i].review, s.txns[i].phase.pending;
    var v := Step(s, i);
    assert WorkOk(s, s.txns[i]);
    ValidAppend(s.reviews, review);
    assert s.txns[i].Holds(review.barber);
    forall k | 0 <= k < |v.txns| ensures WorkOk(v, v.txns[k]) {
      if k != i {
        assert WorkOk(s, s.txns[k]);
        OthersWork(s, i, k);
      }
    }
    assert LocksAgree(v) by {
      forall b ensures s.txns[i].Holds(b) <==> b == review.barber {}
    }
    forall b | Correct(s, b) ensures Correct(v, b) {
      AppendSummary(s.reviews, review, b);
    }
  }

  /** Two transactions never work on one barber at a time. */
  lemma HoldersDiffer(s: Store, i: nat, k: nat, b: Id, c: Id)
    requires LocksAgree(s) && i < |s.txns| && k < |s.txns| && k != i
    requires s.txns[i].Holds(b) && s.txns[k].Holds(c)
    ensures b != c
  {
    assert b in s.locks && s.locks[b] == i;
    assert c in s.locks && s.locks[c] == k;
  }

  lemma OthersWork(s: Store, i: nat, k: nat)
    requires Inv(s) && i < |s.txns| && k < |s.txns| && k != i
    requires s.txns[i].Writer? && s.txns[i].phase.Summed?
    requires Valid(s.reviews + [s.txns[i].review])
    ensures WorkOk(s.(reviews := s.reviews + [s.txns[i].review]), s.txns[k])
  {
    var review, t := s.txns[i].review, s.txns[k];
    var reviews := s.reviews + [review];
    assert WorkOk(s, t);
    if t.Writer? {
      if t.phase.Inserted? || t.phase.Summed? {
        HoldersDiffer(s, i, k, review.barber, t.review.barber);
        SwappedSummary(s.reviews, review, t.review);
      }
    } else if !t.finished {
      forall b | b in t.staged ensures t.staged[b] == Summarize(reviews, b) {
        HoldersDiffer(s, i, k, review.barber, b);
        AppendSummary(s.reviews, review, b);
      }
    }
  }

  /** Another barber's review in between changes nothing for this one. */
  lemma SwappedSummary(reviews: seq<Review>, between: Review, own: Review)
    requires between.barber != own.barber
    ensures Summarize(reviews + [between] + [own], own.barber) == Summarize(reviews + [own], own.barber)
  {
    AppendCounts(reviews + [between], own, own.barber);
    AppendCounts(reviews, between, own.barber);
    AppendCounts(reviews, own, own.barber);
  }

  lemma RepairCommitStep(s: Store, i: nat)
    requires Inv(s) && Enabled(s, i) && s.txns[i].Repair? && s.txns[i].todo == []
    ensures Inv(Step(s, i))
    ensures forall b :: (Correct(s, b) ==> Correct(Step(s, i), b))
    ensures forall b | b in s.txns[i].staged :: Correct(Step(s, i), b)
  {
  }

  /** Every step keeps the invariant and never spoils a correct pair. */
  lemma StepKeeps(s: Store, i: nat)
    requires Inv(s) && Enabled(s, i)
    ensures Inv(Step(s, i))
    ensures forall b :: (Correct(s, b) ==> Correct(Step(s, i), b))
  {
    assert WorkOk(s, s.txns[i]);
    match s.txns[i] {
      case Writer(review, phase) =>
        match phase {
          case Asking => LocalStep(s, i, Writer(review, Holding), s.locks[review.barber := i]);
          case Holding =>
            if Reviewed(s.reviews, review.appointment) {
              LocalStep(s, i, Writer(review, Rejected), Release(s.locks, i));
            } else {
              LocalStep(s, i, Writer(review, Inserted), s.locks);
            }
          case Inserted =>
            LocalStep(s, i, Writer(review, Summed(Summarize(s.reviews + [review], review.barber))), s.locks);
          case Summed(_) => CommitStep(s, i);
          case _ =>
        }
      case Repair(todo, locked, staged, _) =>
        if todo == [] {
          RepairCommitStep(s, i);
        } else if !locked {
          LocalStep(s, i, Repair(todo, true, staged, false), s.locks[todo[0] := i]);
        } else {
          LocalStep(s, i, Repair(todo[1..], false, staged[todo[0] := Summarize(s.reviews, todo[0])], false), s.locks);
        }
    }
  }

  // ---- runs ----

  /** Nothing has begun: no locks, writers asking for theirs, repairs with everything to do. */
  ghost predicate Start(s: Store) {
    && Valid(s.reviews) && SameBarbers(s) && s.locks == map[]
    && forall i | 0 <= i < |s.txns| ::
         match s.txns[i]
         case Writer(review, phase) => phase == Asking && 1 <= review.stars <= 5
         case Repair(_, locked, staged, finished) => !locked && staged == map[] && !finished
  }

  /** The store after the transactions have taken turns; a blocked or finished one passes. */
  function Play(s: Store, order: seq<nat>): Store
    decreases |order|
  {
    if order == [] then s
    else
      var before, i := Play(s, order[..|order| - 1]), order[|order| - 1];
      if Enabled(before, i) then Step(before, i) else before
  }

  lemma {:induction false} PlayKeeps(s: Store, order: seq<nat>)
    requires Inv(s)
    ensures Inv(Play(s, order))
    ensures forall b :: (Correct(s, b) ==> Correct(Play(s, order), b))
    decreases |order|
  {
    if order != [] {
      var before, i := Play(s, order[..|order| - 1]), order[|order| - 1];
      PlayKeeps(s, order[..|order| - 1]);
      if Enabled(before, i) {
        StepKeeps(before, i);
      }
    }
  }

  /**
   * In every interleaving of review writers and repairs: a barber whose stored pair starts correct has,
   * after every commit, the half-up mean and the number of its committed reviews; it stays within 0 and 5.
   */
  lemma RatingsStayCorrect(s: Store, order: seq<nat>, barber: Id)
    requires Start(s) && Correct(s, barber)
    ensures var t := Play(s, order);
            barber in t.stored && Meets(t.stored[barber], t.reviews, barber)
  {
    PlayKeeps(s, order);
    var t := Play(s, order);
    assert Correct(t, barber);
    SummaryIsTheMean(t.reviews, barber, t.stored[barber]);
  }

  // ---- the repair repairs ----

  /** Every barber a repair set out to do is still to do, computed, or, once it is finished, correct. */
  ghost predicate Covers(s: Store, i: nat, all: seq<Id>)
    requires Valid(s.reviews)
  {
    i < |s.txns| && s.txns[i].Repair? &&
    forall b | b in all ::
      if s.txns[i].finished then Correct(s, b) else b in s.txns[i].todo || b in s.txns[i].staged
  }

  lemma StepCovers(s: Store, i: nat, k: nat, all: seq<Id>)
    requires Inv(s) && Enabled(s, k) && Inv(Step(s, k)) && Covers(s, i, all)
    ensures Covers(Step(s, k), i, all)
  {
    StepKeeps(s, k);
    if k == i {
      var t := s.txns[i];
      if t.todo == [] {
        RepairCommitStep(s, i);
      } else {
        assert t.todo == [t.todo[0]] + t.todo[1..];
      }
    } else {
      assert Step(s, k).txns[i] == s.txns[i];
    }
  }

  /** When a repair has committed, every barber it listed is correct, drifted before or not, and stays so. */
  lemma {:induction false} RepairRepairs(s: Store, order: seq<nat>, i: nat)
    requires Start(s) && i < |s.txns| && s.txns[i].Repair?
    ensures Valid(Play(s, order).reviews) && Covers(Play(s, order), i, s.txns[i].todo)
    decreases |order|
  {
    PlayKeeps(s, order);
    if order != [] {
      var before, k := Play(s, order[..|order| - 1]), order[|order| - 1];
      PlayKeeps(s, order[..|order| - 1]);
      RepairRepairs(s, order[..|order| - 1], i);
      if Enabled(before, k) {
        StepCovers(before, i, k, s.txns[i].todo);
      }
    }
  }

  // ---- no deadlock ----

  predicate AtMostOneRepair(s: Store) {
    forall i, j | 0 <= i < j < |s.txns| :: !(s.txns[i].Repair? && s.txns[j].Repair?)
  }

  predicate Working(t: Txn) {
    t.Writer? && (t.phase.Holding? || t.phase.Inserted? || t.phase.Summed?)
  }

  /** With locks taken first, some unfinished transaction can always step: there is never a deadlock. */
  lemma SomeoneCanStep(s: Store, i: nat)
    requires Inv(s) && AtMostOneRepair(s) && i < |s.txns| && !s.txns[i].Done()
    ensures exists k :: Enabled(s, k)
  {
    if exists k | 0 <= k < |s.txns| :: Working(s.txns[k]) {
      var k :| 0 <= k < |s.txns| && Working(s.txns[k]);
      assert Enabled(s, k);
    } else if exists k | 0 <= k < |s.txns| :: s.txns[k].Repair? && !s.txns[k].finished {
      // No writer holds a lock, so whatever is locked is locked by the one repair.
      var k :| 0 <= k < |s.txns| && s.txns[k].Repair? && !s.txns[k].finished;
      forall b | b in s.locks ensures s.locks[b] == k {
        var h := s.locks[b];
        assert s.txns[h].Holds(b);
        assert s.txns[h].Repair?;
      }
      assert Enabled(s, k);
    } else {
      assert forall k, b | 0 <= k < |s.txns| :: !s.txns[k].Holds(b);
      assert Enabled(s, i);
    }
  }

  // ---- any number of repairs in one order ----

  /** The transaction goes through its barbers in increasing rank. */
  ghost predicate InOrder(t: Txn, rank: Id -> int) {
    t.Repair? && !t.finished ==>
      && (forall j, k | 0 <= j < k < |t.todo| :: rank(t.todo[j]) < rank(t.todo[k]))
      && (forall b, c | b in t.staged && c in t.todo :: rank(b) < rank(c))
  }

  ghost predicate OneOrder(s: Store, rank: Id -> int) {
    forall i | 0 <= i < |s.txns| :: InOrder(s.txns[i], rank)
  }

  lemma StepKeepsOrder(s: Store, i: nat, rank: Id -> int)
    requires Enabled(s, i) && OneOrder(s, rank)
    ensures OneOrder(Step(s, i), rank)
  {
    assert InOrder(s.txns[i], rank);
    assert InOrder(Step(s, i).txns[i], rank);
    assert forall k | 0 <= k < |s.txns| && k != i :: Step(s, i).txns[k] == s.txns[k];
  }

  lemma {:induction false} PlayKeepsOrder(s: Store, order: seq<nat>, rank: Id -> int)
    requires OneOrder(s, rank)
    ensures OneOrder(Play(s, order), rank)
    decreases |order|
  {
    if order != [] {
      var before, i := Play(s, order[..|order| - 1]), order[|order| - 1];
      PlayKeepsOrder(s, order[..|order| - 1], rank);
      if Enabled(before, i) {
        StepKeepsOrder(before, i, rank);
      }
    }
  }

  /** The repairs stuck on a barber of higher rank than `r`. */
  function StuckAbove(s: Store, rank: Id -> int, r: int): set<nat> {
    set i: nat | i < |s.txns| && Stuck(s, i) && rank(s.txns[i].todo[0]) > r
  }

  predicate Stuck(s: Store, i: nat) {
    i < |s.txns| && s.txns[i].Repair? && !s.txns[i].Done() && s.txns[i].todo != [] && !Enabled(s, i)
  }

  /** Whoever holds the barber a repair is stuck on can step, or is stuck on one of higher rank. */
  lemma HolderIsAhead(s: Store, rank: Id -> int, i: nat)
    requires Inv(s) && OneOrder(s, rank) && Stuck(s, i)
    ensures var h := s.locks[s.txns[i].todo[0]];
            Enabled(s, h) || (Stuck(s, h) && rank(s.txns[h].todo[0]) > rank(s.txns[i].todo[0]))
  {
    var b := s.txns[i].todo[0];
    var h := s.locks[b];
    assert s.txns[h].Holds(b);
    assert InOrder(s.txns[h], rank);
    if !Enabled(s, h) {
      var c := s.txns[h].todo[0];
      assert b in s.txns[h].staged && c in s.txns[h].todo;
      assert rank(b) < rank(c);
    }
  }

  /** Following the locks upwards from a stuck repair leads to a transaction that can step. */
  lemma {:induction false} ClimbToEnabled(s: Store, rank: Id -> int, i: nat)
    requires Inv(s) && OneOrder(s, rank) && Stuck(s, i)
    ensures exists k :: Enabled(s, k)
    decreases StuckAbove(s, rank, rank(s.txns[i].todo[0]))
  {
    HolderIsAhead(s, rank, i);
    var h := s.locks[s.txns[i].todo[0]];
    if !Enabled(s, h) {
      var lower, higher := StuckAbove(s, rank, rank(s.txns[i].todo[0])), StuckAbove(s, rank, rank(s.txns[h].todo[0]));
      assert higher <= lower && h in lower && h !in higher;
      ClimbToEnabled(s, rank, h);
    }
  }

  /** Any number of repairs that list the barbers in one common order never deadlock, whatever the writers do. */
  lemma SomeoneCanStepInOrder(s: Store, rank: Id -> int, i: nat)
    requires Inv(s) && OneOrder(s, rank) && i < |s.txns| && !s.txns[i].Done()
    ensures exists k :: Enabled(s, k)
  {
    if !Enabled(s, i) {
      if Stuck(s, i) {
        ClimbToEnabled(s, rank, i);
      } else {
        var h := s.locks[s.txns[i].review.barber];
        assert s.txns[h].Holds(s.txns[i].review.barber);
        if !Enabled(s, h) {
          ClimbToEnabled(s, rank, h);
        }
      }
    }
  }

  // ---- everyone finishes ----

  function Left(t: Txn): nat {
    match t
    case Writer(_, phase) =>
      (match phase case Asking => 4 case Holding => 3 case Inserted => 2 case Summed(_) => 1 case _ => 0)
    case Repair(todo, locked, _, finished) =>
      if finished then 0 else 2 * |todo| + 1 - if locked && todo != [] then 1 else 0
  }

  function TotalLeft(txns: seq<Txn>): nat {
    if txns == [] then 0 else Left(txns[0]) + TotalLeft(txns[1..])
  }

  lemma {:induction false} TotalLeftUpdate(txns: seq<Txn>, i: nat, t: Txn)
    requires i < |txns|
    ensures TotalLeft(txns[i := t]) == TotalLeft(txns) - Left(txns[i]) + Left(t)
  {
    if i == 0 {
      assert txns[i := t][1..] == txns[1..];
    } else {
      TotalLeftUpdate(txns[1..], i - 1, t);
      assert txns[i := t][1..] == txns[1..][i - 1 := t];
    }
  }

  lemma StepWorks(s: Store, i: nat)
    requires Enabled(s, i)
    ensures Step(s, i).txns == s.txns[i := Step(s, i).txns[i]]
    ensures TotalLeft(Step(s, i).txns) < TotalLeft(s.txns)
  {
    TotalLeftUpdate(s.txns, i, Step(s, i).txns[i]);
  }

  /** Each turn goes to a transaction that can step. */
  predicate Productive(s: Store, order: seq<nat>) {
    forall k | 0 <= k < |order| :: Enabled(Play(s, order[..k]), order[k])
  }

  lemma {:induction false} ProductiveRunsAreShort(s: Store, order: seq<nat>)
    requires Productive(s, order)
    ensures |order| + TotalLeft(Play(s, order).txns) <= TotalLeft(s.txns)
    decreases |order|
  {
    if order != [] {
      var rest := order[..|order| - 1];
      forall k | 0 <= k < |rest| ensures Enabled(Play(s, rest[..k]), rest[k]) {
        assert rest[..k] == order[..k];
        assert Enabled(Play(s, order[..k]), order[k]);
      }
      ProductiveRunsAreShort(s, rest);
      assert Enabled(Play(s, order[..|order| - 1]), order[|order| - 1]);
      StepWorks(Play(s, rest), order[|order| - 1]);
    }
  }

  lemma {:induction false} SameKinds(s: Store, order: seq<nat>)
    ensures |Play(s, order).txns| == |s.txns|
    ensures forall i | 0 <= i < |s.txns| :: Play(s, order).txns[i].Repair? <==> s.txns[i].Repair?
    decreases |order|
  {
    if order != [] {
      var before, i := Play(s, order[..|order| - 1]), order[|order| - 1];
      SameKinds(s, order[..|order| - 1]);
      if Enabled(before, i) {
        StepWorks(before, i);
      }
    }
  }

  /**
   * With one repair at most, or any number that list the barbers in one common order, turns given to whoever
   * can step run out, and then everyone has finished.
   */
  lemma EveryoneFinishes(s: Store, order: seq<nat>, rank: Id -> int)
    requires Start(s) && (AtMostOneRepair(s) || OneOrder(s, rank)) && Productive(s, order)
    requires forall k :: !Enabled(Play(s, order), k)
    ensures forall i | 0 <= i < |Play(s, order).txns| :: Play(s, order).txns[i].Done()
    ensures |order| <= TotalLeft(s.txns)
  {
    PlayKeeps(s, order);
    SameKinds(s, order);
    ProductiveRunsAreShort(s, order);
    if OneOrder(s, rank) {
      PlayKeepsOrder(s, order, rank);
    }
    forall i | 0 <= i < |Play(s, order).txns| ensures Play(s, order).txns[i].Done() {
      if !Play(s, order).txns[i].Done() {
        if OneOrder(s, rank) {
          SomeoneCanStepInOrder(Play(s, order), rank, i);
        } else {
          SomeoneCanStep(Play(s, order), i);
        }
      }
    }
  }

  /** Two repairs, each with one barber done and waiting for the other's. */
  function Crossed(a: Id, b: Id): Store {
    var none := Summary(0, 0);
    Store(map[], [], map[a := 0, b := 1],
          [Repair([b], false, map[a := none], false), Repair([a], false, map[b := none], false)])
  }

  lemma CrossedIsStuck(a: Id, b: Id)
    requires a != b
    ensures forall k :: !Enabled(Crossed(a, b), k)
    ensures forall i | 0 <= i < 2 :: !Crossed(a, b).txns[i].Done()
  {
  }

  /** The common order is needed: two repairs that list two barbers in opposite orders can block each other for good. */
  lemma TwoRepairsCanDeadlock(a: Id, b: Id)
    requires a != b
    ensures var repairs := [Repair([a, b], false, map[], false), Repair([b, a], false, map[], false)];
            var s := Play(Store(map[], [], map[], repairs), [0, 1, 0, 1]);
            |s.txns| == 2 && (forall i | 0 <= i < 2 :: !s.txns[i].Done()) && forall k :: !Enabled(s, k)
  {
    var r0, r1 := Repair([a, b], false, map[], false), Repair([b, a], false, map[], false);
    var s0 := Store(map[], [], map[], [r0, r1]);
    assert [0, 1, 0, 1][..3] == [0, 1, 0] && [0, 1, 0][..2] == [0, 1] && [0, 1][..1] == [0] && [0][..0] == [];
    assert [a, b][1..] == [b] && [b, a][1..] == [a];
    assert Play(s0, [0]) == Store(map[], [], map[a := 0], [r0.(locked := true), r1]);
    assert Play(s0, [0, 1]) == Store(map[], [], map[a := 0, b := 1], [r0.(locked := true), r1.(locked := true)]);
    assert Play(s0, [0, 1, 0]) == Crossed(a, b).(txns := [Crossed(a, b).txns[0], r1.(locked := true)]);
    assert Play(s0, [0, 1, 0, 1]) == Crossed(a, b);
    CrossedIsStuck(a, b);
  }
}

/**
 * The order the locking avoids, over the same store: a writer that inserts first takes a shared lock on the
 * barber's row through the foreign key, and recomputing then needs the exclusive one.
 */
module InsertFirst {
  import opened Booking
  import opened Ratings
  import opened RatingProtocol

  /** An insert-first writer that has inserted, and not yet locked, shares the barber's row. */
  predicate Shares(t: Txn, barber: Id) {
    t.Writer? && t.phase.Inserted? && t.review.barber == barber
  }

  predicate SharedByAnother(s: Store, i: nat, barber: Id) {
    exists j | 0 <= j < |s.txns| && j != i :: Shares(s.txns[j], barber)
  }

  /** Another writer has inserted a review of the appointment and not committed it. */
  predicate InsertedByAnother(s: Store, i: nat, appointment: Id) {
    exists j | 0 <= j < |s.txns| && j != i ::
      s.txns[j].Writer? && s.txns[j].review.appointment == appointment && !s.txns[j].phase.Asking? && !s.txns[j].Done()
  }

  /**
   * Inserting waits for an exclusive lock, and for another insert of the same review; taking the exclusive lock
   * waits for every other share as well.
   */
  predicate Ready(s: Store, i: nat) {
    i < |s.txns| && !s.txns[i].Done() &&
    match s.txns[i]
    case Writer(review, phase) =>
      (phase.Asking? ==> review.barber !in s.locks && !InsertedByAnother(s, i, review.appointment)) &&
      (phase.Inserted? ==> review.barber !in s.locks && !SharedByAnother(s, i, review.barber))
    case Repair(todo, locked, _, _) =>
      todo != [] && !locked ==> (todo[0] !in s.locks || s.locks[todo[0]] == i) && !SharedByAnother(s, i, todo[0])
  }

  /** Writers go from asking to inserted, and only then to holding the lock; all else is as before. */
  function Move(s: Store, i: nat): Store
    requires Ready(s, i)
  {
    match s.txns[i]
    case Writer(review, phase) =>
      (match phase
       case Asking => With(s, i, Writer(review, if Reviewed(s.reviews, review.appointment) then Rejected else Inserted))
       case Inserted => With(s, i, Writer(review, Holding)).(locks := s.locks[review.barber := i])
       case Holding => With(s, i, Writer(review, Summed(Summarize(s.reviews + [review], review.barber))))
       case _ => Step(s, i))
    case Repair(_, _, _, _) => Step(s, i)
  }

  function Run(s: Store, order: seq<nat>): Store
    decreases |order|
  {
    if order == [] then s
    else
      var before, i := Run(s, order[..|order| - 1]), order[|order| - 1];
      if Ready(before, i) then Move(before, i) else before
  }

  /** Once two writers of one barber have inserted, neither ever finishes, whatever anybody does next. */
  lemma {:induction false} StuckForGood(s: Store, i: nat, j: nat, barber: Id, order: seq<nat>)
    requires i < |s.txns| && j < |s.txns| && i != j && Shares(s.txns[i], barber) && Shares(s.txns[j], barber)
    ensures |Run(s, order).txns| == |s.txns|
    ensures Run(s, order).txns[i] == s.txns[i] && Run(s, order).txns[j] == s.txns[j]
    decreases |order|
  {
    if order != [] {
      StuckForGood(s, i, j, barber, order[..|order| - 1]);
      var before := Run(s, order[..|order| - 1]);
      assert !Ready(before, i) && !Ready(before, j);
    }
  }

  /**
   * The deadlock is reachable from any start with two writers of one barber, for two appointments that have no
   * review yet: let both insert before either locks.
   */
  lemma DeadlockIsReachable(s: Store, i: nat, j: nat, order: seq<nat>)
    requires Start(s) && i < |s.txns| && j < |s.txns| && i != j && s.txns[i].Writer? && s.txns[j].Writer?
    requires s.txns[i].review.barber == s.txns[j].review.barber &&
             s.txns[i].review.appointment != s.txns[j].review.appointment
    requires !Reviewed(s.reviews, s.txns[i].review.appointment) && !Reviewed(s.reviews, s.txns[j].review.appointment)
    ensures var t := Run(s, [i, j]);
            && t == s.(txns := s.txns[i := Writer(s.txns[i].review, Inserted)][j := Writer(s.txns[j].review, Inserted)])
            && |Run(t, order).txns| == |s.txns| && !Run(t, order).txns[i].Done() && !Run(t, order).txns[j].Done()
  {
    assert [i, j][..1] == [i] && [i][..0] == [];
    assert s.txns[i].phase == Asking && s.txns[j].phase == Asking;
    var one := With(s, i, Writer(s.txns[i].review, Inserted));
    assert Run(s, [i]) == one;
    assert Ready(one, j);
    StuckForGood(Run(s, [i, j]), i, j, s.txns[i].review.barber, order);
  }
}
