/** The review service and the nightly repair task, each run on its own. */
module ReviewDesk {
  import opened Collections
  import opened Booking
  import opened Ratings
  import opened RatingProtocol

  datatype ReviewOutcome = Created | AppointmentNotFound | NotYours | NotCompleted | AlreadyReviewed

  /** What a review request is answered: only the customer of a completed appointment may review it, and once. */
  function Verdict(appointments: map<Id, Appointment>, reviews: seq<Review>, user: Id, appointment: Id): ReviewOutcome {
    if appointment !in appointments then AppointmentNotFound
    else if appointments[appointment].customer != user then NotYours
    else if !appointments[appointment].status.Completed? then NotCompleted
    else if Reviewed(reviews, appointment) then AlreadyReviewed
    else Created
  }

  /** Who is refused a review, and with what: the first of these that applies. */
  lemma VerdictExactlyWhen(appointments: map<Id, Appointment>, reviews: seq<Review>, user: Id, appointment: Id)
    ensures var v := Verdict(appointments, reviews, user, appointment);
            var known := appointment in appointments;
            var own := known && appointments[appointment].customer == user;
            var over := own && appointments[appointment].status == Completed;
            var reviewed := exists k | 0 <= k < |reviews| :: reviews[k].appointment == appointment;
            && (v == AppointmentNotFound <==> !known)
            && (v == NotYours <==> known && !own)
            && (v == NotCompleted <==> own && !over)
            && (v == AlreadyReviewed <==> over && reviewed)
            && (v == Created <==> over && !reviewed)
  {
  }

  // ---- runs of review requests ----

  datatype ReviewBook = ReviewBook(appointments: map<Id, Appointment>, barbers: map<Id, Summary>, reviews: seq<Review>)

  /** A review request, run alone. */
  function Submitted(s: ReviewBook, user: Id, appointment: Id, stars: int): ReviewBook {
    if Verdict(s.appointments, s.reviews, user, appointment) != Created then s
    else
      var b := s.appointments[appointment].barber;
      var reviews := s.reviews + [Review(appointment, user, b, stars)];
      s.(reviews := reviews, barbers := s.barbers[b := Summarize(reviews, b)])
  }

  datatype Event =
    | Submit(user: Id, appointment: Id, stars: int)
      /** The bookings change, in any way at all. */
    | Bookings(appointments: map<Id, Appointment>)

  function After(s: ReviewBook, run: seq<Event>): ReviewBook
    decreases |run|
  {
    if run == [] then s
    else
      var before := After(s, run[..|run| - 1]);
      match run[|run| - 1]
      case Submit(user, appointment, stars) => Submitted(before, user, appointment, stars)
      case Bookings(appointments) => before.(appointments := appointments)
  }

  /** The review was asked for at this point, of a completed booking, by its customer, and names its barber. */
  ghost predicate EarnedAt(s: ReviewBook, run: seq<Event>, k: nat, review: Review) {
    k < |run| && run[k] == Submit(review.customer, review.appointment, review.stars) &&
    var rows := After(s, run[..k]).appointments;
    review.appointment in rows && rows[review.appointment].status == Completed &&
    rows[review.appointment].customer == review.customer && rows[review.appointment].barber == review.barber
  }

  /** Whatever happens to the bookings, every review added in a run was earned when it was added. */
  lemma {:induction false} AddedReviewsAreEarned(s: ReviewBook, run: seq<Event>, review: Review)
    requires review in After(s, run).reviews && review !in s.reviews
    ensures exists k: nat :: EarnedAt(s, run, k, review)
    decreases |run|
  {
    if run != [] {
      var n := |run| - 1;
      if review in After(s, run[..n]).reviews {
        AddedReviewsAreEarned(s, run[..n], review);
        var k: nat :| EarnedAt(s, run[..n], k, review);
        assert run[..n][..k] == run[..k];
        assert EarnedAt(s, run, k, review);
      } else {
        assert EarnedAt(s, run, n, review);
      }
    }
  }

  /** No review is lost, none comes twice for one appointment, and honest pairs stay honest. */
  lemma {:induction false} ReviewRunKeeps(s: ReviewBook, run: seq<Event>)
    requires Valid(s.reviews)
    requires forall k | 0 <= k < |run| && run[k].Submit? :: 1 <= run[k].stars <= 5
    ensures Valid(After(s, run).reviews)
    ensures |s.reviews| <= |After(s, run).reviews| && After(s, run).reviews[..|s.reviews|] == s.reviews
    ensures forall b | b in s.barbers && Meets(s.barbers[b], s.reviews, b) ::
              b in After(s, run).barbers && Meets(After(s, run).barbers[b], After(s, run).reviews, b)
    decreases |run|
  {
    if run != [] {
      var n := |run| - 1;
      var before := After(s, run[..n]);
      ReviewRunKeeps(s, run[..n]);
      if run[n].Submit? {
        SubmittedKeeps(before, run[n].user, run[n].appointment, run[n].stars);
      }
    }
  }

  lemma SubmittedKeeps(s: ReviewBook, user: Id, appointment: Id, stars: int)
    requires Valid(s.reviews) && 1 <= stars <= 5
    ensures var t := Submitted(s, user, appointment, stars);
            && Valid(t.reviews) && |s.reviews| <= |t.reviews| && t.reviews[..|s.reviews|] == s.reviews
            && forall b | b in s.barbers && Meets(s.barbers[b], s.reviews, b) ::
                 b in t.barbers && Meets(t.barbers[b], t.reviews, b)
  {
    var t := Submitted(s, user, appointment, stars);
    if Verdict(s.appointments, s.reviews, user, appointment) == Created {
      var review := t.reviews[|s.reviews|];
      ValidAppend(s.reviews, review);
      SummaryIsTheMean(t.reviews, review.barber, t.barbers[review.barber]);
      forall b | b in s.barbers && b != review.barber && Meets(s.barbers[b], s.reviews, b)
        ensures Meets(t.barbers[b], t.reviews, b)
      {
        OthersStayHonest(s.barbers, s.reviews, review, t.barbers[review.barber], b);
      }
    }
  }

  /** A review of one barber leaves what is honest about the others honest. */
  lemma OthersStayHonest(barbers: map<Id, Summary>, reviews: seq<Review>, review: Review, pair: Summary, b: Id)
    requires b in barbers && b != review.barber && Meets(barbers[b], reviews, b)
    ensures Meets(barbers[review.barber := pair][b], reviews + [review], b)
  {
  }

  class ReviewTables {
    var appointments: map<Id, Appointment>
    var barbers: map<Id, Summary>
    var reviews: seq<Review>

    /** Constraints: ratings between 1 and 5, one review an appointment, and appointments of known barbers. */
    ghost predicate Consistent()
      reads this
    {
      Valid(reviews) && forall a | a in appointments :: appointments[a].barber in barbers
    }

    ghost predicate Honest(barber: Id)
      reads this
    {
      barber in barbers && Meets(barbers[barber], reviews, barber)
    }

    /** app/services/ratings.py: recompute one barber from the reviews. */
    method RecomputeBarberRating(barber: Id)
      requires Consistent() && barber in barbers
      modifies this`barbers
      ensures Consistent() && Honest(barber)
      ensures barbers == old(barbers)[barber := Summarize(reviews, barber)]
    {
      var count := Count(reviews, barber);
      var rating := if count == 0 then 0 else HalfUp(Stars(reviews, barber), count);
      SummaryIsTheMean(reviews, barber, Summary(rating, count));
      barbers := barbers[barber := Summary(rating, count)];
    }

    /** app/services/reviews.py: the review and the barber's new pair are stored together, or neither is. */
    method CreateReview(user: Id, appointment: Id, stars: int) returns (o: ReviewOutcome)
      requires Consistent() && 1 <= stars <= 5
      modifies this`barbers, this`reviews
      ensures Consistent()
      ensures o == Verdict(appointments, old(reviews), user, appointment)
      ensures o == Created <==>
              appointment in appointments && appointments[appointment].customer == user &&
              appointments[appointment].status == Completed &&
              forall k | 0 <= k < |old(reviews)| :: old(reviews)[k].appointment != appointment
      ensures o in {Created, AppointmentNotFound, NotYours, NotCompleted, AlreadyReviewed}
      ensures ReviewBook(appointments, barbers, reviews) ==
              Submitted(old(ReviewBook(appointments, barbers, reviews)), user, appointment, stars)
      ensures o == Created ==>
                var b := appointments[appointment].barber;
                reviews == old(reviews) + [Review(appointment, user, b, stars)] && Honest(b) &&
                barbers == old(barbers)[b := Summarize(reviews, b)]
      ensures o != Created ==> reviews == old(reviews) && barbers == old(barbers)
      ensures forall b | old(Honest(b)) :: Honest(b)
    {
      if appointment !in appointments {
        return AppointmentNotFound;
      }
      var row := appointments[appointment];
      if row.customer != user {
        return NotYours;
      }
      if !row.status.Completed? {
        return NotCompleted;
      }
      var review := Review(appointment, user, row.barber, stars);
      if Reviewed(reviews, appointment) {
        return AlreadyReviewed;
      }
      ValidAppend(reviews, review);
      forall b | b != row.barber && Honest(b) ensures Meets(barbers[b], reviews + [review], b) {
        OthersStayHonest(barbers, reviews, review, barbers[b], b);
      }
      reviews := reviews + [review];
      RecomputeBarberRating(row.barber);
      return Created;
    }

    /** app/workers/tasks.py: restate every barber, counting those that had drifted. */
    method RecomputeBarberRatings() returns (repaired: nat)
      requires Consistent()
      modifies this`barbers
      ensures Consistent() && barbers.Keys == old(barbers).Keys
      ensures forall b | b in barbers :: Honest(b)
      ensures repaired == |set b | b in old(barbers) && !Meets(old(barbers)[b], reviews, b)|
    {
      repaired := 0;
      var left := barbers.Keys;
      ghost var drifted: set<Id> := {};
      while left != {}
        invariant Consistent() && barbers.Keys == old(barbers).Keys && left <= barbers.Keys
        invariant forall b | b in barbers && b !in left :: Honest(b)
        invariant forall b | b in left :: barbers[b] == old(barbers)[b]
        invariant drifted == set b | b in old(barbers) && b !in left && !Meets(old(barbers)[b], reviews, b)
        invariant repaired == |drifted|
        decreases left
      {
        SomeMember(left);
        var b :| b in left;
        var before := barbers[b];
        SummaryIsTheMean(reviews, b, before);
        RecomputeBarberRating(b);
        left := left - {b};
        if barbers[b] != before {
          drifted := drifted + {b};
          repaired := repaired + 1;
        }
      }
      assert drifted == set b | b in old(barbers) && !Meets(old(barbers)[b], reviews, b);
    }
  }

  /** Run alone, the four steps of a writer are the service's create: rejected, or inserted and restated. */
  lemma WriterAlone(stored: map<Id, Summary>, reviews: seq<Review>, review: Review)
    ensures var s := Play(Store(stored, reviews, map[], [Writer(review, Asking)]), [0, 0, 0, 0]);
            if Reviewed(reviews, review.appointment)
            then s == Store(stored, reviews, map[], [Writer(review, Rejected)])
            else s == Store(stored[review.barber := Summarize(reviews + [review], review.barber)],
                            reviews + [review], map[], [Writer(review, Committed)])
  {
    var s0 := Store(stored, reviews, map[], [Writer(review, Asking)]);
    assert [0, 0, 0, 0][..3] == [0, 0, 0] && [0, 0, 0][..2] == [0, 0] && [0, 0][..1] == [0] && [0][..0] == [];
    var s1 := Store(stored, reviews, map[review.barber := 0], [Writer(review, Holding)]);
    assert Play(s0, [0]) == s1;
    assert Release(s1.locks, 0) == map[];
    if Reviewed(reviews, review.appointment) {
      assert Play(s0, [0, 0]) == Store(stored, reviews, map[], [Writer(review, Rejected)]);
      assert Play(s0, [0, 0, 0]) == Play(s0, [0, 0]);
    } else {
      assert Play(s0, [0, 0]) == s1.(txns := [Writer(review, Inserted)]);
      assert Play(s0, [0, 0, 0]) == s1.(txns := [Writer(review, Summed(Summarize(reviews + [review], review.barber)))]);
    }
  }
}
