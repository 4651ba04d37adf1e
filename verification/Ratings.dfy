/**
 * Keeping a barber's stored rating equal to the mean of the reviews: the arithmetic, the locking
 * protocol of concurrent review writers and the nightly repair, and the services themselves.
 */
module Ratings {
  import opened Booking

  /** One committed review; the appointment it reviews is unique. */
  datatype Review = Review(appointment: Id, customer: Id, barber: Id, stars: int)

  /** `barbers.rating` in hundredths, and `barbers.reviews_count`. */
  datatype Summary = Summary(rating: int, count: nat)

  // ---- rounding ----

  /** The mean of `count` ratings summing to `sum`, in hundredths, halves rounded up. */
  function HalfUp(sum: int, count: int): int
    requires count > 0
  {
    (200 * sum + count) / (2 * count)
  }

  lemma DivisionBounds(x: int, d: int)
    requires d > 0
    ensures d * (x / d) <= x < d * (x / d) + d
  {
  }

  lemma OrderTimes(n: int, a: int, b: int)
    requires n > 0
    ensures a <= b <==> n * a <= n * b
    ensures a < b <==> n * a < n * b
  {
  }

  lemma QuotientIsUnique(x: int, d: int, q: int)
    requires d > 0 && d * q <= x < d * q + d
    ensures x / d == q
  {
    DivisionBounds(x, d);
    assert d * (q + 1) == d * q + d && d * (x / d + 1) == d * (x / d) + d;
    OrderTimes(d, q, x / d + 1);
    OrderTimes(d, x / d, q + 1);
  }

  /** `r` hundredths is the mean rounded half up exactly when the mean lies in [r - 1/2, r + 1/2) hundredths. */
  lemma HalfUpIsNearest(sum: int, count: int, r: int)
    requires count > 0
    ensures r == HalfUp(sum, count) <==> count * (2 * r - 1) <= 200 * sum < count * (2 * r + 1)
  {
    var x, d := 200 * sum + count, 2 * count;
    DivisionBounds(x, d);
    assert d * r == count * (2 * r - 1) + count;
    assert count * (2 * r + 1) == count * (2 * r - 1) + d;
    if d * r <= x < d * r + d {
      QuotientIsUnique(x, d, r);
    }
  }

  /** An average kept to some number of decimals, as an integer: `scale` to the unit, halves rounded up. */
  function Average(sum: int, count: int, scale: int): int
    requires count > 0
  {
    (2 * (scale * sum) + count) / (2 * count)
  }

  /** `quantize(Decimal("0.01"), ROUND_HALF_UP)` of such an average. */
  function Quantize(average: int, scale: int): int
    requires scale > 0
  {
    (200 * average + scale) / (2 * scale)
  }

  /** The average times `count` misses the exact value by at most half of `count`. */
  lemma AverageError(sum: int, count: int, scale: int)
    requires count > 0
    ensures var error := count * Average(sum, count, scale) - scale * sum;
            -count < 2 * error <= count
  {
    DivisionBounds(2 * (scale * sum) + count, 2 * count);
    assert 2 * count * Average(sum, count, scale) == 2 * (count * Average(sum, count, scale));
  }

  lemma NoMultipleNearZero(n: int, m: int)
    requires n > 0 && -n < 2 * (n * m) <= n
    ensures m == 0
  {
  }

  lemma Distributes(n: int, a: int, t: int, k: int)
    ensures n * (a - t * k) == n * a - t * (n * k)
  {
  }

  /** Exactly half way between two hundredths, the average is exact. */
  lemma TieIsExact(sum: int, count: int, k: int, a: int, tie: int)
    requires count > 0 && 200 * sum == count * k
    requires -count < 2 * (count * a - 200 * (tie * sum)) <= count
    ensures count * a == 200 * (tie * sum)
  {
    Distributes(count, a, tie, k);
    assert tie * (count * k) == 200 * (tie * sum) by {
      assert tie * (200 * sum) == 200 * (tie * sum);
    }
    NoMultipleNearZero(count, a - tie * k);
  }

  lemma StaysAbove(sum: int, count: int, k: int, a: int, tie: int)
    requires 0 < count && 100 * count < 200 * tie
    requires count * k <= 200 * sum
    requires -count < 2 * (count * a - 200 * (tie * sum)) <= count
    ensures tie * k <= a
  {
    Distributes(count, a, tie, k);
    if count * k == 200 * sum {
      TieIsExact(sum, count, k, a, tie);
    } else {
      OrderTimes(tie, count * k, 200 * sum - 1);
    }
    assert tie * (200 * sum - 1) == 200 * (tie * sum) - tie && tie * (200 * sum) == 200 * (tie * sum);
    OrderTimes(count, 0, a - tie * k + 1);
    assert count * (a - tie * k + 1) == count * (a - tie * k) + count;
  }

  lemma StaysBelow(sum: int, count: int, k: int, a: int, tie: int)
    requires 0 < count && 100 * count < 200 * tie
    requires 200 * sum < count * k
    requires -count < 2 * (count * a - 200 * (tie * sum)) <= count
    ensures a < tie * k
  {
    Distributes(count, a, tie, k);
    OrderTimes(tie, 200 * sum + 1, count * k);
    assert tie * (200 * sum + 1) == 200 * (tie * sum) + tie;
    OrderTimes(count, a - tie * k, 0);
  }

  /**
   * Rounding twice is harmless: whatever number of decimals the average is kept to, as long as there are fewer
   * reviews than a hundredth of its scale, it gives the half-up mean.
   */
  lemma RoundingTwiceIsHarmless(sum: int, count: int, tie: int)
    requires 0 < count && 100 * count < 200 * tie
    ensures Quantize(Average(sum, count, 200 * tie), 200 * tie) == HalfUp(sum, count)
  {
    var r, a := HalfUp(sum, count), Average(sum, count, 200 * tie);
    HalfUpIsNearest(sum, count, r);
    AverageError(sum, count, 200 * tie);
    assert 200 * tie * sum == 200 * (tie * sum);
    StaysAbove(sum, count, 2 * r - 1, a, tie);
    StaysBelow(sum, count, 2 * r + 1, a, tie);
    assert tie * (2 * r - 1) == 2 * (tie * r) - tie && tie * (2 * r + 1) == 2 * (tie * r) + tie;
    assert 2 * (200 * tie) * r == 400 * (tie * r);
    QuotientIsUnique(200 * a + 200 * tie, 2 * (200 * tie), r);
  }

  // ---- what the columns should hold ----

  function Count(reviews: seq<Review>, barber: Id): nat {
    if reviews == [] then 0
    else Count(reviews[..|reviews| - 1], barber) + if reviews[|reviews| - 1].barber == barber then 1 else 0
  }

  function Stars(reviews: seq<Review>, barber: Id): int {
    if reviews == [] then 0
    else Stars(reviews[..|reviews| - 1], barber) +
         if reviews[|reviews| - 1].barber == barber then reviews[|reviews| - 1].stars else 0
  }

  ghost predicate Valid(reviews: seq<Review>) {
    && (forall k | 0 <= k < |reviews| :: 1 <= reviews[k].stars <= 5)
    && (forall j, k | 0 <= j < k < |reviews| :: reviews[j].appointment != reviews[k].appointment)
  }

  /** The places in the list of the barber's reviews of some number of stars. */
  function Graded(reviews: seq<Review>, barber: Id, stars: int): set<nat> {
    set k: nat | k < |reviews| && reviews[k].barber == barber && reviews[k].stars == stars
  }

  lemma GradedNext(reviews: seq<Review>, barber: Id, stars: int)
    requires reviews != []
    ensures var n := |reviews| - 1;
            |Graded(reviews, barber, stars)| ==
            |Graded(reviews[..n], barber, stars)| +
            if reviews[n].barber == barber && reviews[n].stars == stars then 1 else 0
  {
    var n := |reviews| - 1;
    var before := Graded(reviews[..n], barber, stars);
    assert Graded(reviews, barber, stars) ==
           before + if reviews[n].barber == barber && reviews[n].stars == stars then {n} else {};
  }

  /** Counting and summing row by row is counting the barber's reviews grade by grade. */
  lemma {:induction false} TotalsByGrade(reviews: seq<Review>, barber: Id)
    requires forall k | 0 <= k < |reviews| :: 1 <= reviews[k].stars <= 5
    ensures var one, two, three := |Graded(reviews, barber, 1)|, |Graded(reviews, barber, 2)|, |Graded(reviews, barber,
              3)|;
            var four, five := |Graded(reviews, barber, 4)|, |Graded(reviews, barber, 5)|;
            && Count(reviews, barber) == one + two + three + four + five
            && Stars(reviews, barber) == one + 2 * two + 3 * three + 4 * four + 5 * five
    decreases |reviews|
  {
    if reviews == [] {
      assert forall g :: Graded(reviews, barber, g) == {};
    } else {
      TotalsByGrade(reviews[..|reviews| - 1], barber);
      GradedNext(reviews, barber, 1);
      GradedNext(reviews, barber, 2);
      GradedNext(reviews, barber, 3);
      GradedNext(reviews, barber, 4);
      GradedNext(reviews, barber, 5);
    }
  }

  function Summarize(reviews: seq<Review>, barber: Id): Summary {
    var count := Count(reviews, barber);
    if count == 0 then Summary(0, 0) else Summary(HalfUp(Stars(reviews, barber), count), count)
  }

  lemma {:induction false} StarsBounds(reviews: seq<Review>, barber: Id)
    requires forall k | 0 <= k < |reviews| :: 1 <= reviews[k].stars <= 5
    ensures Count(reviews, barber) <= Stars(reviews, barber) <= 5 * Count(reviews, barber)
  {
    if reviews != [] {
      StarsBounds(reviews[..|reviews| - 1], barber);
    }
  }

  /** The rating is 0 without reviews and between 1.00 and 5.00 with some. */
  lemma SummaryInRange(reviews: seq<Review>, barber: Id)
    requires forall k | 0 <= k < |reviews| :: 1 <= reviews[k].stars <= 5
    ensures var s := Summarize(reviews, barber);
            0 <= s.rating <= 500 && (s.count > 0 ==> 100 <= s.rating)
  {
    StarsBounds(reviews, barber);
    var n, sum := Count(reviews, barber), Stars(reviews, barber);
    if n > 0 {
      var r := HalfUp(sum, n);
      HalfUpIsNearest(sum, n, r);
      OrderTimes(n, 199, 2 * r);
      OrderTimes(n, 2 * r - 1, 1000);
      assert n * (2 * r + 1) == n * (2 * r) + n && n * 199 == 200 * n - n;
    }
  }

  /** The pair says how many reviews the barber has and, half up to a hundredth, their mean. */
  ghost predicate Meets(s: Summary, reviews: seq<Review>, barber: Id) {
    var n, sum := Count(reviews, barber), Stars(reviews, barber);
    && s.count == n && 0 <= s.rating <= 500
    && if n == 0 then s.rating == 0 else n * (2 * s.rating - 1) <= 200 * sum < n * (2 * s.rating + 1)
  }

  /** The computed pair is the only one that does. */
  lemma SummaryIsTheMean(reviews: seq<Review>, barber: Id, s: Summary)
    requires forall k | 0 <= k < |reviews| :: 1 <= reviews[k].stars <= 5
    ensures Meets(s, reviews, barber) <==> s == Summarize(reviews, barber)
  {
    SummaryInRange(reviews, barber);
    if Count(reviews, barber) > 0 {
      HalfUpIsNearest(Stars(reviews, barber), Count(reviews, barber), s.rating);
    }
  }
}
