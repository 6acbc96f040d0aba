/** The spaced-repetition scheduler (SM-2), over whole review histories. */
module Scheduler {
  import opened Wrappers

  datatype Grade = Again | Hard | Good | Easy

  /** Times are in seconds; `stability` is the current interval in days, `difficulty` the ease. */
  datatype ReviewState = ReviewState(due: int, stability: real, difficulty: real, reps: int,
                                     lapses: int, lastReview: Option<int>)

  const INITIAL_EASE := 2.5
  const MIN_EASE := 1.3
  const RELEARN_MINUTES := 10
  const MAX_INTERVAL_DAYS := 365.0

  function Max(a: real, b: real): real {
    if a >= b then a else b
  }

  function Min(a: real, b: real): real {
    if a <= b then a else b
  }

  /** `f64::round`: to the nearest whole number, halves away from zero. */
  function Round(x: real): int {
    if x >= 0.0 then (x + 0.5).Floor else -((-x + 0.5).Floor)
  }

  function New(now: int): ReviewState {
    ReviewState(now, 0.0, INITIAL_EASE, 0, 0, None)
  }

  function NextEase(ease: real, grade: Grade): real {
    match grade
    case Again => Max(ease - 0.20, MIN_EASE)
    case Hard => Max(ease - 0.15, MIN_EASE)
    case Good => ease
    case Easy => ease + 0.15
  }

  function Multiplier(grade: Grade, ease: real): real
    requires grade != Again
  {
    match grade
    case Hard => 1.2
    case Good => ease
    case Easy => ease * 1.3
  }

  function Stretch(days: real, multiplier: real): real {
    days * multiplier
  }

  function Apply(s: ReviewState, grade: Grade, now: int): ReviewState {
    var ease := NextEase(s.difficulty, grade);
    if grade == Again then
      ReviewState(now + RELEARN_MINUTES * 60, 0.0, ease, 0, s.lapses + 1, Some(now))
    else
      var reps := s.reps + 1;
      var interval :=
        if reps == 1 then 1.0
        else if reps == 2 then 6.0
        else Stretch(s.stability, Multiplier(grade, ease));
      var stability := Min(interval, MAX_INTERVAL_DAYS);
      ReviewState(now + Round(stability * 86_400.0), stability, ease, reps, s.lapses, Some(now))
  }

  /** One review: the button pressed, and when. */
  datatype Review = Review(grade: Grade, now: int)

  function History(s: ReviewState, reviews: seq<Review>): ReviewState
    decreases |reviews|
  {
    if reviews == [] then s
    else History(Apply(s, reviews[0].grade, reviews[0].now), reviews[1..])
  }

  // ----- what every history keeps -----

  ghost predicate Reachable(s: ReviewState) {
    && s.difficulty >= MIN_EASE
    && 0.0 <= s.stability <= MAX_INTERVAL_DAYS
    && s.reps >= 0 && s.lapses >= 0
    && (s.reps == 0 ==> s.stability == 0.0)
    && (s.reps == 1 ==> s.stability == 1.0)
    && (s.reps == 2 ==> s.stability == 6.0)
    && (s.reps >= 2 ==> s.stability >= 6.0)
  }

  lemma ProductsOrdered(x: real, m: real, y: real, n: real)
    requires 0.0 <= x <= y && 0.0 <= m <= n
    ensures Stretch(x, m) <= Stretch(y, n)
  {
    var p, q := n - m, y - x;
    ProductNotNegative(x, p);
    ProductNotNegative(q, n);
    assert x * n == x * m + x * p;
    assert y * n == x * n + q * n;
  }

  lemma ProductNotNegative(x: real, y: real)
    requires x >= 0.0 && y >= 0.0
    ensures x * y >= 0.0
  {
  }

  lemma TimesAtLeastOne(x: real, m: real)
    requires x >= 0.0 && m >= 1.0
    ensures Stretch(x, m) >= x
  {
    ProductsOrdered(x, 1.0, x, m);
  }

  /** The interval before the cap. */
  function Grown(s: ReviewState, grade: Grade): real
    requires grade != Again
  {
    if s.reps == 0 then 1.0
    else if s.reps == 1 then 6.0
    else Stretch(s.stability, Multiplier(grade, NextEase(s.difficulty, grade)))
  }

  lemma GrownAtLeast(s: ReviewState, grade: Grade)
    requires Reachable(s) && grade != Again
    ensures Grown(s, grade) >= s.stability
    ensures s.reps >= 1 ==> Grown(s, grade) >= 6.0
    ensures Grown(s, grade) >= 1.0
  {
    if s.reps >= 2 {
      TimesAtLeastOne(s.stability, Multiplier(grade, NextEase(s.difficulty, grade)));
    }
  }

  lemma ApplyKeepsReachable(s: ReviewState, grade: Grade, now: int)
    requires Reachable(s)
    ensures Reachable(Apply(s, grade, now))
  {
    if grade != Again {
      GrownAtLeast(s, grade);
      assert Apply(s, grade, now).stability == Min(Grown(s, grade), MAX_INTERVAL_DAYS);
    }
  }

  /** Over any history the ease keeps its floor, and the interval its cap and its fixed steps. */
  lemma {:induction false} HistoryKeepsReachable(s: ReviewState, reviews: seq<Review>)
    requires Reachable(s)
    ensures Reachable(History(s, reviews))
    decreases |reviews|
  {
    if reviews != [] {
      ApplyKeepsReachable(s, reviews[0].grade, reviews[0].now);
      HistoryKeepsReachable(Apply(s, reviews[0].grade, reviews[0].now), reviews[1..]);
    }
  }

  // ----- when a card is due -----

  lemma RoundIsNear(x: real)
    ensures -0.5 <= Round(x) as real - x <= 0.5
  {
  }

  /**
   A failed card comes back after ten minutes. A passed one comes back after its interval in
   days, to the nearest second, and not before a day has gone by; the interval is one day,
   then six, then the one before times what the answer earns, up to a year.
   */
  lemma WhenDue(s: ReviewState, grade: Grade, now: int)
    requires Reachable(s)
    ensures var next := Apply(s, grade, now);
      && next.lastReview == Some(now)
      && if grade == Again then next.due == now + 600 && next.reps == 0 && next.lapses == s.lapses + 1
         else
           && -0.5 <= (next.due - now) as real - next.stability * 86_400.0 <= 0.5
           && next.due >= now + 86_400 && next.reps == s.reps + 1 && next.lapses == s.lapses
           && var factor := match grade
                            case Hard => 1.2
                            case Easy => next.difficulty * 1.3
                            case _ => next.difficulty;
              var days := if s.reps == 0 then 1.0 else if s.reps == 1 then 6.0 else s.stability * factor;
              next.stability == if days <= 365.0 then days else 365.0
  {
    if grade != Again {
      var days := Min(Grown(s, grade), MAX_INTERVAL_DAYS);
      GrownAtLeast(s, grade);
      assert Apply(s, grade, now).stability == days;
      RoundIsNear(days * 86_400.0);
      DueOrdered(now, 1.0, days);
    }
  }

  ghost predicate Always(grade: Grade, reviews: seq<Review>) {
    forall i :: 0 <= i < |reviews| ==> reviews[i].grade == grade
  }

  /** The ease after any number of equal answers: it falls to its floor, stays, or rises. */
  lemma {:induction false} EaseAfterEqualAnswers(s: ReviewState, grade: Grade, reviews: seq<Review>)
    requires s.difficulty >= 1.3 && Always(grade, reviews)
    ensures var n := |reviews| as real;
      History(s, reviews).difficulty ==
        match grade
        case Again => if s.difficulty - n * 0.20 >= 1.3 then s.difficulty - n * 0.20 else 1.3
        case Hard => if s.difficulty - n * 0.15 >= 1.3 then s.difficulty - n * 0.15 else 1.3
        case Good => s.difficulty
        case Easy => s.difficulty + n * 0.15
    decreases |reviews|
  {
    if reviews != [] {
      var next := Apply(s, reviews[0].grade, reviews[0].now);
      assert Always(grade, reviews[1..]);
      EaseAfterEqualAnswers(next, grade, reviews[1..]);
      assert |reviews[1..]| as real == |reviews| as real - 1.0;
    }
  }

  // ----- better answers never shorten a schedule -----

  function Rank(g: Grade): int {
    match g
    case Again => 0
    case Hard => 1
    case Good => 2
    case Easy => 3
  }

  /** The second card is at least as far along as the first. */
  ghost predicate AtLeast(a: ReviewState, b: ReviewState) {
    && a.difficulty <= b.difficulty
    && a.reps <= b.reps
    && a.stability <= b.stability
    && a.due <= b.due
    && b.lapses <= a.lapses
  }

  ghost predicate AtLeastHistory(a: seq<Review>, b: seq<Review>) {
    && |a| == |b|
    && forall i :: 0 <= i < |a| ==> a[i].now == b[i].now && Rank(a[i].grade) <= Rank(b[i].grade)
  }

  lemma MultipliersOrdered(a: real, b: real, g: Grade, h: Grade)
    requires MIN_EASE <= a <= b && g != Again && Rank(g) <= Rank(h)
    ensures 1.0 <= Multiplier(g, NextEase(a, g)) <= Multiplier(h, NextEase(b, h))
  {
  }

  lemma RoundOrdered(x: real, y: real)
    requires x <= y
    ensures Round(x) <= Round(y)
  {
  }

  lemma GrownOrdered(a: ReviewState, b: ReviewState, g: Grade, h: Grade)
    requires Reachable(a) && Reachable(b) && AtLeast(a, b) && g != Again && Rank(g) <= Rank(h)
    ensures Grown(a, g) <= Grown(b, h)
  {
    GrownAtLeast(b, h);
    if a.reps >= 2 {
      MultipliersOrdered(a.difficulty, b.difficulty, g, h);
      ProductsOrdered(a.stability, Multiplier(g, NextEase(a.difficulty, g)),
                      b.stability, Multiplier(h, NextEase(b.difficulty, h)));
    }
  }

  lemma DueOrdered(now: int, x: real, y: real)
    requires x <= y
    ensures now + Round(x * 86_400.0) <= now + Round(y * 86_400.0)
  {
    RoundOrdered(x * 86_400.0, y * 86_400.0);
  }

  lemma {:induction false} ApplyOrdered(a: ReviewState, b: ReviewState, g: Grade, h: Grade, now: int)
    requires Reachable(a) && Reachable(b) && AtLeast(a, b) && Rank(g) <= Rank(h)
    ensures AtLeast(Apply(a, g, now), Apply(b, h, now))
  {
    if h != Again {
      var y := Min(Grown(b, h), MAX_INTERVAL_DAYS);
      GrownAtLeast(b, h);
      if g == Again {
        DueOrdered(now, 1.0, y);
      } else {
        var x := Min(Grown(a, g), MAX_INTERVAL_DAYS);
        GrownOrdered(a, b, g, h);
        DueOrdered(now, x, y);
      }
    }
  }

  lemma {:induction false} HistoryOrdered(a: ReviewState, b: ReviewState, older: seq<Review>, better: seq<Review>)
    requires Reachable(a) && Reachable(b) && AtLeast(a, b) && AtLeastHistory(older, better)
    ensures AtLeast(History(a, older), History(b, better))
    decreases |older|
  {
    if older != [] {
      var x, y := older[0], better[0];
      ApplyOrdered(a, b, x.grade, y.grade, x.now);
      ApplyKeepsReachable(a, x.grade, x.now);
      ApplyKeepsReachable(b, y.grade, y.now);
      HistoryOrdered(Apply(a, x.grade, x.now), Apply(b, y.grade, y.now), older[1..], better[1..]);
    }
  }

  /**
   Two students review the same new card at the same times. If one answers at least as well
   every time, that one ends with ease, repetitions, interval and due time no smaller, and
   with no more lapses.
   */
  lemma BetterAnswersNeverShorten(created: int, worse: seq<Review>, better: seq<Review>)
    requires AtLeastHistory(worse, better)
    ensures AtLeast(History(New(created), worse), History(New(created), better))
  {
    HistoryOrdered(New(created), New(created), worse, better);
  }

  // ----- a card that is always remembered reaches the cap -----

  function GoodHistory(times: seq<int>): seq<Review> {
    seq(|times|, i requires 0 <= i < |times| => Review(Good, times[i]))
  }

  function GoodInterval(n: nat, ease: real): real {
    if n == 0 then 0.0
    else if n == 1 then 1.0
    else if n == 2 then 6.0
    else Min(Stretch(GoodInterval(n - 1, ease), ease), MAX_INTERVAL_DAYS)
  }

  lemma {:induction false} GoodIntervals(s: ReviewState, times: seq<int>, n: nat, ease: real)
    requires s.reps == n && s.difficulty == ease && s.stability == GoodInterval(n, ease)
    ensures History(s, GoodHistory(times)).stability == GoodInterval(n + |times|, ease)
    decreases |times|
  {
    if times != [] {
      assert GoodHistory(times)[1..] == GoodHistory(times[1..]);
      GoodIntervals(Apply(s, Good, times[0]), times[1..], n + 1, ease);
    }
  }

  /** From the seventh review on, a card graded Good every time stands at the 365-day cap. */
  lemma SevenGoodReviewsReachTheCap(created: int, times: seq<int>)
    ensures History(New(created), GoodHistory(times)).stability == MAX_INTERVAL_DAYS <==> |times| >= 7
  {
    GoodIntervals(New(created), times, 0, INITIAL_EASE);
    assert GoodInterval(3, 2.5) == 15.0;
    assert GoodInterval(4, 2.5) == 37.5;
    assert GoodInterval(5, 2.5) == 93.75;
    assert GoodInterval(6, 2.5) == 234.375;
    if |times| >= 7 {
      GoodCapped(|times|);
    }
  }

  lemma {:induction false} GoodCapped(n: nat)
    requires n >= 7
    ensures GoodInterval(n, INITIAL_EASE) == MAX_INTERVAL_DAYS
    decreases n
  {
    if n == 7 {
      assert GoodInterval(6, 2.5) == 234.375 by {
        assert GoodInterval(3, 2.5) == 15.0;
        assert GoodInterval(4, 2.5) == 37.5;
        assert GoodInterval(5, 2.5) == 93.75;
      }
    } else {
      GoodCapped(n - 1);
    }
  }
}
