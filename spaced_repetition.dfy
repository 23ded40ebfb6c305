// The SM-2 style scheduler of lib/spacedRepetition.js. The clock is a
// parameter (`now`, epoch milliseconds) and the easiness factor is kept in
// exact tenths: 2.5 is 25, the +0.1 step is +1, the -0.2 step is -2 and the
// floor 1.3 is 13.

module Scheduler {

  datatype Status = New | Learning | Known

  /** A card's progress record as the browser stores it. */
  datatype Progress = Progress(
    easiness: int,      // tenths
    interval: int,      // days
    repetitions: int,
    nextReview: int,    // epoch ms
    lastReviewed: int,  // epoch ms, 0 when never reviewed
    status: Status)

  const InitialEasiness: int := 25
  const MinimumEasiness: int := 13
  const InitialInterval: int := 1
  const SecondInterval: int := 6
  const DayMs: int := 24 * 60 * 60 * 1000

  function Max(a: int, b: int): int {
    if a >= b then a else b
  }

  /** The invariant every record produced by the scheduler keeps: easiness at
      least the floor, no interval without a repetition, status 'known' exactly
      from the third consecutive hit on, 'new' only before any review, and the
      due time of a reviewed card is its review time plus the interval. */
  predicate Valid(p: Progress) {
    && p.easiness >= MinimumEasiness
    && p.interval >= 0
    && p.repetitions >= 0
    && (p.repetitions == 0 <==> p.interval == 0)
    && (p.repetitions == 1 ==> p.interval == InitialInterval)
    && (p.repetitions == 2 ==> p.interval == SecondInterval)
    && (p.status == Known <==> p.repetitions >= 3)
    && (p.status == New ==> p.repetitions == 0 && p.lastReviewed == 0)
    && (p.status != New ==> p.nextReview == p.lastReviewed + p.interval * DayMs)
  }

  /** isDue: the card is due once now has reached its due time. */
  predicate IsDue(p: Progress, now: int): (due: bool)
    ensures Valid(p) && p.status != New ==> (due <==> now >= p.lastReviewed + p.interval * DayMs)
  {
    now >= p.nextReview
  }

  /** getInitialProgress: the record of a card never reviewed. */
  function InitialProgress(now: int): (p: Progress)
    ensures Valid(p)
    ensures p.status == New && p.easiness == InitialEasiness
    ensures IsDue(p, now) && p.repetitions == 0
  {
    Progress(InitialEasiness, 0, 0, now, 0, New)
  }

  /** Math.round(interval * easiness), with easiness in tenths: the integer
      nearest to interval * easiness / 10, halves rounded up. */
  function RoundedProduct(interval: int, easiness: int): (r: int)
    ensures 10 * r - 5 <= interval * easiness < 10 * r + 5
  {
    (2 * interval * easiness + 10) / 20
  }

  /** calculateNextReview: the record after one review with outcome `knew`. */
  function CalculateNextReview(p: Progress, knew: bool, now: int): (r: Progress)
    ensures r.easiness >= MinimumEasiness
    ensures r.lastReviewed == now && r.status != New
    ensures knew ==>
      && r.repetitions == p.repetitions + 1
      && r.interval == (if r.repetitions == 1 then InitialInterval
                        else if r.repetitions == 2 then SecondInterval
                        else RoundedProduct(p.interval, p.easiness))
      && r.easiness == Max(MinimumEasiness, p.easiness + 1)
      && r.nextReview == now + r.interval * DayMs
      && (r.status == Known <==> r.repetitions >= 3)
    ensures !knew ==>
      && r.repetitions == 0 && r.interval == 0
      && r.easiness == Max(MinimumEasiness, p.easiness - 2)
      && r.nextReview == now && r.status == Learning
  {
    if knew then
      var repetitions := p.repetitions + 1;
      var interval :=
        if repetitions == 1 then InitialInterval
        else if repetitions == 2 then SecondInterval
        else RoundedProduct(p.interval, p.easiness);
      var easiness := Max(MinimumEasiness, p.easiness + 1);
      Progress(easiness, interval, repetitions, now + interval * DayMs, now,
               if repetitions >= 3 then Known else Learning)
    else
      Progress(Max(MinimumEasiness, p.easiness - 2), 0, 0, now, now, Learning)
  }

  lemma ProductAtLeast(interval: int, easiness: int)
    requires interval >= 1 && easiness >= MinimumEasiness
    ensures interval * easiness >= 13 * interval
  {
  }

  /** A hit on a card that has been hit before never shortens its interval. */
  lemma HitIntervalGrows(p: Progress, now: int)
    requires Valid(p) && p.repetitions >= 1
    ensures CalculateNextReview(p, true, now).interval >= p.interval
  {
    if p.repetitions >= 2 {
      ProductAtLeast(p.interval, p.easiness);
    }
  }

  /** Every review keeps the invariant. */
  lemma ReviewPreservesValid(p: Progress, knew: bool, now: int)
    requires Valid(p)
    ensures Valid(CalculateNextReview(p, knew, now))
  {
    if knew && p.repetitions >= 2 {
      ProductAtLeast(p.interval, p.easiness);
    }
  }

  /** One review event: the outcome and the time it happened. */
  datatype Review = Review(knew: bool, at: int)

  /** The record after applying a sequence of reviews in order. */
  function Replay(p: Progress, reviews: seq<Review>): Progress
    decreases reviews
  {
    if reviews == [] then p
    else Replay(CalculateNextReview(p, reviews[0].knew, reviews[0].at), reviews[1..])
  }

  /** The easiness floor holds after any non-empty sequence of reviews, from any record. */
  lemma {:induction false} ReplayEasinessFloor(p: Progress, reviews: seq<Review>)
    requires reviews != []
    ensures Replay(p, reviews).easiness >= MinimumEasiness
    decreases reviews
  {
    var q := CalculateNextReview(p, reviews[0].knew, reviews[0].at);
    if |reviews| > 1 {
      ReplayEasinessFloor(q, reviews[1..]);
    }
  }

  /** The invariant holds after any sequence of reviews from a valid record. */
  lemma {:induction false} ReplayPreservesValid(p: Progress, reviews: seq<Review>)
    requires Valid(p)
    ensures Valid(Replay(p, reviews))
    decreases reviews
  {
    if reviews != [] {
      ReviewPreservesValid(p, reviews[0].knew, reviews[0].at);
      ReplayPreservesValid(CalculateNextReview(p, reviews[0].knew, reviews[0].at), reviews[1..]);
    }
  }

  /** From a new card, three hits give intervals 1, 6, 16 and easiness 2.6, 2.7, 2.8. */
  lemma ThreeHitsFromNew(t0: int, t1: int, t2: int, t3: int)
    ensures var p0 := InitialProgress(t0);
            var p1 := CalculateNextReview(p0, true, t1);
            var p2 := CalculateNextReview(p1, true, t2);
            var p3 := CalculateNextReview(p2, true, t3);
            && p1.interval == 1 && p1.easiness == 26 && p1.status == Learning
            && p2.interval == 6 && p2.easiness == 27 && p2.status == Learning
            && p3.interval == 16 && p3.easiness == 28 && p3.status == Known
            && p3.nextReview == t3 + 16 * DayMs
  {
  }

  /** A miss makes the card due at once; a hit on a valid card makes it due
      exactly `interval` days after the review, and not before. */
  lemma ReviewDueTimes(p: Progress, now: int, t: int)
    requires Valid(p)
    ensures IsDue(CalculateNextReview(p, false, now), now)
    ensures var r := CalculateNextReview(p, true, now);
            r.interval >= 1 && (IsDue(r, t) <==> t >= now + r.interval * DayMs)
    ensures !IsDue(CalculateNextReview(p, true, now), now)
  {
    ReviewPreservesValid(p, true, now);
  }

  /** Days past the due time, not truncated. */
  function OverdueDays(p: Progress, now: int): real {
    (now - p.nextReview) as real / DayMs as real
  }

  /** getPriority: 1000 for a new card whatever the time, else 2000 plus 100 per
      day late for a card past its due time, else 0. */
  function GetPriority(p: Progress, now: int): (r: real)
    ensures p.status == New ==> r == 1000.0
    ensures p.status != New && now > p.nextReview ==> r > 2000.0
    ensures p.status != New && now <= p.nextReview ==> r == 0.0
  {
    if p.status == New then 1000.0
    else if OverdueDays(p, now) > 0.0 then 2000.0 + OverdueDays(p, now) * 100.0
    else 0.0
  }

  /** For a card that is not new, lateness strictly raises the priority. */
  lemma PriorityIncreasesWithLateness(p: Progress, t1: int, t2: int)
    requires p.status != New
    requires p.nextReview < t1 < t2
    ensures GetPriority(p, t1) < GetPriority(p, t2)
  {
    assert OverdueDays(p, t1) < OverdueDays(p, t2);
  }

  /** A card exactly at its due time is due, yet scores 0 unless it is new. */
  lemma DueAtBoundaryScoresZero(p: Progress)
    requires p.status != New
    ensures IsDue(p, p.nextReview) && GetPriority(p, p.nextReview) == 0.0
  {
  }

  /** A card overdue by two days outranks a new card, which outranks a card due in five days. */
  lemma PriorityOrdering(overdue: Progress, newCard: Progress, later: Progress, now: int)
    requires overdue.status != New && overdue.nextReview == now - 2 * DayMs
    requires newCard.status == New
    requires later.status != New && later.nextReview == now + 5 * DayMs
    ensures GetPriority(overdue, now) > GetPriority(newCard, now) > GetPriority(later, now)
  {
  }

  /** calculateKnownPercentage: Math.round(known / total * 100), 0 for no cards. */
  function KnownPercentage(total: nat, known: nat): (r: int)
    ensures total == 0 ==> r == 0
    ensures total > 0 ==> 2 * r * total - total <= 200 * known < 2 * r * total + total
    ensures known <= total ==> 0 <= r <= 100
  {
    if total == 0 then 0
    else
      var r := (200 * known + total) / (2 * total);
      PercentageBounds(total, known, r);
      r
  }

  lemma MulMonotone(a: int, b: int, c: nat)
    requires a <= b
    ensures a * c <= b * c
  {
  }

  lemma PercentageBounds(total: nat, known: nat, r: int)
    requires total > 0 && r == (200 * known + total) / (2 * total)
    ensures 2 * r * total - total <= 200 * known < 2 * r * total + total
    ensures known <= total ==> 0 <= r <= 100
  {
    var d := 2 * total;
    var n := 200 * known + total;
    var m := n % d;
    assert n == d * r + m && 0 <= m < d;
    assert 2 * r * total == d * r;
    if known <= total {
      if r < 0 {
        MulMonotone(r, -1, d);
      }
      if r > 100 {
        MulMonotone(101, r, d);
      }
    }
  }
}
