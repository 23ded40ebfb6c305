// The useProgress hook of hooks/useProgress.js: its React `stats` state and
// reviewCard, which reads a card's progress from the store, schedules the
// next review and writes the result back.

module ReviewHook {
  import opened Scheduler
  import opened ProgressStore

  /** What reviewCard returns for the record d: the scheduler applied to the
      stored progress, or to the initial progress for an unseen card. */
  function ReviewResult(d: LocalData, id: CardId, knew: bool, now: int): (r: Progress)
    ensures id in d.progress ==> r == CalculateNextReview(d.progress[id], knew, now)
    ensures id !in d.progress ==> r == CalculateNextReview(InitialProgress(now), knew, now)
  {
    CalculateNextReview(GetCardProgress(d.progress, id, now), knew, now)
  }

  /** The first review of an unseen card: a hit schedules it one day ahead, a miss
      leaves it due at once; either way it is 'learning'. */
  lemma FirstReview(d: LocalData, id: CardId, knew: bool, now: int)
    requires id !in d.progress
    ensures var r := ReviewResult(d, id, knew, now);
            && r.status == Learning
            && (knew ==> r.repetitions == 1 && r.interval == 1 && r.nextReview == now + DayMs)
            && (!knew ==> r.repetitions == 0 && r.easiness == 23 && IsDue(r, now))
  {
  }

  /** A review keeps every stored entry within the scheduler's invariant. */
  lemma ReviewKeepsValid(d: LocalData, id: CardId, knew: bool, now: int, studyDate: string)
    requires AllValid(d.progress)
    ensures AllValid(WithCardProgress(d, id, ReviewResult(d, id, knew, now), studyDate).progress)
  {
    var current := GetCardProgress(d.progress, id, now);
    ReviewPreservesValid(current, knew, now);
    WithCardProgressKeepsValid(d, id, ReviewResult(d, id, knew, now), studyDate);
  }

  /** A review changes the known count by at most one. */
  lemma ReviewKnownWords(d: LocalData, id: CardId, knew: bool, now: int, studyDate: string)
    ensures var r := WithCardProgress(d, id, ReviewResult(d, id, knew, now), studyDate);
            var before := CountKnown(d.progress);
            before - 1 <= r.stats.knownWords <= before + 1
            && (!knew ==> r.stats.knownWords <= before)
  {
    CountKnownUpdate(d.progress, id, ReviewResult(d, id, knew, now));
  }

  /** One mounted use of the hook: its stats state and the store it drives. */
  class ProgressHook {
    var stats: Stats
    const store: Store

    /** The first render: stats start at zero before the mount effect runs. */
    constructor (store: Store)
      ensures this.store == store && stats == DefaultStats
    {
      this.store := store;
      stats := DefaultStats;
    }

    /** The mount effect: stats are loaded from the store. */
    method LoadStats()
      modifies this
      ensures stats == store.stats
    {
      stats := store.stats;
    }

    /** reviewCard: read, schedule, write, refresh stats, return the new progress. */
    method ReviewCard(id: CardId, knew: bool, now: int, studyDate: string) returns (r: Progress)
      modifies this, store
      ensures r == ReviewResult(old(store.Data()), id, knew, now)
      ensures store.Data() == WithCardProgress(old(store.Data()), id, r, studyDate)
      ensures id in store.progress && store.progress[id] == r
      ensures forall k :: k in old(store.progress) && k != id ==> k in store.progress && store.progress[k] == old(store.progress[k])
      ensures store.stats.totalReviewed == old(store.stats.totalReviewed) + 1
      ensures stats == store.stats
    {
      var current := GetCardProgress(store.progress, id, now);
      r := CalculateNextReview(current, knew, now);
      store.UpdateCardProgress(id, r, studyDate);
      stats := store.stats;
    }
  }
}
