// The learn page (app/learn/page.jsx): the order the fetched cards are shown
// in and what a swipe records. Both call sites hand the library something
// other than what it expects; each is modelled as written, next to the
// behaviour the library evidently intends, which the corrected members give.

module LearnPage {
  import opened Sorting
  import opened Scheduler
  import opened ProgressStore
  import opened ReviewHook

  // ------------------------------------------------------------ queue order

  /** What getPriority receives: a progress record, or a bare card id. */
  datatype PriorityArg = Record(p: Progress) | Id(id: CardId)

  /** getPriority on any argument: an id has no `status` and no `nextReview`,
      so the overdue days are NaN, both tests fail and the score is 0. */
  function PriorityOf(arg: PriorityArg, now: int): (r: real)
    ensures arg.Record? ==> r == GetPriority(arg.p, now)
    ensures arg.Id? ==> r == 0.0
  {
    match arg
      case Record(p) => GetPriority(p, now)
      case Id(_) => 0.0
  }

  /** The sort as written: `getPriority(a.id, progress)` scores the id. With
      `priorityB - priorityA` the stable sort orders by falling score. */
  function LearnOrderAsWritten(cards: seq<CardId>, now: int): (r: seq<CardId>)
    ensures multiset(r) == multiset(cards)
  {
    StableSort(cards, (c: CardId) => -PriorityOf(Id(c), now))
  }

  /** As written, every score is 0 and the cards keep the order they were fetched in. */
  lemma AsWrittenKeepsFetchOrder(cards: seq<CardId>, now: int)
    ensures LearnOrderAsWritten(cards, now) == cards
  {
    StableSortConstantKey(cards, (c: CardId) => -PriorityOf(Id(c), now));
  }

  /** The score of a card from its stored progress (the initial record for an unseen card). */
  function Priority(progress: map<CardId, Progress>, c: CardId, now: int): real {
    GetPriority(GetCardProgress(progress, c, now), now)
  }

  /** The sort as intended: each card scored by its own progress record. */
  function LearnOrder(cards: seq<CardId>, progress: map<CardId, Progress>, now: int): (r: seq<CardId>)
    ensures multiset(r) == multiset(cards)
    ensures forall i, j :: 0 <= i < j < |r| ==> Priority(progress, r[i], now) >= Priority(progress, r[j], now)
  {
    var key := (c: CardId) => -Priority(progress, c, now);
    var r := StableSort(cards, key);
    assert SortedBy(r, key);
    r
  }

  /** In the intended order an overdue card comes before a new one and a new one
      before a card not yet due ("due cards first"). */
  lemma DueCardsFirst(cards: seq<CardId>, progress: map<CardId, Progress>, now: int, i: int, j: int)
    requires var r := LearnOrder(cards, progress, now);
             0 <= i < |r| && 0 <= j < |r|
    requires var r := LearnOrder(cards, progress, now);
             var pj := GetCardProgress(progress, r[j], now);
             pj.status != New && now > pj.nextReview
    requires var r := LearnOrder(cards, progress, now);
             var pi := GetCardProgress(progress, r[i], now);
             pi.status == New || now <= pi.nextReview
    ensures j < i
  {
    var r := LearnOrder(cards, progress, now);
    assert Priority(progress, r[j], now) > 2000.0;
    assert Priority(progress, r[i], now) <= 1000.0;
  }

  /** The discrepancy: of a card not yet due fetched before an overdue one, the
      page as written shows the card not yet due first. */
  lemma OverdueCardShownLate(a: CardId, b: CardId, progress: map<CardId, Progress>, now: int)
    requires a != b && a in progress && b in progress
    requires progress[a].status != New && now <= progress[a].nextReview
    requires progress[b].status != New && now > progress[b].nextReview
    ensures LearnOrderAsWritten([a, b], now) == [a, b]
    ensures LearnOrder([a, b], progress, now) == [b, a]
  {
    AsWrittenKeepsFetchOrder([a, b], now);
    var key := (c: CardId) => -Priority(progress, c, now);
    assert [a, b][..1] == [a];
    assert StableSort([a], key) == [a] by {
      assert [a][..0] == [];
    }
    assert key(a) > key(b);
  }

  // ------------------------------------------------------------------ swipes

  /** A stored progress entry as written by the page: a record, or the plain
      string the swipe handlers pass. */
  datatype Entry = Scheduled(p: Progress) | Label(text: string)

  /** The entries whose `status` is 'known': a string has no status. */
  function KnownAsWritten(entries: map<CardId, Entry>): (s: set<CardId>)
    ensures forall id :: id in s <==> id in entries && entries[id].Scheduled? && entries[id].p.status == Known
  {
    set id | id in entries && entries[id].Scheduled? && entries[id].p.status == Known
  }

  /** The swipe as written: `updateCardProgress(id, 'good' | 'again')` stores the
      string itself as the card's progress. */
  function SwipeAsWritten(entries: map<CardId, Entry>, id: CardId, knew: bool): (r: map<CardId, Entry>)
    ensures r.Keys == entries.Keys + {id}
    ensures r[id].Label?
    ensures forall k :: k in entries && k != id ==> r[k] == entries[k]
  {
    entries[id := Label(if knew then "good" else "again")]
  }

  /** The discrepancy: swiping "I know it" on a known card removes it from the
      known words, and the card is no longer scheduled at all. */
  lemma SwipeRightForgetsKnownCard(entries: map<CardId, Entry>, id: CardId)
    requires id in entries && entries[id].Scheduled? && entries[id].p.status == Known
    ensures |KnownAsWritten(SwipeAsWritten(entries, id, true))| == |KnownAsWritten(entries)| - 1
    ensures !SwipeAsWritten(entries, id, true)[id].Scheduled?
  {
    var after := SwipeAsWritten(entries, id, true);
    assert KnownAsWritten(after) == KnownAsWritten(entries) - {id};
  }

  /** The swipe as intended, through the scheduler: "I know it" on a known card
      keeps it known and leaves the known count as it was. */
  lemma SwipeRightKeepsKnown(d: LocalData, id: CardId, now: int, studyDate: string)
    requires id in d.progress && Valid(d.progress[id]) && d.progress[id].status == Known
    ensures var r := WithCardProgress(d, id, ReviewResult(d, id, true, now), studyDate);
            && r.progress[id].status == Known
            && r.stats.knownWords == CountKnown(d.progress)
  {
    var p := ReviewResult(d, id, true, now);
    assert p.repetitions == d.progress[id].repetitions + 1;
    CountKnownUpdate(d.progress, id, p);
  }

  /** A study session over the fetched cards, driving the progress hook. */
  class Session {
    var cards: seq<CardId>
    var currentIndex: nat
    var done: bool
    const hook: ProgressHook

    constructor (cards: seq<CardId>, hook: ProgressHook)
      ensures this.cards == cards && currentIndex == 0 && !done && this.hook == hook
    {
      this.cards := cards;
      currentIndex := 0;
      done := false;
      this.hook := hook;
    }

    /** moveToNext: the next card, or back home after the last one. */
    method MoveToNext()
      modifies this
      ensures cards == old(cards)
      ensures old(currentIndex) + 1 < |cards| ==> currentIndex == old(currentIndex) + 1 && done == old(done)
      ensures old(currentIndex) + 1 >= |cards| ==> currentIndex == old(currentIndex) && done
    {
      if currentIndex + 1 < |cards| {
        currentIndex := currentIndex + 1;
      } else {
        done := true;
      }
    }

    /** A swipe as intended: the current card is reviewed through the hook
        (right is a hit, left a miss) and the session moves on. */
    method Swipe(knew: bool, now: int, studyDate: string)
      requires currentIndex < |cards|
      modifies this, hook, hook.store
      ensures var id := old(cards)[old(currentIndex)];
              hook.store.Data() == WithCardProgress(old(hook.store.Data()), id, ReviewResult(old(hook.store.Data()), id, knew, now), studyDate)
      ensures hook.stats == hook.store.stats
      ensures cards == old(cards)
      ensures old(currentIndex) + 1 < |cards| ==> currentIndex == old(currentIndex) + 1 && done == old(done)
      ensures old(currentIndex) + 1 >= |cards| ==> currentIndex == old(currentIndex) && done
    {
      var id := cards[currentIndex];
      var _ := hook.ReviewCard(id, knew, now, studyDate);
      MoveToNext();
    }
  }
}
