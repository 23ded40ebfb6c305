// The browser progress store of lib/localStorage.js, on the decoded record.
// A stored record is what JSON.parse gave back: any of its top-level parts
// and any field of its settings and stats may be missing. The localStorage
// API itself, JSON and the clock are outside the model; the ISO date string
// of "now" is a parameter.

module ProgressStore {
  import opened Wrappers
  import opened Scheduler

  type CardId = string

  datatype Settings = Settings(dailyGoal: int, preferredLevels: seq<string>)

  datatype Stats = Stats(totalReviewed: int, knownWords: int, streak: int, lastStudyDate: string)

  /** The whole record: per-card progress, settings and stats. */
  datatype LocalData = LocalData(progress: map<CardId, Progress>, settings: Settings, stats: Stats)

  /** A settings object as stored or as passed to updateSettings: fields may be absent. */
  datatype SettingsPatch = SettingsPatch(dailyGoal: Option<int>, preferredLevels: Option<seq<string>>)

  datatype StatsPatch = StatsPatch(
    totalReviewed: Option<int>, knownWords: Option<int>, streak: Option<int>, lastStudyDate: Option<string>)

  /** A decoded stored record, with each top-level part possibly absent. */
  datatype StoredData = StoredData(
    progress: Option<map<CardId, Progress>>, settings: Option<SettingsPatch>, stats: Option<StatsPatch>)

  const DefaultSettings := Settings(20, ["A1", "A2"])
  const DefaultStats := Stats(0, 0, 0, "")
  const DefaultData := LocalData(map[], DefaultSettings, DefaultStats)

  function Pick<T>(field: Option<T>, base: T): T {
    if field.Some? then field.value else base
  }

  /** `{ ...base, ...patch }` on settings: a given field wins, the others are kept. */
  function ApplySettings(base: Settings, patch: SettingsPatch): (r: Settings)
    ensures patch.dailyGoal.Some? ==> r.dailyGoal == patch.dailyGoal.value
    ensures patch.dailyGoal.None? ==> r.dailyGoal == base.dailyGoal
    ensures patch.preferredLevels.Some? ==> r.preferredLevels == patch.preferredLevels.value
    ensures patch.preferredLevels.None? ==> r.preferredLevels == base.preferredLevels
  {
    Settings(Pick(patch.dailyGoal, base.dailyGoal), Pick(patch.preferredLevels, base.preferredLevels))
  }

  /** `{ ...base, ...patch }` on stats. */
  function ApplyStats(base: Stats, patch: StatsPatch): (r: Stats)
    ensures patch.totalReviewed.Some? ==> r.totalReviewed == patch.totalReviewed.value
    ensures patch.totalReviewed.None? ==> r.totalReviewed == base.totalReviewed
    ensures patch.knownWords.Some? ==> r.knownWords == patch.knownWords.value
    ensures patch.knownWords.None? ==> r.knownWords == base.knownWords
    ensures patch.streak.Some? ==> r.streak == patch.streak.value
    ensures patch.streak.None? ==> r.streak == base.streak
    ensures patch.lastStudyDate.Some? ==> r.lastStudyDate == patch.lastStudyDate.value
    ensures patch.lastStudyDate.None? ==> r.lastStudyDate == base.lastStudyDate
  {
    Stats(Pick(patch.totalReviewed, base.totalReviewed), Pick(patch.knownWords, base.knownWords),
          Pick(patch.streak, base.streak), Pick(patch.lastStudyDate, base.lastStudyDate))
  }

  /** getLocalData: the defaults when nothing (readable) is stored; otherwise the
      stored parts, with missing settings and stats fields taken from the defaults. */
  function GetLocalData(stored: Option<StoredData>): (d: LocalData)
    ensures stored.None? ==> d == DefaultData
    ensures stored.Some? ==>
      && d.progress == Pick(stored.value.progress, map[])
      && d.settings == ApplySettings(DefaultSettings, Pick(stored.value.settings, SettingsPatch(None, None)))
      && d.stats == ApplyStats(DefaultStats, Pick(stored.value.stats, StatsPatch(None, None, None, None)))
  {
    match stored
    case None => DefaultData
    case Some(data) =>
      LocalData(
        Pick(data.progress, map[]),
        ApplySettings(DefaultSettings, Pick(data.settings, SettingsPatch(None, None))),
        ApplyStats(DefaultStats, Pick(data.stats, StatsPatch(None, None, None, None))))
  }

  /** The record saveLocalData writes for d: every part and field present. */
  function Stored(d: LocalData): StoredData {
    StoredData(
      Some(d.progress),
      Some(SettingsPatch(Some(d.settings.dailyGoal), Some(d.settings.preferredLevels))),
      Some(StatsPatch(Some(d.stats.totalReviewed), Some(d.stats.knownWords),
                      Some(d.stats.streak), Some(d.stats.lastStudyDate))))
  }

  /** Saving a record and loading it again gives the same record back. */
  lemma SaveLoadRoundTrip(d: LocalData)
    ensures GetLocalData(Some(Stored(d))) == d
  {
  }

  /** A stored record with no parts at all loads as the defaults. */
  lemma EmptyRecordLoadsDefaults()
    ensures GetLocalData(Some(StoredData(None, None, None))) == DefaultData
  {
  }

  /** An empty patch changes nothing, and applying a patch twice is applying it once. */
  lemma ApplySettingsLaws(s: Settings, patch: SettingsPatch)
    ensures ApplySettings(s, SettingsPatch(None, None)) == s
    ensures ApplySettings(ApplySettings(s, patch), patch) == ApplySettings(s, patch)
  {
  }

  /** getCardProgress: the stored entry, or the initial progress for an unseen card. */
  function GetCardProgress(progress: map<CardId, Progress>, id: CardId, now: int): (p: Progress)
    ensures id in progress ==> p == progress[id]
    ensures id !in progress ==> p == InitialProgress(now) && p.status == New
  {
    if id in progress then progress[id] else InitialProgress(now)
  }

  /** The ids of the entries whose status is 'known'. */
  function KnownIds(progress: map<CardId, Progress>): (s: set<CardId>)
    ensures s <= progress.Keys
    ensures forall id :: id in s <==> id in progress && progress[id].status == Known
  {
    set id | id in progress && progress[id].status == Known
  }

  /** The number of entries whose status is 'known'. */
  function CountKnown(progress: map<CardId, Progress>): nat {
    |KnownIds(progress)|
  }

  /** Writing one entry changes the known count by at most one, exactly as the entry's status changes. */
  lemma CountKnownUpdate(progress: map<CardId, Progress>, id: CardId, p: Progress)
    ensures CountKnown(progress[id := p])
            == CountKnown(progress)
               - (if id in progress && progress[id].status == Known then 1 else 0)
               + (if p.status == Known then 1 else 0)
  {
    var before := KnownIds(progress);
    var after := KnownIds(progress[id := p]);
    var rest := before - {id};
    assert id !in rest;
    if p.status == Known {
      assert after == rest + {id};
    } else {
      assert after == rest;
    }
    if id in progress && progress[id].status == Known {
      assert before == rest + {id};
    } else {
      assert before == rest;
    }
  }

  /** updateCardProgress on the record: the entry for id becomes p, one more
      review is counted, the study date is set, and knownWords is recounted. */
  function WithCardProgress(d: LocalData, id: CardId, p: Progress, studyDate: string): (r: LocalData)
    ensures id in r.progress && r.progress[id] == p
    ensures r.progress.Keys == d.progress.Keys + {id}
    ensures forall k :: k in d.progress && k != id ==> r.progress[k] == d.progress[k]
    ensures r.stats.totalReviewed == d.stats.totalReviewed + 1
    ensures r.stats.knownWords == CountKnown(r.progress)
    ensures r.stats.streak == d.stats.streak && r.stats.lastStudyDate == studyDate
    ensures r.settings == d.settings
  {
    var progress := d.progress[id := p];
    LocalData(progress, d.settings,
              d.stats.(totalReviewed := d.stats.totalReviewed + 1,
                       lastStudyDate := studyDate,
                       knownWords := CountKnown(progress)))
  }

  /** Every entry satisfies the scheduler's invariant. */
  predicate AllValid(progress: map<CardId, Progress>) {
    forall id :: id in progress ==> Valid(progress[id])
  }

  /** Writing a valid entry keeps every entry valid. */
  lemma WithCardProgressKeepsValid(d: LocalData, id: CardId, p: Progress, studyDate: string)
    requires AllValid(d.progress) && Valid(p)
    ensures AllValid(WithCardProgress(d, id, p, studyDate).progress)
  {
  }

  /** Re-reviewing the same card counts again: two writes add two reviews but at most one known word. */
  lemma RewriteCountsTwice(d: LocalData, id: CardId, p: Progress, q: Progress, s1: string, s2: string)
    ensures var r := WithCardProgress(WithCardProgress(d, id, p, s1), id, q, s2);
            && r.stats.totalReviewed == d.stats.totalReviewed + 2
            && r.progress == d.progress[id := q]
            && r.stats.knownWords == CountKnown(d.progress[id := q])
  {
    assert d.progress[id := p][id := q] == d.progress[id := q];
  }

  /** getDueCardIds: the ids whose entry is due now (their order is not modelled). */
  function DueCardIds(progress: map<CardId, Progress>, now: int): (ids: set<CardId>)
    ensures forall id :: id in ids <==> id in progress && IsDue(progress[id], now)
  {
    set id | id in progress && progress[id].nextReview <= now
  }

  /** getNewCardCount: how many of the given ids have no progress entry. */
  function NewCardCount(ids: seq<CardId>, progress: map<CardId, Progress>): (n: nat)
    ensures n <= |ids|
    ensures n == 0 <==> forall i :: 0 <= i < |ids| ==> ids[i] in progress
    ensures n == |ids| <==> forall i :: 0 <= i < |ids| ==> ids[i] !in progress
  {
    if ids == [] then 0
    else (if ids[0] !in progress then 1 else 0) + NewCardCount(ids[1..], progress)
  }

  /** Reviewing a card that was seen before, or one that is listed nowhere, leaves the new-card count as it was. */
  lemma {:induction false} NewCardCountAfterWrite(ids: seq<CardId>, progress: map<CardId, Progress>, id: CardId, p: Progress)
    requires id in progress || forall i :: 0 <= i < |ids| ==> ids[i] != id
    ensures NewCardCount(ids, progress[id := p]) == NewCardCount(ids, progress)
  {
    if ids != [] {
      NewCardCountAfterWrite(ids[1..], progress, id, p);
    }
  }

  /** The decoded record, updated in place by the store's operations. */
  class Store {
    var progress: map<CardId, Progress>
    var settings: Settings
    var stats: Stats

    function Data(): LocalData
      reads this
    {
      LocalData(progress, settings, stats)
    }

    /** The record getLocalData decodes from what is stored. */
    constructor Load(stored: Option<StoredData>)
      ensures Data() == GetLocalData(stored)
    {
      var d := GetLocalData(stored);
      progress := d.progress;
      settings := d.settings;
      stats := d.stats;
    }

    /** updateCardProgress: write the entry, count the review, recount known cards. */
    method UpdateCardProgress(id: CardId, p: Progress, studyDate: string)
      modifies this
      ensures Data() == WithCardProgress(old(Data()), id, p, studyDate)
    {
      progress := progress[id := p];
      stats := stats.(totalReviewed := stats.totalReviewed + 1);
      stats := stats.(lastStudyDate := studyDate);
      var knownWords := CountKnown(progress);
      stats := stats.(knownWords := knownWords);
    }

    /** updateSettings: the given keys overwrite, the others stay. */
    method UpdateSettings(patch: SettingsPatch)
      modifies this
      ensures settings == ApplySettings(old(settings), patch)
      ensures progress == old(progress) && stats == old(stats)
    {
      settings := ApplySettings(settings, patch);
    }

    /** updatePreferredLevels: only preferredLevels changes. */
    method UpdatePreferredLevels(levels: seq<string>)
      modifies this
      ensures settings == old(settings).(preferredLevels := levels)
      ensures progress == old(progress) && stats == old(stats)
    {
      settings := settings.(preferredLevels := levels);
    }
  }
}
