// The command-line generator (scripts/generate-ai-flashcards.js): the per-level
// distribution, the split of each level's count into batches of at most 50,
// the loop over levels and batches in which a failure abandons the rest of
// that level, the rows of one save, and the command-line defaults. The model
// call and the insert are parameters indexed by level and batch. `generate`
// gives a batch's parsed cards, or None when the call or JSON.parse throws; the
// script's reply-text extraction (lines 96-104, the same steps as the route's,
// modelled by GenerateAi.ExtractJson) is inside that parameter.

module GenerateScript {
  import opened Wrappers
  import opened JsText
  import opened GenerateAi

  const BatchSize: nat := 50

  /** `distribution`, in its insertion order (the order Object.entries gives). */
  const Distribution: seq<(string, nat)> :=
    [("A1", 200), ("A2", 250), ("B1", 250), ("B2", 150), ("C1", 100), ("C2", 50)]

  /** The cards the first k levels ask for. */
  function TotalUpTo(k: nat): nat
    requires k <= |Distribution|
  {
    if k == 0 then 0 else TotalUpTo(k - 1) + Distribution[k - 1].1
  }

  /** The distribution asks for 1000 cards over the six levels, each once. */
  lemma DistributionTotal()
    ensures TotalUpTo(|Distribution|) == 1000
    ensures |Distribution| == |Levels| && forall i :: 0 <= i < |Distribution| ==> Distribution[i].0 == Levels[i]
  {
    assert TotalUpTo(2) == 450;
    assert TotalUpTo(4) == 850;
  }

  // ---------------------------------------------------------------- batches

  /** `Math.ceil(count / batchSize)`: the fewest batches of 50 that hold count. */
  function Batches(count: nat): (b: nat)
    ensures count <= b * BatchSize
    ensures b > 0 ==> (b - 1) * BatchSize < count
  {
    (count + BatchSize - 1) / BatchSize
  }

  /** `Math.min(batchSize, count - i * batchSize)`. */
  function BatchCount(count: nat, i: nat): int {
    if BatchSize < count - i * BatchSize then BatchSize else count - i * BatchSize
  }

  /** Every batch asks for between 1 and 50 cards. */
  lemma BatchCountRange(count: nat, i: nat)
    requires i < Batches(count)
    ensures 1 <= BatchCount(count, i) <= BatchSize
  {
    assert i * BatchSize <= (Batches(count) - 1) * BatchSize by {
      MulLeft(i, Batches(count) - 1);
    }
  }

  lemma MulLeft(a: nat, b: nat)
    requires a <= b
    ensures a * BatchSize <= b * BatchSize
  {
  }

  /** The cards asked for in the first n batches. */
  function BatchSum(count: nat, n: nat): int {
    if n == 0 then 0 else BatchSum(count, n - 1) + BatchCount(count, n - 1)
  }

  /** Before the last batch every batch is full. */
  lemma {:induction false} FullBatches(count: nat, n: nat)
    requires n < Batches(count)
    ensures BatchSum(count, n) == n * BatchSize
  {
    if n > 0 {
      FullBatches(count, n - 1);
      assert (n - 1) * BatchSize + BatchSize == n * BatchSize;
      assert (n - 1) * BatchSize < (Batches(count) - 1) * BatchSize by {
        MulLeft(n, Batches(count) - 1);
      }
    }
  }

  /** The batch sizes add up to the level's count. */
  lemma BatchesSumToCount(count: nat)
    ensures BatchSum(count, Batches(count)) == count
  {
    var b := Batches(count);
    if b > 0 {
      FullBatches(count, b - 1);
      BatchCountRange(count, b - 1);
    }
  }

  // ---------------------------------------------------------------- one save

  /** A row of the script's insert: the parsed card as it is (`...card`), with
      the level and the rank. */
  datatype ScriptRow = ScriptRow(card: AiCard, cefrLevel: string, frequencyRank: int)

  /** saveFlashcards' rows: consecutive ranks from one above the highest rank
      already stored. */
  function SaveRows(cards: seq<AiCard>, level: string, ranks: seq<int>): (rows: seq<ScriptRow>)
    ensures |rows| == |cards|
    ensures forall i :: 0 <= i < |rows| ==>
              rows[i].card == cards[i] && rows[i].cefrLevel == level && rows[i].frequencyRank == StartRank(ranks) + i
  {
    var start := StartRank(ranks);
    seq(|cards|, i requires 0 <= i < |cards| => ScriptRow(cards[i], level, start + i))
  }

  /** The saved ranks start at the previous maximum plus one (1 on an empty
      table), go up by one and stay above every stored rank. */
  lemma SaveRanksFresh(cards: seq<AiCard>, level: string, ranks: seq<int>)
    ensures var rows := SaveRows(cards, level, ranks);
            && (rows != [] && ranks == [] ==> rows[0].frequencyRank == 1)
            && (rows != [] && ranks != [] ==> rows[0].frequencyRank - 1 in ranks)
            && (forall i :: 0 < i < |rows| ==> rows[i].frequencyRank == rows[i - 1].frequencyRank + 1)
            && (forall i, j :: 0 <= i < |rows| && 0 <= j < |ranks| ==> rows[i].frequencyRank > ranks[j])
  {
  }

  // --------------------------------------------------------- levels loop

  /** What the loops have added up for a level, and whether it was abandoned. */
  datatype Tally = Tally(generated: nat, saved: nat, failed: bool)

  /** The first n batches of a level: `generate(level, i)` is batch i's parsed
      cards (`None` when the call or the parse throws) and `save(level, i)` its
      saved count (`None` when the insert throws). A batch adds to the totals
      only when both succeed; after a failure nothing more is added. */
  function LevelTally(level: string, count: nat, n: nat,
                      generate: (string, nat) -> Option<seq<AiCard>>,
                      save: (string, nat) -> Option<nat>): Tally
  {
    if n == 0 then Tally(0, 0, false)
    else
      var t := LevelTally(level, count, n - 1, generate, save);
      if t.failed then t
      else if generate(level, n - 1).None? || save(level, n - 1).None? then t.(failed := true)
      else Tally(t.generated + |generate(level, n - 1).value|, t.saved + save(level, n - 1).value, false)
  }

  /** The totals over the first k levels of the distribution. */
  function RunTotals(k: nat, generate: (string, nat) -> Option<seq<AiCard>>,
                     save: (string, nat) -> Option<nat>): (nat, nat)
    requires k <= |Distribution|
  {
    if k == 0 then (0, 0)
    else
      var prior := RunTotals(k - 1, generate, save);
      var (level, count) := Distribution[k - 1];
      var t := LevelTally(level, count, Batches(count), generate, save);
      (prior.0 + t.generated, prior.1 + t.saved)
  }

  /** The totals after one more level add that level's tally. */
  lemma RunTotalsStep(k: nat, generate: (string, nat) -> Option<seq<AiCard>>,
                      save: (string, nat) -> Option<nat>)
    requires k < |Distribution|
    ensures RunTotals(k + 1, generate, save).0 == RunTotals(k, generate, save).0
              + LevelTally(Distribution[k].0, Distribution[k].1, Batches(Distribution[k].1), generate, save).generated
    ensures RunTotals(k + 1, generate, save).1 == RunTotals(k, generate, save).1
              + LevelTally(Distribution[k].0, Distribution[k].1, Batches(Distribution[k].1), generate, save).saved
  {
  }

  /** Once a level has failed, later batches change nothing. */
  lemma {:induction false} FailedStays(level: string, count: nat, j: nat, n: nat,
                                       generate: (string, nat) -> Option<seq<AiCard>>,
                                       save: (string, nat) -> Option<nat>)
    requires j <= n && LevelTally(level, count, j, generate, save).failed
    ensures LevelTally(level, count, n, generate, save) == LevelTally(level, count, j, generate, save)
  {
    if n > j {
      FailedStays(level, count, j, n - 1, generate, save);
    }
  }

  /** A failing batch abandons the level: the level's totals are those of the
      batches before it. */
  lemma FailureAbandonsLevel(level: string, count: nat, j: nat,
                             generate: (string, nat) -> Option<seq<AiCard>>,
                             save: (string, nat) -> Option<nat>)
    requires j < Batches(count)
    requires !LevelTally(level, count, j, generate, save).failed
    requires generate(level, j).None? || save(level, j).None?
    ensures LevelTally(level, count, Batches(count), generate, save)
            == LevelTally(level, count, j, generate, save).(failed := true)
  {
    FailedStays(level, count, j + 1, Batches(count), generate, save);
  }

  /** Every batch of the level returns the number of cards asked for and saves. */
  predicate CompliantLevel(level: string, count: nat,
                           generate: (string, nat) -> Option<seq<AiCard>>,
                           save: (string, nat) -> Option<nat>)
  {
    forall i :: 0 <= i < Batches(count) ==>
      generate(level, i).Some? && |generate(level, i).value| == BatchCount(count, i) && save(level, i).Some?
  }

  /** When every batch returns the number of cards asked for and saves, the
      level generates exactly its count. */
  lemma {:induction false} FaithfulLevel(level: string, count: nat, n: nat,
                                         generate: (string, nat) -> Option<seq<AiCard>>,
                                         save: (string, nat) -> Option<nat>)
    requires n <= Batches(count)
    requires CompliantLevel(level, count, generate, save)
    ensures var t := LevelTally(level, count, n, generate, save);
            !t.failed && t.generated == BatchSum(count, n)
  {
    if n > 0 {
      FaithfulLevel(level, count, n - 1, generate, save);
      BatchCountRange(count, n - 1);
    }
  }

  /** With a model that always complies and an insert that never throws, the
      script generates the 1000 cards of the distribution. */
  lemma FaithfulRunGeneratesThousand(generate: (string, nat) -> Option<seq<AiCard>>,
                                     save: (string, nat) -> Option<nat>)
    requires forall k :: 0 <= k < |Distribution| ==>
               CompliantLevel(Distribution[k].0, Distribution[k].1, generate, save)
    ensures RunTotals(|Distribution|, generate, save).0 == 1000
  {
    FaithfulPrefix(|Distribution|, generate, save);
    DistributionTotal();
  }

  lemma {:induction false} FaithfulPrefix(k: nat, generate: (string, nat) -> Option<seq<AiCard>>,
                                          save: (string, nat) -> Option<nat>)
    requires k <= |Distribution|
    requires forall k :: 0 <= k < |Distribution| ==>
               CompliantLevel(Distribution[k].0, Distribution[k].1, generate, save)
    ensures RunTotals(k, generate, save).0 == TotalUpTo(k)
  {
    if k > 0 {
      FaithfulPrefix(k - 1, generate, save);
      var (level, count) := Distribution[k - 1];
      FaithfulLevel(level, count, Batches(count), generate, save);
      BatchesSumToCount(count);
    }
  }

  /** The inner loop for one level: batches in order until the first failure. */
  method ProcessLevel(level: string, count: nat,
                      generate: (string, nat) -> Option<seq<AiCard>>,
                      save: (string, nat) -> Option<nat>)
    returns (generated: nat, saved: nat)
    ensures var t := LevelTally(level, count, Batches(count), generate, save);
            generated == t.generated && saved == t.saved
  {
    generated, saved := 0, 0;
    var batches := Batches(count);
    var i := 0;
    while i < batches
      invariant 0 <= i <= batches
      invariant LevelTally(level, count, i, generate, save) == Tally(generated, saved, false)
    {
      var cards := generate(level, i);
      if cards.None? {
        FailureAbandonsLevel(level, count, i, generate, save);
        return;
      }
      var n := save(level, i);
      if n.None? {
        FailureAbandonsLevel(level, count, i, generate, save);
        return;
      }
      generated := generated + |cards.value|;
      saved := saved + n.value;
      i := i + 1;
    }
  }

  /** generateForAllLevels: the levels in order, each with its own failure
      handling, adding into the two totals. */
  method GenerateForAllLevels(generate: (string, nat) -> Option<seq<AiCard>>,
                              save: (string, nat) -> Option<nat>)
    returns (totalGenerated: nat, totalSaved: nat)
    ensures (totalGenerated, totalSaved) == RunTotals(|Distribution|, generate, save)
  {
    totalGenerated, totalSaved := 0, 0;
    var k := 0;
    while k < |Distribution|
      invariant 0 <= k <= |Distribution|
      invariant totalGenerated == RunTotals(k, generate, save).0
      invariant totalSaved == RunTotals(k, generate, save).1
    {
      var level, count := Distribution[k].0, Distribution[k].1;
      var g, s := ProcessLevel(level, count, generate, save);
      RunTotalsStep(k, generate, save);
      totalGenerated, totalSaved := totalGenerated + g, totalSaved + s;
      k := k + 1;
    }
  }

  // ------------------------------------------------------------ command line

  /** `all` runs the distribution; anything else generates one batch. */
  datatype Command = AllLevels | Single(level: string, count: int)

  /** `process.argv[2] || 'A1'` and `parseInt(process.argv[3]) || 50`; a missing
      argument reads as `undefined`, which parses to NaN. */
  function ParseArgs(arg2: Option<string>, arg3: Option<string>): (c: Command)
    ensures arg2 == Some("all") <==> c == AllLevels
    ensures c.Single? ==> c.count != 0
    ensures c.Single? && !Truthy(arg2) ==> c.level == "A1"
    ensures c.Single? && Truthy(arg2) ==> c.level == arg2.value
    ensures c.Single? && arg3.None? ==> c.count == 50
    ensures c.Single? && arg3.Some? ==> c.count == IntOr(ParseInt(arg3.value), 50)
  {
    if arg2 == Some("all") then AllLevels
    else
      var level := if Truthy(arg2) then arg2.value else "A1";
      var parsed := if arg3.Some? then ParseInt(arg3.value) else NaN;
      Single(level, IntOr(parsed, 50))
  }

  /** A positive decimal count on the command line is used as given. */
  lemma ArgsReadCount(arg2: Option<string>, n: nat)
    requires arg2 != Some("all") && n > 0
    ensures ParseArgs(arg2, Some(NatToString(n))).count == n
  {
    ParseIntOfNat(n);
  }

  /** The single-level run: one generation and one save; the process exits with
      status 1 when either throws. */
  datatype Exit = Saved(count: nat) | ExitOne

  function RunSingle(cards: Option<seq<AiCard>>, save: seq<AiCard> -> Option<nat>): (e: Exit)
    ensures e.Saved? <==> cards.Some? && save(cards.value).Some?
    ensures e.Saved? ==> Some(e.count) == save(cards.value)
  {
    if cards.None? then ExitOne
    else match save(cards.value)
      case None => ExitOne
      case Some(n) => Saved(n)
  }
}
