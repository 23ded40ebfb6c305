// The flashcards API route (app/api/flashcards/route.js): which query it runs
// for the `levels` and `limit` parameters, and the response it builds from the
// cards the query returns. The queries themselves (lib/prisma.js) are outside
// the model.

module FlashcardsRoute {
  import opened Wrappers
  import opened JsText
  import FlashcardsPage

  const DefaultLimit: int := 50

  /** The limit the learn page asks for. */
  const LearnLimit: nat := 100

  /** The query the route runs: every card, or cards of the given levels up to a limit. */
  datatype CardQuery = AllCards | ByLevels(levels: seq<string>, limit: ParsedInt)

  /** `limitParam ? parseInt(limitParam) : 50`: no `||` fallback, so a zero or
      non-numeric limit is passed on as it parses. */
  function Limit(limitParam: Option<string>): (l: ParsedInt)
    ensures !Truthy(limitParam) ==> l == Int(DefaultLimit)
    ensures Truthy(limitParam) ==> l == ParseInt(limitParam.value)
  {
    if Truthy(limitParam) then ParseInt(limitParam.value) else Int(DefaultLimit)
  }

  /** A non-empty `levels` parameter is split on commas; without one, every card. */
  function Plan(levelsParam: Option<string>, limitParam: Option<string>): (q: CardQuery)
    ensures !Truthy(levelsParam) <==> q == AllCards
    ensures q.ByLevels? ==> Join(q.levels, ",") == levelsParam.value && q.limit == Limit(limitParam)
    ensures q.ByLevels? ==> |q.levels| >= 1 && forall i :: 0 <= i < |q.levels| ==> ',' !in q.levels[i]
  {
    if Truthy(levelsParam) then
      JoinSplit(levelsParam.value, ',');
      ByLevels(Split(levelsParam.value, ','), Limit(limitParam))
    else AllCards
  }

  datatype CardsResponse<T> = CardsResponse(data: seq<T>, count: nat)

  /** The success body: the cards and their number. */
  function Respond<T>(cards: seq<T>): (r: CardsResponse<T>)
    ensures r.data == cards && r.count == |r.data|
  {
    CardsResponse(cards, |cards|)
  }

  /** Start Learning's selection reaches this route intact: the learn page passes
      the `levels` text through, with limit 100, and splitting it on commas gives
      back the selected levels when none of them contains a comma. */
  lemma SelectionRoundTrip(selected: seq<string>)
    requires selected != [] && selected[0] != ""
    requires forall i :: 0 <= i < |selected| ==> ',' !in selected[i]
    ensures var url := FlashcardsPage.StartLearning(selected);
            && url.Some?
            && url.value == "/learn?levels=" + Join(selected, ",")
            && Plan(Some(Join(selected, ",")), Some(NatToString(LearnLimit))) == ByLevels(selected, Int(LearnLimit))
  {
    PlanReadsLevels(selected, LearnLimit);
  }

  /** Comma-free levels joined by commas, with a decimal limit, plan a query for
      exactly those levels and that limit. */
  lemma PlanReadsLevels(levels: seq<string>, n: nat)
    requires levels != [] && levels[0] != ""
    requires forall i :: 0 <= i < |levels| ==> ',' !in levels[i]
    ensures Plan(Some(Join(levels, ",")), Some(NatToString(n))) == ByLevels(levels, Int(n))
  {
    SplitJoin(levels, ',');
    JoinNonEmpty(levels, ",");
    ParseIntOfNat(n);
  }

  lemma JoinNonEmpty(parts: seq<string>, sep: string)
    requires parts != [] && parts[0] != ""
    ensures Join(parts, sep) != ""
  {
    if |parts| > 1 {
      assert Join(parts, sep) == parts[0] + sep + Join(parts[1..], sep);
    }
  }
}
