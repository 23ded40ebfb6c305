// The AI generation route (app/api/generate-ai/route.js): the CEFR level check,
// the count default, the extraction of the JSON text from the model's reply,
// and the rows written for the parsed cards (field mapping and frequency
// ranks). The OpenAI call, JSON.parse and the database are parameters: the
// reply text (absent when the call throws), a parser, the existing ranks and
// the outcome of the insert.

module GenerateAi {
  import opened Wrappers
  import opened JsText

  /** The keys of LEVEL_DESCRIPTIONS. */
  const Levels: seq<string> := ["A1", "A2", "B1", "B2", "C1", "C2"]

  /** The count asked of the model when the body has none. */
  const DefaultCount: int := 50

  /** The properties every plain object inherits from Object.prototype; each is
      a function (or, for `__proto__`, an object), so truthy. */
  const PrototypeKeys: seq<string> := [
    "constructor", "hasOwnProperty", "isPrototypeOf", "propertyIsEnumerable",
    "toLocaleString", "toString", "valueOf", "__proto__",
    "__defineGetter__", "__defineSetter__", "__lookupGetter__", "__lookupSetter__"]

  // ------------------------------------------------------------- the request

  /** The JSON body: `level` and `count`, `None` when absent. */
  datatype Request = Request(level: Option<string>, count: Option<int>)

  /** `{ count = 50 }`: the default applies only to a missing count. */
  function Count(req: Request): (n: int)
    ensures req.count.None? ==> n == DefaultCount
    ensures req.count.Some? ==> n == req.count.value
  {
    if req.count.Some? then req.count.value else DefaultCount
  }

  /** The guard `!level || !LEVEL_DESCRIPTIONS[level]` as written: a property
      lookup on a plain object, which also finds the inherited prototype members. */
  predicate GuardPassesAsWritten(level: Option<string>): (passes: bool)
    ensures ValidLevel(level) ==> passes
    ensures passes ==> level.Some? && level.value != ""
  {
    Truthy(level) && (level.value in Levels || level.value in PrototypeKeys)
  }

  /** The guard as intended: only the six CEFR levels are accepted. */
  predicate ValidLevel(level: Option<string>): (valid: bool)
    ensures valid ==> Truthy(level)
    ensures valid ==> level.value !in PrototypeKeys
  {
    level.Some? && level.value in Levels
  }

  /** The guard as written lets `toString` through although it is no CEFR level. */
  lemma PrototypeKeyPassesGuard()
    ensures GuardPassesAsWritten(Some("toString")) && !ValidLevel(Some("toString"))
  {
    assert Some("toString").value == PrototypeKeys[5];
    assert "toString"[0] == 't';
  }

  /** The two guards agree on every level that is not a prototype member. */
  lemma GuardsAgreeOffPrototype(level: Option<string>)
    requires level.Some? ==> level.value !in PrototypeKeys
    ensures GuardPassesAsWritten(level) <==> ValidLevel(level)
  {
    if ValidLevel(level) {
      assert level.value != "";
    }
  }

  // ------------------------------------------------------- fence stripping

  /** `s.replace(/marker\n?/g, '')` for a marker of at least one character:
      scanning left to right, each occurrence of the marker is dropped together
      with one newline right after it. */
  function StripMarker(s: string, marker: string): (r: string)
    requires marker != []
    ensures |r| <= |s|
    decreases |s|
  {
    if |s| < |marker| then s
    else if s[..|marker|] == marker then
      if |s| > |marker| && s[|marker|] == '\n' then StripMarker(s[|marker| + 1..], marker)
      else StripMarker(s[|marker|..], marker)
    else [s[0]] + StripMarker(s[1..], marker)
  }

  const Fence: string := "```"
  const JsonFence: string := "```json"

  /** No three backticks in a row anywhere in the text. */
  predicate FenceFree(s: string) {
    forall i :: 0 <= i <= |s| ==> !StartsWith(s[i..], Fence)
  }

  /** The text handed to JSON.parse: the trimmed reply, and when it opens with a
      fence, that text with every ```json and ``` marker (and a newline after
      it) removed, trimmed again. */
  function ExtractJson(reply: string): (json: string)
    ensures var content := Trim(reply);
            !StartsWith(content, Fence) ==> json == content
    ensures StartsWith(Trim(reply), Fence) ==> FenceFree(json) && |json| <= |Trim(reply)|
    ensures json == [] || (!IsSpace(json[0]) && !IsSpace(json[|json| - 1]))
  {
    var content := Trim(reply);
    if StartsWith(content, Fence) then
      var stripped := StripMarker(StripMarker(content, JsonFence), Fence);
      StripFenceFree(StripMarker(content, JsonFence));
      TrimKeepsFenceFree(stripped);
      Trim(stripped)
    else content
  }

  /** After `/```\n?/g` is removed nothing fence-like is left: a kept backtick is
      never directly followed by a removed marker, so no new fence forms. */
  lemma {:induction false} StripFenceFree(s: string)
    ensures FenceFree(StripMarker(s, Fence))
    decreases |s|
  {
    var r := StripMarker(s, Fence);
    if |s| < 3 {
      forall i | 0 <= i <= |r| ensures !StartsWith(r[i..], Fence) {
        assert |r[i..]| < 3;
      }
    } else if s[..3] == Fence {
      if |s| > 3 && s[3] == '\n' {
        StripFenceFree(s[4..]);
      } else {
        StripFenceFree(s[3..]);
      }
    } else {
      StripFenceFree(s[1..]);
      KeptHeadFenceFree(s);
    }
  }

  /** A kept head in front of fence-free stripped text forms no fence: when the
      head is a backtick, the stripped rest does not open with two more. */
  lemma KeptHeadFenceFree(s: string)
    requires |s| >= 3 && s[..3] != Fence
    requires FenceFree(StripMarker(s[1..], Fence))
    ensures FenceFree(StripMarker(s, Fence))
  {
    var r := StripMarker(s, Fence);
    var rest := StripMarker(s[1..], Fence);
    assert r == [s[0]] + rest;
    if s[0] == '`' && |rest| >= 2 {
      NoTwoBackticksAfter(s);
    }
    forall i | 0 < i <= |r| ensures !StartsWith(r[i..], Fence) {
      DropAfterHead(s[0], rest, i);
    }
    if |r| >= 3 {
      assert r[1] == rest[0] && r[2] == rest[1];
    }
    NotFence(r);
  }

  lemma DropAfterHead(h: char, t: string, i: int)
    requires 0 < i <= |t| + 1
    ensures ([h] + t)[i..] == t[i - 1..]
  {
  }

  /** A text that does not open with three backticks does not open with the fence. */
  lemma NotFence(t: string)
    requires |t| < 3 || t[0] != '`' || t[1] != '`' || t[2] != '`'
    ensures !StartsWith(t, Fence)
  {
    if |t| >= 3 {
      assert t[..3][0] == t[0] && t[..3][1] == t[1] && t[..3][2] == t[2];
    }
  }

  /** After a kept backtick head, the stripped rest does not open with two backticks. */
  lemma NoTwoBackticksAfter(s: string)
    requires |s| >= 3 && s[..3] != Fence && s[0] == '`'
    requires |StripMarker(s[1..], Fence)| >= 2
    ensures var rest := StripMarker(s[1..], Fence);
            !(rest[0] == '`' && rest[1] == '`')
  {
    var rest := StripMarker(s[1..], Fence);
    StripKeepsHead(s[1..]);
    if s[1] == '`' {
      assert s[2] != '`';
      StripKeepsHead(s[2..]);
      assert s[1..][1..] == s[2..];
      assert rest == [s[1]] + StripMarker(s[2..], Fence);
      assert rest[1] == s[2];
    }
  }

  /** A text whose head is no backtick keeps that head. */
  lemma StripKeepsHead(s: string)
    requires |s| >= 1 && (s[0] != '`' || (|s| >= 3 && s[..3] != Fence) || |s| < 3)
    ensures StripMarker(s, Fence) == [s[0]] + StripMarker(s[1..], Fence)
  {
    if |s| >= 3 {
      assert s[..3][0] == s[0];
    }
  }

  /** Trimming removes characters only at the ends, so no fence appears. */
  lemma TrimKeepsFenceFree(s: string)
    requires FenceFree(s)
    ensures FenceFree(Trim(s))
  {
    var t := TrimStart(s);
    var u := TrimEnd(t);
    var k := |s| - |t|;
    SliceOfSuffix(s, k, |u|);
    FenceFreePiece(s, k, u);
  }

  lemma SliceOfSuffix(s: string, k: int, n: int)
    requires 0 <= k <= |s| && 0 <= n <= |s| - k
    ensures s[k..][..n] == s[k..k + n]
  {
  }

  /** Any piece of a fence-free text is fence-free. */
  lemma FenceFreePiece(s: string, a: int, u: string)
    requires FenceFree(s) && 0 <= a && a + |u| <= |s| && u == s[a..a + |u|]
    ensures FenceFree(u)
  {
    forall i | 0 <= i <= |u| ensures !StartsWith(u[i..], Fence) {
      assert !StartsWith(s[a + i..], Fence);
      if |u| - i >= 3 {
        assert u[i..][..3] == s[a + i..][..3];
      }
    }
  }

  /** Markers start with a backtick, so text without backticks passes unchanged,
      and a backtick-free prefix is kept as it is. */
  lemma {:induction false} StripBacktickFreePrefix(p: string, t: string, marker: string)
    requires marker != [] && marker[0] == '`' && '`' !in p
    ensures StripMarker(p + t, marker) == p + StripMarker(t, marker)
    decreases |p|
  {
    if p != [] {
      var s := p + t;
      assert s[0] == p[0];
      if |s| >= |marker| {
        assert s[..|marker|][0] == p[0];
      }
      assert s[1..] == p[1..] + t;
      StripBacktickFreePrefix(p[1..], t, marker);
      assert p == [p[0]] + p[1..];
    } else {
      assert p + t == t;
    }
  }

  /** A JSON text in a ```json fence, as chat models commonly reply. */
  function Fenced(body: string): string {
    JsonFence + "\n" + body + "\n" + Fence
  }

  /** A fenced reply (surrounded by any white space) yields exactly the fenced
      text, provided it holds no backtick and has no white space at its ends. */
  lemma FencedReplyYieldsBody(ws1: string, body: string, ws2: string)
    requires AllSpace(ws1) && AllSpace(ws2)
    requires '`' !in body && body != [] && !IsSpace(body[0]) && !IsSpace(body[|body| - 1])
    ensures ExtractJson(ws1 + Fenced(body) + ws2) == body
  {
    var f := Fenced(body);
    FencedShape(body);
    TrimFenced(ws1, f, ws2);
    ExtractFenced(ws1 + f + ws2, f);
    FirstPass(body);
    SecondPass(body);
    TrimBodyNewline(body);
  }

  lemma FencedShape(body: string)
    ensures var f := Fenced(body);
            f != [] && f[0] == '`' && f[|f| - 1] == '`' && StartsWith(f, Fence)
  {
    var f := Fenced(body);
    assert f[..3] == Fence;
  }

  /** A text without white space at its ends loses only a newline appended to it. */
  lemma TrimBodyNewline(body: string)
    requires body != [] && !IsSpace(body[0]) && !IsSpace(body[|body| - 1])
    ensures Trim(body + "\n") == body
  {
    assert AllSpace("\n") by { assert IsSpace('\n'); }
    TrimAppendSpace(body, "\n");
    TrimFixpoint(body);
  }

  lemma ExtractFenced(reply: string, f: string)
    requires Trim(reply) == f && StartsWith(f, Fence)
    ensures ExtractJson(reply) == Trim(StripMarker(StripMarker(f, JsonFence), Fence))
  {
  }

  /** White space around a text that begins and ends with a backtick is trimmed away. */
  lemma TrimFenced(ws1: string, f: string, ws2: string)
    requires AllSpace(ws1) && AllSpace(ws2)
    requires f != [] && f[0] == '`' && f[|f| - 1] == '`'
    ensures Trim(ws1 + f + ws2) == f
  {
    assert ws1 + f + ws2 == ws1 + (f + ws2);
    assert (f + ws2)[0] == '`';
    TrimStartSkipsSpace(ws1, f + ws2);
    TrimEndAppendSpace(f, ws2);
    TrimEndNoOp(f);
  }

  /** The first pass drops the opening marker with its newline. */
  lemma FirstPass(body: string)
    requires '`' !in body
    ensures StripMarker(Fenced(body), JsonFence) == body + "\n```"
  {
    var f := Fenced(body);
    assert f[..7] == JsonFence && f[7] == '\n';
    assert f[8..] == body + "\n```";
    StripBacktickFreePrefix(body, "\n```", JsonFence);
    assert StripMarker("\n```", JsonFence) == "\n```";
  }

  /** The second pass drops the closing fence. */
  lemma SecondPass(body: string)
    requires '`' !in body
    ensures StripMarker(body + "\n```", Fence) == body + "\n"
  {
    StripBacktickFreePrefix(body, "\n```", Fence);
    assert "\n```"[1..] == Fence;
    assert StripMarker(Fence, Fence) == "" by {
      assert Fence[..3] == Fence;
      assert Fence[3..] == [];
    }
    assert StripMarker("\n```", Fence) == "\n" by {
      assert "\n```"[..3] != Fence;
    }
  }

  // ------------------------------------------------------------ the new rows

  /** A card as the model's JSON gives it; any field may be absent. */
  datatype AiCard = AiCard(
    englishWord: Option<string>,
    indonesianTranslation: Option<string>,
    partOfSpeech: Option<string>,
    exampleSentenceEn: Option<string>,
    exampleSentenceId: Option<string>,
    conversationContext: Option<string>,
    conversationSentence: Option<string>)

  /** A row for `flashcard.createMany`. */
  datatype NewCard = NewCard(
    englishWord: Option<string>,
    indonesianTranslation: Option<string>,
    partOfSpeech: Option<string>,
    exampleSentenceEn: Option<string>,
    exampleSentenceId: Option<string>,
    conversationContext: Option<string>,
    cefrLevel: string,
    frequencyRank: int)

  /** The highest existing rank, as `findFirst` ordered by rank descending gives it. */
  function MaxRank(ranks: seq<int>): (m: Option<int>)
    ensures m.None? <==> ranks == []
    ensures m.Some? ==> m.value in ranks && forall i :: 0 <= i < |ranks| ==> ranks[i] <= m.value
  {
    if ranks == [] then None
    else
      var rest := MaxRank(ranks[1..]);
      if rest.Some? && rest.value > ranks[0] then rest else Some(ranks[0])
  }

  /** `(maxRank?.frequencyRank || 0) + 1`: one above the highest existing rank,
      and 1 for an empty table. */
  function StartRank(ranks: seq<int>): (start: int)
    ensures ranks == [] ==> start == 1
    ensures ranks != [] ==> start - 1 in ranks
    ensures forall i :: 0 <= i < |ranks| ==> ranks[i] < start
  {
    var m := MaxRank(ranks);
    (if m.Some? && m.value != 0 then m.value else 0) + 1
  }

  /** `card.conversationContext || card.conversationSentence || null`. */
  function Context(card: AiCard): (c: Option<string>)
    ensures c.Some? <==> Truthy(card.conversationContext) || Truthy(card.conversationSentence)
    ensures Truthy(card.conversationContext) ==> c == card.conversationContext
    ensures !Truthy(card.conversationContext) && c.Some? ==> c == card.conversationSentence
  {
    if Truthy(card.conversationContext) then card.conversationContext
    else OrNull(card.conversationSentence)
  }

  /** The mapped rows: the card's fields, its context, the requested level and
      the rank `start + index`. */
  function WithMeta(cards: seq<AiCard>, level: string, start: int): (rows: seq<NewCard>)
    ensures |rows| == |cards|
    ensures forall i :: 0 <= i < |rows| ==>
              && rows[i].cefrLevel == level
              && rows[i].frequencyRank == start + i
              && rows[i].conversationContext == Context(cards[i])
              && rows[i].englishWord == cards[i].englishWord
              && rows[i].indonesianTranslation == cards[i].indonesianTranslation
              && rows[i].partOfSpeech == cards[i].partOfSpeech
              && rows[i].exampleSentenceEn == cards[i].exampleSentenceEn
              && rows[i].exampleSentenceId == cards[i].exampleSentenceId
  {
    seq(|cards|, i requires 0 <= i < |cards| =>
      NewCard(cards[i].englishWord, cards[i].indonesianTranslation, cards[i].partOfSpeech,
              cards[i].exampleSentenceEn, cards[i].exampleSentenceId, Context(cards[i]),
              level, start + i))
  }

  /** The new ranks are consecutive, pairwise distinct and above every rank
      already in the table. */
  lemma NewRanksFresh(cards: seq<AiCard>, level: string, ranks: seq<int>)
    ensures var rows := WithMeta(cards, level, StartRank(ranks));
            && (forall i, j :: 0 <= i < |rows| && 0 <= j < |ranks| ==> rows[i].frequencyRank > ranks[j])
            && (forall i :: 0 < i < |rows| ==> rows[i].frequencyRank == rows[i - 1].frequencyRank + 1)
            && (forall i, j :: 0 <= i < j < |rows| ==> rows[i].frequencyRank < rows[j].frequencyRank)
  {
  }

  // ------------------------------------------------------------- the route

  /** The response: 400 for a bad level, 500 for any thrown error, otherwise the
      number of cards generated and saved and the level. */
  datatype Reply = BadRequest | ServerError | Generated(generated: nat, saved: nat, level: string)

  /** The response and the rows written. */
  datatype Outcome = Outcome(reply: Reply, written: seq<NewCard>)

  /** POST: the level is checked first; the model's reply (`None` when the call
      throws) is extracted and parsed (`None` when JSON.parse throws); the rows
      are ranked above `ranks` and handed to `insert`, which gives the saved
      count or `None` when the insert throws. */
  function Post(req: Request, reply: Option<string>, parse: string -> Option<seq<AiCard>>,
                ranks: seq<int>, insert: seq<NewCard> -> Option<nat>): (o: Outcome)
    ensures !ValidLevel(req.level) ==> o == Outcome(BadRequest, [])
    ensures o.reply.Generated? <==>
              && ValidLevel(req.level) && reply.Some?
              && parse(ExtractJson(reply.value)).Some?
              && insert(WithMeta(parse(ExtractJson(reply.value)).value, req.level.value, StartRank(ranks))).Some?
    ensures o.reply.Generated? ==>
              var cards := parse(ExtractJson(reply.value)).value;
              && o.reply.level == req.level.value
              && o.reply.generated == |cards| == |o.written|
              && o.written == WithMeta(cards, req.level.value, StartRank(ranks))
              && Some(o.reply.saved) == insert(o.written)
    ensures ValidLevel(req.level) && !o.reply.Generated? ==> o.reply == ServerError
    ensures !o.reply.Generated? ==> o.written == []
  {
    if !ValidLevel(req.level) then Outcome(BadRequest, [])
    else if reply.None? then Outcome(ServerError, [])
    else
      var parsed := parse(ExtractJson(reply.value));
      if parsed.None? then Outcome(ServerError, [])
      else
        var rows := WithMeta(parsed.value, req.level.value, StartRank(ranks));
        var saved := insert(rows);
        if saved.None? then Outcome(ServerError, [])
        else Outcome(Generated(|parsed.value|, saved.value, req.level.value), rows)
  }

  /** Every row the route writes carries one of the six CEFR levels, the
      requested one. */
  lemma WrittenLevelsAreCefr(req: Request, reply: Option<string>, parse: string -> Option<seq<AiCard>>,
                             ranks: seq<int>, insert: seq<NewCard> -> Option<nat>)
    ensures var o := Post(req, reply, parse, ranks, insert);
            forall i :: 0 <= i < |o.written| ==>
              o.written[i].cefrLevel == req.level.value && o.written[i].cefrLevel in Levels
  {
  }
}
