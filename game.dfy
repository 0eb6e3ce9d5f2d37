/**
 * The game-state and leaderboard rules of the backend, as values: the
 * records it keeps, how a stored player record is decoded, the fields each
 * request writes, and what the GET, PUT and DELETE requests on /game do to
 * the store. The handlers that run these steps in place are in Handlers.
 */
module Game {
  import opened Wrappers
  import Strconv
  import CardJson
  import opened Redis
  import CardGenerator

  datatype Card = Card(name: string, cardType: string)

  /** A player's game state as the GET request returns it. */
  datatype GameData = GameData(score: int, gameCards: seq<Card>, hasDefuseCard: bool, activeCard: Option<Card>)

  datatype LeaderboardEntry = LeaderboardEntry(userName: string, userScore: int)

  datatype HttpError = BadRequest(message: string)

  const ZeroGameData := GameData(0, [], false, None)

  const MissingUserName := "Missing userName in request body"

  // ---------------------------------------------------------------------
  // Card lists

  /**
   * json.Unmarshal of one array element into a Card: an object gives its
   * name and type; a bare string does not fit a Card, so the element keeps
   * the zero Card.
   */
  function CardOfItem(item: CardJson.Item): Card
  {
    match item
    case Object(n, t) => Card(n, t)
    case Text(_) => Card("", "")
  }

  function ItemOfCard(c: Card): CardJson.Item
  {
    CardJson.Object(c.name, c.cardType)
  }

  /** The stored card list as a GameData holds it; text that does not decode gives no cards. */
  function DecodeCards(raw: string): (cards: seq<Card>)
    ensures CardJson.Decode(raw).None? ==> cards == []
    ensures CardJson.Decode(raw).Some? ==> |cards| == |CardJson.Decode(raw).value|
    ensures CardJson.Decode(raw).Some? ==>
      forall i :: 0 <= i < |cards| ==> cards[i] == CardOfItem(CardJson.Decode(raw).value[i])
  {
    match CardJson.Decode(raw)
    case None => []
    case Some(items) => seq(|items|, i requires 0 <= i < |items| => CardOfItem(items[i]))
  }

  function EncodeCards(cards: seq<Card>): string
  {
    CardJson.Encode(seq(|cards|, i requires 0 <= i < |cards| => ItemOfCard(cards[i])))
  }

  /** A card list is stored and read back unchanged, in the same order. */
  lemma DecodeEncodeCards(cards: seq<Card>)
    ensures DecodeCards(EncodeCards(cards)) == cards
  {
    var items := seq(|cards|, i requires 0 <= i < |cards| => ItemOfCard(cards[i]));
    CardJson.DecodeEncode(items);
  }

  // ---------------------------------------------------------------------
  // Decoding a stored record

  /** Indexing a Go map: a missing field reads as "". */
  function Field(fields: map<string, string>, name: string): string
  {
    if name in fields then fields[name] else ""
  }

  function ActiveCardOf(name: string): Option<Card>
  {
    if name == "" then None else Some(Card(name, ""))
  }

  /**
   * The GameData built from a player's stored fields. Every parse failure is
   * silently replaced by a default: a score that is not an integer reads as
   * 0, a flag that is not a boolean as false, a card list that does not
   * decode as no cards. The active card is present exactly when the field is
   * there and non-empty, and it carries only a name.
   */
  function DecodeGameData(fields: map<string, string>): (g: GameData)
    ensures Strconv.Atoi(Field(fields, "score")) == None ==> g.score == 0
    ensures Strconv.Atoi(Field(fields, "score")).Some? ==> g.score == Strconv.Atoi(Field(fields, "score")).value
    ensures g.hasDefuseCard <==> Strconv.ParseBool(Field(fields, "hasDefuseCard")) == Some(true)
    ensures CardJson.Decode(Field(fields, "gameCards")) == None ==> g.gameCards == []
    ensures g.gameCards == DecodeCards(Field(fields, "gameCards"))
    ensures g.activeCard.Some? <==> "activeCard" in fields && fields["activeCard"] != ""
    ensures g.activeCard.Some? ==> g.activeCard.value == Card(fields["activeCard"], "")
  {
    GameData(
      Strconv.AtoiOrZero(Field(fields, "score")),
      DecodeCards(Field(fields, "gameCards")),
      Strconv.ParseBoolOrFalse(Field(fields, "hasDefuseCard")),
      if "activeCard" in fields && fields["activeCard"] != "" then Some(Card(fields["activeCard"], "")) else None)
  }

  /** A player with no stored record reads as the zero state. */
  lemma AbsentReadsZero()
    ensures DecodeGameData(map[]) == ZeroGameData
  {
  }

  // ---------------------------------------------------------------------
  // The fields each request writes

  /** The deck's names as cards of unknown type. */
  function NamedCards(deck: seq<string>): (cards: seq<Card>)
    ensures |cards| == |deck|
    ensures forall i :: 0 <= i < |deck| ==> cards[i].name == deck[i] && cards[i].cardType == ""
  {
    seq(|deck|, i requires 0 <= i < |deck| => Card(deck[i], ""))
  }

  /**
   * The fields a first GET writes for a new player, as the source writes
   * them: the deck is serialized as an array of bare strings.
   */
  function SeedFieldsAsWritten(deck: seq<string>): map<string, string>
  {
    map[
      "score" := Strconv.FormatInt(0),
      "gameCards" := CardJson.Encode(seq(|deck|, i requires 0 <= i < |deck| => CardJson.Text(deck[i]))),
      "hasDefuseCard" := Strconv.FormatBool(false),
      "activeCard" := ""]
  }

  /** The seeded fields with the deck serialized as cards named after its entries. */
  function SeedFields(deck: seq<string>): map<string, string>
  {
    map[
      "score" := Strconv.FormatInt(0),
      "gameCards" := EncodeCards(NamedCards(deck)),
      "hasDefuseCard" := Strconv.FormatBool(false),
      "activeCard" := ""]
  }

  /** The fields a PUT writes. */
  function UpdateFields(score: int, cards: seq<Card>, hasDefuseCard: bool, activeCard: string): map<string, string>
  {
    map[
      "gameCards" := EncodeCards(cards),
      "hasDefuseCard" := Strconv.FormatBool(hasDefuseCard),
      "activeCard" := activeCard,
      "score" := Strconv.FormatInt(score)]
  }

  /** The fields a DELETE writes. */
  function ResetFields(): map<string, string>
  {
    map["gameCards" := "[]", "hasDefuseCard" := "false", "activeCard" := "", "score" := Strconv.FormatInt(0)]
  }

  /**
   * As written, a new player's deck does not survive the read: every string
   * element decodes to a Card with an empty name and type.
   */
  lemma SeededDeckLosesNames(deck: seq<string>)
    ensures DecodeGameData(SeedFieldsAsWritten(deck)) == GameData(0, seq(|deck|, _ => Card("", "")), false, None)
  {
    var items := seq(|deck|, i requires 0 <= i < |deck| => CardJson.Text(deck[i]));
    CardJson.DecodeEncode(items);
    Strconv.AtoiFormatInt(0);
  }

  /** The draws 0,0,0,0,0 seed five cat cards, and the first GET shows five nameless cards. */
  lemma SeededDeckLosesNamesExample()
    ensures var deck := CardGenerator.DeckFor([0, 0, 0, 0, 0]);
      && deck == seq(5, _ => "Cat card \U{1F63C}")
      && DecodeGameData(SeedFieldsAsWritten(deck)).gameCards == seq(5, _ => Card("", ""))
      && DecodeGameData(SeedFieldsAsWritten(deck)).gameCards != NamedCards(deck)
  {
    var deck := CardGenerator.DeckFor([0, 0, 0, 0, 0]);
    SeededDeckLosesNames(deck);
    assert NamedCards(deck)[0].name != "";
  }

  /** With the corrected seed, a new player reads back score 0, the generated deck, no defuse card, no active card. */
  lemma SeedReadsBack(deck: seq<string>)
    ensures DecodeGameData(SeedFields(deck)) == GameData(0, NamedCards(deck), false, None)
  {
    DecodeEncodeCards(NamedCards(deck));
    Strconv.AtoiFormatInt(0);
  }

  /**
   * A PUT overwrites all four fields, so whatever the record held before, a
   * read returns what was written: the score, the cards in order, the flag,
   * and an active card exactly when a non-empty name was given.
   */
  lemma UpdateReadsBack(before: map<string, string>, score: int, cards: seq<Card>, hasDefuseCard: bool, activeCard: string)
    ensures DecodeGameData(before + UpdateFields(score, cards, hasDefuseCard, activeCard))
         == GameData(score, cards, hasDefuseCard, ActiveCardOf(activeCard))
  {
    DecodeEncodeCards(cards);
    Strconv.AtoiFormatInt(score);
  }

  /** A DELETE leaves a record that reads as the zero state, whatever it held before. */
  lemma ResetReadsZero(before: map<string, string>)
    ensures DecodeGameData(before + ResetFields()) == ZeroGameData
  {
  }

  // ---------------------------------------------------------------------
  // The requests as steps of the store

  function ReadGameData(s: StoreState, userName: string): GameData
  {
    DecodeGameData(HashOf(s.hashes, userName))
  }

  /** The first GET for a name initialises it: the name is non-empty and has no record. */
  predicate NeedsInit(s: StoreState, userName: string)
  {
    userName != "" && userName !in s.hashes
  }

  /** GET /game: seeds a new player's record and adds them to the leaderboard at score 0. */
  function GetState(s: StoreState, userName: string, deck: seq<string>): StoreState
  {
    if NeedsInit(s, userName) then AfterZAdd(AfterHMSet(s, userName, SeedFields(deck)), userName, 0)
    else s
  }

  /** GET /game as the source writes it: the deck is seeded as an array of bare strings. */
  function GetStateAsWritten(s: StoreState, userName: string, deck: seq<string>): StoreState
  {
    if NeedsInit(s, userName) then AfterZAdd(AfterHMSet(s, userName, SeedFieldsAsWritten(deck)), userName, 0)
    else s
  }

  /**
   * As written, a new player's first GET reads back one nameless, typeless
   * card per deck entry, though the score, flag, active card and leaderboard
   * entry are seeded as intended.
   */
  lemma GetAsWrittenReadsNameless(s: StoreState, userName: string, deck: seq<string>)
    requires NeedsInit(s, userName)
    ensures var r := GetStateAsWritten(s, userName, deck);
      && ReadGameData(r, userName) == GameData(0, seq(|deck|, _ => Card("", "")), false, None)
      && userName in r.sortedSet && r.sortedSet[userName] == 0
      && OthersUnchanged(s, r, userName)
  {
    var r := GetStateAsWritten(s, userName, deck);
    var t := AfterHMSet(s, userName, SeedFieldsAsWritten(deck));
    assert t.hashes[userName] == SeedFieldsAsWritten(deck);
    assert r.hashes == t.hashes;
    SeededDeckLosesNames(deck);
    assert ReadGameData(r, userName) == DecodeGameData(SeedFieldsAsWritten(deck));
  }

  /** PUT /game: overwrites the player's fields, then sets their leaderboard score. */
  function UpdateState(s: StoreState, userName: string, score: int, cards: seq<Card>, hasDefuseCard: bool, activeCard: string): StoreState
  {
    AfterZAdd(AfterHMSet(s, userName, UpdateFields(score, cards, hasDefuseCard, activeCard)), userName, score)
  }

  /** DELETE /game: rejects an empty name; otherwise clears the fields and drops the player from the leaderboard. */
  function ResetState(s: StoreState, userName: string): Result<StoreState, HttpError>
  {
    if userName == "" then Failure(BadRequest(MissingUserName))
    else Success(AfterZRem(AfterHMSet(s, userName, ResetFields()), userName))
  }

  /** Nothing about any player other than userName differs between s and r. */
  ghost predicate OthersUnchanged(s: StoreState, r: StoreState, userName: string)
  {
    && (forall k :: k != userName ==> (k in r.hashes <==> k in s.hashes))
    && (forall k :: k != userName ==> HashOf(r.hashes, k) == HashOf(s.hashes, k))
    && (forall k :: k != userName ==> (k in r.sortedSet <==> k in s.sortedSet))
    && (forall k :: k != userName && k in s.sortedSet ==> r.sortedSet[k] == s.sortedSet[k])
  }

  /**
   * A GET changes the store exactly when the name is new and non-empty; it
   * then seeds score 0, the generated deck, no defuse card and no active
   * card, and puts the player on the leaderboard at 0.
   */
  lemma GetInitialises(s: StoreState, userName: string, deck: seq<string>)
    ensures var r := GetState(s, userName, deck);
      && (r != s <==> NeedsInit(s, userName))
      && OthersUnchanged(s, r, userName)
      && (NeedsInit(s, userName) ==>
            && userName in r.hashes && r.hashes[userName] == SeedFields(deck)
            && ReadGameData(r, userName) == GameData(0, NamedCards(deck), false, None)
            && userName in r.sortedSet && r.sortedSet[userName] == 0)
  {
    var r := GetState(s, userName, deck);
    if NeedsInit(s, userName) {
      var t := AfterHMSet(s, userName, SeedFields(deck));
      assert t.hashes[userName] == SeedFields(deck);
      assert r == AfterZAdd(t, userName, 0);
      assert r.hashes == t.hashes;
      SeedReadsBack(deck);
      assert ReadGameData(r, userName) == DecodeGameData(SeedFields(deck));
      assert userName in r.hashes && userName !in s.hashes;
    }
  }

  /** A second GET for the same name changes nothing, whatever deck it would draw. */
  lemma GetIdempotent(s: StoreState, userName: string, deck1: seq<string>, deck2: seq<string>)
    ensures GetState(GetState(s, userName, deck1), userName, deck2) == GetState(s, userName, deck1)
  {
  }

  /**
   * After a PUT, a read returns what was written, the leaderboard holds the
   * player at the written score, and no other player is touched.
   */
  lemma UpdateRoundTrip(s: StoreState, userName: string, score: int, cards: seq<Card>, hasDefuseCard: bool, activeCard: string)
    ensures var r := UpdateState(s, userName, score, cards, hasDefuseCard, activeCard);
      && ReadGameData(r, userName) == GameData(score, cards, hasDefuseCard, ActiveCardOf(activeCard))
      && userName in r.sortedSet && r.sortedSet[userName] == score
      && OthersUnchanged(s, r, userName)
  {
    UpdateReadsBack(HashOf(s.hashes, userName), score, cards, hasDefuseCard, activeCard);
  }

  /** A DELETE without a name is a bad request and leaves the store as it was. */
  lemma ResetRejectsEmptyName(s: StoreState)
    ensures ResetState(s, "") == Failure(BadRequest(MissingUserName))
  {
  }

  /**
   * After a DELETE, the player reads as the zero state and is off the
   * leaderboard, other players are untouched, and the record still exists,
   * so a later GET neither reseeds the player nor puts them back on the
   * leaderboard.
   */
  lemma ResetClears(s: StoreState, userName: string, deck: seq<string>)
    requires userName != ""
    ensures ResetState(s, userName).Success?
    ensures var r := ResetState(s, userName).value;
      && ReadGameData(r, userName) == ZeroGameData
      && userName !in r.sortedSet
      && userName in r.hashes
      && OthersUnchanged(s, r, userName)
      && GetState(r, userName, deck) == r
  {
  }

  // ---------------------------------------------------------------------
  // Score and leaderboard agreement

  /**
   * Every leaderboard member has a record, and its leaderboard score is the
   * score its record reads as.
   */
  ghost predicate Consistent(s: StoreState)
  {
    forall name :: name in s.sortedSet ==> name in s.hashes && ReadGameData(s, name).score == s.sortedSet[name]
  }

  lemma EmptyConsistent()
    ensures Consistent(Empty)
  {
  }

  lemma GetKeepsConsistent(s: StoreState, userName: string, deck: seq<string>)
    requires Consistent(s)
    ensures Consistent(GetState(s, userName, deck))
  {
    GetInitialises(s, userName, deck);
  }

  lemma UpdateKeepsConsistent(s: StoreState, userName: string, score: int, cards: seq<Card>, hasDefuseCard: bool, activeCard: string)
    requires Consistent(s)
    ensures Consistent(UpdateState(s, userName, score, cards, hasDefuseCard, activeCard))
  {
    UpdateRoundTrip(s, userName, score, cards, hasDefuseCard, activeCard);
  }

  lemma ResetKeepsConsistent(s: StoreState, userName: string)
    requires Consistent(s)
    ensures ResetState(s, userName).Success? ==> Consistent(ResetState(s, userName).value)
  {
  }

  // ---------------------------------------------------------------------
  // Leaderboard snapshots

  function ZsOf(board: seq<LeaderboardEntry>): (zs: seq<Z>)
    ensures |zs| == |board|
    ensures forall i :: 0 <= i < |board| ==> zs[i] == Z(board[i].userName, board[i].userScore)
  {
    seq(|board|, i requires 0 <= i < |board| => Z(board[i].userName, board[i].userScore))
  }

  /** board is a leaderboard snapshot of the sorted set: every member once, highest score first. */
  ghost predicate IsSnapshot(board: seq<LeaderboardEntry>, sortedSet: map<string, int>)
  {
    IsRevRange(ZsOf(board), sortedSet)
  }

  /**
   * A snapshot has one entry per member, as many entries as the set has
   * members, non-increasing scores, and holds an entry for a name exactly
   * when the name is a member, then with the member's score.
   */
  lemma SnapshotFacts(board: seq<LeaderboardEntry>, sortedSet: map<string, int>, name: string)
    requires IsSnapshot(board, sortedSet)
    ensures |board| == |sortedSet|
    ensures forall i, j :: 0 <= i < j < |board| ==> board[i].userScore >= board[j].userScore
    ensures forall i, j :: 0 <= i < j < |board| ==> board[i].userName != board[j].userName
    ensures name in sortedSet ==> LeaderboardEntry(name, sortedSet[name]) in board
    ensures name !in sortedSet ==> forall i :: 0 <= i < |board| ==> board[i].userName != name
  {
    var zs := ZsOf(board);
    RevRangeLength(zs, sortedSet);
    if name in sortedSet {
      assert name in Members(zs);
      var i :| 0 <= i < |zs| && zs[i].member == name;
      assert board[i] == LeaderboardEntry(name, sortedSet[name]);
    }
  }

  /**
   * The request sequence PUT {userName: "alice", score: "5", gameCards: [],
   * hasDefuseCard: false, activeCard: ""} then GET ?userName=alice: the GET
   * returns score 5 and a leaderboard holding alice at 5.
   */
  lemma AliceScenario(s: StoreState, deck: seq<string>, board: seq<LeaderboardEntry>)
    requires var r := GetState(UpdateState(s, "alice", Strconv.AtoiOrZero("5"), [], false, ""), "alice", deck);
      IsSnapshot(board, r.sortedSet)
    ensures ReadGameData(GetState(UpdateState(s, "alice", Strconv.AtoiOrZero("5"), [], false, ""), "alice", deck), "alice").score == 5
    ensures LeaderboardEntry("alice", 5) in board
  {
  }

  // ---------------------------------------------------------------------
  // The message tally

  /** The tally of a name, an absent name counting as 0. */
  function Count(tally: map<string, int>, name: string): int
  {
    if name in tally then tally[name] else 0
  }

  /** `leaderboardMap[userName]++`: one more for userName, the rest unchanged. */
  function Bump(tally: map<string, int>, userName: string): (r: map<string, int>)
    ensures r.Keys == tally.Keys + {userName}
    ensures Count(r, userName) == Count(tally, userName) + 1
    ensures forall k :: k != userName ==> Count(r, k) == Count(tally, k)
  {
    tally[userName := Count(tally, userName) + 1]
  }

  /** The tally after a connection has received the given messages, in order. */
  function TallyAll(tally: map<string, int>, messages: seq<string>): map<string, int>
    decreases |messages|
  {
    if messages == [] then tally else TallyAll(Bump(tally, messages[0]), messages[1..])
  }

  /** Receiving a name N times raises its tally by exactly N, whatever else arrives in between. */
  lemma {:induction false} TallyCountsMessages(tally: map<string, int>, messages: seq<string>, name: string)
    ensures Count(TallyAll(tally, messages), name) == Count(tally, name) + multiset(messages)[name]
    decreases |messages|
  {
    if messages != [] {
      TallyCountsMessages(Bump(tally, messages[0]), messages[1..], name);
      assert messages == [messages[0]] + messages[1..];
      assert multiset(messages) == multiset{messages[0]} + multiset(messages[1..]);
    }
  }
}
