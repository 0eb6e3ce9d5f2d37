/**
 * The request handlers of the backend, run in place against a Store: the
 * GET, PUT and DELETE handlers of /game, the leaderboard snapshot they all
 * return, and the per-name message tally of the realtime endpoint. Each is
 * specified by the matching step in Game.
 */
module Handlers {
  import opened Wrappers
  import Strconv
  import opened Redis
  import opened Game
  import CardGenerator

  /** getLatestLeaderboard: the sorted set as leaderboard entries, highest score first. */
  method GetLatestLeaderboard(store: Store) returns (formattedLeaderboard: seq<LeaderboardEntry>)
    ensures IsSnapshot(formattedLeaderboard, store.sortedSet)
  {
    var leaderboard := store.ZRevRangeWithScores();
    formattedLeaderboard := [];
    for i := 0 to |leaderboard|
      invariant |formattedLeaderboard| == i
      invariant forall j :: 0 <= j < i ==>
        formattedLeaderboard[j] == LeaderboardEntry(leaderboard[j].member, leaderboard[j].score)
    {
      var z := leaderboard[i];
      formattedLeaderboard := formattedLeaderboard + [LeaderboardEntry(z.member, z.score)];
    }
    assert ZsOf(formattedLeaderboard) == leaderboard;
  }

  /**
   * GET /game?userName=...: initialises a new player from the deck the draws
   * select, then returns the player's decoded state and the leaderboard.
   */
  method GameHandler(store: Store, userName: string, draws: seq<int>)
      returns (gameData: GameData, leaderboard: seq<LeaderboardEntry>)
    requires CardGenerator.ValidDraws(draws)
    modifies store
    ensures store.Current() == GetState(old(store.Current()), userName, CardGenerator.DeckFor(draws))
    ensures gameData == ReadGameData(store.Current(), userName)
    ensures IsSnapshot(leaderboard, store.sortedSet)
  {
    var isMember := store.Exists(userName);
    if isMember == 0 && userName != "" {
      var randomCards := CardGenerator.GenerateRandomCards(draws);
      store.HMSet(userName, SeedFields(randomCards));
      store.ZAdd(userName, 0);
    }
    var gameDataMap := store.HGetAll(userName);
    gameData := DecodeGameData(gameDataMap);
    leaderboard := GetLatestLeaderboard(store);
  }

  /**
   * PUT /game: writes the four fields (the score text read with Atoi, 0 when
   * it is not an integer), sets the leaderboard score, and returns the
   * leaderboard. The name is not checked.
   */
  method UpdateGameData(store: Store, userName: string, scoreText: string, gameCards: seq<Card>,
                        hasDefuseCard: bool, activeCard: string)
      returns (leaderboard: seq<LeaderboardEntry>)
    modifies store
    ensures store.Current()
         == UpdateState(old(store.Current()), userName, Strconv.AtoiOrZero(scoreText), gameCards, hasDefuseCard, activeCard)
    ensures IsSnapshot(leaderboard, store.sortedSet)
  {
    var score := Strconv.AtoiOrZero(scoreText);
    store.HMSet(userName, UpdateFields(score, gameCards, hasDefuseCard, activeCard));
    store.ZAdd(userName, score);
    leaderboard := GetLatestLeaderboard(store);
  }

  /**
   * DELETE /game: a body without a non-empty userName is a bad request and
   * changes nothing; otherwise the player's fields are cleared, the player
   * leaves the leaderboard, and the leaderboard is returned.
   */
  method ResetGame(store: Store, requestBody: map<string, string>)
      returns (result: Result<seq<LeaderboardEntry>, HttpError>)
    modifies store
    ensures var step := ResetState(old(store.Current()), Field(requestBody, "userName"));
      && (step.Failure? ==> result == Failure(step.error) && store.Current() == old(store.Current()))
      && (step.Success? ==> store.Current() == step.value && result.Success? && IsSnapshot(result.value, store.sortedSet))
  {
    var userName := Field(requestBody, "userName");
    if userName == "" {
      return Failure(BadRequest(MissingUserName));
    }
    store.HMSet(userName, ResetFields());
    store.ZRem(userName);
    var leaderboard := GetLatestLeaderboard(store);
    result := Success(leaderboard);
  }

  /**
   * A PUT for alice with score "5", no cards, no defuse card and no active
   * card, then a GET for alice, on an empty store: the GET returns score 5
   * and a leaderboard holding alice at 5.
   */
  method AliceRoundTrip(draws: seq<int>) returns (gameData: GameData, leaderboard: seq<LeaderboardEntry>)
    requires CardGenerator.ValidDraws(draws)
    ensures gameData.score == 5
    ensures leaderboard == [LeaderboardEntry("alice", 5)]
  {
    var store := new Store();
    var _ := UpdateGameData(store, "alice", "5", [], false, "");
    gameData, leaderboard := GameHandler(store, "alice", draws);
    AliceScenario(Empty, CardGenerator.DeckFor(draws), leaderboard);
    SnapshotFacts(leaderboard, store.sortedSet, "alice");
    assert store.sortedSet == map["alice" := 5];
  }

  /** The realtime endpoint's per-name count of received messages (leaderboardMap). */
  class Tally {
    var leaderboardMap: map<string, int>

    constructor ()
      ensures leaderboardMap == map[]
    {
      leaderboardMap := map[];
    }

    /** updateLeaderboard: one more message from userName. */
    method UpdateLeaderboard(userName: string)
      modifies this
      ensures leaderboardMap == Bump(old(leaderboardMap), userName)
      ensures Count(leaderboardMap, userName) == Count(old(leaderboardMap), userName) + 1
    {
      var current := if userName in leaderboardMap then leaderboardMap[userName] else 0;
      leaderboardMap := leaderboardMap[userName := current + 1];
    }
  }
}
