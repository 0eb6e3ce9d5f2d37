# Exploding-kitten backend: game state and leaderboard

A Dafny model of the Go backend of a multiplayer card game. The backend keeps
each player's game state in a hash in a key-value store, keeps one sorted set
`leaderboard` of (player, score), and serves three requests on `/game`:

- GET: seeds a new player and reads their state back;
- PUT: overwrites a player's state and score;
- DELETE: clears a player and drops them from the leaderboard.

A realtime endpoint also counts the messages received per player name. New
players get a five-card deck drawn from a fixed four-card catalog.

Modules:

- `Wrappers`: `Option` and `Result`.
- `Strconv`: the string conversions between the store and the handlers.
  `Atoi` and `ParseBool` follow Go's `strconv`. `FormatInt` and `FormatBool`
  follow how the store client renders int and bool arguments: decimal digits,
  and `"1"`/`"0"`.
- `CardJson`: the serialized card list in the `gameCards` field. It is a
  self-delimiting stand-in for JSON. An array element is a bare string or a
  card object, and the empty list is the text `"[]"`.
- `Redis`: the store. `StoreState` holds the hashes (player name to field map)
  and the sorted set (member to score). `AfterHMSet`, `AfterZAdd` and
  `AfterZRem` give the effect of each write. Class `Store` runs the commands
  in place. `ZRevRangeWithScores` emits every member once, highest score first.
- `CardGenerator`: the catalog `Characters` and `GenerateRandomCards`. The
  array-filling loop is kept. The random source is a parameter: the five
  values its `Intn(4)` calls return.
- `Game`: the pure logic of `backend/main.go`. It holds the records, the
  decoding of a stored record (with its silent defaults) and the fields each
  request writes. `GetState`, `UpdateState` and `ResetState` give each request
  as a step of the store, with lemmas about those steps: idempotent
  initialisation, write-then-read round trips, reset completeness, frame
  conditions, and the invariant that leaderboard scores agree with the
  records. It also holds the snapshot specification and the message tally.
- `Handlers`: the handlers as methods on a `Store`, each proved against its
  step in `Game`. Also `getLatestLeaderboard`'s append loop and the `Tally`
  class for `leaderboardMap`.

Two behaviours of the code shape the model:

- A PUT for any name creates both the record and the leaderboard entry. This
  includes a name never initialised and the empty name. So the leaderboard is
  not limited to initialised players. `Game.Consistent` states the invariant
  the code does keep: every leaderboard member has a record, and its
  leaderboard score is the score its record reads as.
- A DELETE keeps the record, with zero values, and removes only the
  leaderboard entry. So a later GET does not reseed the player, and the
  player stays off the leaderboard (`Game.ResetClears`).

## Model

| member | source | states |
|---|---|---|
| `Strconv.Atoi` | backend/main.go:179 | parses exactly the texts that are non-empty digits, optionally after one '+' or '-'; the value is the decimal value of the digits, negated after '-'; every other text, "" included, is a syntax error |
| `Strconv.AtoiFormatInt` | backend/main.go:179 | a score the store client wrote as decimal text parses back to exactly that integer |
| `Strconv.ParseBool` | backend/main.go:181 | true exactly for "1", "t", "T", "TRUE", "true", "True"; false exactly for "0", "f", "F", "FALSE", "false", "False"; an error otherwise |
| `Strconv.FormatBool` | backend/main.go:229 | the text the store client writes for a bool parses back to that bool |
| `CardJson.DecodeEncode` | backend/main.go:180 | a serialized card list decodes to exactly the items that were serialized, in order |
| `CardJson.Encode` | backend/main.go:291 | the empty list serializes as "[]", the text the reset writes |
| `CardJson.Decode` | backend/main.go:180 | an absent (empty) field does not decode |
| `Redis.AfterHMSet` | backend/main.go:227-232 | HMSET sets the given fields of one hash, keeps that hash's other fields, and leaves other keys and the sorted set alone |
| `Redis.AfterZAdd` | backend/main.go:239 | ZADD sets one member's score, creating it if absent; other members and the hashes are unchanged |
| `Redis.AfterZRem` | backend/main.go:302 | ZREM removes one member, if present; other members and the hashes are unchanged |
| `Redis.Store.Exists` | backend/main.go:144-145 | 1 exactly when the key holds a record, 0 otherwise |
| `Redis.Store.HGetAll` | backend/main.go:173-174 | the record's fields, or no fields for an absent key |
| `Redis.Store.HMSet` | backend/main.go:158-163 | the store afterwards is AfterHMSet of the store before |
| `Redis.Store.ZAdd` | backend/main.go:168 | the store afterwards is AfterZAdd of the store before |
| `Redis.Store.ZRem` | backend/main.go:302 | the store afterwards is AfterZRem of the store before |
| `Redis.Store.ZRevRangeWithScores` | backend/main.go:53 | returns every member of the sorted set exactly once with its score, scores non-increasing |
| `Redis.ScanStep` | backend/main.go:53 | emitting a top-scoring remaining member keeps a partial descending scan consistent |
| `Redis.RevRangeLength` | backend/main.go:53-69 | a full descending range has as many entries as the set has members |
| `Redis.TopExists` | backend/main.go:53 | a non-empty sorted set has a member with the highest score |
| `CardGenerator.CatalogShape` | backend/cardgenerator/cardgenerator.go:8-13 | the catalog has exactly four distinct, non-empty names |
| `CardGenerator.DeckFor` | backend/cardgenerator/cardgenerator.go:17-21 | a deck has five entries, each a catalog name and none the empty string |
| `CardGenerator.GenerateRandomCards` | backend/cardgenerator/cardgenerator.go:15-23 | returns five cards; slot i is the catalog entry at the i-th draw, so every slot is filled and every index is in bounds |
| `CardGenerator.IndexOf` | backend/cardgenerator/cardgenerator.go:8-13 | every catalog name has an index in [0,4) at which the catalog holds it |
| `CardGenerator.EveryDeckReachable` | backend/cardgenerator/cardgenerator.go:18-20 | every five-card deck over the catalog is produced by some draws |
| `Game.DecodeCards` | backend/main.go:180 | card text that does not decode gives no cards; otherwise one card per stored element, in order |
| `Game.DecodeEncodeCards` | backend/main.go:180 | a card list written by a PUT reads back unchanged and in order |
| `Game.DecodeGameData` | backend/main.go:179-184 | the score is the parsed integer, or 0 when the text does not parse; the flag is true exactly when the text is one of ParseBool's true spellings, so unparsable text reads as false; the cards are the decoded card list, none when it does not decode; an active card is present iff the field exists and is non-empty, and then it has that name and an empty type |
| `Game.AbsentReadsZero` | backend/main.go:172-184 | a name with no record reads as score 0, no cards, no defuse card, no active card |
| `Game.SeededDeckLosesNames` | backend/main.go:153-163 | as written, the seeded deck reads back as cards with empty names and types, one per entry |
| `Game.SeededDeckLosesNamesExample` | backend/main.go:153-184 | for the draws 0,0,0,0,0 the seeded deck is five cat cards, and the first read shows five nameless cards |
| `Game.GetAsWrittenReadsNameless` | backend/main.go:152-184 | as written, a new player's first GET seeds score 0, no defuse card, no active card and a leaderboard entry at 0, but reads back one nameless, typeless card per deck entry; other players are untouched |
| `Game.SeedReadsBack` | backend/main.go:158-163 | a seeded record reads as score 0, the generated deck, no defuse card and no active card |
| `Game.UpdateReadsBack` | backend/main.go:227-232 | after a PUT, the record reads as the written score, cards in order and flag; the active card is present iff the written name is non-empty; earlier contents do not matter |
| `Game.ResetReadsZero` | backend/main.go:290-295 | after a DELETE, the record reads as the zero state, whatever it held before |
| `Game.GetInitialises` | backend/main.go:152-168 | a GET changes the store iff the name is non-empty and has no record; it then seeds score 0, the deck (corrected seed: cards named after the entries), no defuse card and no active card, and adds the name to the leaderboard at 0; every other name keeps its record, whether it has one, and its leaderboard entry |
| `Game.GetIdempotent` | backend/main.go:152 | a second GET for a name changes nothing, whatever deck it would draw |
| `Game.UpdateRoundTrip` | backend/main.go:227-239 | after a PUT, a read returns what was written, the leaderboard maps the name to the written score, and other players' records and scores are untouched |
| `Game.ResetRejectsEmptyName` | backend/main.go:282-286 | a DELETE without a name is a bad request with the message "Missing userName in request body" |
| `Game.ResetClears` | backend/main.go:290-302 | after a DELETE the player reads as the zero state and is off the leaderboard; others are untouched; the record remains, so a later GET neither reseeds the player nor re-adds them |
| `Game.EmptyConsistent` | backend/main.go:152-168 | an empty store satisfies the score-agreement invariant |
| `Game.GetKeepsConsistent` | backend/main.go:152-168 | a GET keeps every leaderboard member backed by a record whose score matches |
| `Game.UpdateKeepsConsistent` | backend/main.go:227-239 | a PUT keeps every leaderboard member backed by a record whose score matches |
| `Game.ResetKeepsConsistent` | backend/main.go:290-302 | a DELETE keeps every leaderboard member backed by a record whose score matches |
| `Game.SnapshotFacts` | backend/main.go:53-69 | a snapshot has as many entries as the set has members, distinct names and non-increasing scores; it holds (name, score) iff the name is a member with that score |
| `Game.AliceScenario` | backend/main.go:217-239 | a PUT of alice with score "5" followed by a GET reads score 5, and the GET's leaderboard holds alice at 5 |
| `Game.Bump` | backend/main.go:116-122 | the named tally rises by exactly 1, an absent name counting as 0; all other tallies are unchanged |
| `Game.TallyCountsMessages` | backend/main.go:89-101 | receiving a name N times raises its tally by exactly N, whatever other names arrive |
| `Handlers.GetLatestLeaderboard` | backend/main.go:50-70 | returns a snapshot of the sorted set: every member once, highest score first |
| `Handlers.GameHandler` | backend/main.go:138-191 | the store afterwards is the GET step applied to the deck the draws select; returns the player's decoded record and a snapshot |
| `Handlers.UpdateGameData` | backend/main.go:207-246 | the store afterwards is the PUT step with the score text read by Atoi (0 if it is not an integer); returns a snapshot |
| `Handlers.ResetGame` | backend/main.go:272-309 | with an empty or missing userName, returns the bad-request error and leaves the store unchanged; otherwise the store afterwards is the DELETE step, and the method returns a snapshot |
| `Handlers.AliceRoundTrip` | backend/main.go:207-239 | on an empty store, a PUT of alice with score "5" and then a GET return score 5 and the leaderboard [alice at 5] |
| `Handlers.Tally.constructor` | backend/main.go:74 | the tally starts empty |
| `Handlers.Tally.UpdateLeaderboard` | backend/main.go:116-122 | the tally afterwards is Bump of the tally before: one more for the name |

## Findings

| source | as written | input that shows it | evidently intended | confidence | as-written member | corrected member |
|---|---|---|---|---|---|---|
| backend/main.go:153-163 | The seeded deck is marshalled as an array of strings. The read at line 180 decodes it into `[]Card`. A string does not fit a `Card`, so each element stays the zero `Card`. | A first GET for a new name with draws 0,0,0,0,0 seeds five "Cat card" names. The same GET returns five cards whose name and type are both empty. | The read returns the generated deck: one card per entry, named after it. | high, not executed | `Game.GetAsWrittenReadsNameless` | `Game.GetInitialises` |

`Game.GetState` and `Handlers.GameHandler` use the corrected seed
`Game.SeedFields`. The as-written step is `Game.GetStateAsWritten`, which
seeds `Game.SeedFieldsAsWritten`. The field-level half is
`Game.SeededDeckLosesNames`, with the concrete input in
`Game.SeededDeckLosesNamesExample`.

## Left out

- The store client, its connection settings and `context` are replaced by the in-memory `Redis.Store`.
- Store failures are not modelled: every command succeeds, so the 500 responses are absent.
- The ZADD and ZREM results the handlers ignore are always successes.
- The sorted set is kept apart from the player hashes. In the real store they share one keyspace, so a player named "leaderboard" would collide with the sorted set. That case is not modelled.
- HTTP routing, the server, and writing the responses are not modelled.
- The PUT handler writes a second JSON value after the leaderboard, echoing the applied fields. That echo is not modelled.
- Decoding request bodies is not modelled. `Handlers.UpdateGameData` takes the fields already extracted: a missing or non-string name is passed as "", a non-bool flag as false, a non-string active card as "".
- The type assertions at backend/main.go:220 and 222 panic on bad input. The model does not model the panic: the score arrives as text and the cards as a list.
- Handlers.UpdateGameData: the cards of a PUT are card objects. A request whose `gameCards` holds other JSON values is not modelled.
- CardJson.Encode: JSON is replaced by a self-delimiting stand-in format. It keeps the round trip and the string/object distinction, but not JSON's text.
- The marshal-error branch at backend/main.go:154-157 is not modelled. Marshalling a list of strings cannot fail.
- Strconv.Atoi: does not model the 64-bit range of Go's `int`, because scores are unbounded integers here. Out-of-range text, which Go clamps, parses to its exact value.
- Sorted-set scores are stored as float64 and cast back to int. The model keeps them as `int` throughout.
- Ties among equal scores come out in an order the store chooses. `Redis.Store.ZRevRangeWithScores` leaves that order open.
- The websocket endpoint is not modelled: the upgrade, the read/write loop, `emitLeaderboard` and the serialization of the leaderboard. Only the increment in `updateLeaderboard` is modelled, and `Game.TallyAll` gives its effect over a sequence of messages.
- The mutex guarding `leaderboardMap` is not modelled, since the model is sequential.
- The unbuffered `broadcastLeaderboard` send at backend/main.go:323 is not modelled. That is concurrency.
- Handlers.GameHandler: seeds a new player with the corrected deck encoding, cards named after the deck entries. So its first read returns the deck's names where the code returns nameless cards (see "## Findings"). The as-written step is `Game.GetStateAsWritten`.
- Game.GetInitialises: states the read-back of the corrected seed. The as-written read-back, five nameless cards, is stated by `Game.GetAsWrittenReadsNameless`.
- The time-seeded random source is replaced by the `draws` parameter.
