# Scopa turn engine, modelled in Dafny

This project models the server-side game engine of a two-player Scopa game.
Scopa is an Italian card game played with a 40-card deck: four suits (Golds,
Clubs, Cups, Swords) of ranks 1 to 10. The engine lives in
`packages/server/src/games.ts`. A room keeps the ordered history of its game
snapshots. Every player action produces the next snapshot, in three steps:

1. **Turn resolver** (`calculatePlayerAction`). The played card leaves the
   active player's hand by key comparison.
   - A card played on the table is appended to the table.
   - A capture appends the played card and the chosen table cards to the
     capturer's pile, removes the chosen cards from the table, and records
     the capturer as the last capturer.
   - Either way, the turn passes to the opponent and the players are
     reordered as `[opponent, mover]`.
   - A description of the move is rendered.
2. **Round lifecycle** (`calculatePlayerTurn`).
   - When every hand and the deck are empty, the round is finished. The
     table goes to the last capturer and the status becomes `Ended`.
   - Otherwise, an empty table earns the last capturer a scopa marker: the
     top card of their pile.
   - Empty hands are refilled with three cards each from the front of the
     deck.
3. **Game lifecycle** (the end-of-round code of `updateGameState`). A
   finished round is scored.
   - Each player receives this round's total and a winning mark.
   - The doc comment at `games.ts:158-161` states the end-of-game rule: the
     game is over when the leader has at least `END_OF_GAME_SCORE` (11)
     points and no one shares that total. The model scores rounds by this
     rule over this round's totals.
   - The code as written decides differently: its tie test never fires, and
     it reads the leader from the previous round's scores. Both halves are
     modelled; see "## Findings".

`Undo` pops the last snapshot. `restartGameState` starts the next round:
- the player who was not active starts;
- every player's total is carried over.

Modules:

- `Cards` (cards.dfy): cards and their canonical key `"<rank>-<suit>"`, with
  the key's round trip and injectivity.
- `GameModel` (state.dfy): players, snapshots and actions as immutable
  values. A snapshot is never changed in place, as the source's `cloneDeep`
  guarantees. The file also defines the multiset of all cards in a snapshot,
  used for conservation.
- `TurnResolver` (resolver.dfy): `calculatePlayerAction` as the function
  `Resolve`, and the description as `Describe`.
- `RoundLifecycle` (round.dfy): `calculatePlayerTurn`.
  - The method `EndTurn` has the source's three `forEach` loops, as the
    methods `AwardTable`, `AwardScopa` and `Deal`.
  - Each loop is proved against the specification function `Turn`.
  - The lemmas state close-out, sweep bonus, redeal and conservation.
- `GameLifecycle` (game.dfy):
  - the end-of-game rule;
  - the scoring loop `ScoreRound`, proved against `Standings`;
  - the inputs of the next round;
  - the code as written, for the findings below.
- `Engine` (history.dfy):
  - the whole move `Step`, and what it guarantees;
  - the class `Room`, holding the history of snapshots, with `Undo`,
    `Play`, `Update` and `Restart`.

External pieces are parameters:
- `getCardName` is `cardName: Card -> string`.
- `finalScore` is `score: seq<Player> -> seq<nat>`, one total per player.
- `generateGameState` is `generate: NextRound -> GameState`.

Modelling choices:
- **Unknown card keys.** The code does not fail on a card or table-card key
  that names no card: it filters silently, and still pushes the card onto
  the table or pile. Actions carry cards, so such keys do not arise.
- **Conservation and scopa markers.** The code pushes a copy of a captured
  card as the scopa marker, so conservation counts deck, hands, table and
  captured piles only, not markers.
- **Order of table cards.** The chosen table cards are appended to the pile
  in the action's order, as the code does; the cards left on the table keep
  their order.

## Model

| member | source | states |
|---|---|---|
| Cards.CardKey | packages/server/src/games.ts:36 | the key used to compare cards; KeyRoundTrip and KeyInjective characterise it |
| Cards.FromCardKey | packages/server/src/games.ts:47 | a key is read back only into a card whose key it is |
| Cards.KeyRoundTrip | packages/server/src/games.ts:59 | reading back a card's key gives the same card |
| Cards.KeyInjective | packages/server/src/games.ts:36 | two cards have equal keys exactly when they are the same card, so comparing keys compares cards |
| TurnResolver.WithoutCard | packages/server/src/games.ts:36 | the new hand is the old hand with every copy of the played card removed and nothing else |
| TurnResolver.HandKeepsOrder | packages/server/src/games.ts:36 | a card held once leaves exactly its own slot; the other cards keep their order |
| TurnResolver.TableWithout | packages/server/src/games.ts:62 | the table keeps each card's count unless it was chosen, and then holds none of it |
| TurnResolver.TableWithoutConcat | packages/server/src/games.ts:62 | filtering the table part by part gives the same cards as filtering it whole: the kept cards stay in their order |
| TurnResolver.TableWithoutKeeps | packages/server/src/games.ts:62 | a stretch of table holding none of the chosen cards is kept whole and in order |
| TurnResolver.Resolve | packages/server/src/games.ts:25-73 | with two players and one active, the turn passes to the opponent; players become [opponent unchanged, mover]; the mover's hand loses the played card; scopa, score, deck and status are kept |
| TurnResolver.PlayOnTableEffect | packages/server/src/games.ts:39-47 | playing on the table appends exactly the card to the table and leaves both piles and the last capturer unchanged |
| TurnResolver.PlayOnTableConserves | packages/server/src/games.ts:36-47 | for a card held once, hand size plus table size is conserved, and so is the multiset of all cards |
| TurnResolver.CaptureEffect | packages/server/src/games.ts:52-63 | a capture appends the played card and then the chosen cards to the capturer's pile; a card stays on the table exactly when it was not chosen (the order of what stays is in TableWithoutConcat and TableWithoutKeeps); the capturer becomes the last capturer |
| TurnResolver.TableLoses | packages/server/src/games.ts:62 | distinct chosen cards that each lie once on the table are removed exactly once each |
| TurnResolver.CaptureConserves | packages/server/src/games.ts:53-63 | under those conditions a capture moves cards between hand, table and pile and loses none |
| TurnResolver.CardsTextIsListing | packages/server/src/games.ts:64-67 | the reduce that joins names equals the English list: one name alone, two joined by " and ", longer lists with ", " and a final " and " |
| TurnResolver.Describe | packages/server/src/games.ts:49-70 | a capture is described as the player, the listed captured names and the played card, each in strong tags |
| RoundLifecycle.AwardTable | packages/server/src/games.ts:88-95 | the close-out loop appends the table to the pile of exactly the players named as last capturer |
| RoundLifecycle.AwardScopa | packages/server/src/games.ts:99-106 | the scopa loop appends the last capturer's top card (undefined for an empty pile) to their markers only |
| RoundLifecycle.Deal | packages/server/src/games.ts:107-111 | the redeal loop gives player i the i-th group of three from the front of the deck (fewer at the end) and leaves the rest as the deck |
| RoundLifecycle.Turn | packages/server/src/games.ts:78-117 | the snapshot at the end of a turn; EndTurn, TurnKeepsSeats, RoundCloseOut, SweepBonus, MidTurn, RedealFromFront, RedealThree and TurnConserves characterise it |
| RoundLifecycle.EndTurn | packages/server/src/games.ts:78-117 | the end of the turn equals the specification Turn, and the flag is true exactly when every hand and the deck are empty |
| RoundLifecycle.TurnKeepsSeats | packages/server/src/games.ts:78-117 | the end of a turn keeps the player order, usernames, active player and last capturer |
| RoundLifecycle.RoundCloseOut | packages/server/src/games.ts:83-96 | when the round is finished, the table is cleared into the last capturer's pile, the status becomes Ended and the deck is untouched |
| RoundLifecycle.SweepBonus | packages/server/src/games.ts:97-106 | when the round goes on with an empty table, only the last capturer gains exactly one marker, their top card; piles are unchanged |
| RoundLifecycle.MidTurn | packages/server/src/games.ts:97-112 | while some hand still holds cards, deck, table, status and hands are untouched |
| RoundLifecycle.RedealFromFront | packages/server/src/games.ts:107-111 | on a redeal, the new hands in player order followed by the new deck are exactly the old deck |
| RoundLifecycle.RedealThree | packages/server/src/games.ts:107-111 | with enough cards, each player receives exactly three and the deck shrinks by three per player |
| RoundLifecycle.TurnConserves | packages/server/src/games.ts:83-114 | the end of a turn conserves the multiset of all cards, given exactly one last capturer when a finished round leaves cards on the table |
| RoundLifecycle.DealConserves | packages/server/src/games.ts:107-111 | a redeal moves cards from deck to hands and loses none |
| GameLifecycle.FirstMax | packages/server/src/games.ts:156 | the chosen player has the greatest total and every earlier player a smaller one (lodash maxBy) |
| GameLifecycle.GameFinished | packages/server/src/games.ts:158-163 | the end-of-game rule of the doc comment; GameFinishedIff characterises it |
| GameLifecycle.GameFinishedIff | packages/server/src/games.ts:158-163 | the game is finished exactly when some player has at least 11 points and strictly more than every other player |
| GameLifecycle.Standings | packages/server/src/games.ts:149-169 | the scored snapshot under the doc comment's rule over this round's totals; ScoreRound, StandingsKeepCards and StandingsOfTwo characterise it |
| GameLifecycle.ScoreRound | packages/server/src/games.ts:149-169 | the scoring loop produces the Standings snapshot: the status from the end-of-game rule and each player's total with the winning mark |
| GameLifecycle.StandingsKeepCards | packages/server/src/games.ts:164-169 | scoring changes no card, seat, active player or last capturer |
| GameLifecycle.StandingsOfTwo | packages/server/src/games.ts:155-168 | the status is Ended exactly when the game is finished, else RoundEnded; each player gets their own total; only the first top scorer is marked winning and has the greatest total |
| GameLifecycle.FindOther | packages/server/src/games.ts:183 | the result is the first player whose username is not the active one, or none when every player is active |
| GameLifecycle.RestartInputs | packages/server/src/games.ts:180-188 | the next round gets every username and total in player order, and with two players the starter is the one who was not active |
| GameLifecycle.TopDefined | packages/server/src/games.ts:156 | the largest of the totals that are set, or none when no total is set |
| GameLifecycle.GameFinishedAsWritten | packages/server/src/games.ts:155-163 | the end-of-game decision as the code computes it; AsWrittenIgnoresTies, TieIgnoredAsWritten and StaleScoreAsWritten characterise it |
| GameLifecycle.AsWrittenIgnoresTies | packages/server/src/games.ts:155-163 | as written, the game ends exactly when the top total is at least 11, whether or not it is shared |
| GameLifecycle.TieIgnoredAsWritten | packages/server/src/games.ts:155-163 | as written, a tie at 11 ends the game, although the rule says it does not |
| GameLifecycle.StaleScoreAsWritten | packages/server/src/games.ts:156-163 | as written, a first round won 12 to 3 does not end the game, although the rule says it does |
| GameLifecycle.FirstMaxDefined | packages/server/src/games.ts:156 | lodash maxBy over totals that may be unset: the first position of the greatest set total, or none exactly when no total is set |
| GameLifecycle.StandingsAsWritten | packages/server/src/games.ts:155-168 | the scored snapshot as the code computes it: this round's totals, with status and winning mark from the previous scores; StaleWinnerAsWritten characterises it |
| GameLifecycle.StaleWinnerAsWritten | packages/server/src/games.ts:156-168 | as written, a first round won 12 to 3 marks nobody winning and ends only the round, while the rule ends the game and marks the first player |
| Engine.Step | packages/server/src/games.ts:146-170 | one move: resolve, end the turn, and score a finished round; StepPassesTurn, StepConserves, SweepAfterCapture, NextStarterIsLastMover and CaptureScenario characterise it |
| Engine.StepPassesTurn | packages/server/src/games.ts:146-147 | after a move, the opponent is active and seated first, the mover is seated second, and the two-player shape is kept |
| Engine.ResolveConserves | packages/server/src/games.ts:146 | resolving a well-formed action keeps the multiset of all cards |
| Engine.CapturerNamed | packages/server/src/games.ts:63 | after a capture, or a play when the last capturer is a player, exactly one player is the last capturer |
| Engine.StepConserves | packages/server/src/games.ts:146-170 | a whole move, scoring included, conserves the multiset of all cards under the stated well-formedness conditions |
| Engine.SweepAfterCapture | packages/server/src/games.ts:97-106 | a capture that clears the table mid-round gives the capturer one marker, the last card taken; the opponent's markers are unchanged |
| Engine.NextStarterIsLastMover | packages/server/src/games.ts:180-188 | after the round's last move every player has a score, and the next round is started by the player who made that move |
| Engine.CaptureScenario | packages/server/src/games.ts:146-147 | capturing the three of Cups with the three of Golds clears the table, fills P1's pile with both threes, makes P1 the last capturer with one marker, and passes the turn to P2 |
| Engine.Room.AddState | packages/server/src/games.ts:172 | the new snapshot is appended to the history |
| Engine.Room.Undo | packages/server/src/games.ts:131-137 | the last snapshot is removed and the one before it becomes current |
| Engine.Room.Play | packages/server/src/games.ts:145-172 | the history gains exactly Step of the current snapshot; the description is that of the action |
| Engine.Room.Update | packages/server/src/games.ts:121-178 | Undo pops the history; any other action appends Step of the current snapshot |
| Engine.Room.Restart | packages/server/src/games.ts:180-191 | the snapshot built from the restart inputs of the current snapshot is appended |
| Engine.PlayThenUndo | packages/server/src/games.ts:131-172 | a move followed by an undo leaves the history and the current snapshot as they were |

## Left out

- Socket emission (`io.in(roomId).emit`) is transport. It is left out, and the methods return the snapshot and the description instead.
- Persistence (`getRoom`, `Room.updateOne`, `addState`, `getCurrentState`) is asynchronous database access. The history is the in-memory class `Engine.Room`, so the missing-room early return does not arise.
- Concurrent updates to the same room are not modelled. Each method runs alone.
- `finalScore` is in `./scores`, which is not part of this model. It is the parameter `score`, and only its totals are kept: the score breakdown fields are not modelled.
- `generateGameState` is in `./utils`, which is not part of this model. Only its inputs are modelled (`NextRound`); shuffling and dealing the new round are left out.
- `cardKey`, `fromCardKey` and `getCardName` are in the shared package, which is not part of this model.
  - The `"<rank>-<suit>"` encoding of `Cards.CardKey` is an assumption. The engine relies only on keys being injective, which `Cards.KeyInjective` states.
  - The card name is the parameter `cardName`.
- TurnResolver.Resolve: actions carry cards rather than key strings. A key that names no card, which the code turns into `undefined` on the table or pile, is not modelled.
- TurnResolver.Resolve: requires exactly two players, exactly one of them active. The code's `Object.fromEntries` split silently assumes this.
- Engine.Room.Undo: requires at least two snapshots. The code pops without checking, and what it emits after popping the only snapshot is left undefined.
- GameLifecycle.RestartInputs: requires every player's `score` to be set. The code reads `p.score.total` and would throw otherwise.
- Engine.StepConserves: does not count scopa markers, because they are copies of captured cards. It also needs a last capturer among the players when a round closes with cards on the table: otherwise the code clears the table without giving the cards to anyone.
- GameLifecycle.ScoreRound: the status and the winning mark follow the doc comment at `games.ts:158-161`, applied to this round's totals, and not the lodash paths as written (`'scores.total'` at line 155, the stale `score` at line 156). The code as written is `GameLifecycle.StandingsAsWritten`; see the two rows under "## Findings".
- Engine.Step: scores a finished round with `GameLifecycle.Standings`, the corrected rule over this round's totals, not the decision as written; see "## Findings".
- Whether a capture is legal (the chosen ranks summing to the played rank) is left out, because the engine does not check it.
- Round numbering is not modelled, because the code has no round counter.

## Findings

| source | as written | input that shows it | evidently intended | confidence | as-written member | corrected member |
|---|---|---|---|---|---|---|
| packages/server/src/games.ts:155-163 | players are grouped by the path 'scores.total', which no player has, so every player falls into one group keyed "undefined" and the tie test on the leader's total never fires | two players tied at 11 points | a tie at the top total keeps the game going (status RoundEnded), as the doc comment at lines 158-160 states | high, not executed | GameLifecycle.TieIgnoredAsWritten | GameLifecycle.GameFinishedIff |
| packages/server/src/games.ts:156-168 | `maxBy` reads each player's `score` before the new totals are stored at line 167, so the leader and the winning mark come from the previous round's scores | a first round, where no score is set yet, won 12 to 3 (assuming `generateGameState`, which is not part of this model, leaves `score` unset): the game does not end and nobody is marked winning | the leader is chosen from the totals just computed by `finalScore` | medium, not executed | GameLifecycle.StaleWinnerAsWritten | GameLifecycle.StandingsOfTwo |
