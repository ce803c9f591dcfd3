# Prisoner's dilemma simulator: scoring and round resolution in Dafny

This project models the core of a multi-player Prisoner's Dilemma simulator
("confess / do not confess", 2 to 5 players). It covers these parts:

- the payoff rule that turns one round's decisions into years of penalty;
- the strategy resolver for scripted players (always cooperate, always
  defect, tit-for-tat, random, manual);
- the game session, which is a state machine. It moves from the
  configuration screen to the game and then to the results. Along the way
  it validates the configuration, fills in scripted decisions, rejects an
  incomplete round, records each round and keeps every player's running
  total;
- the end-of-game analysis: the equilibrium verdict on the last round, the
  ranking by total penalty, and each player's cooperation count.

Files:

- `types.dfy`, module `Types`: the `Decision`, `Strategy`, `Player` and
  `RoundResult` values. A missing decision (`null`) is the explicit value
  `Unset`. The module also holds counting and summing helpers.
- `penalties.dfy`, module `Penalties`: the payoff rule `CalculatePenalties`
  and its case tables.
- `strategies.dfy`, module `Strategies`: `GenerateDecision`.
- `session.dfy`, module `Session`: the class `GameSession`. Its fields are
  `step`, `numPlayers`, `gameType`, `numRounds`, `players`, `currentRound`,
  `roundResults` and `currentDecisions`. Its methods update them in place.
  `Valid()` is the session invariant. Throughout a game it says that each
  player's `totalPenalty` is the sum of that player's `penalties`, and that
  each player's `decisions` and `penalties` line up with the recorded rounds.
- `results.dfy`, module `FinalResults`: the equilibrium classification, the
  game-theoretic claims its explanations make, the ranking and the
  cooperation count.

Behaviour worth knowing:

- `startGame` rejects fewer than 5 rounds even in single-round mode. The
  check `numRounds < 5` is not limited to the repeated game. Only the upper
  bound of 50 is.
- When everybody confesses, a lone switch to silence costs 5 → 10 with two
  players and 5 → 8 with three to five.
- `calculatePenalties` counts only "C" and "D" entries, so undecided
  entries are ignored. The model keeps this. A fully decided vector always
  gets one penalty per entry. A vector with undecided entries may get fewer
  (`[C, C, null]` gives `[2, 2]`) or as many (`[C, null, D]` gives
  `[10, 0, 0]`). The session only calls it on fully decided vectors.

## Model

| member | source | states |
|---|---|---|
| `Types.Count` | src/App.tsx:57-58 | the number of entries equal to a given decision is at most the length of the vector |
| `Types.CountComplete` | src/App.tsx:57-59 | in a fully decided vector, cooperators plus defectors equals the number of players |
| `Types.Record` | src/App.tsx:137-142 | a player after one round: one more decision and one more penalty, the last ones being this round's, earlier history kept, total raised by exactly this round's penalty, identity and strategy kept |
| `Penalties.CalculatePenalties` | src/App.tsx:56-86 | every penalty lies between 0 and 10, and for a fully decided vector there is one penalty per player |
| `Penalties.TwoPlayerTable` | src/App.tsx:61-67 | two players: both silent gives [2,2], both confess gives [5,5], a split gives 10 to the silent one and 0 to the confessor, aligned by index |
| `Penalties.AllCooperateTable` | src/App.tsx:72-74 | everybody silent: one penalty per player, each 2 |
| `Penalties.AllDefectTable` | src/App.tsx:75-77 | everybody confesses: one penalty per player, each 5 |
| `Penalties.LoneDefectorTable` | src/App.tsx:78-80 | three or more players with exactly one confessor: the confessor gets 0 and every silent player 6 |
| `Penalties.SeveralDefectorsTable` | src/App.tsx:81-84 | three or more players, at least two confessors and one silent player: confessors get 2, silent players 8 |
| `Penalties.DefectorPaysLess` | src/App.tsx:56-86 | in any decided round a confessor's penalty is strictly below any silent player's |
| `Penalties.DefectDominates` | src/App.tsx:56-86 | with two or more players, whatever the others do, switching one's own decision to "confess" strictly lowers one's own penalty |
| `Strategies.GenerateDecision` | src/App.tsx:89-109 | a decision is missing exactly for a manual player; every scripted strategy yields "C" or "D" |
| `Strategies.FixedStrategies` | src/App.tsx:91-105 | always-cooperate gives "C" and always-defect gives "D", whatever the round and history; random follows the injected coin |
| `Strategies.TitForTatOpening` | src/App.tsx:95-103 | tit-for-tat gives "C" in round 1 and whenever no round has been recorded |
| `Strategies.TitForTatMajority` | src/App.tsx:98-102 | otherwise tit-for-tat gives "C" exactly when more than half the players were silent in the last round (cooperators > numPlayers / 2 in real division), and "D" when at most half were, an exact half included |
| `Session.CheckConfig` | src/App.tsx:22-38 | a game starts exactly when there are 2 to 5 players, at least 5 rounds, and at most 50 rounds in the repeated game; a bad player count is reported first, else a bad round count |
| `Session.ResolveDecisions` | src/App.tsx:113-122 | decisions already made are kept, one decision per slot, a scripted player's missing decision is the one its strategy generates for this round, history, player count and coin, and a decision stays missing exactly when it was missing and the player is manual; so the filled vector is complete exactly when no manual player is still undecided |
| `Session.FillDecisions` | src/App.tsx:113-122 | filling in the decisions one player at a time gives exactly `ResolveDecisions` |
| `Session.AnyMissing` | src/App.tsx:125 | reports a missing decision exactly when the vector is not complete |
| `Session.RecordEveryone` | src/App.tsx:137-142 | every player's decisions and penalties grow by exactly this round's entry, the total grows by that penalty, and id, name and strategy are kept |
| `Session.RecordAgrees` | src/App.tsx:137-152 | appending a recorded round to a player whose history matched the earlier rounds keeps totalPenalty equal to the sum of penalties and the histories aligned with the rounds |
| `Session.RecordKeepsPlaying` | src/App.tsx:134-152 | scoring a complete round and recording it for every player and in the round list keeps the game invariant: rounds numbered 1, 2, … without gaps and scored by the payoff rule, and every total equal to the sum of that player's penalties |
| `Session.GameSession.constructor` | src/App.tsx:11-18 | a session on the configuration screen with the configured player count, mode, round count and roster, no rounds and no pending decisions |
| `Session.GameSession.StartGame` | src/App.tsx:22-38 | returns the configuration verdict; on rejection nothing changes, on acceptance the first round starts |
| `Session.GameSession.StartRound` | src/App.tsx:39-53 | one fresh player per slot (id = index, configured name unless empty else "Jugador i+1", configured strategy else manual, empty history, total 0), round 1, all decisions missing, no rounds recorded, game screen; the session invariant holds |
| `Session.GameSession.ChooseDecision` | src/App.tsx:282-303 | a manual player's "C" or "D" button sets only that player's pending decision to that choice; nothing else changes and the invariant is kept |
| `Session.GameSession.ProcessRound` | src/App.tsx:112-162 | fails exactly when some manual player has not decided, and then changes nothing; otherwise records one round numbered currentRound with the filled decisions and their penalties, appends one decision and one penalty to every player and raises each total by that penalty, then ends the game when currentRound reaches the round count or else moves to the next round with all decisions missing; the session invariant is kept |
| `Session.GameSession.RecordRound` | src/App.tsx:134-161 | the successful part of ProcessRound, for a complete decision vector of the right length |
| `Session.GameSession.NewGame` | src/App.tsx:346-351 | back to the configuration screen with no players, no rounds and round 0 |
| `FinalResults.AnalyzeNashEquilibrium` | src/components/ResultsApp.tsx:9-39 | no rounds gives "no data"; otherwise, looking only at the last round: "Nash" when every decision is "D", "cooperative, not Nash" when not all are "D" and all are "C", and "mixed" otherwise; exactly one verdict applies |
| `FinalResults.AnalysisUsesLastRoundOnly` | src/components/ResultsApp.tsx:16-19 | two histories ending with the same decisions get the same verdict |
| `FinalResults.AllDefectIsStable` | src/components/ResultsApp.tsx:20-25 | when everybody confesses, each player gets 5, and a lone switch to silence raises that to 10 with two players and 8 with more |
| `FinalResults.AllCooperateIsUnstable` | src/components/ResultsApp.tsx:26-31 | when everybody is silent, each player gets 2, and a lone switch to confessing lowers that to 0 |
| `FinalResults.MixedIsUnstable` | src/components/ResultsApp.tsx:32-37 | in a decided round with both decisions present, every silent player has a strictly profitable switch to confessing, so the round is not an equilibrium |
| `FinalResults.NashIffAllDefect` | src/components/ResultsApp.tsx:20-37 | with two or more players, a decided round is a Nash equilibrium (no profitable unilateral switch under the payoff rule) exactly when everybody confesses |
| `FinalResults.ClassificationMatchesNash` | src/components/ResultsApp.tsx:16-38 | the verdict is "Nash" exactly when the last round is a Nash equilibrium of the payoff rule |
| `FinalResults.FinalVerdict` | src/components/ResultsApp.tsx:13-20 | at the end of a valid game there is always a verdict, and it is "Nash" exactly when the last round is an equilibrium |
| `FinalResults.InsertByPenalty` | src/components/ResultsApp.tsx:52-53 | inserting a player into a ranking keeps it ordered by total penalty and adds exactly that player |
| `FinalResults.Rank` | src/components/ResultsApp.tsx:52-53 | the ranking is a permutation of the players ordered by non-decreasing total penalty |
| `FinalResults.CooperationCount` | src/components/ResultsApp.tsx:76 | the number of silent rounds lies between 0 and the number of rounds played; it equals that number exactly when the player was always silent, and is 0 exactly when never |

## Left out

- Rendering: the configuration, game and results screens, the history
  tables, the penalty chart and `Math.abs` in it. These are view code.
- The error alerts. A rejected configuration or an incomplete round is an
  `Outcome` failure that leaves the session unchanged.
- `Math.random`. Each player's draw is an injected boolean (`coins`), and
  `true` stands for `Math.random() > 0.5`.
- Form input: `parseInt` and the `NaN` it can produce, and the per-field
  edits of the configuration form. The constructor takes the collected
  configuration (player count, mode, round count, roster) as integers and
  values.
- The cooperation percentage and its one-decimal formatting, which is
  floating point. Only the integer count is modelled.
- The status and explanation texts. The verdict is an enumeration.
- `Session.GameSession.ProcessRound` requires the game screen. The source
  offers the button only there, and calling it on the results screen would
  record a round with a repeated number.
- `FinalResults.Rank`: does not state that players with equal totals keep
  their input order (the sort used is stable). Only ordering and
  permutation are stated.
- `Strategies.GenerateDecision` takes the player count as a parameter. The
  source reads it from the session, where it equals the number of players.
