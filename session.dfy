/** The game session: configuration, the screen being shown, the players with
    their histories, the rounds played and the decisions collected for the
    round in progress, and the transitions that start a game and resolve a
    round. */
module Session {
  import opened Types
  import opened Penalties
  import opened Strategies

  /** The screen the session is on. */
  datatype Step = Config | Game | Results

  /** One round only, or a repeated game of `numRounds` rounds. */
  datatype GameType = Single | Multiple

  datatype ConfigError = PlayerCountOutOfRange | RoundCountOutOfRange

  datatype RoundError = MissingDecision

  /** The range checks made before a game starts. The player count is checked
      first; the lower bound of 5 rounds applies in both modes, the upper
      bound of 50 only to the repeated game. */
  function CheckConfig(numPlayers: int, gameType: GameType, numRounds: int): (r: Outcome<ConfigError>)
    ensures r == Pass <==> 2 <= numPlayers <= 5 && 5 <= numRounds && (gameType == Multiple ==> numRounds <= 50)
    ensures r == Fail(PlayerCountOutOfRange) <==> numPlayers < 2 || numPlayers > 5
    ensures r == Fail(RoundCountOutOfRange) <==>
      2 <= numPlayers <= 5 && (numRounds < 5 || (gameType == Multiple && numRounds > 50))
  {
    if numPlayers < 2 || numPlayers > 5 then Fail(PlayerCountOutOfRange)
    else if (gameType == Multiple && numRounds > 50) || numRounds < 5 then Fail(RoundCountOutOfRange)
    else Pass
  }

  /** How many rounds the game lasts. */
  function TotalRounds(gameType: GameType, numRounds: int): int
  {
    if gameType == Single then 1 else numRounds
  }

  function DigitChar(d: nat): char
    requires d < 10
  {
    (48 + d) as char
  }

  function NatToString(n: nat): string
  {
    if n < 10 then [DigitChar(n)] else NatToString(n / 10) + [DigitChar(n % 10)]
  }

  /** The name of player `i` at the start of a game: the configured one unless
      it is missing or empty, else "Jugador <i+1>". */
  function StartName(roster: seq<Player>, i: nat): string
  {
    if i < |roster| && roster[i].name != "" then roster[i].name else "Jugador " + NatToString(i + 1)
  }

  /** The strategy of player `i` at the start of a game: the configured one,
      else manual. */
  function StartStrategy(roster: seq<Player>, i: nat): Strategy
  {
    if i < |roster| then roster[i].strategy else Manual
  }

  /** Some manual player has not decided yet. */
  predicate AwaitingManual(players: seq<Player>, current: seq<Decision>)
    requires |current| <= |players|
  {
    exists i :: 0 <= i < |current| && current[i] == Unset && players[i].strategy == Manual
  }

  /** The decisions for the round in progress once scripted players have been
      filled in: supplied decisions are kept, a missing decision of a scripted
      player is generated with that player's coin, and a missing decision of a
      manual player stays missing. */
  function ResolveDecisions(players: seq<Player>, current: seq<Decision>, roundNum: int,
                            roundResults: seq<RoundResult>, numPlayers: int, coins: seq<bool>): (r: seq<Decision>)
    requires |current| <= |players| && |coins| == |current|
    ensures |r| == |current|
    ensures forall i :: 0 <= i < |current| && current[i] != Unset ==> r[i] == current[i]
    ensures forall i :: 0 <= i < |current| ==>
      (r[i] == Unset <==> current[i] == Unset && players[i].strategy == Manual)
    ensures forall i :: 0 <= i < |current| && current[i] == Unset && players[i].strategy != Manual ==>
      r[i] == GenerateDecision(players[i], roundNum, roundResults, numPlayers, coins[i])
    ensures Complete(r) <==> !AwaitingManual(players, current)
  {
    seq(|current|, i requires 0 <= i < |current| =>
      if current[i] != Unset then current[i]
      else if players[i].strategy != Manual then GenerateDecision(players[i], roundNum, roundResults, numPlayers, coins[i])
      else current[i])
  }

  /** Computes `ResolveDecisions` one player at a time. */
  method FillDecisions(players: seq<Player>, current: seq<Decision>, roundNum: int,
                       roundResults: seq<RoundResult>, numPlayers: int, coins: seq<bool>) returns (filled: seq<Decision>)
    requires |current| <= |players| && |coins| == |current|
    ensures filled == ResolveDecisions(players, current, roundNum, roundResults, numPlayers, coins)
  {
    ghost var resolved := ResolveDecisions(players, current, roundNum, roundResults, numPlayers, coins);
    filled := [];
    var i := 0;
    while i < |current|
      invariant 0 <= i <= |current|
      invariant filled == resolved[..i]
    {
      var d := current[i];
      if d == Unset && players[i].strategy != Manual {
        d := GenerateDecision(players[i], roundNum, roundResults, numPlayers, coins[i]);
      }
      filled := filled + [d];
      i := i + 1;
    }
  }

  /** Whether some decision is still missing (`some(d => d === null)`). */
  method AnyMissing(ds: seq<Decision>) returns (missing: bool)
    ensures missing <==> !Complete(ds)
  {
    missing := false;
    var i := 0;
    while i < |ds|
      invariant 0 <= i <= |ds|
      invariant missing <==> exists k :: 0 <= k < i && ds[k] == Unset
    {
      if ds[i] == Unset {
        missing := true;
      }
      i := i + 1;
    }
  }

  /** Player `i`'s history agrees with column `i` of the recorded rounds, and
      the running total is the sum of the penalties received. */
  ghost predicate AgreesWithRounds(p: Player, i: nat, roundResults: seq<RoundResult>)
  {
    && |p.decisions| == |roundResults|
    && |p.penalties| == |roundResults|
    && p.totalPenalty == Sum(p.penalties)
    && forall k :: 0 <= k < |roundResults| ==>
         && i < |roundResults[k].decisions| && i < |roundResults[k].penalties|
         && p.decisions[k] == roundResults[k].decisions[i]
         && p.penalties[k] == roundResults[k].penalties[i]
  }

  /** The `k`-th recorded round of a game of `n` players. */
  ghost predicate WellFormedRound(r: RoundResult, k: nat, n: int)
  {
    && r.round == k + 1
    && |r.decisions| == n
    && Complete(r.decisions)
    && r.penalties == CalculatePenalties(r.decisions)
  }

  /** Recording a round keeps a player's history in line with the rounds. */
  lemma RecordAgrees(p: Player, i: nat, roundResults: seq<RoundResult>, r: RoundResult)
    requires AgreesWithRounds(p, i, roundResults)
    requires i < |r.decisions| && i < |r.penalties|
    ensures AgreesWithRounds(Record(p, r.decisions[i], r.penalties[i]), i, roundResults + [r])
  {
    SumAppend(p.penalties, r.penalties[i]);
  }

  /** Every player after a round: the round's decision and penalty appended. */
  function RecordAll(players: seq<Player>, ds: seq<Decision>, penalties: seq<int>): seq<Player>
    requires |ds| == |players| && |penalties| == |players|
  {
    seq(|players|, i requires 0 <= i < |players| => Record(players[i], ds[i], penalties[i]))
  }

  /** The players after a round: each one's decision and penalty appended
      to their history and the penalty added to their total. */
  method RecordEveryone(players: seq<Player>, ds: seq<Decision>, penalties: seq<int>) returns (updated: seq<Player>)
    requires |ds| == |players| && |penalties| == |players|
    ensures |updated| == |players|
    ensures forall i :: 0 <= i < |players| ==>
      && updated[i].id == players[i].id && updated[i].name == players[i].name
      && updated[i].strategy == players[i].strategy
      && updated[i].decisions == players[i].decisions + [ds[i]]
      && updated[i].penalties == players[i].penalties + [penalties[i]]
      && updated[i].totalPenalty == players[i].totalPenalty + penalties[i]
    ensures updated == RecordAll(players, ds, penalties)
  {
    updated := [];
    var i := 0;
    while i < |players|
      invariant 0 <= i <= |players|
      invariant updated == RecordAll(players, ds, penalties)[..i]
    {
      updated := updated + [Record(players[i], ds[i], penalties[i])];
      i := i + 1;
    }
  }

  /** What holds of a session throughout a game: the configuration passed its
      checks, there is one player per configured slot, every recorded round is
      numbered in order and scored by the payoff rule, and every player's
      history matches the recorded rounds. */
  ghost predicate Playing(numPlayers: int, gameType: GameType, numRounds: int,
                          players: seq<Player>, roundResults: seq<RoundResult>)
  {
    && CheckConfig(numPlayers, gameType, numRounds) == Pass
    && |players| == numPlayers
    && (forall k :: 0 <= k < |roundResults| ==> WellFormedRound(roundResults[k], k, numPlayers))
    && (forall i :: 0 <= i < |players| ==> players[i].id == i && AgreesWithRounds(players[i], i, roundResults))
  }

  /** Scoring a complete round and appending it to every player's history and
      to the round list keeps the game consistent: each total is still the
      sum of that player's penalties and all histories have one more entry. */
  lemma RecordKeepsPlaying(numPlayers: int, gameType: GameType, numRounds: int,
                           players: seq<Player>, roundResults: seq<RoundResult>, ds: seq<Decision>, round: int)
    requires Playing(numPlayers, gameType, numRounds, players, roundResults)
    requires |ds| == numPlayers && Complete(ds) && round == |roundResults| + 1
    ensures var penalties := CalculatePenalties(ds);
            Playing(numPlayers, gameType, numRounds, RecordAll(players, ds, penalties),
                    roundResults + [RoundResult(round, ds, penalties)])
  {
    var penalties := CalculatePenalties(ds);
    var result := RoundResult(round, ds, penalties);
    var after := roundResults + [result];
    forall j | 0 <= j < |players|
      ensures AgreesWithRounds(Record(players[j], ds[j], penalties[j]), j, after)
    {
      RecordAgrees(players[j], j, roundResults, result);
    }
    forall k | 0 <= k < |after|
      ensures WellFormedRound(after[k], k, numPlayers)
    {
      if k < |roundResults| {
        assert after[k] == roundResults[k];
      }
    }
  }

  class GameSession {
    var step: Step
    var numPlayers: int
    var gameType: GameType
    var numRounds: int
    var players: seq<Player>
    var currentRound: int
    var roundResults: seq<RoundResult>
    var currentDecisions: seq<Decision>

    /** Once a game has started: the game is consistent (`Playing`), there is
        one pending decision per player, and the round counter matches the
        number of recorded rounds. */
    ghost predicate Valid()
      reads this
    {
      step == Config ||
      (&& Playing(numPlayers, gameType, numRounds, players, roundResults)
       && |currentDecisions| == numPlayers
       && (step == Game ==> currentRound == |roundResults| + 1 <= TotalRounds(gameType, numRounds))
       && (step == Results ==> currentRound == |roundResults| == TotalRounds(gameType, numRounds)))
    }

    /** A session on the configuration screen holding what the form collected. */
    constructor (numPlayers: int, gameType: GameType, numRounds: int, roster: seq<Player>)
      ensures Valid() && step == Config
      ensures this.numPlayers == numPlayers && this.gameType == gameType && this.numRounds == numRounds
      ensures players == roster && roundResults == [] && currentRound == 0 && currentDecisions == []
    {
      step := Config;
      this.numPlayers := numPlayers;
      this.gameType := gameType;
      this.numRounds := numRounds;
      players := roster;
      currentRound := 0;
      roundResults := [];
      currentDecisions := [];
    }

    /** Checks the configuration; on success starts the first round, on
        failure leaves the session untouched. */
    method StartGame() returns (r: Outcome<ConfigError>)
      requires Valid()
      modifies this
      ensures Valid()
      ensures r == CheckConfig(numPlayers, gameType, numRounds)
      ensures numPlayers == old(numPlayers) && gameType == old(gameType) && numRounds == old(numRounds)
      ensures r.Fail? ==> unchanged(this)
      ensures r == Pass ==> step == Game && currentRound == 1 && roundResults == []
      ensures r == Pass ==> currentDecisions == seq(numPlayers, _ => Unset)
      ensures r == Pass ==> |players| == numPlayers
      ensures r == Pass ==> forall i :: 0 <= i < numPlayers ==>
        players[i] == Player(i, StartName(old(players), i), StartStrategy(old(players), i), [], [], 0)
    {
      r := CheckConfig(numPlayers, gameType, numRounds);
      if r == Pass {
        StartRound();
      }
    }

    /** Starts a fresh game: one player per configured slot with an empty
        history, round 1, no decisions yet, no rounds recorded. */
    method StartRound()
      requires CheckConfig(numPlayers, gameType, numRounds) == Pass
      modifies this
      ensures Valid()
      ensures numPlayers == old(numPlayers) && gameType == old(gameType) && numRounds == old(numRounds)
      ensures step == Game && currentRound == 1 && roundResults == []
      ensures currentDecisions == seq(numPlayers, _ => Unset)
      ensures |players| == numPlayers &&
        forall i :: 0 <= i < numPlayers ==>
          players[i] == Player(i, StartName(old(players), i), StartStrategy(old(players), i), [], [], 0)
    {
      var roster := players;
      players := seq(numPlayers, i requires 0 <= i => Player(i, StartName(roster, i), StartStrategy(roster, i), [], [], 0));
      currentRound := 1;
      currentDecisions := seq(numPlayers, _ => Unset);
      roundResults := [];
      step := Game;
    }

    /** A manual player's click on "confess" or "do not confess". */
    method ChooseDecision(idx: int, d: Decision)
      requires Valid() && step == Game && 0 <= idx < |currentDecisions|
      requires players[idx].strategy == Manual && d != Unset
      modifies this
      ensures Valid()
      ensures currentDecisions == old(currentDecisions)[idx := d]
      ensures step == old(step) && players == old(players) && roundResults == old(roundResults)
      ensures currentRound == old(currentRound)
      ensures numPlayers == old(numPlayers) && gameType == old(gameType) && numRounds == old(numRounds)
    {
      currentDecisions := currentDecisions[idx := d];
    }

    /** Resolves the round in progress. Scripted players' missing decisions
        are generated (`coins` gives each player's random draw); if some
        decision is still missing the session is left untouched. Otherwise
        every player receives this round's decision and penalty, the round is
        recorded, and the game either moves to the next round or ends. */
    method ProcessRound(coins: seq<bool>) returns (r: Outcome<RoundError>)
      requires Valid() && step == Game && |coins| == |currentDecisions|
      modifies this
      ensures Valid()
      ensures numPlayers == old(numPlayers) && gameType == old(gameType) && numRounds == old(numRounds)
      ensures r.Fail? <==> AwaitingManual(old(players), old(currentDecisions))
      ensures r.Fail? ==> unchanged(this)
      ensures r == Pass ==>
        var fd := ResolveDecisions(old(players), old(currentDecisions), old(currentRound),
                                   old(roundResults), numPlayers, coins);
        var penalties := CalculatePenalties(fd);
        && roundResults == old(roundResults) + [RoundResult(old(currentRound), fd, penalties)]
        && |players| == |old(players)|
        && (forall i :: 0 <= i < |players| ==> players[i] == Record(old(players)[i], fd[i], penalties[i]))
        && (old(currentRound) >= TotalRounds(gameType, numRounds) ==>
              step == Results && currentRound == old(currentRound) && currentDecisions == old(currentDecisions))
        && (old(currentRound) < TotalRounds(gameType, numRounds) ==>
              step == Game && currentRound == old(currentRound) + 1 && currentDecisions == seq(numPlayers, _ => Unset))
    {
      var finalDecisions := FillDecisions(players, currentDecisions, currentRound, roundResults, numPlayers, coins);
      var missing := AnyMissing(finalDecisions);
      if missing {
        return Fail(MissingDecision);
      }

      RecordRound(finalDecisions);
      r := Pass;
    }

    /** The successful part of resolving a round: every player receives the
        round's decision and penalty, the round is recorded, and the game
        either moves to the next round or ends. */
    method RecordRound(finalDecisions: seq<Decision>)
      requires Valid() && step == Game
      requires |finalDecisions| == numPlayers && Complete(finalDecisions)
      modifies this
      ensures Valid()
      ensures numPlayers == old(numPlayers) && gameType == old(gameType) && numRounds == old(numRounds)
      ensures var penalties := CalculatePenalties(finalDecisions);
        && roundResults == old(roundResults) + [RoundResult(old(currentRound), finalDecisions, penalties)]
        && |players| == |old(players)|
        && (forall i :: 0 <= i < |players| ==> players[i] == Record(old(players)[i], finalDecisions[i], penalties[i]))
      ensures old(currentRound) >= TotalRounds(gameType, numRounds) ==>
        step == Results && currentRound == old(currentRound) && currentDecisions == old(currentDecisions)
      ensures old(currentRound) < TotalRounds(gameType, numRounds) ==>
        step == Game && currentRound == old(currentRound) + 1 && currentDecisions == seq(numPlayers, _ => Unset)
    {
      var penalties := CalculatePenalties(finalDecisions);
      var updated := RecordEveryone(players, finalDecisions, penalties);
      var recorded := roundResults + [RoundResult(currentRound, finalDecisions, penalties)];
      RecordKeepsPlaying(numPlayers, gameType, numRounds, players, roundResults, finalDecisions, currentRound);
      players := updated;
      roundResults := recorded;
      assert Playing(numPlayers, gameType, numRounds, players, roundResults);
      if currentRound >= TotalRounds(gameType, numRounds) {
        step := Results;
      } else {
        currentRound := currentRound + 1;
        currentDecisions := seq(numPlayers, _ => Unset);
      }
    }

    /** "New game": back to the configuration screen with no players and no
        recorded rounds. */
    method NewGame()
      requires Valid()
      modifies this
      ensures Valid() && step == Config
      ensures players == [] && roundResults == [] && currentRound == 0
      ensures numPlayers == old(numPlayers) && gameType == old(gameType) && numRounds == old(numRounds)
      ensures currentDecisions == old(currentDecisions)
    {
      step := Config;
      players := [];
      roundResults := [];
      currentRound := 0;
    }
  }
}
