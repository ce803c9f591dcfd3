/** The strategy resolver: the decision a scripted player makes in a round. */
module Strategies {
  import opened Types

  /** The decision `player` makes in round `roundNum`, given the rounds played
      so far and the configured number of players. `coin` stands for the
      outcome of the comparison `Math.random() > 0.5` used by the random
      strategy. A manual player gets no decision. */
  function GenerateDecision(player: Player, roundNum: int, roundResults: seq<RoundResult>,
                            numPlayers: int, coin: bool): (d: Decision)
    ensures d == Unset <==> player.strategy == Manual
  {
    match player.strategy
    case AlwaysCooperate => Cooperate
    case AlwaysDefect => Defect
    case TitForTat =>
      if roundNum == 1 then Cooperate
      else if |roundResults| > 0 then
        var cooperators := Count(roundResults[|roundResults| - 1].decisions, Cooperate);
        if cooperators as real > numPlayers as real / 2.0 then Cooperate else Defect
      else Cooperate
    case Random => if coin then Cooperate else Defect
    case Manual => Unset
  }

  /** The fixed strategies ignore the round, the history and the coin. */
  lemma FixedStrategies(player: Player, roundNum: int, roundResults: seq<RoundResult>,
                        numPlayers: int, coin: bool)
    ensures player.strategy == AlwaysCooperate ==>
      GenerateDecision(player, roundNum, roundResults, numPlayers, coin) == Cooperate
    ensures player.strategy == AlwaysDefect ==>
      GenerateDecision(player, roundNum, roundResults, numPlayers, coin) == Defect
    ensures player.strategy == Random ==>
      GenerateDecision(player, roundNum, roundResults, numPlayers, coin) == (if coin then Cooperate else Defect)
  {
  }

  /** Tit-for-tat opens with "do not confess". */
  lemma TitForTatOpening(player: Player, roundNum: int, roundResults: seq<RoundResult>,
                         numPlayers: int, coin: bool)
    requires player.strategy == TitForTat
    requires roundNum == 1 || roundResults == []
    ensures GenerateDecision(player, roundNum, roundResults, numPlayers, coin) == Cooperate
  {
  }

  /** After the first round tit-for-tat follows a strict majority of the
      previous round: it stays silent exactly when more than half of the
      players stayed silent, so an exact half means "confess". */
  lemma TitForTatMajority(player: Player, roundNum: int, roundResults: seq<RoundResult>,
                          numPlayers: int, coin: bool)
    requires player.strategy == TitForTat && roundNum != 1 && roundResults != []
    ensures var cooperators := Count(roundResults[|roundResults| - 1].decisions, Cooperate);
            var d := GenerateDecision(player, roundNum, roundResults, numPlayers, coin);
            (d == Cooperate <==> 2 * cooperators > numPlayers) &&
            (d == Defect <==> 2 * cooperators <= numPlayers)
  {
  }
}
