/** End-of-game analysis: the equilibrium classification of the last round,
    the ranking of players by total penalty, and each player's cooperation
    count; plus the game-theoretic claims the classification makes about the
    payoff rule. */
module FinalResults {
  import opened Types
  import opened Penalties
  import opened Session

  /** The verdict shown after the game (its status line and explanation). */
  datatype Analysis = NoData | NashEquilibrium | CooperativeNotNash | MixedNotNash

  /** Classifies the outcome by the decisions of the last recorded round only. */
  function AnalyzeNashEquilibrium(roundResults: seq<RoundResult>): (a: Analysis)
    ensures a == NoData <==> roundResults == []
    ensures roundResults != [] ==>
      var last := roundResults[|roundResults| - 1].decisions;
      && (a == NashEquilibrium <==> forall k :: 0 <= k < |last| ==> last[k] == Defect)
      && (a == CooperativeNotNash <==>
            (exists k :: 0 <= k < |last| && last[k] != Defect) && forall k :: 0 <= k < |last| ==> last[k] == Cooperate)
      && (a == MixedNotNash <==>
            (exists k :: 0 <= k < |last| && last[k] != Defect) && exists k :: 0 <= k < |last| && last[k] != Cooperate)
  {
    if roundResults == [] then NoData
    else
      var last := roundResults[|roundResults| - 1].decisions;
      if forall k :: 0 <= k < |last| ==> last[k] == Defect then NashEquilibrium
      else if forall k :: 0 <= k < |last| ==> last[k] == Cooperate then CooperativeNotNash
      else MixedNotNash
  }

  /** Two histories that end with the same decisions get the same verdict. */
  lemma AnalysisUsesLastRoundOnly(h1: seq<RoundResult>, h2: seq<RoundResult>)
    requires h1 != [] && h2 != []
    requires h1[|h1| - 1].decisions == h2[|h2| - 1].decisions
    ensures AnalyzeNashEquilibrium(h1) == AnalyzeNashEquilibrium(h2)
  {
  }

  /** A decided round is a Nash equilibrium of the one-shot game when no
      player can lower their own penalty by changing only their own decision. */
  ghost predicate IsNashEquilibrium(ds: seq<Decision>)
  {
    Complete(ds) && forall i, d :: !ProfitableSwitch(ds, i, d)
  }

  /** In the decided round `ds`, player `i` would serve strictly less by
      changing only their own decision to `d`. */
  ghost predicate ProfitableSwitch(ds: seq<Decision>, i: int, d: Decision)
  {
    Complete(ds) && 0 <= i < |ds| && d != Unset && PenaltyOf(ds[i := d], i) < PenaltyOf(ds, i)
  }

  /** All confess is stable: a lone switch to silence raises one's penalty
      from 5 to 10 with two players and from 5 to 8 with more. */
  lemma AllDefectIsStable(ds: seq<Decision>, i: int)
    requires |ds| >= 2 && forall k :: 0 <= k < |ds| ==> ds[k] == Defect
    requires 0 <= i < |ds|
    ensures Complete(ds) && Complete(ds[i := Cooperate])
    ensures PenaltyOf(ds, i) == 5
    ensures PenaltyOf(ds[i := Cooperate], i) == if |ds| == 2 then 10 else 8
  {
    AllDefectTable(ds);
    var switched := ds[i := Cooperate];
    CountFull(ds, Defect);
    CountZero(ds, Cooperate);
    CountUpdate(ds, i, Cooperate, Cooperate);
    CountUpdate(ds, i, Cooperate, Defect);
    if |ds| == 2 {
      TwoPlayerTable(switched);
    }
  }

  /** All silent is unstable: a lone switch to confessing lowers one's
      penalty from 2 to 0. */
  lemma AllCooperateIsUnstable(ds: seq<Decision>, i: int)
    requires |ds| >= 2 && forall k :: 0 <= k < |ds| ==> ds[k] == Cooperate
    requires 0 <= i < |ds|
    ensures Complete(ds) && Complete(ds[i := Defect])
    ensures PenaltyOf(ds, i) == 2
    ensures PenaltyOf(ds[i := Defect], i) == 0
  {
    AllCooperateTable(ds);
    var switched := ds[i := Defect];
    if |ds| == 2 {
      TwoPlayerTable(switched);
    } else {
      LoneDefectorTable(switched, i);
    }
  }

  /** A mixed round is unstable: every silent player would do strictly better
      by confessing, so some player has a profitable switch. */
  lemma MixedIsUnstable(ds: seq<Decision>)
    requires Complete(ds) && |ds| >= 2
    requires exists k :: 0 <= k < |ds| && ds[k] == Defect
    requires exists k :: 0 <= k < |ds| && ds[k] == Cooperate
    ensures forall i :: 0 <= i < |ds| && ds[i] == Cooperate ==> ProfitableSwitch(ds, i, Defect)
    ensures exists i :: ProfitableSwitch(ds, i, Defect)
    ensures !IsNashEquilibrium(ds)
  {
    forall i | 0 <= i < |ds| && ds[i] == Cooperate
      ensures ProfitableSwitch(ds, i, Defect)
    {
      DefectDominates(ds, i);
      assert ds[i := Cooperate] == ds;
    }
    var c :| 0 <= c < |ds| && ds[c] == Cooperate;
    assert ProfitableSwitch(ds, c, Defect);
  }

  /** With two or more players, a decided round is a Nash equilibrium exactly
      when everybody confesses. */
  lemma {:induction false} NashIffAllDefect(ds: seq<Decision>)
    requires Complete(ds) && |ds| >= 2
    ensures IsNashEquilibrium(ds) <==> forall k :: 0 <= k < |ds| ==> ds[k] == Defect
  {
    if forall k :: 0 <= k < |ds| ==> ds[k] == Defect {
      forall i, d | 0 <= i < |ds| && d != Unset
        ensures !ProfitableSwitch(ds, i, d)
      {
        if d == Defect {
          assert ds[i := d] == ds;
        } else {
          AllDefectIsStable(ds, i);
        }
      }
    } else {
      var i :| 0 <= i < |ds| && ds[i] != Defect;
      DefectDominates(ds, i);
      assert ds[i := Cooperate] == ds;
      assert ProfitableSwitch(ds, i, Defect);
    }
  }

  /** The verdict names an equilibrium exactly when the last round is one. */
  lemma ClassificationMatchesNash(roundResults: seq<RoundResult>)
    requires roundResults != []
    requires var last := roundResults[|roundResults| - 1].decisions; Complete(last) && |last| >= 2
    ensures AnalyzeNashEquilibrium(roundResults) == NashEquilibrium <==>
      IsNashEquilibrium(roundResults[|roundResults| - 1].decisions)
  {
    NashIffAllDefect(roundResults[|roundResults| - 1].decisions);
  }

  /** At the end of a game the verdict is never "no data", and it names an
      equilibrium exactly when the last round is one. */
  lemma FinalVerdict(s: GameSession)
    requires s.Valid() && s.step == Results
    ensures AnalyzeNashEquilibrium(s.roundResults) != NoData
    ensures AnalyzeNashEquilibrium(s.roundResults) == NashEquilibrium <==>
      IsNashEquilibrium(s.roundResults[|s.roundResults| - 1].decisions)
  {
    var n := |s.roundResults|;
    assert WellFormedRound(s.roundResults[n - 1], n - 1, s.numPlayers);
    ClassificationMatchesNash(s.roundResults);
  }

  /** Lower total penalty first. */
  predicate RankedByPenalty(ps: seq<Player>)
  {
    forall i, j :: 0 <= i < j < |ps| ==> ps[i].totalPenalty <= ps[j].totalPenalty
  }

  /** Inserts `p` before the first player with a total at least as high. */
  function InsertByPenalty(p: Player, ranked: seq<Player>): (r: seq<Player>)
    requires RankedByPenalty(ranked)
    ensures |r| == |ranked| + 1
    ensures multiset(r) == multiset(ranked) + multiset{p}
    ensures r[0] == p || (ranked != [] && r[0] == ranked[0])
    ensures RankedByPenalty(r)
  {
    if ranked == [] || p.totalPenalty <= ranked[0].totalPenalty then
      RankedCons(p, ranked);
      [p] + ranked
    else
      var rest := InsertByPenalty(p, ranked[1..]);
      assert ranked == [ranked[0]] + ranked[1..];
      RankedCons(ranked[0], rest);
      [ranked[0]] + rest
  }

  /** A player no worse than the head of a ranking can go in front of it. */
  lemma RankedCons(a: Player, s: seq<Player>)
    requires RankedByPenalty(s)
    requires s == [] || a.totalPenalty <= s[0].totalPenalty
    ensures RankedByPenalty([a] + s)
  {
  }

  /** The final ranking: the players ordered by non-decreasing total penalty. */
  function Rank(players: seq<Player>): (r: seq<Player>)
    ensures |r| == |players|
    ensures multiset(r) == multiset(players)
    ensures RankedByPenalty(r)
  {
    if players == [] then []
    else
      assert players == [players[0]] + players[1..];
      InsertByPenalty(players[0], Rank(players[1..]))
  }

  /** How many rounds the player stayed silent. */
  function CooperationCount(p: Player): (n: nat)
    ensures n <= |p.decisions|
    ensures n == |p.decisions| <==> forall k :: 0 <= k < |p.decisions| ==> p.decisions[k] == Cooperate
    ensures n == 0 <==> forall k :: 0 <= k < |p.decisions| ==> p.decisions[k] != Cooperate
  {
    CountFull(p.decisions, Cooperate);
    CountZero(p.decisions, Cooperate);
    Count(p.decisions, Cooperate)
  }
}
