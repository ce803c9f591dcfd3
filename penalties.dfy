/** The payoff rule: years of penalty each prisoner receives for one round,
    given everybody's decision. Two players use the classical two-prisoner
    matrix; any other count uses a four-case table keyed on the number of
    defectors. */
module Penalties {
  import opened Types

  /** Penalties for one round, aligned by index with `ds`. Undecided entries
      are ignored when counting, exactly as the rule counts only "C" and "D". */
  function CalculatePenalties(ds: seq<Decision>): (r: seq<int>)
    ensures forall k :: 0 <= k < |r| ==> 0 <= r[k] <= 10
    ensures Complete(ds) ==> |r| == |ds|
  {
    var cooperators := Count(ds, Cooperate);
    var defectors := Count(ds, Defect);
    var total := cooperators + defectors;
    CountPartition(ds);
    CountZero(ds, Unset);
    if total == 2 then
      if cooperators == 2 then [2, 2]
      else if cooperators == 1 then seq(|ds|, i requires 0 <= i < |ds| => if ds[i] == Cooperate then 10 else 0)
      else [5, 5]
    else if cooperators == total then seq(total, _ => 2)
    else if defectors == total then seq(total, _ => 5)
    else if defectors == 1 then seq(|ds|, i requires 0 <= i < |ds| => if ds[i] == Defect then 0 else 6)
    else seq(|ds|, i requires 0 <= i < |ds| => if ds[i] == Defect then 2 else 8)
  }

  /** The penalty player `i` receives in a round decided as `ds`. */
  function PenaltyOf(ds: seq<Decision>, i: int): int
    requires Complete(ds) && 0 <= i < |ds|
  {
    CalculatePenalties(ds)[i]
  }

  /** Two players: the classical matrix, 2/2 both silent, 5/5 both confess,
      10 for the silent one and 0 for the confessor when they split. */
  lemma TwoPlayerTable(ds: seq<Decision>)
    requires |ds| == 2 && Complete(ds)
    ensures CalculatePenalties(ds) ==
      if ds[0] == ds[1] then (if ds[0] == Cooperate then [2, 2] else [5, 5])
      else if ds[0] == Cooperate then [10, 0]
      else [0, 10]
  {
    assert ds[1..][1..] == [];
    assert Count(ds[1..], Cooperate) == if ds[1] == Cooperate then 1 else 0;
    CountComplete(ds);
    var r := CalculatePenalties(ds);
    if ds[0] != ds[1] {
      assert r[0] == (if ds[0] == Cooperate then 10 else 0) && r[1] == 10 - r[0];
    }
  }

  /** Everybody silent: every player gets 2, whatever the number of players. */
  lemma AllCooperateTable(ds: seq<Decision>)
    requires forall k :: 0 <= k < |ds| ==> ds[k] == Cooperate
    ensures |CalculatePenalties(ds)| == |ds|
    ensures forall k :: 0 <= k < |ds| ==> CalculatePenalties(ds)[k] == 2
  {
    CountFull(ds, Cooperate);
    CountZero(ds, Defect);
  }

  /** Everybody confesses: every player gets 5, whatever the number of players. */
  lemma AllDefectTable(ds: seq<Decision>)
    requires forall k :: 0 <= k < |ds| ==> ds[k] == Defect
    ensures |CalculatePenalties(ds)| == |ds|
    ensures forall k :: 0 <= k < |ds| ==> CalculatePenalties(ds)[k] == 5
  {
    CountFull(ds, Defect);
    CountZero(ds, Cooperate);
  }

  /** Three or more players, one confessor: the confessor goes free and every
      silent player gets 6. */
  lemma LoneDefectorTable(ds: seq<Decision>, j: int)
    requires |ds| >= 3 && 0 <= j < |ds| && ds[j] == Defect
    requires forall k :: 0 <= k < |ds| && k != j ==> ds[k] == Cooperate
    ensures |CalculatePenalties(ds)| == |ds|
    ensures CalculatePenalties(ds)[j] == 0
    ensures forall k :: 0 <= k < |ds| && k != j ==> CalculatePenalties(ds)[k] == 6
  {
    var silent := seq(|ds|, _ => Cooperate);
    assert ds == silent[j := Defect];
    CountFull(silent, Cooperate);
    CountZero(silent, Defect);
    CountUpdate(silent, j, Defect, Cooperate);
    CountUpdate(silent, j, Defect, Defect);
  }

  /** Three or more players, at least two confessors and at least one silent
      player: confessors get 2 and silent players 8. */
  lemma SeveralDefectorsTable(ds: seq<Decision>)
    requires |ds| >= 3 && Complete(ds)
    requires Count(ds, Defect) >= 2 && Count(ds, Cooperate) >= 1
    ensures |CalculatePenalties(ds)| == |ds|
    ensures forall k :: 0 <= k < |ds| ==>
      CalculatePenalties(ds)[k] == if ds[k] == Defect then 2 else 8
  {
  }

  /** In any decided round, a confessor serves strictly less than a silent player. */
  lemma DefectorPaysLess(ds: seq<Decision>, i: int, j: int)
    requires Complete(ds) && 0 <= i < |ds| && 0 <= j < |ds|
    requires ds[i] == Defect && ds[j] == Cooperate
    ensures PenaltyOf(ds, i) < PenaltyOf(ds, j)
  {
    CountComplete(ds);
    CountZero(ds, Defect);
    CountZero(ds, Cooperate);
  }

  /** Whatever the others do (two players or more), switching one's own
      decision to "confess" strictly lowers one's own penalty. */
  lemma DefectDominates(ds: seq<Decision>, i: int)
    requires Complete(ds) && |ds| >= 2 && 0 <= i < |ds|
    ensures Complete(ds[i := Defect]) && Complete(ds[i := Cooperate])
    ensures PenaltyOf(ds[i := Defect], i) < PenaltyOf(ds[i := Cooperate], i)
  {
    CountComplete(ds);
    CountUpdate(ds, i, Defect, Cooperate);
    CountUpdate(ds, i, Defect, Defect);
    CountUpdate(ds, i, Cooperate, Cooperate);
    CountUpdate(ds, i, Cooperate, Defect);
  }
}
