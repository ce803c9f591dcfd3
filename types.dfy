/** The values the simulator passes around: decisions, strategies, players and
    recorded rounds, with the counting and summing helpers the rules use. */
module Types {

  /** A prisoner's choice in one round: "C" (do not confess), "D" (confess),
      or null while it has not been chosen yet. */
  datatype Decision = Cooperate | Defect | Unset

  /** How a player's decision is produced when nobody clicks for them. */
  datatype Strategy = Manual | AlwaysCooperate | AlwaysDefect | TitForTat | Random

  /** A participant: per-round history of decisions and penalties (years),
      aligned by round, and the running total of those penalties. */
  datatype Player = Player(
    id: int,
    name: string,
    strategy: Strategy,
    decisions: seq<Decision>,
    penalties: seq<int>,
    totalPenalty: int)

  /** One completed round: its 1-based number and the decision and penalty
      vectors, both aligned by player index. */
  datatype RoundResult = RoundResult(round: int, decisions: seq<Decision>, penalties: seq<int>)

  /** The result of an operation that either succeeds or reports an error. */
  datatype Outcome<+E> = Pass | Fail(error: E)

  /** Number of entries of `ds` equal to `d` (the `filter(...).length` idiom). */
  function Count(ds: seq<Decision>, d: Decision): (n: nat)
    ensures n <= |ds|
  {
    if ds == [] then 0 else (if ds[0] == d then 1 else 0) + Count(ds[1..], d)
  }

  /** Every entry has been decided. */
  predicate Complete(ds: seq<Decision>)
  {
    forall k :: 0 <= k < |ds| ==> ds[k] != Unset
  }

  function Sum(xs: seq<int>): int
  {
    if xs == [] then 0 else xs[0] + Sum(xs[1..])
  }

  /** A player after one more round: the decision and penalty are appended
      and the penalty is added to the running total. */
  function Record(p: Player, d: Decision, x: int): (q: Player)
    ensures q.id == p.id && q.name == p.name && q.strategy == p.strategy
    ensures |q.decisions| == |p.decisions| + 1 && |q.penalties| == |p.penalties| + 1
    ensures q.totalPenalty - p.totalPenalty == q.penalties[|q.penalties| - 1] == x
    ensures q.decisions[|q.decisions| - 1] == d
    ensures q.decisions[..|p.decisions|] == p.decisions && q.penalties[..|p.penalties|] == p.penalties
  {
    p.(decisions := p.decisions + [d], penalties := p.penalties + [x], totalPenalty := p.totalPenalty + x)
  }

  lemma {:induction false} SumAppend(xs: seq<int>, x: int)
    ensures Sum(xs + [x]) == Sum(xs) + x
  {
    if xs == [] {
      assert [] + [x] == [x];
    } else {
      assert (xs + [x])[1..] == xs[1..] + [x];
      SumAppend(xs[1..], x);
    }
  }

  /** Every entry is one of the three values. */
  lemma {:induction false} CountPartition(ds: seq<Decision>)
    ensures Count(ds, Cooperate) + Count(ds, Defect) + Count(ds, Unset) == |ds|
  {
    if ds != [] {
      CountPartition(ds[1..]);
    }
  }

  lemma {:induction false} CountZero(ds: seq<Decision>, d: Decision)
    ensures Count(ds, d) == 0 <==> forall k :: 0 <= k < |ds| ==> ds[k] != d
  {
    if ds != [] {
      CountZero(ds[1..], d);
      assert forall k :: 1 <= k < |ds| ==> ds[k] == ds[1..][k - 1];
    }
  }

  lemma {:induction false} CountFull(ds: seq<Decision>, d: Decision)
    ensures Count(ds, d) == |ds| <==> forall k :: 0 <= k < |ds| ==> ds[k] == d
  {
    if ds != [] {
      CountFull(ds[1..], d);
      assert forall k :: 1 <= k < |ds| ==> ds[k] == ds[1..][k - 1];
    }
  }

  /** For a complete vector, cooperators and defectors make up every entry. */
  lemma CountComplete(ds: seq<Decision>)
    requires Complete(ds)
    ensures Count(ds, Cooperate) + Count(ds, Defect) == |ds|
  {
  }

  /** Changing one entry moves one unit of the count at most. */
  lemma {:induction false} CountUpdate(ds: seq<Decision>, i: int, x: Decision, d: Decision)
    requires 0 <= i < |ds|
    ensures Count(ds[i := x], d) == Count(ds, d) - (if ds[i] == d then 1 else 0) + (if x == d then 1 else 0)
  {
    if i == 0 {
      assert ds[i := x][1..] == ds[1..];
    } else {
      assert ds[i := x][1..] == ds[1..][i - 1 := x];
      CountUpdate(ds[1..], i - 1, x, d);
    }
  }
}
