/** The end-of-game verdict: the four stats are averaged and the average is
    placed in one of four tiers, checked from the highest down. */
module Scoring {
  import opened StatVector

  datatype Outcome = Victory | Stability | Crisis | Collapse

  /** The thresholds on the average, highest first. */
  const VictoryBar: int := 70
  const StabilityBar: int := 50
  const CrisisBar: int := 30

  /** The `reduce` over the four values of the game state. */
  function Total(s: Stats): (t: int)
    ensures InRange(s) ==> 4 * Lo <= t <= 4 * Hi
  {
    s.economy + s.security + s.diplomacy + s.social
  }

  /** The source compares the floating-point average `total / 4`; since the
      total is an integer, comparing `total` with four times each threshold
      decides the same tier, as the contract states in terms of the real
      average. */
  function Classify(s: Stats): (o: Outcome)
    ensures o == Victory <==> (Total(s) as real) / 4.0 >= VictoryBar as real
    ensures o == Stability <==>
      StabilityBar as real <= (Total(s) as real) / 4.0 < VictoryBar as real
    ensures o == Crisis <==>
      CrisisBar as real <= (Total(s) as real) / 4.0 < StabilityBar as real
    ensures o == Collapse <==> (Total(s) as real) / 4.0 < CrisisBar as real
  {
    var total := Total(s);
    if total >= 4 * VictoryBar then Victory
    else if total >= 4 * StabilityBar then Stability
    else if total >= 4 * CrisisBar then Crisis
    else Collapse
  }

  /** The tiers in order, collapse lowest. */
  function Rank(o: Outcome): nat
  {
    match o
    case Collapse => 0
    case Crisis => 1
    case Stability => 2
    case Victory => 3
  }

  /** A larger total never gives a lower tier. */
  lemma ClassifyMonotone(a: Stats, b: Stats)
    requires Total(a) <= Total(b)
    ensures Rank(Classify(a)) <= Rank(Classify(b))
  {
  }

  /** The tier boundaries, at the exact thresholds and one below. */
  lemma ClassifyBoundaries()
    ensures Classify(Stats(70, 70, 70, 70)) == Victory
    ensures Classify(Stats(70, 70, 70, 69)) == Stability
    ensures Classify(Stats(50, 50, 50, 50)) == Stability
    ensures Classify(Stats(50, 50, 50, 49)) == Crisis
    ensures Classify(Stats(30, 30, 30, 30)) == Crisis
    ensures Classify(Stats(30, 30, 30, 29)) == Collapse
    ensures Classify(Initial) == Stability
  {
  }
}
