/** Whole games played through the value model: a vote followed by a full
    round, and five rounds with no vote at all. */
module Scenarios {
  import opened StatVector
  import opened Catalog
  import opened Rounds

  /** `n` seconds, each with the same crisis draw. */
  function Seconds(n: nat, draw: nat): (evs: seq<Event>)
    requires draw < |Crises|
    ensures |evs| == n
    ensures forall i :: 0 <= i < n ==> evs[i] == Second(draw) && WellFormed(evs[i])
  {
    if n == 0 then [] else Seconds(n - 1, draw) + [Second(draw)]
  }

  lemma SecondsAppend(a: nat, b: nat, draw: nat)
    requires draw < |Crises|
    ensures Seconds(a + b, draw) == Seconds(a, draw) + Seconds(b, draw)
  {
    var l, r := Seconds(a + b, draw), Seconds(a, draw) + Seconds(b, draw);
    assert forall i :: 0 <= i < a + b ==> l[i] == r[i];
  }

  /** The stats after `k` round transitions without any action. */
  function DecayedTimes(s: Stats, k: nat): (r: Stats)
    ensures InRange(s) ==> InRange(r)
    ensures InRange(s) ==> forall j :: Get(r, j) <= Get(s, j)
  {
    if k == 0 then s else Decayed(DecayedTimes(s, k - 1))
  }

  /** Choosing the economy action on a fresh game raises economy by 15 and
      lowers social by 5; when the round's 60 seconds run out the second
      round opens with the lock released, the drawn crisis and the decay
      applied. */
  lemma EconomyThenExpiry(draw: nat)
    requires draw < |Crises|
    ensures Step(Start(), Choose(EconomyAction)).stats == Stats(75, 80, 20, 45)
    ensures Run(Step(Start(), Choose(EconomyAction)), Seconds(60, draw)) ==
              GameValue(Playing, Stats(65, 75, 15, 35), 2, 60, Crises[draw], false)
  {
    var e := EconomyAction.effects;
    var first: Effects := [(Economy, 15)];
    assert e[..1] == first && first[..0] == [];
    var once := ApplyEffects(StatVector.Initial, first);
    assert once == ApplyEntry(StatVector.Initial, Economy, 15);
    assert once == Stats(75, 80, 20, 50);
    assert ApplyEffects(StatVector.Initial, e) == ApplyEntry(once, Social, -5);
    var g := Step(Start(), Choose(EconomyAction));
    assert g.stats == Stats(75, 80, 20, 45);
    RoundExpires(g, Seconds(60, draw));
  }

  /** With no action, the first `k < 5` rounds' worth of seconds leave the
      game at round k + 1 with k decays applied. */
  lemma {:induction false} IdleRounds(k: nat, draw: nat)
    requires k < LastRound && draw < |Crises|
    ensures Run(Start(), Seconds(RoundSeconds * k, draw)) ==
              GameValue(Playing, DecayedTimes(StatVector.Initial, k), k + 1, RoundSeconds,
                        if k == 0 then Crises[0] else Crises[draw], false)
  {
    if k > 0 {
      IdleRounds(k - 1, draw);
      var before := Seconds(RoundSeconds * (k - 1), draw);
      var round := Seconds(RoundSeconds, draw);
      SecondsAppend(RoundSeconds * (k - 1), RoundSeconds, draw);
      RunAppend(Start(), before, round);
      RoundExpires(Run(Start(), before), round);
    }
  }

  /** Five rounds with no action: the stats decline to (20, 60, 0, 10),
      the game is still in its fifth round one second before the end, and
      the 300th second ends it without a sixth round. */
  lemma FiveIdleRounds(draw: nat)
    requires draw < |Crises|
    ensures DecayedTimes(StatVector.Initial, 4) == Stats(20, 60, 0, 10)
    ensures Run(Start(), Seconds(299, draw)) ==
              GameValue(Playing, Stats(20, 60, 0, 10), 5, 1, Crises[draw], false)
    ensures Run(Start(), Seconds(300, draw)) ==
              GameValue(Finished, Stats(20, 60, 0, 10), 5, 60, Crises[draw], false)
  {
    IdleRounds(4, draw);
    var g := Run(Start(), Seconds(240, draw));
    SecondsAppend(240, 59, draw);
    RunAppend(Start(), Seconds(240, draw), Seconds(59, draw));
    CountDown(g, Seconds(59, draw));
    SecondsAppend(240, 60, draw);
    RunAppend(Start(), Seconds(240, draw), Seconds(60, draw));
    RoundExpires(g, Seconds(60, draw));
  }
}
