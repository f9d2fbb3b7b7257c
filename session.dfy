/** The game component's state cells as one object: each handler updates
    the cells in place, and its contract ties the new cells to the value
    transition of the same name on the old ones. */
module Session {
  import opened StatVector
  import opened Catalog
  import Rounds

  class Game {
    var phase: Rounds.Phase
    var stats: Stats
    var round: int
    var timeLeft: int
    var crisis: CrisisEvent
    var hasVoted: bool

    /** The cells, read together. */
    function Snapshot(): Rounds.GameValue
      reads this
    {
      Rounds.GameValue(phase, stats, round, timeLeft, crisis, hasVoted)
    }

    ghost predicate Valid()
      reads this
    {
      Rounds.Valid(Snapshot())
    }

    /** The cells' initial values, before any game is started. */
    constructor ()
      ensures Valid() && Snapshot() == Rounds.Initial()
    {
      phase := Rounds.Idle;
      stats := StatVector.Initial;
      round := 1;
      timeLeft := Rounds.RoundSeconds;
      crisis := Crises[0];
      hasVoted := false;
    }

    /** handleRoundEnd, with the crisis draw passed in. */
    method HandleRoundEnd(draw: nat)
      requires Valid() && draw < |Crises|
      modifies this
      ensures Valid() && Snapshot() == Rounds.RoundEnd(old(Snapshot()), draw)
    {
      if round >= Rounds.LastRound {
        phase := Rounds.Finished;
        return;
      }
      round := round + 1;
      crisis := Crises[draw];
      hasVoted := false;
      stats := Decayed(stats);
    }

    /** handleAction: a no-op once this round's action is in. */
    method HandleAction(action: Action)
      requires Valid()
      modifies this
      ensures Valid() && Snapshot() == Rounds.Vote(old(Snapshot()), action)
    {
      if hasVoted {
        return;
      }
      stats := ApplyAction(stats, action.effects);
      hasVoted := true;
    }

    /** One firing of the one-second interval, which exists only while the
        game screen is shown. */
    method Tick(draw: nat)
      requires Valid() && draw < |Crises|
      modifies this
      ensures Valid() && Snapshot() == Rounds.Tick(old(Snapshot()), draw)
    {
      if phase != Rounds.Playing {
        return;
      }
      if timeLeft <= 1 {
        HandleRoundEnd(draw);
        timeLeft := Rounds.RoundSeconds;
      } else {
        timeLeft := timeLeft - 1;
      }
    }

    /** startGame: every cell back to the start of round one. */
    method StartGame()
      modifies this
      ensures Valid() && Snapshot() == Rounds.Start()
    {
      stats := StatVector.Initial;
      round := 1;
      timeLeft := Rounds.RoundSeconds;
      crisis := Crises[0];
      hasVoted := false;
      phase := Rounds.Playing;
    }
  }
}
