/** The round engine on values: a snapshot of the component's state cells
    and the transitions it performs on them — the one-second tick, the end
    of a round, a submitted action and a restart. */
module Rounds {
  import opened StatVector
  import opened Catalog

  const LastRound: int := 5
  const RoundSeconds: int := 60

  /** What the countdown sees of the current screen: it runs only on the
      game screen (Playing); the results screen is Finished; every other
      screen is Idle. */
  datatype Phase = Idle | Playing | Finished

  datatype GameValue = GameValue(
    phase: Phase,
    stats: Stats,
    round: int,
    timeLeft: int,
    crisis: CrisisEvent,
    hasVoted: bool)

  /** What holds in every reachable state. */
  ghost predicate Valid(g: GameValue)
  {
    && InRange(g.stats)
    && 1 <= g.round <= LastRound
    && 1 <= g.timeLeft <= RoundSeconds
  }

  /** The state cells as the component creates them, before a game starts. */
  function Initial(): (g: GameValue)
    ensures Valid(g) && g.phase == Idle
  {
    GameValue(Idle, StatVector.Initial, 1, RoundSeconds, Crises[0], false)
  }

  /** startGame: a fresh first round, whatever the state was. */
  function Start(): (g: GameValue)
    ensures Valid(g) && g.phase == Playing
  {
    GameValue(Playing, StatVector.Initial, 1, RoundSeconds, Crises[0], false)
  }

  /** handleAction: accepted only while the round's lock is open; then the
      action's effects are applied and the lock closes. Nothing but the
      stats and the lock ever changes. */
  function Vote(g: GameValue, a: Action): (r: GameValue)
    ensures Valid(g) ==> Valid(r)
    ensures r.hasVoted
    ensures r.(stats := g.stats, hasVoted := g.hasVoted) == g
  {
    if g.hasVoted then g
    else g.(stats := ApplyEffects(g.stats, a.effects), hasVoted := true)
  }

  /** handleRoundEnd, with the random crisis draw given as `draw`. After
      the last round the game is over and nothing else changes; before it,
      the next round opens with the drawn crisis, the lock open and the
      stats decayed. */
  function RoundEnd(g: GameValue, draw: nat): (r: GameValue)
    requires draw < |Crises|
    ensures Valid(g) ==> Valid(r)
    ensures g.round >= LastRound ==> r == g.(phase := Finished)
    ensures g.round < LastRound ==>
      && r.round == g.round + 1
      && r.crisis == Crises[draw]
      && !r.hasVoted
      && r.stats == Decayed(g.stats)
      && r.phase == g.phase && r.timeLeft == g.timeLeft
  {
    if g.round >= LastRound then g.(phase := Finished)
    else
      g.(round := g.round + 1, crisis := Crises[draw], hasVoted := false,
         stats := Decayed(g.stats))
  }

  /** The updater the interval passes to setTimeLeft once a second, while
      the game screen is shown. */
  function Tick(g: GameValue, draw: nat): (r: GameValue)
    requires draw < |Crises|
    ensures Valid(g) ==> Valid(r)
    ensures g.phase != Playing ==> r == g
    ensures g.phase == Playing && g.timeLeft > 1 ==> r == g.(timeLeft := g.timeLeft - 1)
    ensures g.phase == Playing && g.timeLeft <= 1 ==>
      r == RoundEnd(g, draw).(timeLeft := RoundSeconds)
  {
    if g.phase != Playing then g
    else if g.timeLeft <= 1 then RoundEnd(g, draw).(timeLeft := RoundSeconds)
    else g.(timeLeft := g.timeLeft - 1)
  }

  /** What can happen to a running component: a second passes (with the
      crisis the random draw would pick if the round ends), the player
      presses an action button, or the player starts a game. */
  datatype Event = Second(draw: nat) | Choose(action: Action) | Restart

  predicate WellFormed(ev: Event)
  {
    ev.Second? ==> ev.draw < |Crises|
  }

  /** The action buttons exist only on the game screen. */
  function Step(g: GameValue, ev: Event): (r: GameValue)
    requires WellFormed(ev)
    ensures Valid(g) ==> Valid(r)
  {
    match ev
    case Second(d) => Tick(g, d)
    case Choose(a) => if g.phase == Playing then Vote(g, a) else g
    case Restart => Start()
  }

  /** A run of events, applied in order. Every state reachable from a valid
      one, in particular from Initial(), is valid. */
  function Run(g: GameValue, evs: seq<Event>): (r: GameValue)
    requires forall i :: 0 <= i < |evs| ==> WellFormed(evs[i])
    ensures Valid(g) ==> Valid(r)
    decreases |evs|
  {
    if evs == [] then g else Run(Step(g, evs[0]), evs[1..])
  }

  /** A run of two runs is one run. */
  lemma {:induction false} RunAppend(g: GameValue, a: seq<Event>, b: seq<Event>)
    requires forall i :: 0 <= i < |a| ==> WellFormed(a[i])
    requires forall i :: 0 <= i < |b| ==> WellFormed(b[i])
    ensures forall i :: 0 <= i < |a + b| ==> WellFormed((a + b)[i])
    ensures Run(g, a + b) == Run(Run(g, a), b)
    decreases |a|
  {
    assert forall i :: 0 <= i < |a + b| ==> (a + b)[i] == if i < |a| then a[i] else b[i - |a|];
    if a == [] {
      assert a + b == b;
    } else {
      assert (a + b)[0] == a[0] && (a + b)[1..] == a[1..] + b;
      RunAppend(Step(g, a[0]), a[1..], b);
    }
  }

  /** Once the lock is closed a second submission changes nothing, so
      submitting twice in a round, even different actions, is submitting
      the first one once. */
  lemma VoteOnce(g: GameValue, a: Action, b: Action)
    ensures g.hasVoted ==> Vote(g, a) == g
    ensures Vote(Vote(g, a), b) == Vote(g, a)
  {
  }

  /** An accepted action moves exactly the stats its effect map names, each
      to the clamped sum of old value and delta. */
  lemma VoteEffect(g: GameValue, a: Action, k: Stat)
    requires !g.hasVoted && DistinctKeys(a.effects)
    ensures Get(Vote(g, a).stats, k) ==
              match Delta(a.effects, k)
              case None => Get(g.stats, k)
              case Some(d) => Clamp(Get(g.stats, k) + d)
  {
    ApplyEffectsAt(g.stats, a.effects, k);
  }

  /** Restarting forgets everything: the stats, round, timer, crisis and
      lock are those of a new game, from any state. */
  lemma RestartResets(g: GameValue)
    ensures Step(g, Restart) == Start()
    ensures Step(g, Restart).stats == Stats(60, 80, 20, 50)
    ensures Step(g, Restart).round == 1 && Step(g, Restart).timeLeft == 60
    ensures Step(g, Restart).crisis == Crises[0] && !Step(g, Restart).hasVoted
    ensures Step(g, Restart).phase == Playing
  {
  }

  /** The results screen is terminal: without a restart no event changes
      anything, so there is no sixth round and the final stats stay as
      they are. */
  lemma {:induction false} FinishedIsFrozen(g: GameValue, evs: seq<Event>)
    requires g.phase == Finished
    requires forall i :: 0 <= i < |evs| ==> WellFormed(evs[i]) && !evs[i].Restart?
    ensures Run(g, evs) == g
    decreases |evs|
  {
    if evs != [] {
      assert Step(g, evs[0]) == g;
      FinishedIsFrozen(g, evs[1..]);
    }
  }

  /** Without a restart the round only moves forward, one at a time. */
  lemma StepAdvancesRound(g: GameValue, ev: Event)
    requires WellFormed(ev) && !ev.Restart?
    ensures g.round <= Step(g, ev).round <= g.round + 1
    ensures Step(g, ev).round == g.round + 1 ==>
      g.phase == Playing && g.timeLeft <= 1 && g.round < LastRound
  {
  }

  /** Before the timer runs out, each second only counts it down. */
  lemma {:induction false} CountDown(g: GameValue, evs: seq<Event>)
    requires g.phase == Playing
    requires forall i :: 0 <= i < |evs| ==> evs[i].Second? && WellFormed(evs[i])
    requires |evs| < g.timeLeft
    ensures Run(g, evs) == g.(timeLeft := g.timeLeft - |evs|)
    decreases |evs|
  {
    if evs != [] {
      var g' := g.(timeLeft := g.timeLeft - 1);
      assert Step(g, evs[0]) == g';
      CountDown(g', evs[1..]);
    }
  }

  /** A round lasts exactly as many seconds as are left on its timer: the
      last of them ends the round (with that second's draw) and rewinds
      the timer to 60. */
  lemma RoundExpires(g: GameValue, evs: seq<Event>)
    requires g.phase == Playing && 1 <= g.timeLeft
    requires forall i :: 0 <= i < |evs| ==> evs[i].Second? && WellFormed(evs[i])
    requires |evs| == g.timeLeft
    ensures Run(g, evs) == RoundEnd(g, evs[|evs| - 1].draw).(timeLeft := RoundSeconds)
  {
    var n := |evs| - 1;
    var front, last := evs[..n], evs[n..];
    assert evs == front + last;
    RunAppend(g, front, last);
    CountDown(g, front);
    var h := g.(timeLeft := 1);
    assert Run(g, front) == h;
    assert last[1..] == [];
    assert Run(h, last) == Tick(h, last[0].draw);
  }
}
