# Round engine of the political-crisis game, in Dafny

The game is a single React component (`src/pages/Index.tsx`). Four
ministers' metrics — economy, security, diplomacy and social — start at
60/80/20/50 and always stay in [0, 100]. A game has five rounds of 60
seconds each. Each round opens with a crisis from a catalog of five. The
player may choose one of four actions per round, which adds that action's
deltas to the metrics with clamping. A second choice in the same round is
ignored. Each time a round ends the metrics decay by 10/5/5/10. After the
fifth round the average of the four metrics gives one of four verdicts.

The project models that engine:

- `stats.dfy` (module `StatVector`): the stat vector, the clamped write
  `Math.max(0, Math.min(100, …))`, an action's effect map applied entry by
  entry (the `forEach` inside `handleAction`, as a method with a loop proved
  against a recursive function), and the decay.
- `catalog.dfy` (module `Catalog`): the five crises and the four actions
  with their effect maps.
- `scoring.dfy` (module `Scoring`): `getResultMessage` as the tier of the
  final stats.
- `rounds.dfy` (module `Rounds`): the component's state cells as one value
  (`GameValue`), every handler as a transition function on it, a run of
  events (seconds, button presses, restarts), and the lemmas about runs.
- `session.dfy` (module `Session`): the same cells as the fields of a class
  `Game`. Its methods update the fields in place as the handlers do. Each
  method's contract says that the new fields are the value transition of the
  same name applied to the old fields.
- `scenarios.dfy` (module `Scenarios`): whole games. One is a vote followed
  by a full round. The other is five rounds with no vote, ending in the
  results screen after exactly 300 seconds.

Modelling choices:

- The random crisis draw `Math.floor(Math.random() * crises.length)` is a
  parameter `draw` with `draw < 5`. The one-second `setInterval` is an
  explicit `Tick`, or a `Second(draw)` event in a run.
- `Phase` is the only part of `currentScreen` the engine depends on. The
  interval runs only on the game screen (`Playing`). `handleRoundEnd` moves
  to the results screen (`Finished`). Every other screen is `Idle`, where
  the timer does not run.
- `handleAction` itself checks only `hasVoted`, and `Rounds.Vote` models
  exactly that. The action buttons are rendered only on the game screen, so
  the event-level `Rounds.Step` passes a button press on only while
  `Playing`.
- Crises are identified by their titles (`CrisisEvent`). Actions keep their
  id and their effect map, written as the `(key, delta)` entries that
  `Object.entries` yields, in declaration order.
- `getResultMessage` compares the floating-point average `total / 4`. The
  model compares the integer total with 4 × each threshold. `Classify`'s
  contract proves this gives the same tier as the comparison on the real
  average.
- The timer value never reaches 0: the updater fires the round end when the
  value is ≤ 1 and puts 60 back. So the invariant is `1 <= timeLeft <= 60`,
  and a round lasts exactly 60 one-second ticks (`Rounds.RoundExpires`).

## Model

| member | source | states |
|---|---|---|
| `StatVector.Clamp` | src/pages/Index.tsx:162-168 | the clamped value lies in [0, 100]; it is the input when the input is in range, 0 below the range, 100 above it |
| `StatVector.ApplyEntry` | src/pages/Index.tsx:162-168 | one effect entry sets its stat to the clamped sum of old value and delta and leaves the other three stats as they were |
| `StatVector.ApplyEffects` | src/pages/Index.tsx:160-171 | applying an action's entries in order keeps every stat in [0, 100] if all were in range before |
| `StatVector.ApplyAction` | src/pages/Index.tsx:160-171 | the copy-then-`forEach` loop of the setGameState updater returns exactly the entries applied in order |
| `StatVector.ApplyEffectsAt` | src/pages/Index.tsx:161-169 | with distinct keys, each stat the effect map names becomes clamp(old + delta) and each stat it does not name is unchanged |
| `StatVector.Decayed` | src/pages/Index.tsx:150-155 | after decay, each stat is clamp(old − 10/5/5/10) and lies in [0, 100]; from an in-range state no stat rises, and each falls by exactly its decay unless it would go below 0 |
| `StatVector.DecayIsEffectMap` | src/pages/Index.tsx:150-155 | the decay equals the effect map (−10, −5, −5, −10) applied through the same clamped path as an action |
| `Catalog.CrisesCatalog` | src/pages/Index.tsx:48-74 | the crisis catalog has five entries, all different, and contains every crisis |
| `Catalog.ActionsCatalog` | src/pages/Index.tsx:76-105 | four actions with distinct ids that raise four different stats; each raises the stat it is named after and lowers a different one; no effect map repeats a key |
| `Scoring.Total` | src/pages/Index.tsx:195 | the sum of four in-range stats lies in [0, 400] |
| `Scoring.Classify` | src/pages/Index.tsx:194-202 | the integer comparisons on the total give exactly the tier the real average picks: victory iff avg ≥ 70, stability iff 50 ≤ avg < 70, crisis iff 30 ≤ avg < 50, collapse iff avg < 30 |
| `Scoring.ClassifyMonotone` | src/pages/Index.tsx:197-201 | a larger total never gives a lower tier |
| `Scoring.ClassifyBoundaries` | src/pages/Index.tsx:197-201 | averages of exactly 70, 50 and 30 reach the tier above, one point below each does not; the starting stats classify as stability |
| `Rounds.Initial` | src/pages/Index.tsx:117-121 | the cells the component creates (initial stats, round 1, 60 seconds, first crisis, lock open) form a valid state, with the timer stopped |
| `Rounds.Start` | src/pages/Index.tsx:175-182 | startGame yields a valid, running state |
| `Rounds.Vote` | src/pages/Index.tsx:158-173 | a submission leaves the lock closed, keeps the state valid, and changes nothing but the stats and the lock |
| `Rounds.RoundEnd` | src/pages/Index.tsx:140-156 | at round ≥ 5 only the screen changes (to results); before that the round goes up by exactly 1, the crisis is the drawn catalog entry, the lock opens, the stats decay, and the state stays valid |
| `Rounds.Tick` | src/pages/Index.tsx:128-134 | with the timer stopped nothing changes; above 1 the timer only counts down by one; at ≤ 1 the round ends and the timer goes back to 60; validity (timer in [1, 60]) is kept |
| `Rounds.Step` | src/pages/Index.tsx:421-428 | any second, button press (game screen only) or restart keeps a valid state valid |
| `Rounds.Run` | src/pages/Index.tsx:124-182 | every state reached by a run of events from a valid state, in particular from the initial cells, has all stats in [0, 100], round in [1, 5] and timer in [1, 60] |
| `Rounds.VoteOnce` | src/pages/Index.tsx:159-172 | once the lock is closed a submission is a no-op, so two submissions in one round, even of different actions, have the effect of the first alone |
| `Rounds.VoteEffect` | src/pages/Index.tsx:161-169 | an accepted action moves exactly the stats its effect map names, each to clamp(old + delta) |
| `Rounds.RestartResets` | src/pages/Index.tsx:175-182 | from any state, a restart gives stats (60, 80, 20, 50), round 1, 60 seconds, the first crisis, the lock open and the game screen |
| `Rounds.FinishedIsFrozen` | src/pages/Index.tsx:141-144 | on the results screen no sequence of seconds and button presses changes anything: there is no sixth round and the final stats stay as they are |
| `Rounds.StepAdvancesRound` | src/pages/Index.tsx:128-148 | without a restart the round never goes down and rises by at most one, and only when the timer expires before the last round |
| `Rounds.CountDown` | src/pages/Index.tsx:128-134 | while seconds remain on the timer, a run of seconds only lowers the timer by their number |
| `Rounds.RoundExpires` | src/pages/Index.tsx:128-134 | exactly `timeLeft` seconds end the round, with the last second's draw, and put 60 back on the timer |
| `Session.Game.constructor` | src/pages/Index.tsx:117-121 | the fields start as the initial cells |
| `Session.Game.HandleRoundEnd` | src/pages/Index.tsx:140-156 | the fields become `Rounds.RoundEnd` of the old fields, and stay valid |
| `Session.Game.HandleAction` | src/pages/Index.tsx:158-173 | the fields become `Rounds.Vote` of the old fields, and stay valid |
| `Session.Game.Tick` | src/pages/Index.tsx:128-134 | the fields become `Rounds.Tick` of the old fields, and stay valid |
| `Session.Game.StartGame` | src/pages/Index.tsx:175-182 | the fields become `Rounds.Start()`, whatever they were |
| `Scenarios.EconomyThenExpiry` | src/pages/Index.tsx:81 | the economy action on a fresh game gives (75, 80, 20, 45); after 60 seconds, round 2 opens with (65, 75, 15, 35), the drawn crisis and the lock open |
| `Scenarios.IdleRounds` | src/pages/Index.tsx:128-155 | with no action, 60·k seconds (k < 5) reach round k + 1 with k decays applied |
| `Scenarios.FiveIdleRounds` | src/pages/Index.tsx:141-155 | with no action the stats fall to (20, 60, 0, 10); second 299 is still in round 5, and second 300 ends the game on the results screen without a sixth round |

## Left out

- Rendering: the JSX markup, radar charts, cards, buttons, the timer's
  `m:ss` display, and the verdicts' titles, colours and icons. These are
  presentation only.
- Screen navigation: the auth, menu, stats and settings screens, and the
  back button that leaves the game for the menu. They enter the model only
  as the `Idle` phase, in which the timer does not run. Returning from the
  menu always goes through `startGame`.
- `handleAuth`, the nickname input and the `UserProfile` record, including
  its floating-point win-rate rounding. No engine state depends on them.
- `setInterval`/`clearInterval` and React's effect and closure machinery.
  The model does not capture scheduling drift, or React calling a state
  updater twice in development strict mode (which would run
  `handleRoundEnd` twice in one expiry). Ticks are explicit calls instead.
- `Math.random()`: the crisis draw is a parameter, not a random source.
- Crisis descriptions and icons. The percentages in the descriptions are
  never applied to the stats by the code.
- A multiplayer variant (simulated participants, vote aggregation, an
  opposition flag and a sign-inverting diversion mode): this code has none of
  them.
- Stats are JavaScript numbers, but every value the code forms is an
  integer, so they are modelled as `int`.
