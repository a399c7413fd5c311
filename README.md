# Counter game rules, modelled in Dafny

This project models the sequential rules of a two-player terminal game
(Kiboya/rust-game). In each round both players try to stop a counter that
runs round the ring 0..100 as close as possible to target numbers. Each stop
is scored, the two turn averages are compared, and the difference is taken
off the loser's vitality. A surviving loser also takes a penalty of 5 speed
or 5 strength. Losing all speed ends the game at once.

The model has five modules, one per source file plus one for arithmetic:

- `Scoring` (scoring.dfy, `src/scoring.rs`): pure functions. These are the
  circular distance on the 101-position ring, the tier table, the division
  by laps, and the rounded-up mean. Lemmas state what the scores mean.
- `Counters` (counter.dfy, `src/counter.rs`): class `Counter` with the
  fields `value`, `miss` and `running`. One wake-up of the increment thread
  is the method `Tick`. `Run` is the increment loop, woken a given number of
  times. The function `Advance` specifies one tick, and `Ticks` specifies
  `n` ticks. A lemma gives the closed form `(n mod 101, n div 101)`.
- `Players` (player.dfy, `src/player.rs`): class `Player` whose three
  decrements saturate at zero. Each decrement may write only its own field.
- `Games` (game.dfy, `src/game.rs`): class `Game` holding the two players in
  a fixed array of length 2, plus the `gameOver` and `winnerIdx` flags. Its
  methods are specified by pure functions on a `GameState` value
  (`RoundOutcome`, `PenaltyOutcome`, `PlayRounds`, `WinnerIndex`). Lemmas
  about those functions state the round, penalty and end-of-game rules.
- `Arithmetic` (arithmetic.dfy): facts about multiplication and division
  that the other proofs use.

Widths are modelled as unbounded naturals. The penalty choice and the two
turn scores of each round are parameters (see "Left out").

Where the source's unit tests and its code disagree, the model follows the
code. The test at `src/scoring.rs:88-89` expects a score of 90 for target 15
and counter 95, which would need a distance of 20. The code measures
distance on a ring of 101 positions, where 95 and 15 are 21 apart, so the
score is 70 (`Scoring.WrapAroundExample`). The test at `src/scoring.rs:92-93`
(0 and 100 are 1 apart) needs that same 101-position ring. So the two tests
cannot both hold on one ring size, and no single correction is evident. The
test at `src/game.rs:253` expects player 2 to have speed 70, but `Game::new`
gives both players the same speed. The model follows `Game::new`
(`Games.NewGameStart`).

## Model

| member | source | states |
|---|---|---|
| `Scoring.DirectDistance` | src/scoring.rs:18-22 | the distance without wrapping: adding it to the smaller position gives the larger one |
| `Scoring.CircularDifference` | src/scoring.rs:18-27 | the smaller of the direct distance and the way round the 101-position ring; it is never more than 50; it is defined when the direct distance is at most 101, which avoids the unsigned underflow |
| `Scoring.BaseScore` | src/scoring.rs:30-37 | the tier is at most 100 and a multiple of 20; it is 100 exactly on a hit; it is at least 20 exactly when the difference is at most 50 |
| `Scoring.CalculateScore` | src/scoring.rs:15-41 | the score is the floor of (base + strength) / (miss + 1): score × (miss+1) ≤ base + strength < (score+1) × (miss+1) |
| `Scoring.ScoreSymmetric` | src/scoring.rs:18-27 | swapping target and counter changes neither the distance nor the score |
| `Scoring.RingStopEarnsAtLeastTwenty` | src/scoring.rs:27-37 | for positions on the ring the score is defined and the base score is at least 20, so the zero tier is never reached |
| `Scoring.BaseScoreNonIncreasing` | src/scoring.rs:30-37 | a closer stop never earns a lower tier |
| `Scoring.ScoreNonIncreasingInMiss` | src/scoring.rs:40 | more wrap-arounds never raise the score |
| `Scoring.ScoreExamples` | src/scoring.rs:66-98 | the score values the unit tests check: every tier, the wrap from 0 to 100, and division by misses |
| `Scoring.WrapAroundExample` | src/scoring.rs:87-89 | 15 and 95 are 21 apart on the ring, and the code scores that stop 70 |
| `Scoring.CalculateAverageScore` | src/scoring.rs:52-60 | 0 for no scores; otherwise the ceiling of the mean, i.e. the least value whose product with the count reaches the sum |
| `Scoring.Sum` | src/scoring.rs:57 | the sum of a turn's scores is at least each single score; `Scoring.SumAtLeast` and `Scoring.SumAtMost` bound it by the count times the smallest and the largest score |
| `Scoring.SumAtLeast` | src/scoring.rs:57 | if every score is at least lo, the sum is at least count × lo |
| `Scoring.SumAtMost` | src/scoring.rs:57 | if every score is at most hi, the sum is at most count × hi |
| `Scoring.AverageWithinRange` | src/scoring.rs:57-59 | the rounded-up mean of a non-empty turn lies between its smallest and largest score |
| `Scoring.AverageOfOne` | src/scoring.rs:57-59 | the mean of one score is that score |
| `Scoring.AverageExamples` | src/scoring.rs:100-113 | the average values the unit tests check, including the empty turn and rounding 10.5 up to 11 |
| `Counters.Advance` | src/counter.rs:45-52 | one increment keeps the value in 0..100 and moves the position (miss × 101 + value) on by exactly one: from below 100 it counts up with the same misses, and from 100 it goes to 0 with one more miss |
| `Counters.Ticks` | src/counter.rs:42-53 | any number of increments keeps the value in 0..100 |
| `Counters.TicksAddToPosition` | src/counter.rs:42-53 | n increments move the position on by exactly n |
| `Counters.TicksFromZero` | src/counter.rs:42-53 | after n increments from a reset the counter shows n mod 101 and has missed n div 101 times |
| `Counters.TickAfterStartIsVisible` | src/counter.rs:87-98 | after a reset and at least one increment, the value or the misses are positive |
| `Counters.WrapExamples` | src/counter.rs:8 | 101 increments give (0, 1), 150 give (49, 1), and 202 give (0, 2) |
| `Counters.Counter.constructor` | src/counter.rs:17-23 | a new counter is (0, 0, not running) |
| `Counters.Counter.Start` | src/counter.rs:35-38 | start resets to (0, 0, running) whatever the previous state |
| `Counters.Counter.Tick` | src/counter.rs:42-53 | one wake-up: while running the state advances by `Advance` and stays in 0..100; once stopped nothing changes |
| `Counters.Counter.Run` | src/counter.rs:42-53 | the increment loop: n wake-ups while running leave the state at `Ticks(n, …)`; a stopped counter is unchanged |
| `Counters.Counter.Stop` | src/counter.rs:62-67 | clears `running` and returns the current value and misses, leaving both as they were |
| `Counters.Counter.GetDisplayValues` | src/counter.rs:71-77 | reads value, misses and running flag without changing them; the value read is at most 100 |
| `Counters.StopAfter` | src/game.rs:120-126 | a new counter that is started, woken n times and stopped reports (n mod 101, n div 101), and something other than (0, 0) when n ≥ 1 |
| `Players.SaturatingSub` | src/player.rs:55-63 | the result is never above the original; it is 0 exactly when the amount reaches the original, and otherwise it is the original minus the amount |
| `Players.Player.constructor` | src/player.rs:26-33 | name, vitality, speed and strength are stored exactly as given |
| `Players.Player.DecreaseVitality` | src/player.rs:61-63 | vitality becomes the saturating difference, and name, speed and strength are unchanged |
| `Players.Player.DecreaseSpeed` | src/player.rs:71-73 | speed becomes the saturating difference, and name, vitality and strength are unchanged |
| `Players.Player.DecreaseStrength` | src/player.rs:81-83 | strength becomes the saturating difference, and name, vitality and speed are unchanged |
| `Players.DecrementExamples` | src/player.rs:99-130 | the decrements the unit tests check, including the ones that stop at 0 |
| `Games.NewGameStart` | src/game.rs:33-45 | a new game gives both players the same vitality, speed and strength with their own names; it is not over, no winner is recorded, and rounds are played exactly when vitality is positive |
| `Games.Game.constructor` | src/game.rs:33-45 | the new game's state is `NewGame` of the arguments, with two distinct fresh players |
| `Games.WinnerIndex` | src/game.rs:77-83 | the announced winner is one of the two players |
| `Games.DecisiveRoundDamagesLoser` | src/game.rs:172-185 | in a decided round the winner is untouched, and the loser's vitality drops by the score difference, stopping at zero |
| `Games.DrawChangesNothing` | src/game.rs:192-195 | a draw leaves the whole game state as it was |
| `Games.NoPenaltyAfterKnockout` | src/game.rs:179-191 | a loser left with no vitality takes no penalty, and the game flags are unchanged |
| `Games.SpeedPenaltyRule` | src/game.rs:212-223 | penalty 0 takes 5 speed from a surviving loser, stopping at zero; if no speed is left, the game is over and the round's winner is recorded; otherwise the flags are unchanged |
| `Games.StrengthPenaltyRule` | src/game.rs:224-227 | penalty 1 takes 5 strength from a surviving loser, stopping at zero, and never touches speed or the game flags |
| `Games.RoundNeverRaisesAttributes` | src/game.rs:171-230 | no round raises any attribute of either player or renames them |
| `Games.RoundsNeverRaiseAttributes` | src/game.rs:57-71 | no sequence of rounds raises any attribute of either player or renames them |
| `Games.RoundEndsWithRightfulWinner` | src/game.rs:171-230 | a round played under the loop guard keeps "over exactly when a winner is recorded"; if it ends the game, the announced winner still has vitality and the other player has no vitality or no speed |
| `Games.GameEndsWithRightfulWinner` | src/game.rs:57-83 | from a running game, whatever rounds follow: once the loop guard fails, the announced winner still has vitality and the other player has no vitality or no speed |
| `Games.PlayOneMore` | src/game.rs:57-71 | when the guard still holds, one more round of the loop is `RoundOutcome` applied to the state so far |
| `Games.Game.ApplyPenalty` | src/game.rs:204-230 | the new state is `PenaltyOutcome` of the old one: only the loser and the flags can change |
| `Games.Game.ProcessRoundResult` | src/game.rs:171-196 | the new state is `RoundOutcome` of the old one and the two scores |
| `Games.Game.Run` | src/game.rs:52-95 | rounds are played while the guard holds; the final state is `PlayRounds` of the inputs; if inputs remain the guard has failed; once the guard has failed it returns `Some` of the winner the code announces, and from a running game that winner still has vitality while the other player has no vitality or no speed; while the guard still holds (the inputs ran out) it returns `None` |
| `Games.NewGame` | src/game.rs:33-45 | a new game is over exactly when a winner is recorded, has no winner, and plays its first round exactly when the starting vitality is positive |
| `Games.Continues` | src/game.rs:57 | in a game that is over exactly when a winner is recorded, the loop goes on exactly while no winner is recorded and both players have vitality |
| `Games.PenaltyOutcome` | src/game.rs:204-230 | the result still has two players and a winner index below 2; `Games.SpeedPenaltyRule` and `Games.StrengthPenaltyRule` state what each penalty does |
| `Games.DecidedRound` | src/game.rs:172-191 | the result still has two players and a winner index below 2; `Games.DecisiveRoundDamagesLoser` and `Games.NoPenaltyAfterKnockout` state the damage and when the penalty is skipped |
| `Games.RoundOutcome` | src/game.rs:171-196 | the result still has two players and a winner index below 2; `Games.RoundEndsWithRightfulWinner`, `Games.RoundNeverRaisesAttributes` and `Games.DrawChangesNothing` are its partner lemmas |
| `Games.PlayRounds` | src/game.rs:57-71 | the result still has two players and a winner index below 2; `Games.GameEndsWithRightfulWinner` and `Games.RoundsNeverRaiseAttributes` are its partner lemmas |

## Left out

- Threads and locks (`src/counter.rs:31-54`, the display thread in `src/ui.rs:10-29`). Each wake-up of the increment thread is one atomic `Tick`. The model does not cover the extra increment the real loop can make after `stop`: it checks `running`, sleeps, then increments without checking again. Nor does it cover torn reads. The increment thread holds the `value` lock while it wraps to 0 and bumps `miss` (`src/counter.rs:44-52`). Both readers read `value` first and `miss` second, each under its own lock (`src/counter.rs:64-65`, `src/ui.rs:22-23`). So a reader can see the old value 100 together with the already incremented miss count. It never sees 0 with the old miss count.
- Counters.Counter.Start: the tick interval (`speed_ms`) is not modelled, because it only sets the pace. Starting an already running counter spawns a second increment thread in the source. The model only resets the fields.
- Counters.Counter.Run: the number of wake-ups before the stop request is seen is a parameter. In the source it depends on wall-clock time.
- Games.Game.Run: the turns (`play_turn`, `src/game.rs:106-152`) are replaced by the two average scores of each round, given as input with the winner's penalty choice. The method returns the number of rounds played and, once the loop guard has failed, `Some` of the announced winner's index. If the inputs run out while the guard still holds it returns `None`; the source would go on playing rounds. The source prints the winner's name and then returns the player's answer to "play again", read from standard input.
- Games.Game.ApplyPenalty: the choice is a parameter that must be 0 or 1. The source reads it from standard input, and any other index reaches `unreachable!()`.
- `generate_targets` (`src/game.rs:160-163`): it draws random numbers. Its contract is that it returns `target_count` targets, each at most 100; `target_count` is stored in `Game.targetCount` and otherwise unused.
- Scoring.CalculateAverageScore: the source divides in `f64` and rounds up with `ceil`. The model uses integer ceiling division. The `u32` sum can overflow in the source; the model's sum cannot.
- Scoring.CalculateScore: `base + strength` can overflow `u32` in the source; the model does not. The model requires the direct distance to be at most 101, where the source's `101 - direct_distance` does not underflow. In a release build the subtraction wraps instead, which makes the zero tier reachable for positions more than 101 apart.
- Counters.Counter.Tick: `miss` is unbounded; the source's `u32` could in principle overflow after 2^32 laps.
- The display-only expression `score * (miss + 1) - strength` (`src/game.rs:139`) is not modelled. It is not a promised behaviour and can underflow.
- Terminal and standard-input handling (`src/ui.rs`, the prompts and headings in `src/game.rs`), argument parsing (`src/main.rs`) and the error wrapper (`src/error.rs`) are not modelled. They contain no game rules.
- The player getters (`src/player.rs:36-53`) are plain field reads (`Name`, `Vitality`, `Speed`, `Strength`) with no contract of their own.
