# Wolf, goat and cabbage: environment and tabular Q-learning

This project models the core of a small reinforcement-learning program.
The program sets up the wolf, goat and cabbage river crossing as an
environment and trains a tabular Q-learning agent on it.

- `environment.dfy` (module `Environment`) covers the puzzle environment.
  - A state is three sets: the left bank, the boat ("transport") and the right bank.
  - Sixteen indexed actions move the rower alone, or the rower with one piece of cargo, between a bank and the transport. An action whose guard fails leaves the state unchanged.
  - The validity rule, the goal test and the reward are modelled here.
  - `Step` replaces the current state with the next one. It reports done on an invalid state or on the goal, and never clears the environment's done flag. `Reset` returns to the fixed start.
- `canon.dfy` (module `Canon`) covers the canonical key of a state: each set sorted into a sequence. Sorting follows the code-point order of the four glyphs: goat, wolf, boat, cabbage.
- `qlearning.dfy` (module `QLearning`) covers the learning side.
  - The action-value table is a map from (key, action) to a real value, with missing entries read as 0.
  - The greedy target policy keeps the first maximum.
  - The one-step update writes a single entry.
  - The episode loop and the per-episode returns are modelled here.
- `solution.dfy` (module `Solution`) holds a concrete fourteen-action play that wins from the start.

The random exploratory policy becomes a supplied sequence of action indices.
Training draws the actions of each episode from that sequence, continuing where the previous episode stopped.

## Model

| member | source | states |
|---|---|---|
| Environment.Move | WolfGoatCabbageEnv.py:49-51 | the entity leaves its source set and joins the destination set; the third location is untouched; a partitioned state stays partitioned |
| Environment.NextState | WolfGoatCabbageEnv.py:142-220 | when the guard holds, the rower and any cargo leave the source and join the destination; the third location is untouched; the partition is preserved |
| Environment.NoOpIffDisabled | WolfGoatCabbageEnv.py:144-220 | on any state, any of the table's actions returns its input unchanged exactly when its guard is false |
| Environment.ActionAt | WolfGoatCabbageEnv.py:77-97 | every index 0..15 names an action between a bank and the transport, and exactly the last four (12..15) move the rower alone |
| Environment.Enabled | WolfGoatCabbageEnv.py:146-218 | whenever an action's guard holds, everything it relocates (the boat, and any cargo) is at its source |
| Environment.SingletonBoat | WolfGoatCabbageEnv.py:155-160 | the "transport has one element and holds the boat" guard means the transport is exactly {boat} |
| Environment.NextStateKeepsInv | WolfGoatCabbageEnv.py:146-218 | a guarded move keeps the partition; the transport stays empty, {boat} or {boat, one cargo} |
| Environment.IsValid | WolfGoatCabbageEnv.py:121-132 | a state is valid iff it is the goal, or on neither bank a predator is with its prey without the boat; the transport is never examined |
| Environment.IsWin | WolfGoatCabbageEnv.py:67-68 | a won state is partitioned, valid and has an empty transport |
| Environment.ValidityIgnoresTransport | WolfGoatCabbageEnv.py:121-132 | apart from the goal, two states with the same banks are equally valid |
| Environment.ValidPartitioned | WolfGoatCabbageEnv.py:121-132 | on partitioned states, validity is exactly the safety of both banks |
| Environment.Reward | WolfGoatCabbageEnv.py:59-62 | the reward is 0 or 100, and nonzero exactly on the goal |
| Environment.InvalidEarnsNothing | WolfGoatCabbageEnv.py:121-123 | an invalid next state earns 0, because the goal is always valid |
| Environment.Reset | WolfGoatCabbageEnv.py:222-226 | everything is on the left bank, the state is partitioned, valid and not won, and done is cleared |
| Environment.Step | WolfGoatCabbageEnv.py:97-113 | the committed state is the action's next state; done iff invalid or won; the environment's flag is never cleared; 100 iff won |
| Environment.RunKeepsInv | WolfGoatCabbageEnv.py:142-220 | any run of in-range actions keeps the partition and capacity invariant |
| Environment.ReachableInv | WolfGoatCabbageEnv.py:222-226 | from a reset, after any in-range actions, every entity is at exactly one location and the boat carries at most one piece of cargo |
| Environment.Trace | WolfGoatCabbageEnv.py:74-113 | stepping through the actions yields one step result per action |
| Environment.TraceSteps | WolfGoatCabbageEnv.py:97-113 | the first result is the step from the given environment, and each later result is the step from the environment the previous one left |
| Environment.RunIsTraceEnd | WolfGoatCabbageEnv.py:97-113 | stepping through a nonempty run of actions ends in the environment the last step result leaves, so the states of `Run` and of an episode's steps agree |
| Environment.TraceFollows | WolfGoatCabbageEnv.py:97-113 | stepping through the actions visits the given states, with each step's reward and done flag |
| Environment.TraceToGoal | WolfGoatCabbageEnv.py:97-113 | a run through valid states that first wins on its last step is done and rewarded only on that step |
| Environment.TraceRewards | WolfGoatCabbageEnv.py:99-113 | every step earns 0 or 100, earns 100 iff it lands on the goal, and earns only on a done step |
| Solution.PlanStep | WolfGoatCabbageEnv.py:142-220 | each action of the plan leads from one waypoint to the next, valid one; only the last waypoint is the goal |
| Solution.PlanFollowsWaypoints | WolfGoatCabbageEnv.py:77-93 | the plan's indices are in range and visit the waypoints in order |
| Solution.PlanSolvesPuzzle | WolfGoatCabbageEnv.py:74-113 | from the start, the plan reaches the goal through valid states; only the last step is done, and only it earns 100 |
| Canon.Sorted | utils.py:9 | the listing is strictly ascending in code-point order, has exactly the set's members, and has the set's size |
| Canon.StateToKey | utils.py:8-9 | three components in location order, each strictly sorted, with exactly that location's members and its size |
| Canon.KeyRoundTrip | utils.py:8-9 | reading a key back as sets gives back the same state |
| Canon.SortedUnique | utils.py:9 | two strictly sorted listings with the same members are equal, so construction order does not matter |
| Canon.KeyOfState | utils.py:8-9 | every well-sorted key is the key of the state it reads as |
| Canon.StateToKeyInjective | utils.py:8-9 | two states have the same key iff they are equal |
| QLearning.Value | Q_learning.py:39-40 | a stored pair reads its stored value, and a pair never written reads 0 |
| QLearning.BestAmong | Q_learning.py:13-14 | the result is among the first n actions; its value is at least every other's; it beats every lower index strictly |
| QLearning.TargetPolicy | Q_learning.py:12-14 | the result is in 0..15, is of maximal value (missing entries read 0), and is the lowest index of that value |
| QLearning.TargetPolicyUnique | Q_learning.py:13-14 | the policy picks any action that is maximal and strictly beats every lower index |
| QLearning.TargetPolicyOnTies | Q_learning.py:13-14 | when all 16 actions tie, the policy picks action 0 |
| QLearning.UnseenStatePicksFirst | Q_learning.py:13-14 | in a state with no table entries, the policy picks action 0 |
| QLearning.NextAction | Q_learning.py:36 | there is no next action exactly when the step is done; otherwise it is in 0..15 and no action of the next state has a greater value |
| QLearning.MaxValue | Q_learning.py:36-40 | the bootstrap value is at least every action's value in that state and is attained by one of them |
| QLearning.Update | Q_learning.py:36-43 | only (state, action) is written and the key set grows by it; the new value moves alpha of the way to reward + gamma * (0 if done, else the best value of the next state) |
| QLearning.UpdateIsLocal | Q_learning.py:39-43 | every other pair reads the same value after the update |
| QLearning.TowardsBetween | Q_learning.py:42 | for a step size between 0 and 1, the new value lies between the current value and the target |
| QLearning.UpdateBetween | Q_learning.py:39-43 | for alpha between 0 and 1, the updated entry lies between its value before the update and the one-step target |
| QLearning.StepsTaken | Q_learning.py:30-33 | an episode takes steps up to and including the first done one, or all supplied steps if none is done |
| QLearning.SummaryUnique | Q_learning.py:30-34 | only one (steps used, return, finished) triple stops at the first done step, so the episode's outcome is determined by its steps |
| QLearning.Replay | Q_learning.py:35-45 | updating transition after transition only ever adds keys to the table, and the first transition's (state, action) gets an entry |
| QLearning.Learn | Q_learning.py:28-45 | the episode stops after its first done step, or uses every supplied step when none is done; its return adds up the rewards of the steps it took; the table only gains keys, and the first (state, action) pair gets an entry |
| QLearning.EpisodeReturn | Q_learning.py:29-34 | an episode's return is 0 or 100, and 100 iff it ended on the goal |
| QLearning.NoRewardBeforeDone | Q_learning.py:34 | steps that are not done earn nothing in total |
| QLearning.PlanEpisodeWins | Q_learning.py:27-45 | an episode following the winning plan from the start uses all 14 actions, finishes, and returns 100 |
| QLearning.RunEpisode | Q_learning.py:27-45 | one episode from an environment: it steps through the supplied actions from the given position and stops at the first done step; it returns 0 or 100, and 100 iff it finished on the goal; the table only gains keys, and when an action is available the start state's key with that first action gets an entry |
| QLearning.LogStartsAtZero | Q_learning.py:24-27 | a training log has one more start than returns, and the first episode starts at the beginning of the supply |
| QLearning.LogRecords | Q_learning.py:24-46 | each logged episode runs from its start to the next one, stops at its first done step, and its logged return is the sum of its rewards |
| QLearning.LogBounds | Q_learning.py:24-46 | the starts of a log climb strictly within the supply: every logged episode takes at least one action |
| QLearning.LogExtend | Q_learning.py:46 | appending a finished episode that starts where the log ends gives a log again |
| QLearning.LogReturns | Q_learning.py:29-46 | every logged return is 0 or 100 |
| QLearning.TrainRound | Q_learning.py:27-46 | a round either appends one finished episode to the log, or leaves the log as it is because the rest of the supply has no done step; the table only gains keys, and the pair of the start key and the round's first action gets an entry |
| QLearning.TrainFrom | Q_learning.py:21-47 | training from any fixed starting environment keeps a log as for Train, with `drawn` the position reached in the supply; with at least one episode and one supplied action, the start key with the first action gets an entry |
| QLearning.Train | Q_learning.py:21-47 | every episode starts from a reset environment; episode i takes the supplied actions from starts[i] to starts[i + 1], stops at its first done step and records its return rets[i], which is 0 or 100; fewer than `episodes` returns only when the supply runs out with no done step; the table never loses a key; with at least one episode and one supplied action, the start key with the first action gets an entry |

## Left out

- Random exploration: the uniform random draw of the exploratory policy is replaced by a supplied finite sequence of action indices.
- QLearning.Train: when the supplied actions run out mid-episode, that episode is not recorded and training stops. In the program, exploration never runs out, and an episode that never reaches a done step never ends. So "exactly `episodes` returns" becomes "fewer returns only when the supply runs out with no done step", and the log then shows that the rest of the supply has no done step.
- QLearning.RunEpisode: steps are computed for every supplied action and the episode uses the prefix up to the first done step. This is equivalent to stepping until done, because stepping is a pure function of the state.
- Floating point: values and the update arithmetic use exact reals, with no rounding.
- The module-level table and environment: the table is an explicit parameter of the policy and of the update, and the environment is a value. `target_policy` reads the global table in the program, which is the same table that training updates.
- The unused `min_epsilon`/`max_epsilon` locals and the progress bar.
- The constructor's `start_state` and `goal_state` parameters: only the defaults are used by training, and `reset` ignores `start_state` anyway.
- The gym action and observation space declarations and `render`: framework scaffolding and printing.
- Out-of-range action indices: Python would wrap a negative index or raise an error. Every operation instead requires indices in 0..15.
- The other helpers in utils.py (rendering, plotting, heat maps, testing wrappers) and main.py (entry point and plotting).
- Whether a trained greedy policy reaches the goal more often than an untrained one: the answer depends on random exploration over many episodes, so it is not a property of any single run.
- QLearning.Replay: does not state which value each visited pair ends up with after a whole episode, nor that every visited pair gets an entry. It states this only for the first transition. The value of a single update is stated by QLearning.Update.
- QLearning.Learn: states the table's growth and the first pair's entry, but not the values the episode leaves in the table, for the same reason as QLearning.Replay.
- QLearning.RunEpisode: states the table's growth and the entry for the episode's first pair, but not the values the episode leaves in the table, as for QLearning.Learn.
- QLearning.TrainRound: states the table's growth and the entry for the round's first pair, but not the values the round leaves in the table, as for QLearning.Learn.
- QLearning.TrainFrom: states the table's growth and the entry for the first episode's first pair, but not the values training leaves in the table, as for QLearning.Learn.
- QLearning.Train: states the table's growth and the entry for the first episode's first pair, but not the values training leaves in the table, as for QLearning.Learn.
- The classical solution has seven crossings. In this program each crossing is two actions (board at one bank, then land at the other), so the plan has fourteen actions.
