# Multi-armed bandit decision policies, in Dafny

A model of the decision-policy engine of `Homework2/Bandit.py`. The engine simulates a multi-armed bandit over a fixed list of arm values `true_means` with two policies:

- **Epsilon-greedy** (`EpsilonGreedy`). It keeps a pull count and a running sample mean per arm. `pull` explores a uniformly drawn arm when `random.random() < epsilon`. Otherwise it exploits `action_values.index(max(action_values))`, the first arm of maximal estimate. `update` bumps the count and applies `v += (1/n) * (reward - v)`. `report` averages the K estimates without weights and subtracts that from the best true mean.
- **Thompson sampling** (`ThompsonSampling`). It keeps Beta pseudo-counts `alpha` and `beta`, both starting at 1. `pull` takes the first argmax of one Beta sample per arm. `update` bumps `alpha` when the reward is exactly 1 and `beta` otherwise. `report` is `sum(alpha) / (sum(alpha) + sum(beta))` and its gap to the best true mean.
- **`experiment(num_trials)`**, for both policies. It runs select / observe / update once per trial. The observed reward is always `true_means[arm]`.
- **The arithmetic of `Visualization.report_cumulative_reward_and_regret`**: the total reward of each run and the cumulative regret `max(true_means) * len(rewards) - sum(rewards)`.

Modules, one per component:

- `Arms` (`arms.dfy`) holds the shared pieces. These are the `Result`/`Error` outcome of a failing Python call, a `Trial` (arm, reward), `Sum`, `Max`, `IndexOf`, and `ArgMax`, which is `s.index(max(s))`. It also holds the per-arm view `RewardsFor` of a reward history.
- `EpsilonGreedy` (`epsilon_greedy.dfy`) and `ThompsonSampling` (`thompson_sampling.dfy`) are the two policies. Each bandit object is an immutable `State` record, and each method is a pure function from state to state. `Replay` applies `update` to a whole history. `Experiment` recurses over a sequence of random draws and returns the final state together with the trials. The list the source returns is `Rewards(trials)`.
- `Visualization` (`visualization.dfy`) holds the cumulative reward and regret.

Randomness is an input:

- An epsilon-greedy pull consumes a `Draw(coin, index)`. `coin` is `random.random()` in [0, 1). `index` is `random.randint(0, K-1)`.
- A Thompson pull consumes a sequence of K already-sampled values.
- `experiment(num_trials)` consumes one such input per trial, so `num_trials` is the length of that sequence.

Rewards, means and estimates are Dafny `real`s, so the running-mean identity holds exactly.

Empty arm lists are modelled as the error the source would raise, not excluded by a precondition:

- `max([])` and `randint(0, -1)` raise ValueError. In the model this is `Err(EmptySequence)`.
- `betavariate` with a parameter that is not positive raises ValueError. In the model this is `Err(NonPositiveParameter)`. A Thompson bandit built by the constructor never reaches such a state, but `pull` is defined on every state.
- A mean over zero arms raises ZeroDivisionError. In the model this is `Err(DivisionByZero)`.

Behaviour of the code that the model keeps as written:

- The constructors validate nothing (any K, any epsilon), and `experiment` accepts any `num_trials`. Failures surface only where Python raises: in `pull` and `report` when K = 0, in the Thompson `pull` when a pseudo-count is zero, and in the Thompson `report` when every pseudo-count is zero (a state the constructor never produces). A non-positive `num_trials` gives `range` nothing to iterate, which is the empty draw sequence here.
- The Thompson `report` divides by `(sum(alpha) + sum(beta))`, with the parentheses.
- Arms [0, 1] after `update(0, 1)` give `alpha = [2, 1]` and `beta = [1, 1]`, so `report` gives average reward 3/5 and average regret 2/5 (`ThompsonSampling.ReportAfterOneSuccess`).
- With arms [1, 2, 3, 4] and epsilon 0, arm 0 is pulled on every trial: all estimates start at 0, ties go to the first index, and arm 0's estimate then stays at 1. Every reward is 1, and the cumulative regret is exactly 3 per trial (`EpsilonGreedy.ExploitOnlyLocksOnFirstArm`, `Visualization.ExploitOnlyRegretOnDriverArms`).
- `ThompsonSampling` never touches `action_counts` or `estimated_means`. `ThompsonSampling.Update` and `ThompsonSampling.Replay` state that both stay as constructed.

## Model

| member | source | states |
|---|---|---|
| Arms.Max | Homework2/Bandit.py:70 | `max` of a non-empty list is one of its elements and no element exceeds it |
| Arms.IndexOf | Homework2/Bandit.py:70 | `list.index(x)` is a position holding `x` with no earlier position holding `x` |
| Arms.ArgMax | Homework2/Bandit.py:70 | `s.index(max(s))` is in range, holds a maximal element, and every earlier element is strictly smaller (first-occurrence tie-break) |
| Arms.SumAppend | Homework2/Bandit.py:181-182 | Python's `sum` of a concatenation is the sum of the two parts' sums |
| Arms.ArgMaxCharacterised | Homework2/Bandit.py:70 | an index is the first-occurrence maximum if and only if it is the one `s.index(max(s))` returns |
| Arms.RewardsForObserved | Homework2/Bandit.py:79-83 | every reward the loop records for an arm is one of the true means |
| EpsilonGreedy.Init | Homework2/Bandit.py:56-61 | a new epsilon-greedy bandit has K zero counts, K zero estimates and K zero base-class estimates, keeping `true_means` and `epsilon` (0.2 when none is given) |
| EpsilonGreedy.Pull | Homework2/Bandit.py:66-70 | `pull` fails exactly when there are no arms; otherwise it returns an arm below K, the drawn index when the coin is below epsilon, and the first arm of maximal estimate otherwise; it reads the state without changing it |
| EpsilonGreedy.ZeroEpsilonAlwaysExploits | Homework2/Bandit.py:66-70 | with epsilon at most 0, `pull` is always the first argmax of the estimates |
| EpsilonGreedy.UnitEpsilonAlwaysExplores | Homework2/Bandit.py:66-68 | with epsilon at least 1, `pull` is always the randomly drawn index |
| EpsilonGreedy.Update | Homework2/Bandit.py:72-75 | `update(arm, r)` raises `action_counts[arm]` by exactly one and adds `r` to the arm's running total `value * count`; every other arm's count and value, K, `true_means` and `epsilon` are unchanged |
| EpsilonGreedy.UpdateAccumulates | Homework2/Bandit.py:72-75 | for any arm `a`, one update adds one to `a`'s count and `r` to `a`'s running total if it names `a`, and changes neither otherwise |
| EpsilonGreedy.Replay | Homework2/Bandit.py:72-75 | any sequence of updates keeps every per-arm list at length K and leaves `true_means`, `epsilon` and the base-class estimates alone |
| EpsilonGreedy.ReplayAccumulates | Homework2/Bandit.py:72-75 | after a sequence of updates, arm `a`'s count has grown by the number of updates to `a`, and its running total by the sum of their rewards, whatever updates to other arms are interleaved |
| EpsilonGreedy.FreshTotal | Homework2/Bandit.py:60-75 | from a new bandit, arm `a`'s count is its number of updates and `value * count` is the sum of its rewards |
| EpsilonGreedy.IncrementalMean | Homework2/Bandit.py:60-75 | from a new bandit, `action_counts[a]` is the number of updates to `a`, and `action_values[a]` is exactly `(r1 + ... + rn) / n` over their rewards (0.0 before the first) |
| EpsilonGreedy.NoTrialsLeaveArmUntouched | Homework2/Bandit.py:72-75 | an arm that no update names keeps its estimate |
| EpsilonGreedy.Experiment | Homework2/Bandit.py:77-84 | `experiment` fails only when there are no arms and at least one trial; otherwise it records one trial per draw, each trial's reward is the true mean of its arm, and the final bandit is the updates of those trials applied in order |
| EpsilonGreedy.ExploringTrialsUseDrawnIndex | Homework2/Bandit.py:77-84 | in an experiment, every trial whose coin fell below epsilon pulled the drawn random index |
| EpsilonGreedy.ExploitingTrialsUseFirstMax | Homework2/Bandit.py:66-84 | in an experiment, every trial whose coin did not fall below epsilon pulled the first arm of maximal estimate in the bandit as the earlier trials' updates left it |
| EpsilonGreedy.ExperimentRewards | Homework2/Bandit.py:77-84 | with K at least 1, the returned list has exactly `num_trials` entries and entry `t` is `true_means[arm_t]` for an in-range arm |
| EpsilonGreedy.LockedStep | Homework2/Bandit.py:66-75 | an exploit-only bandit that has only pulled arm 0, with `true_means[0] >= 0`, arm 0's estimate equal to `true_means[0]` (or 0 before its first pull) and every other estimate 0, pulls arm 0 again and stays in that state |
| EpsilonGreedy.SettledUpdate | Homework2/Bandit.py:72-75 | updating an arm with a reward equal to its estimate (or its first reward) leaves the estimate at that reward |
| EpsilonGreedy.ExploitOnlyLocksOnFirstArm | Homework2/Bandit.py:66-84 | with epsilon at most 0 and a non-negative first arm, every trial of an experiment from a new bandit pulls arm 0 and observes `true_means[0]` |
| EpsilonGreedy.ExploitOnlyRewards | Homework2/Bandit.py:66-84 | with epsilon at most 0 and a non-negative first arm, the list `experiment` returns holds `true_means[0]` once per trial |
| EpsilonGreedy.Report | Homework2/Bandit.py:86-88 | `report` fails exactly when there are no arms; otherwise the average reward is at most the largest estimate, and average reward plus average regret is the best true mean |
| EpsilonGreedy.EstimateAtMostBestArm | Homework2/Bandit.py:72-84 | after an experiment from a new bandit, every pulled arm's estimate is at most `max(true_means)` |
| EpsilonGreedy.ReportRegretNonNegative | Homework2/Bandit.py:86-88 | after an experiment from a new bandit, if the best true mean is non-negative, then the reported average regret is non-negative |
| EpsilonGreedy.NegativeArmsGiveNegativeRegret | Homework2/Bandit.py:86-88 | with all true means negative, the unweighted average counts untried arms as 0 and the average regret can be negative (-0.5 for arms [-1, -2]) |
| ThompsonSampling.Init | Homework2/Bandit.py:93-96 | a new Thompson bandit has `alpha` and `beta` all 1, K zero counts and K zero base-class estimates |
| ThompsonSampling.Pull | Homework2/Bandit.py:101-103 | given one sample per arm, `pull` fails with the `betavariate` error when some pseudo-count is zero, otherwise with the `max` error exactly when there are no arms; when it succeeds it returns the first index of the maximal sample, below K; it does not change `alpha` or `beta` |
| ThompsonSampling.ZeroPseudoCountFails | Homework2/Bandit.py:102 | one arm with `alpha = 0`: `pull` fails although K = 1 |
| ThompsonSampling.Update | Homework2/Bandit.py:105-109 | `update(arm, r)` raises exactly one of `alpha[arm]` and `beta[arm]` by one, `alpha` if and only if `r == 1`; all other entries and the counts stay; pseudo-counts at least 1 stay at least 1 |
| ThompsonSampling.Replay | Homework2/Bandit.py:105-109 | any sequence of updates keeps the lengths, `true_means`, `action_counts` and `estimated_means`, and keeps every pseudo-count at least 1 |
| ThompsonSampling.ReplayCounts | Homework2/Bandit.py:105-109 | a sequence of updates adds to `alpha[a]` the number of updates to `a` with reward 1, and to `beta[a]` the number of the other updates to `a` |
| ThompsonSampling.ConjugateCounts | Homework2/Bandit.py:95-109 | from a new bandit, `alpha[a] - 1` counts the updates to `a` with reward 1 and `beta[a] - 1` the others, so `alpha[a] + beta[a] - 2` is the number of updates to `a`; both stay at least 1 |
| ThompsonSampling.Experiment | Homework2/Bandit.py:111-118 | `experiment` fails exactly when there is at least one trial and either no arm or a zero pseudo-count; otherwise it records one trial per sample vector, each reward is the true mean of its arm, and the final bandit is those updates applied in order |
| ThompsonSampling.PulledArmsAreFirstMaxima | Homework2/Bandit.py:111-118 | every trial of an experiment pulled the first maximum of that trial's samples |
| ThompsonSampling.ExperimentRewards | Homework2/Bandit.py:111-118 | with K at least 1 and every pseudo-count positive, the returned list has exactly `num_trials` entries and entry `t` is `true_means[arm_t]` for an in-range arm |
| ThompsonSampling.Report | Homework2/Bandit.py:120-122 | `report` fails exactly when there are no arms or no pseudo-counts; otherwise the average reward lies in [0, 1], and strictly inside when every pseudo-count is at least 1; average reward plus average regret is the best true mean |
| ThompsonSampling.PseudoCountTotals | Homework2/Bandit.py:121 | with every pseudo-count at least 1, `sum(alpha)` and `sum(beta)` are each at least K |
| ThompsonSampling.ReportStrictlyBetweenZeroAndOne | Homework2/Bandit.py:93-122 | after any experiment from a new bandit with K at least 1, the reported average reward is strictly between 0 and 1 |
| ThompsonSampling.ReportAfterOneSuccess | Homework2/Bandit.py:105-122 | arms [0, 1] after `update(0, 1)` report average reward 0.6 and average regret 0.4 |
| Visualization.RegretIsSumOfTrialRegrets | Homework2/Bandit.py:183-184 | `max(true_means) * len(rewards) - sum(rewards)` equals the sum over trials of `max(true_means) - reward` |
| Visualization.CumulativeRegret | Homework2/Bandit.py:183-184 | `max(true_means) * len(rewards) - sum(rewards)` is the sum over trials of what each trial lost against the best arm |
| Visualization.RegretNonNegative | Homework2/Bandit.py:183-184 | when no reward exceeds `max(true_means)`, the cumulative regret is non-negative, and it is zero if and only if every reward is the best mean |
| Visualization.CumulativeReport | Homework2/Bandit.py:179-184 | the report's totals are the sums of the two reward lists, and its regrets are the sums of the per-trial regrets |
| Visualization.ObservedRewardsAreTrueMeans | Homework2/Bandit.py:77-84 | every entry of the list `experiment` returns is one of the true means |
| Visualization.ComparisonRegretsNonNegative | Homework2/Bandit.py:179-184 | for reward lists produced by either policy's experiment on the same arms, both cumulative regrets are non-negative |
| Visualization.DriverBestMean | Homework2/Bandit.py:126 | the best of the module-level arms [1, 2, 3, 4] is 4 |
| Visualization.ConstantRewardsRegret | Homework2/Bandit.py:183-184 | when all `n` rewards equal `c`, the cumulative regret is `n * (max(true_means) - c)` |
| Visualization.ExploitOnlyRegretOnDriverArms | Homework2/Bandit.py:183 | on arms [1, 2, 3, 4] with epsilon 0, the cumulative regret after n trials is exactly 3n |

## Left out

- Logger setup and the `logs` import. They are a console side channel with no effect on policy state.
- `random.random`, `random.randint` and `random.betavariate`. They are foreign random calls. Their outcomes are inputs (`EpsilonGreedy.Draw`, the Thompson sample vectors). The model states no distribution: neither the uniformity of exploration nor that samples follow Beta(alpha, beta).
- The plots (`plot1`, `plot2`, including `np.cumsum` and `np.log`) and `store_rewards_to_csv`. They are UI and file I/O.
- The f-string text of both `report` methods and of the cumulative report, including `:.2f` rounding. Only the numbers are modelled.
- `__repr__`, the `comparison` driver and the `__main__` blocks. They are glue. `Visualization.ComparisonRegretsNonNegative` states the one property of their data flow that matters: both policies run on the same arms, then feed the cumulative report.
- IEEE floating point. Rewards, means and estimates are exact reals. The source's integer arm values are the same reals.
- Python negative-index wrap-around and IndexError in `update`. Both `Update` functions require `0 <= arm < K`, which is all `experiment` ever passes.
- Visualization.CumulativeRegret: requires a non-empty arm list. The source reads the module-level `[1, 2, 3, 4]`, so `max` never fails there.
- EpsilonGreedy.Report: states an upper bound (the largest estimate), not the exact unweighted mean, which would only restate the formula.
