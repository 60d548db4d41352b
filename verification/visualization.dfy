/**
  The arithmetic of `Visualization.report_cumulative_reward_and_regret` in
  Homework2/Bandit.py: the total reward of each policy's experiment and its
  cumulative regret `max(true_means) * len(rewards) - sum(rewards)`. The
  source reads the module-level `true_means`, the same list the comparison
  driver gives both bandits; here it is a parameter.
 */
module Visualization {
  import opened Arms
  import EpsilonGreedy
  import ThompsonSampling

  /** The module-level arm values of the source. */
  const DriverTrueMeans: seq<real> := [1.0, 2.0, 3.0, 4.0]

  /** The four numbers the cumulative report prints. */
  datatype Totals = Totals(
    epsilonGreedyReward: real,
    thompsonReward: real,
    epsilonGreedyRegret: real,
    thompsonRegret: real)

  /** What each trial lost against always pulling the best arm. */
  function TrialRegrets(trueMeans: seq<real>, rewards: seq<real>): seq<real>
    requires |trueMeans| > 0
  {
    seq(|rewards|, t requires 0 <= t < |rewards| => Max(trueMeans) - rewards[t])
  }

  /** `max(true_means) * len(rewards) - sum(rewards)`: what the trials lost,
      all together, against always pulling the best arm. */
  function CumulativeRegret(trueMeans: seq<real>, rewards: seq<real>): (r: real)
    requires |trueMeans| > 0
    ensures r == Sum(TrialRegrets(trueMeans, rewards))
  {
    RegretIsSumOfTrialRegrets(trueMeans, rewards);
    Max(trueMeans) * (|rewards| as real) - Sum(rewards)
  }

  /** The closed formula is the sum of the per-trial regrets. */
  lemma {:induction false} RegretIsSumOfTrialRegrets(trueMeans: seq<real>, rewards: seq<real>)
    requires |trueMeans| > 0
    ensures Max(trueMeans) * (|rewards| as real) - Sum(rewards) == Sum(TrialRegrets(trueMeans, rewards))
    decreases |rewards|
  {
    if |rewards| > 0 {
      var pre := rewards[..|rewards| - 1];
      RegretIsSumOfTrialRegrets(trueMeans, pre);
      var m := Max(trueMeans);
      var gaps := TrialRegrets(trueMeans, rewards);
      assert gaps[..|pre|] == TrialRegrets(trueMeans, pre);
      assert m * (|rewards| as real) == m * (|pre| as real) + m;
    }
  }

  /** When no reward exceeds the best true mean (as for rewards that are
      true means), the cumulative regret is non-negative. It is zero exactly
      when every trial earned the best mean. */
  lemma RegretNonNegative(trueMeans: seq<real>, rewards: seq<real>)
    requires |trueMeans| > 0
    requires forall t :: 0 <= t < |rewards| ==> rewards[t] <= Max(trueMeans)
    ensures CumulativeRegret(trueMeans, rewards) >= 0.0
    ensures CumulativeRegret(trueMeans, rewards) == 0.0
            <==> forall t :: 0 <= t < |rewards| ==> rewards[t] == Max(trueMeans)
  {
    var m := Max(trueMeans);
    var gaps := TrialRegrets(trueMeans, rewards);
    assert forall t :: 0 <= t < |gaps| ==> gaps[t] == m - rewards[t];
    SumAtLeast(gaps, 0.0);
    SumOfNonNegativeIsZeroIff(gaps);
    assert CumulativeRegret(trueMeans, rewards) == Sum(gaps);
  }

  /** `report_cumulative_reward_and_regret` without its printing. */
  function CumulativeReport(trueMeans: seq<real>, epsilonGreedyRewards: seq<real>, thompsonRewards: seq<real>): (r: Totals)
    requires |trueMeans| > 0
    ensures r.epsilonGreedyReward == Sum(epsilonGreedyRewards)
    ensures r.thompsonReward == Sum(thompsonRewards)
    ensures r.epsilonGreedyRegret == Sum(TrialRegrets(trueMeans, epsilonGreedyRewards))
    ensures r.thompsonRegret == Sum(TrialRegrets(trueMeans, thompsonRewards))
  {
    RegretIsSumOfTrialRegrets(trueMeans, epsilonGreedyRewards);
    RegretIsSumOfTrialRegrets(trueMeans, thompsonRewards);
    Totals(
      Sum(epsilonGreedyRewards),
      Sum(thompsonRewards),
      CumulativeRegret(trueMeans, epsilonGreedyRewards),
      CumulativeRegret(trueMeans, thompsonRewards))
  }

  /** The rewards of an observed history are all true means. */
  lemma ObservedRewardsAreTrueMeans(h: seq<Trial>, trueMeans: seq<real>)
    requires Observed(h, trueMeans)
    ensures forall t :: 0 <= t < |Rewards(h)| ==> Rewards(h)[t] in trueMeans
  {
    forall t | 0 <= t < |Rewards(h)| ensures Rewards(h)[t] in trueMeans {
      assert Rewards(h)[t] == trueMeans[h[t].arm];
    }
  }

  /** Running both policies from fresh bandits on the same arms, as the
      driver does, and reporting on their reward lists gives two
      non-negative cumulative regrets. */
  lemma ComparisonRegretsNonNegative(
    trueMeans: seq<real>, epsilon: real,
    draws: seq<EpsilonGreedy.Draw>, samples: seq<seq<real>>)
    requires |trueMeans| > 0
    requires EpsilonGreedy.ValidDraws(draws, |trueMeans|)
    requires forall t :: 0 <= t < |samples| ==> |samples[t]| == |trueMeans|
    ensures EpsilonGreedy.Experiment(EpsilonGreedy.Init(trueMeans, epsilon), draws).Ok?
    ensures ThompsonSampling.Experiment(ThompsonSampling.Init(trueMeans), samples).Ok?
    ensures var totals := CumulativeReport(
              trueMeans,
              Rewards(EpsilonGreedy.Experiment(EpsilonGreedy.Init(trueMeans, epsilon), draws).value.trials),
              Rewards(ThompsonSampling.Experiment(ThompsonSampling.Init(trueMeans), samples).value.trials));
            totals.epsilonGreedyRegret >= 0.0 && totals.thompsonRegret >= 0.0
  {
    var eps := EpsilonGreedy.Experiment(EpsilonGreedy.Init(trueMeans, epsilon), draws).value;
    var ts := ThompsonSampling.Experiment(ThompsonSampling.Init(trueMeans), samples).value;
    ObservedRewardsAreTrueMeans(eps.trials, trueMeans);
    ObservedRewardsAreTrueMeans(ts.trials, trueMeans);
    RegretNonNegative(trueMeans, Rewards(eps.trials));
    RegretNonNegative(trueMeans, Rewards(ts.trials));
  }

  /** The best arm of the driver's arm set has mean 4. */
  lemma DriverBestMean()
    ensures Max(DriverTrueMeans) == 4.0
  {
    var s := DriverTrueMeans;
    assert s[..3] == [1.0, 2.0, 3.0];
    assert s[..3][..2] == [1.0, 2.0];
    assert s[..3][..2][..1] == [1.0];
  }

  /** On the driver's arms [1, 2, 3, 4] with no exploration, every trial
      pulls arm 0, so each trial loses 3 against the best arm and the
      cumulative regret grows linearly with the number of trials. */
  lemma ExploitOnlyRegretOnDriverArms(draws: seq<EpsilonGreedy.Draw>)
    requires EpsilonGreedy.ValidDraws(draws, |DriverTrueMeans|)
    ensures EpsilonGreedy.Experiment(EpsilonGreedy.Init(DriverTrueMeans, 0.0), draws).Ok?
    ensures CumulativeRegret(
              DriverTrueMeans,
              Rewards(EpsilonGreedy.Experiment(EpsilonGreedy.Init(DriverTrueMeans, 0.0), draws).value.trials))
            == 3.0 * (|draws| as real)
  {
    EpsilonGreedy.ExploitOnlyRewards(DriverTrueMeans, 0.0, draws);
    var trials := EpsilonGreedy.Experiment(EpsilonGreedy.Init(DriverTrueMeans, 0.0), draws).value.trials;
    ConstantRewardsRegret(DriverTrueMeans, trials, 1.0, |draws|);
    DriverBestMean();
  }

  /** When every one of `n` trials earns the same reward `c`, each loses `max - c`. */
  lemma ConstantRewardsRegret(trueMeans: seq<real>, trials: seq<Trial>, c: real, n: nat)
    requires |trueMeans| > 0
    requires |trials| == n
    requires forall t :: 0 <= t < n ==> trials[t].reward == c
    ensures CumulativeRegret(trueMeans, Rewards(trials)) == (n as real) * (Max(trueMeans) - c)
  {
    var rs := Rewards(trials);
    var m := Max(trueMeans);
    var k := n as real;
    assert |rs| == n;
    assert forall t :: 0 <= t < |rs| ==> rs[t] == c;
    SumOfConstant(rs, c);
    calc {
      CumulativeRegret(trueMeans, rs);
      m * k - Sum(rs);
      m * k - k * c;
      k * (m - c);
    }
  }
}
