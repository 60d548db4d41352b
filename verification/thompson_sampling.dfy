/**
  The Thompson-sampling policy of Homework2/Bandit.py (class
  `ThompsonSampling`). Each arm keeps Beta pseudo-counts `alpha` and `beta`,
  both starting at one; `pull` picks the first arm of maximal sampled value
  and `update` adds a success (reward exactly one) or a failure. The K Beta
  samples of each `pull` are passed in.
 */
module ThompsonSampling {
  import opened Arms

  /** The bandit object: `estimatedMeans` and `counts` are the base-class
      fields (`estimated_means`, `action_counts`) this policy never touches. */
  datatype State = State(
    trueMeans: seq<real>,
    estimatedMeans: seq<real>,
    counts: seq<nat>,
    alpha: seq<nat>,
    beta: seq<nat>)

  /** All per-arm sequences have one entry per arm. */
  ghost predicate Valid(s: State)
  {
    && |s.estimatedMeans| == |s.trueMeans|
    && |s.counts| == |s.trueMeans|
    && |s.alpha| == |s.trueMeans|
    && |s.beta| == |s.trueMeans|
  }

  /** Every pseudo-count is at least one, so every Beta(alpha, beta) is proper. */
  predicate PositivePseudoCounts(s: State)
    requires Valid(s)
  {
    forall i :: 0 <= i < |s.trueMeans| ==> 1 <= s.alpha[i] && 1 <= s.beta[i]
  }

  /** A fresh bandit: uniform Beta(1, 1) belief on every arm. */
  function Init(trueMeans: seq<real>): (s: State)
    ensures Valid(s) && PositivePseudoCounts(s)
    ensures s.trueMeans == trueMeans
    ensures forall i :: 0 <= i < |trueMeans| ==>
              s.alpha[i] == 1 && s.beta[i] == 1 && s.counts[i] == 0 && s.estimatedMeans[i] == 0.0
  {
    var k := |trueMeans|;
    State(trueMeans, seq(k, _ => 0.0), seq(k, _ => 0), seq(k, _ => 1), seq(k, _ => 1))
  }

  /** `pull`: given one Beta sample per arm, the first arm whose sample is
      maximal. A pseudo-count of zero makes `betavariate` fail while the
      samples are drawn; zero arms then make `max` fail. */
  function Pull(s: State, samples: seq<real>): (r: Result<nat>)
    requires Valid(s)
    requires |samples| == |s.trueMeans|
    ensures r.Ok? <==> |s.trueMeans| > 0 && PositivePseudoCounts(s)
    ensures !PositivePseudoCounts(s) ==> r == Err(NonPositiveParameter)
    ensures PositivePseudoCounts(s) && |s.trueMeans| == 0 ==> r == Err(EmptySequence)
    ensures r.Ok? ==> r.value < |s.trueMeans| && IsFirstMax(samples, r.value)
  {
    if !PositivePseudoCounts(s) then Err(NonPositiveParameter)
    else if |samples| == 0 then Err(EmptySequence)
    else Ok(ArgMax(samples))
  }

  /** `update`: a reward of exactly one is a success for `arm`, anything
      else a failure. */
  function Update(s: State, arm: nat, reward: real): (r: State)
    requires Valid(s)
    requires arm < |s.trueMeans|
    ensures Valid(r)
    ensures r.trueMeans == s.trueMeans && r.estimatedMeans == s.estimatedMeans && r.counts == s.counts
    ensures reward == 1.0 ==> r.alpha[arm] == s.alpha[arm] + 1 && r.beta == s.beta
    ensures reward != 1.0 ==> r.beta[arm] == s.beta[arm] + 1 && r.alpha == s.alpha
    ensures forall i :: 0 <= i < |s.trueMeans| && i != arm ==>
              r.alpha[i] == s.alpha[i] && r.beta[i] == s.beta[i]
    ensures PositivePseudoCounts(s) ==> PositivePseudoCounts(r)
  {
    if reward == 1.0 then s.(alpha := s.alpha[arm := s.alpha[arm] + 1])
    else s.(beta := s.beta[arm := s.beta[arm] + 1])
  }

  /** A belief with `alpha = 0` cannot be sampled, so `pull` fails even
      though there is an arm. */
  lemma ZeroPseudoCountFails()
    ensures Pull(State([1.0], [0.0], [0], [0], [1]), [0.5]) == Err(NonPositiveParameter)
  {
    var s := State([1.0], [0.0], [0], [0], [1]);
    assert s.alpha[0] == 0;
  }

  /** The state reached by applying `update` to each trial of `h` in order. */
  function Replay(s: State, h: seq<Trial>): (r: State)
    requires Valid(s)
    requires ArmsBelow(h, |s.trueMeans|)
    ensures Valid(r)
    ensures r.trueMeans == s.trueMeans && r.estimatedMeans == s.estimatedMeans && r.counts == s.counts
    ensures PositivePseudoCounts(s) ==> PositivePseudoCounts(r)
    decreases |h|
  {
    if |h| == 0 then s
    else
      var last := h[|h| - 1];
      Update(Replay(s, h[..|h| - 1]), last.arm, last.reward)
  }

  /** Replaying a history adds to `alpha[a]` the number of rewards for `a`
      equal to one and to `beta[a]` the number of the others. */
  lemma {:induction false} ReplayCounts(s: State, h: seq<Trial>, a: nat)
    requires Valid(s)
    requires ArmsBelow(h, |s.trueMeans|)
    requires a < |s.trueMeans|
    ensures Replay(s, h).alpha[a] == s.alpha[a] + Successes(RewardsFor(h, a))
    ensures Replay(s, h).beta[a] + Successes(RewardsFor(h, a)) == s.beta[a] + |RewardsFor(h, a)|
    decreases |h|
  {
    if |h| > 0 {
      var pre := h[..|h| - 1];
      var last := h[|h| - 1];
      assert ArmsBelow(pre, |s.trueMeans|) by {
        forall t | 0 <= t < |pre| ensures pre[t] == h[t] { }
      }
      ReplayCounts(s, pre, a);
      if last.arm == a {
        assert RewardsFor(h, a) == RewardsFor(pre, a) + [last.reward];
        SuccessesSnoc(RewardsFor(pre, a), last.reward);
      } else {
        assert RewardsFor(h, a) == RewardsFor(pre, a);
      }
    }
  }

  /** From a fresh bandit, `alpha[a] - 1` counts the updates to `a` with
      reward one, `beta[a] - 1` counts the other updates to `a`, so
      `alpha[a] + beta[a] - 2` is the number of updates to `a`. */
  lemma ConjugateCounts(trueMeans: seq<real>, h: seq<Trial>, a: nat)
    requires ArmsBelow(h, |trueMeans|)
    requires a < |trueMeans|
    ensures Replay(Init(trueMeans), h).alpha[a] - 1 == Successes(RewardsFor(h, a))
    ensures Replay(Init(trueMeans), h).beta[a] - 1 == |RewardsFor(h, a)| - Successes(RewardsFor(h, a))
    ensures Replay(Init(trueMeans), h).alpha[a] + Replay(Init(trueMeans), h).beta[a] - 2
            == |RewardsFor(h, a)|
    ensures 1 <= Replay(Init(trueMeans), h).alpha[a] && 1 <= Replay(Init(trueMeans), h).beta[a]
  {
    ReplayCounts(Init(trueMeans), h, a);
  }

  /** `experiment(len(samples))`: per trial, pull with that trial's K
      samples, observe the arm's true mean as the reward, update, and record
      the trial. The rewards list the source returns is `Rewards(trials)`. */
  function Experiment(s: State, samples: seq<seq<real>>): (r: Result<Run<State>>)
    requires Valid(s)
    requires forall t :: 0 <= t < |samples| ==> |samples[t]| == |s.trueMeans|
    ensures r.Ok? <==> |samples| == 0 || (|s.trueMeans| > 0 && PositivePseudoCounts(s))
    ensures r.Ok? ==> |r.value.trials| == |samples|
    ensures r.Ok? ==> Observed(r.value.trials, s.trueMeans)
    ensures r.Ok? ==> r.value.final == Replay(s, r.value.trials)
    decreases |samples|
  {
    if |samples| == 0 then Ok(Run(s, []))
    else
      var pre := samples[..|samples| - 1];
      match Experiment(s, pre)
      case Err(e) => Err(e)
      case Ok(run) =>
        match Pull(run.final, samples[|samples| - 1])
        case Err(e) => Err(e)
        case Ok(arm) =>
          var trial := Trial(arm, s.trueMeans[arm]);
          var trials := run.trials + [trial];
          assert trials[..|run.trials|] == run.trials;
          Ok(Run(Update(run.final, arm, trial.reward), trials))
  }

  /** At every trial the arm pulled is the first maximum of that trial's samples. */
  lemma {:induction false} PulledArmsAreFirstMaxima(s: State, samples: seq<seq<real>>)
    requires Valid(s)
    requires forall t :: 0 <= t < |samples| ==> |samples[t]| == |s.trueMeans|
    requires Experiment(s, samples).Ok?
    ensures forall t :: 0 <= t < |samples| ==> IsFirstMax(samples[t], Experiment(s, samples).value.trials[t].arm)
    decreases |samples|
  {
    if |samples| > 0 {
      var pre := samples[..|samples| - 1];
      PulledArmsAreFirstMaxima(s, pre);
      var run := Experiment(s, pre).value;
      var trials := Experiment(s, samples).value.trials;
      assert trials[..|pre|] == run.trials;
      forall t | 0 <= t < |samples|
        ensures IsFirstMax(samples[t], trials[t].arm)
      {
        if t < |pre| {
          assert samples[t] == pre[t] && trials[t] == run.trials[t];
        }
      }
    }
  }

  /** The list `experiment(num_trials)` returns has exactly `num_trials`
      entries and entry `t` is the true mean of the arm pulled at trial `t`. */
  lemma ExperimentRewards(s: State, samples: seq<seq<real>>)
    requires Valid(s)
    requires forall t :: 0 <= t < |samples| ==> |samples[t]| == |s.trueMeans|
    requires |s.trueMeans| > 0 && PositivePseudoCounts(s)
    ensures Experiment(s, samples).Ok?
    ensures |Rewards(Experiment(s, samples).value.trials)| == |samples|
    ensures forall t :: 0 <= t < |samples| ==>
              var trial := Experiment(s, samples).value.trials[t];
              trial.arm < |s.trueMeans| && Rewards(Experiment(s, samples).value.trials)[t] == s.trueMeans[trial.arm]
  {
  }

  /** `report`: the share of successes among all pseudo-counts, and its gap
      to the best true mean. A zero denominator or an empty arm set fails. */
  function Report(s: State): (r: Result<Summary>)
    requires Valid(s)
    ensures r.Ok? <==> |s.trueMeans| > 0 && SumNat(s.alpha) + SumNat(s.beta) > 0
    ensures r.Ok? ==> 0.0 <= r.value.avgReward <= 1.0
    ensures r.Ok? && PositivePseudoCounts(s) ==> 0.0 < r.value.avgReward < 1.0
    ensures r.Ok? ==> r.value.avgReward + r.value.avgRegret == Max(s.trueMeans)
  {
    var a := SumNat(s.alpha);
    var b := SumNat(s.beta);
    if a + b == 0 then Err(DivisionByZero)
    else if |s.trueMeans| == 0 then Err(EmptySequence)
    else
      var avg := (a as real) / ((a + b) as real);
      PseudoCountTotals(s);
      ShareBounds(a, b);
      Ok(Summary(avg, Max(s.trueMeans) - avg))
  }

  /** The share `a / (a + b)` of two naturals lies in [0, 1], strictly
      inside when both are positive. */
  lemma ShareBounds(a: nat, b: nat)
    requires a + b > 0
    ensures 0.0 <= (a as real) / ((a + b) as real) <= 1.0
    ensures a > 0 && b > 0 ==> 0.0 < (a as real) / ((a + b) as real) < 1.0
  {
    var d := (a + b) as real;
    var q := (a as real) / d;
    assert q * d == a as real;
  }

  /** With every pseudo-count at least one, each of the two totals is at least K. */
  lemma PseudoCountTotals(s: State)
    requires Valid(s)
    ensures PositivePseudoCounts(s) ==> |s.trueMeans| <= SumNat(s.alpha) && |s.trueMeans| <= SumNat(s.beta)
  {
    if PositivePseudoCounts(s) {
      SumNatAtLeastLength(s.alpha);
      SumNatAtLeastLength(s.beta);
    }
  }

  /** Every state an experiment reaches from a fresh bandit reports an
      average reward strictly between zero and one. */
  lemma ReportStrictlyBetweenZeroAndOne(trueMeans: seq<real>, samples: seq<seq<real>>)
    requires |trueMeans| > 0
    requires forall t :: 0 <= t < |samples| ==> |samples[t]| == |trueMeans|
    ensures Experiment(Init(trueMeans), samples).Ok?
    ensures Report(Experiment(Init(trueMeans), samples).value.final).Ok?
    ensures 0.0 < Report(Experiment(Init(trueMeans), samples).value.final).value.avgReward < 1.0
  {
    var f := Experiment(Init(trueMeans), samples).value.final;
    PseudoCountTotals(f);
  }

  /** Arms [0, 1], one update of arm 0 with reward 1: alpha = [2, 1],
      beta = [1, 1], so the average reward is 3/5 and the regret 2/5. */
  lemma ReportAfterOneSuccess()
    ensures Report(Update(Init([0.0, 1.0]), 0, 1.0)) == Ok(Summary(0.6, 0.4))
  {
    var s := Update(Init([0.0, 1.0]), 0, 1.0);
    assert s.alpha == [2, 1] && s.beta == [1, 1];
    assert s.alpha[..1] == [2] && s.beta[..1] == [1];
    assert [2][..0] == [] && [1][..0] == [];
    assert Max(s.trueMeans) == 1.0 by {
      assert s.trueMeans[..1] == [0.0];
    }
  }
}
