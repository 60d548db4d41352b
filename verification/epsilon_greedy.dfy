/**
  The epsilon-greedy policy of Homework2/Bandit.py (class `EpsilonGreedy`).
  With probability epsilon it explores a uniformly drawn arm, otherwise it
  exploits the first arm of maximal running-mean estimate; `update` keeps
  each arm's estimate equal to the mean of the rewards it has received.
  The random draws of `pull` are passed in as a `Draw`.
 */
module EpsilonGreedy {
  import opened Arms

  /** Exploration probability when the constructor is given none (`epsilon=0.2`). */
  const DefaultEpsilon: real := 0.2

  /** The bandit object: `estimatedMeans` is the base-class field the policy
      never touches, `counts` is `action_counts`, `values` is `action_values`. */
  datatype State = State(
    trueMeans: seq<real>,
    epsilon: real,
    estimatedMeans: seq<real>,
    counts: seq<nat>,
    values: seq<real>)

  /** All per-arm sequences have one entry per arm. */
  ghost predicate Valid(s: State)
  {
    && |s.estimatedMeans| == |s.trueMeans|
    && |s.counts| == |s.trueMeans|
    && |s.values| == |s.trueMeans|
  }

  /** The outcomes of the random calls one `pull` may make: `coin` is
      `random.random()`, `index` is `random.randint(0, K - 1)`. */
  datatype Draw = Draw(coin: real, index: nat)

  /** What the random source guarantees of a draw for `k` arms. */
  ghost predicate ValidDraw(d: Draw, k: nat)
  {
    0.0 <= d.coin < 1.0 && (k > 0 ==> d.index < k)
  }

  ghost predicate ValidDraws(ds: seq<Draw>, k: nat)
  {
    forall t :: 0 <= t < |ds| ==> ValidDraw(ds[t], k)
  }

  /** A fresh bandit: no arm pulled, every estimate zero. */
  function Init(trueMeans: seq<real>, epsilon: real := DefaultEpsilon): (s: State)
    ensures Valid(s)
    ensures s.trueMeans == trueMeans && s.epsilon == epsilon
    ensures forall i :: 0 <= i < |trueMeans| ==>
              s.counts[i] == 0 && s.values[i] == 0.0 && s.estimatedMeans[i] == 0.0
  {
    var k := |trueMeans|;
    State(trueMeans, epsilon, seq(k, _ => 0.0), seq(k, _ => 0), seq(k, _ => 0.0))
  }

  /** `pull`: explore when the coin falls below epsilon, otherwise exploit. */
  function Pull(s: State, d: Draw): (r: Result<nat>)
    requires Valid(s)
    requires ValidDraw(d, |s.trueMeans|)
    ensures r.Ok? <==> |s.trueMeans| > 0
    ensures r.Ok? ==> r.value < |s.trueMeans|
    ensures r.Ok? && d.coin < s.epsilon ==> r.value == d.index
    ensures r.Ok? && s.epsilon <= d.coin ==> IsFirstMax(s.values, r.value)
  {
    if |s.trueMeans| == 0 then Err(EmptySequence)
    else if d.coin < s.epsilon then Ok(d.index)
    else Ok(ArgMax(s.values))
  }

  /** With epsilon at most zero the policy never explores: it returns the
      first arm of maximal estimate, whatever the draw. */
  lemma ZeroEpsilonAlwaysExploits(s: State, d: Draw)
    requires Valid(s) && |s.trueMeans| > 0
    requires ValidDraw(d, |s.trueMeans|)
    requires s.epsilon <= 0.0
    ensures Pull(s, d) == Ok(ArgMax(s.values))
  {
  }

  /** With epsilon at least one the policy always explores. */
  lemma UnitEpsilonAlwaysExplores(s: State, d: Draw)
    requires Valid(s) && |s.trueMeans| > 0
    requires ValidDraw(d, |s.trueMeans|)
    requires 1.0 <= s.epsilon
    ensures Pull(s, d) == Ok(d.index)
  {
  }

  /** The running total of arm `a`'s rewards that `value * count` represents. */
  ghost function Total(s: State, a: nat): real
    requires Valid(s) && a < |s.trueMeans|
  {
    s.values[a] * (s.counts[a] as real)
  }

  /** `update`: one more pull of `arm`, and the incremental sample-mean step
      `v += (1 / n) * (reward - v)` with `n` the new count. */
  function Update(s: State, arm: nat, reward: real): (r: State)
    requires Valid(s)
    requires arm < |s.trueMeans|
    ensures Valid(r)
    ensures r.trueMeans == s.trueMeans && r.epsilon == s.epsilon
    ensures r.estimatedMeans == s.estimatedMeans
    ensures r.counts[arm] == s.counts[arm] + 1
    ensures Total(r, arm) == Total(s, arm) + reward
    ensures forall i :: 0 <= i < |s.trueMeans| && i != arm ==>
              r.counts[i] == s.counts[i] && r.values[i] == s.values[i]
  {
    var n := s.counts[arm] + 1;
    var v := s.values[arm] + (1.0 / (n as real)) * (reward - s.values[arm]);
    assert v * (n as real) == s.values[arm] * (n as real) + (reward - s.values[arm]) by {
      assert (1.0 / (n as real)) * (n as real) == 1.0;
    }
    s.(counts := s.counts[arm := n], values := s.values[arm := v])
  }

  /** The state reached by applying `update` to each trial of `h` in order. */
  function Replay(s: State, h: seq<Trial>): (r: State)
    requires Valid(s)
    requires ArmsBelow(h, |s.trueMeans|)
    ensures Valid(r)
    ensures r.trueMeans == s.trueMeans && r.epsilon == s.epsilon
    ensures r.estimatedMeans == s.estimatedMeans
    decreases |h|
  {
    if |h| == 0 then s
    else
      var last := h[|h| - 1];
      Update(Replay(s, h[..|h| - 1]), last.arm, last.reward)
  }

  /** Replaying a history adds, for every arm, its number of trials to the
      count and its rewards to the running total `value * count`. */
  lemma {:induction false} ReplayAccumulates(s: State, h: seq<Trial>, a: nat)
    requires Valid(s)
    requires ArmsBelow(h, |s.trueMeans|)
    requires a < |s.trueMeans|
    ensures Replay(s, h).counts[a] == s.counts[a] + |RewardsFor(h, a)|
    ensures Total(Replay(s, h), a) == Total(s, a) + Sum(RewardsFor(h, a))
    decreases |h|
  {
    if |h| > 0 {
      var pre := h[..|h| - 1];
      var last := h[|h| - 1];
      assert ArmsBelow(pre, |s.trueMeans|) by {
        forall t | 0 <= t < |pre| ensures pre[t] == h[t] { }
      }
      ReplayAccumulates(s, pre, a);
      var p := Replay(s, pre);
      assert Replay(s, h) == Update(p, last.arm, last.reward);
      UpdateAccumulates(p, last.arm, last.reward, a);
      if last.arm == a {
        SumSnoc(RewardsFor(pre, a), last.reward);
        assert Sum(RewardsFor(h, a)) == Sum(RewardsFor(pre, a)) + last.reward;
      } else {
        assert RewardsFor(h, a) == RewardsFor(pre, a);
      }
    }
  }

  /** One `update` adds one to the count of the arm it names and its reward
      to that arm's running total `value * count`; other arms are unchanged. */
  lemma UpdateAccumulates(s: State, arm: nat, reward: real, a: nat)
    requires Valid(s)
    requires arm < |s.trueMeans| && a < |s.trueMeans|
    ensures Update(s, arm, reward).counts[a] == s.counts[a] + (if arm == a then 1 else 0)
    ensures Total(Update(s, arm, reward), a) == Total(s, a) + (if arm == a then reward else 0.0)
  {
    var r := Update(s, arm, reward);
    if arm != a {
      assert r.values[a] == s.values[a] && r.counts[a] == s.counts[a];
    }
  }

  /** Starting from a fresh bandit, `action_counts[a]` is the number of
      updates to `a` and `action_values[a]` is the arithmetic mean of their
      rewards (zero before the first), whatever other arms' updates are
      interleaved. */
  lemma IncrementalMean(trueMeans: seq<real>, epsilon: real, h: seq<Trial>, a: nat)
    requires ArmsBelow(h, |trueMeans|)
    requires a < |trueMeans|
    ensures Replay(Init(trueMeans, epsilon), h).counts[a] == |RewardsFor(h, a)|
    ensures |RewardsFor(h, a)| == 0 ==> Replay(Init(trueMeans, epsilon), h).values[a] == 0.0
    ensures |RewardsFor(h, a)| > 0 ==>
              Replay(Init(trueMeans, epsilon), h).values[a]
              == Sum(RewardsFor(h, a)) / (|RewardsFor(h, a)| as real)
  {
    var s := Init(trueMeans, epsilon);
    var r := Replay(s, h);
    FreshTotal(trueMeans, epsilon, h, a);
    if |RewardsFor(h, a)| > 0 {
      MeanFromTotal(r, a);
    } else {
      NoTrialsLeaveArmUntouched(s, h, a);
    }
  }

  /** From a fresh bandit, the running total of arm `a` is the sum of its rewards. */
  lemma FreshTotal(trueMeans: seq<real>, epsilon: real, h: seq<Trial>, a: nat)
    requires ArmsBelow(h, |trueMeans|)
    requires a < |trueMeans|
    ensures Replay(Init(trueMeans, epsilon), h).counts[a] == |RewardsFor(h, a)|
    ensures Total(Replay(Init(trueMeans, epsilon), h), a) == Sum(RewardsFor(h, a))
  {
    var s := Init(trueMeans, epsilon);
    ReplayAccumulates(s, h, a);
    assert Total(s, a) == 0.0;
  }

  /** Dividing a running total by a positive count recovers the estimate. */
  lemma MeanFromTotal(s: State, a: nat)
    requires Valid(s) && a < |s.trueMeans|
    requires s.counts[a] > 0
    ensures s.values[a] == Total(s, a) / (s.counts[a] as real)
  {
  }

  /** An arm that no trial names keeps its estimate. */
  lemma {:induction false} NoTrialsLeaveArmUntouched(s: State, h: seq<Trial>, a: nat)
    requires Valid(s)
    requires ArmsBelow(h, |s.trueMeans|)
    requires a < |s.trueMeans|
    requires |RewardsFor(h, a)| == 0
    ensures Replay(s, h).values[a] == s.values[a]
    decreases |h|
  {
    if |h| > 0 {
      var pre := h[..|h| - 1];
      assert h == pre + [h[|h| - 1]];
      RewardsForSnoc(pre, h[|h| - 1], a);
      NoTrialsLeaveArmUntouched(s, pre, a);
    }
  }

  /** `experiment(len(draws))`: per trial, pull an arm, observe its true mean
      as the reward, update, and record the trial. The rewards list the
      source returns is `Rewards(trials)`. */
  function Experiment(s: State, draws: seq<Draw>): (r: Result<Run<State>>)
    requires Valid(s)
    requires ValidDraws(draws, |s.trueMeans|)
    ensures r.Ok? <==> |draws| == 0 || |s.trueMeans| > 0
    ensures r.Ok? ==> |r.value.trials| == |draws|
    ensures r.Ok? ==> Observed(r.value.trials, s.trueMeans)
    ensures r.Ok? ==> r.value.final == Replay(s, r.value.trials)
    decreases |draws|
  {
    if |draws| == 0 then Ok(Run(s, []))
    else
      var pre := draws[..|draws| - 1];
      assert ValidDraws(pre, |s.trueMeans|) by {
        forall t | 0 <= t < |pre| ensures pre[t] == draws[t] { }
      }
      match Experiment(s, pre)
      case Err(e) => Err(e)
      case Ok(run) =>
        match Pull(run.final, draws[|draws| - 1])
        case Err(e) => Err(e)
        case Ok(arm) =>
          var trial := Trial(arm, s.trueMeans[arm]);
          var trials := run.trials + [trial];
          assert trials[..|run.trials|] == run.trials;
          Ok(Run(Update(run.final, arm, trial.reward), trials))
  }

  /** Every trial whose coin fell below epsilon pulled the arm the random
      index named. */
  lemma {:induction false} ExploringTrialsUseDrawnIndex(s: State, draws: seq<Draw>)
    requires Valid(s)
    requires ValidDraws(draws, |s.trueMeans|)
    requires Experiment(s, draws).Ok?
    ensures forall t :: 0 <= t < |draws| && draws[t].coin < s.epsilon ==>
              Experiment(s, draws).value.trials[t].arm == draws[t].index
    decreases |draws|
  {
    if |draws| > 0 {
      var pre := draws[..|draws| - 1];
      assert ValidDraws(pre, |s.trueMeans|) by {
        forall t | 0 <= t < |pre| ensures pre[t] == draws[t] { }
      }
      ExploringTrialsUseDrawnIndex(s, pre);
      var run := Experiment(s, pre).value;
      var trials := Experiment(s, draws).value.trials;
      assert trials[..|pre|] == run.trials;
      forall t | 0 <= t < |draws| && draws[t].coin < s.epsilon
        ensures trials[t].arm == draws[t].index
      {
        if t < |pre| {
          assert draws[t] == pre[t] && trials[t] == run.trials[t];
        }
      }
    }
  }

  /** Every trial whose coin did not fall below epsilon pulled the first arm
      of maximal estimate in the bandit as the earlier trials left it. */
  lemma {:induction false} ExploitingTrialsUseFirstMax(s: State, draws: seq<Draw>)
    requires Valid(s)
    requires ValidDraws(draws, |s.trueMeans|)
    requires Experiment(s, draws).Ok?
    ensures forall t :: 0 <= t < |draws| && s.epsilon <= draws[t].coin ==>
              var trials := Experiment(s, draws).value.trials;
              ArmsBelow(trials[..t], |s.trueMeans|)
              && IsFirstMax(Replay(s, trials[..t]).values, trials[t].arm)
    decreases |draws|
  {
    if |draws| > 0 {
      var pre := draws[..|draws| - 1];
      assert ValidDraws(pre, |s.trueMeans|) by {
        forall t | 0 <= t < |pre| ensures pre[t] == draws[t] { }
      }
      ExploitingTrialsUseFirstMax(s, pre);
      var run := Experiment(s, pre).value;
      var trials := Experiment(s, draws).value.trials;
      assert trials[..|pre|] == run.trials;
      forall t | 0 <= t < |draws| && s.epsilon <= draws[t].coin
        ensures ArmsBelow(trials[..t], |s.trueMeans|)
        ensures IsFirstMax(Replay(s, trials[..t]).values, trials[t].arm)
      {
        if t < |pre| {
          assert draws[t] == pre[t] && trials[t] == run.trials[t];
          assert trials[..t] == run.trials[..t];
        }
      }
    }
  }

  /** The list `experiment(num_trials)` returns has exactly `num_trials`
      entries, and entry `t` is the true mean of the arm pulled at trial `t`. */
  lemma ExperimentRewards(s: State, draws: seq<Draw>)
    requires Valid(s)
    requires ValidDraws(draws, |s.trueMeans|)
    requires |s.trueMeans| > 0
    ensures Experiment(s, draws).Ok?
    ensures |Rewards(Experiment(s, draws).value.trials)| == |draws|
    ensures forall t :: 0 <= t < |draws| ==>
              var trial := Experiment(s, draws).value.trials[t];
              trial.arm < |s.trueMeans| && Rewards(Experiment(s, draws).value.trials)[t] == s.trueMeans[trial.arm]
  {
  }

  /** The state of an exploit-only bandit after `c` pulls of arm 0 with reward `m`. */
  ghost predicate LockedOnFirstArm(s: State, c: nat, m: real)
  {
    && Valid(s) && |s.trueMeans| > 0
    && s.counts[0] == c
    && s.values[0] == (if c == 0 then 0.0 else m)
    && (forall i :: 0 < i < |s.values| ==> s.values[i] == 0.0)
  }

  /** A locked exploit-only bandit pulls arm 0 again and stays locked. */
  lemma LockedStep(s: State, d: Draw)
    requires Valid(s) && |s.trueMeans| > 0
    requires LockedOnFirstArm(s, s.counts[0], s.trueMeans[0])
    requires 0.0 <= s.trueMeans[0] && s.epsilon <= 0.0
    requires ValidDraw(d, |s.trueMeans|)
    ensures Pull(s, d) == Ok(0)
    ensures LockedOnFirstArm(Update(s, 0, s.trueMeans[0]), s.counts[0] + 1, s.trueMeans[0])
  {
    assert IsFirstMax(s.values, 0);
    ArgMaxCharacterised(s.values, 0);
    SettledUpdate(s, 0, s.trueMeans[0]);
  }

  /** With epsilon at most zero and a non-negative first arm, a fresh bandit
      pulls arm 0 on every trial: all estimates start equal, ties go to the
      first index, and arm 0's estimate never drops below the others' zero. */
  lemma {:induction false} ExploitOnlyLocksOnFirstArm(trueMeans: seq<real>, epsilon: real, draws: seq<Draw>)
    requires |trueMeans| > 0 && 0.0 <= trueMeans[0]
    requires epsilon <= 0.0
    requires ValidDraws(draws, |trueMeans|)
    ensures Experiment(Init(trueMeans, epsilon), draws).Ok?
    ensures forall t :: 0 <= t < |draws| ==>
              Experiment(Init(trueMeans, epsilon), draws).value.trials[t] == Trial(0, trueMeans[0])
    ensures LockedOnFirstArm(Experiment(Init(trueMeans, epsilon), draws).value.final, |draws|, trueMeans[0])
    decreases |draws|
  {
    if |draws| > 0 {
      var pre := draws[..|draws| - 1];
      var d := draws[|draws| - 1];
      assert ValidDraws(pre, |trueMeans|) by {
        forall t | 0 <= t < |pre| ensures pre[t] == draws[t] { }
      }
      ExploitOnlyLocksOnFirstArm(trueMeans, epsilon, pre);
      var run := Experiment(Init(trueMeans, epsilon), pre).value;
      LockedStep(run.final, d);
      assert Experiment(Init(trueMeans, epsilon), draws)
             == Ok(Run(Update(run.final, 0, trueMeans[0]), run.trials + [Trial(0, trueMeans[0])]));
    }
  }

  /** The reward list of an exploit-only experiment on a non-negative first
      arm repeats `true_means[0]` once per trial. */
  lemma ExploitOnlyRewards(trueMeans: seq<real>, epsilon: real, draws: seq<Draw>)
    requires |trueMeans| > 0 && 0.0 <= trueMeans[0]
    requires epsilon <= 0.0
    requires ValidDraws(draws, |trueMeans|)
    ensures Experiment(Init(trueMeans, epsilon), draws).Ok?
    ensures var trials := Experiment(Init(trueMeans, epsilon), draws).value.trials;
            |trials| == |draws| && forall t :: 0 <= t < |trials| ==> trials[t].reward == trueMeans[0]
  {
    ExploitOnlyLocksOnFirstArm(trueMeans, epsilon, draws);
  }

  /** Once an estimate equals the (repeated) reward, or before any pull,
      one more incremental-mean step with that reward lands on it. */
  lemma SettledStep(v: real, c: nat, v': real, m: real)
    requires v' * ((c + 1) as real) == v * (c as real) + m
    requires v == (if c == 0 then 0.0 else m)
    ensures v' == m
  {
    if c > 0 {
      assert (v' - m) * ((c + 1) as real) == 0.0;
    }
  }

  /** An arm whose estimate already equals `m` (or that was never pulled)
      holds exactly `m` after an update with reward `m`. */
  lemma SettledUpdate(s: State, arm: nat, m: real)
    requires Valid(s) && arm < |s.trueMeans|
    requires s.values[arm] == (if s.counts[arm] == 0 then 0.0 else m)
    ensures Update(s, arm, m).values[arm] == m
  {
    var r := Update(s, arm, m);
    assert Total(r, arm) == Total(s, arm) + m;
    SettledStep(s.values[arm], s.counts[arm], r.values[arm], m);
  }

  /** `report`: the unweighted mean of the K estimates and its gap to the
      best true mean. Zero arms divide by zero. */
  function Report(s: State): (r: Result<Summary>)
    requires Valid(s)
    ensures r.Ok? <==> |s.trueMeans| > 0
    ensures r.Ok? ==> r.value.avgReward <= Max(s.values)
    ensures r.Ok? ==> r.value.avgReward + r.value.avgRegret == Max(s.trueMeans)
  {
    if |s.values| == 0 then Err(DivisionByZero)
    else
      var k := |s.values| as real;
      var avg := Sum(s.values) / k;
      SumAtMost(s.values, Max(s.values));
      Ok(Summary(avg, Max(s.trueMeans) - avg))
  }

  /** A mean of terms that are each at most `m` is at most `m`. */
  lemma MeanAtMost(total: real, n: nat, m: real)
    requires n > 0 && total <= (n as real) * m
    ensures total / (n as real) <= m
  {
  }

  /** From a fresh bandit, an arm that has been pulled has an estimate no
      larger than the best true mean, since every reward is a true mean. */
  lemma EstimateAtMostBestArm(trueMeans: seq<real>, epsilon: real, h: seq<Trial>, a: nat)
    requires Observed(h, trueMeans)
    requires a < |trueMeans|
    ensures Replay(Init(trueMeans, epsilon), h).counts[a] > 0 ==>
              Replay(Init(trueMeans, epsilon), h).values[a] <= Max(trueMeans)
  {
    var rs := RewardsFor(h, a);
    if |rs| > 0 {
      var m := Max(trueMeans);
      RewardsForObserved(h, trueMeans, a);
      assert forall i :: 0 <= i < |rs| ==> rs[i] <= m;
      SumAtMost(rs, m);
      MeanAtMost(Sum(rs), |rs|, m);
    }
    IncrementalMean(trueMeans, epsilon, h, a);
  }

  /** When the best true mean is non-negative, the average regret `report`
      gives after an experiment from a fresh bandit is non-negative: pulled
      arms estimate at most the best mean and unpulled arms count as zero. */
  lemma ReportRegretNonNegative(trueMeans: seq<real>, epsilon: real, draws: seq<Draw>)
    requires |trueMeans| > 0 && 0.0 <= Max(trueMeans)
    requires ValidDraws(draws, |trueMeans|)
    ensures Experiment(Init(trueMeans, epsilon), draws).Ok?
    ensures Report(Experiment(Init(trueMeans, epsilon), draws).value.final).Ok?
    ensures Report(Experiment(Init(trueMeans, epsilon), draws).value.final).value.avgRegret >= 0.0
  {
    var s := Init(trueMeans, epsilon);
    var run := Experiment(s, draws).value;
    var f := run.final;
    forall a | 0 <= a < |trueMeans| ensures f.values[a] <= Max(trueMeans) {
      EstimateAtMostBestArm(trueMeans, epsilon, run.trials, a);
      IncrementalMean(trueMeans, epsilon, run.trials, a);
    }
  }

  /** The non-negativity above needs a non-negative best mean: with true
      means [-1, -2] and no exploration, arm 0 is pulled once, the untried
      arm 1 still counts as 0 in the unweighted average, and the average
      regret comes out as -0.5. */
  lemma NegativeArmsGiveNegativeRegret()
    ensures Experiment(Init([-1.0, -2.0], 0.0), [Draw(0.5, 0)]).Ok?
    ensures Report(Experiment(Init([-1.0, -2.0], 0.0), [Draw(0.5, 0)]).value.final)
            == Ok(Summary(-0.5, -0.5))
  {
    var s := Init([-1.0, -2.0], 0.0);
    assert ValidDraws([Draw(0.5, 0)], 2);
    ExploitOnlyArmZero(s);
    var f := Update(s, 0, -1.0);
    assert Experiment(s, [Draw(0.5, 0)]) == Ok(Run(f, [Trial(0, -1.0)]));
    assert f.values == [-1.0, 0.0];
    SumSnoc([], -1.0);
    SumSnoc([-1.0], 0.0);
    assert [-1.0] + [0.0] == f.values;
  }

  /** On the fresh bandit of the lemma above, the first exploit pull ties and picks arm 0. */
  lemma ExploitOnlyArmZero(s: State)
    requires s == Init([-1.0, -2.0], 0.0)
    ensures Pull(s, Draw(0.5, 0)) == Ok(0)
  {
    assert s.values == [0.0, 0.0];
    assert IsFirstMax(s.values, 0);
    ArgMaxCharacterised(s.values, 0);
  }
}
