/**
  Shared vocabulary of the bandit engine: the failure a Python-level
  operation on an empty arm set raises, one select/observe/update cycle,
  sums and maxima of real-valued sequences, the first-occurrence argmax that
  `list.index(max(list))` computes, and the per-arm view of a reward history.
 */
module Arms {

  /** What the source raises when it meets an empty arm set or an improper
      Beta belief. `max([])` and `random.randint(0, -1)` raise ValueError
      (EmptySequence); `random.betavariate` with a parameter that is not
      positive raises ValueError (NonPositiveParameter); a mean over zero
      arms raises ZeroDivisionError (DivisionByZero). */
  datatype Error = EmptySequence | NonPositiveParameter | DivisionByZero

  datatype Result<+T> = Ok(value: T) | Err(error: Error)

  /** One trial of an experiment: the arm that was pulled and the reward observed for it. */
  datatype Trial = Trial(arm: nat, reward: real)

  /** A bandit after an experiment together with the trials it went through. */
  datatype Run<S> = Run(final: S, trials: seq<Trial>)

  /** The two numbers a policy's `report` computes (its text formatting is not modelled). */
  datatype Summary = Summary(avgReward: real, avgRegret: real)

  /** Python's `sum` over real numbers: `Sum(s[..n-1]) + s[n-1]` unfolds to
      `((0 + s[0]) + s[1]) + ...`, the same left-to-right order. */
  function Sum(s: seq<real>): real
  {
    if |s| == 0 then 0.0 else Sum(s[..|s| - 1]) + s[|s| - 1]
  }

  /** Python's `sum` over a list of non-negative integers. */
  function SumNat(s: seq<nat>): nat
  {
    if |s| == 0 then 0 else SumNat(s[..|s| - 1]) + s[|s| - 1]
  }

  /** Python's `max` over a non-empty list: a left-to-right scan that only
      replaces the running maximum by a strictly larger element. */
  function Max(s: seq<real>): (m: real)
    requires |s| > 0
    ensures m in s
    ensures forall i :: 0 <= i < |s| ==> s[i] <= m
  {
    if |s| == 1 then s[0]
    else
      var m' := Max(s[..|s| - 1]);
      assert forall i :: 0 <= i < |s| - 1 ==> s[i] == s[..|s| - 1][i];
      if s[|s| - 1] > m' then s[|s| - 1] else m'
  }

  /** Python's `list.index(x)`: the position of the first occurrence of `x`. */
  function IndexOf(s: seq<real>, x: real): (i: nat)
    requires x in s
    ensures i < |s| && s[i] == x
    ensures forall j :: 0 <= j < i ==> s[j] != x
  {
    if s[0] == x then 0 else 1 + IndexOf(s[1..], x)
  }

  /** `i` holds a maximal element of `s` and no smaller index holds one. */
  ghost predicate IsFirstMax(s: seq<real>, i: int)
  {
    && 0 <= i < |s|
    && (forall j :: 0 <= j < |s| ==> s[j] <= s[i])
    && (forall j :: 0 <= j < i ==> s[j] < s[i])
  }

  /** `s.index(max(s))`, the selection rule both policies use. */
  function ArgMax(s: seq<real>): (i: nat)
    requires |s| > 0
    ensures IsFirstMax(s, i)
  {
    IndexOf(s, Max(s))
  }

  /** The first-occurrence argmax is the one and only index meeting `IsFirstMax`. */
  lemma ArgMaxCharacterised(s: seq<real>, i: int)
    requires |s| > 0
    ensures IsFirstMax(s, i) <==> i == ArgMax(s)
  {
  }

  /** Every arm named in the history is below `k`. */
  ghost predicate ArmsBelow(h: seq<Trial>, k: nat)
  {
    forall t :: 0 <= t < |h| ==> h[t].arm < k
  }

  /** The history is what the experiment loop observes: each reward is the
      true mean of the arm pulled. */
  ghost predicate Observed(h: seq<Trial>, trueMeans: seq<real>)
  {
    && ArmsBelow(h, |trueMeans|)
    && (forall t :: 0 <= t < |h| ==> h[t].reward == trueMeans[h[t].arm])
  }

  /** The list of rewards an experiment returns, one entry per trial. */
  function Rewards(h: seq<Trial>): seq<real>
  {
    seq(|h|, t requires 0 <= t < |h| => h[t].reward)
  }

  /** The rewards passed for arm `a`, in the order they were observed. */
  function RewardsFor(h: seq<Trial>, a: nat): seq<real>
  {
    if |h| == 0 then []
    else RewardsFor(h[..|h| - 1], a) + (if h[|h| - 1].arm == a then [h[|h| - 1].reward] else [])
  }

  /** How many of the rewards equal exactly one (the Thompson success test). */
  function Successes(rs: seq<real>): nat
  {
    if |rs| == 0 then 0 else Successes(rs[..|rs| - 1]) + (if rs[|rs| - 1] == 1.0 then 1 else 0)
  }

  /** Appending one trial extends only the history of the arm it names. */
  lemma RewardsForSnoc(h: seq<Trial>, x: Trial, a: nat)
    ensures RewardsFor(h + [x], a) == RewardsFor(h, a) + (if x.arm == a then [x.reward] else [])
  {
    assert (h + [x])[..|h|] == h;
  }

  lemma SuccessesSnoc(rs: seq<real>, x: real)
    ensures Successes(rs + [x]) == Successes(rs) + (if x == 1.0 then 1 else 0)
  {
    assert (rs + [x])[..|rs|] == rs;
  }

  lemma SumSnoc(s: seq<real>, x: real)
    ensures Sum(s + [x]) == Sum(s) + x
  {
    assert (s + [x])[..|s|] == s;
  }

  /** The per-arm rewards of an observed history are all true means. */
  lemma {:induction false} RewardsForObserved(h: seq<Trial>, trueMeans: seq<real>, a: nat)
    requires Observed(h, trueMeans)
    ensures forall i :: 0 <= i < |RewardsFor(h, a)| ==> RewardsFor(h, a)[i] in trueMeans
    decreases |h|
  {
    if |h| > 0 {
      var pre := h[..|h| - 1];
      assert Observed(pre, trueMeans) by {
        forall t | 0 <= t < |pre| ensures pre[t] == h[t] { }
      }
      RewardsForObserved(pre, trueMeans, a);
    }
  }

  /** A sum of `n` terms each at most `m` is at most `n * m`. */
  lemma {:induction false} SumAtMost(s: seq<real>, m: real)
    requires forall i :: 0 <= i < |s| ==> s[i] <= m
    ensures Sum(s) <= (|s| as real) * m
    decreases |s|
  {
    if |s| > 0 {
      SumAtMost(s[..|s| - 1], m);
    }
  }

  /** A sum of `n` terms each at least `m` is at least `n * m`. */
  lemma {:induction false} SumAtLeast(s: seq<real>, m: real)
    requires forall i :: 0 <= i < |s| ==> m <= s[i]
    ensures (|s| as real) * m <= Sum(s)
    decreases |s|
  {
    if |s| > 0 {
      SumAtLeast(s[..|s| - 1], m);
    }
  }

  /** Python's `sum` of a concatenation is the sum of the two parts' sums. */
  lemma {:induction false} SumAppend(a: seq<real>, b: seq<real>)
    ensures Sum(a + b) == Sum(a) + Sum(b)
    decreases |b|
  {
    if |b| > 0 {
      var pre := b[..|b| - 1];
      SumAppend(a, pre);
      assert (a + b)[..|a + b| - 1] == a + pre;
    } else {
      assert a + b == a;
    }
  }

  /** A sum of `n` terms all equal to `c` is `n * c`. */
  lemma {:induction false} SumOfConstant(s: seq<real>, c: real)
    requires forall i :: 0 <= i < |s| ==> s[i] == c
    ensures Sum(s) == (|s| as real) * c
    decreases |s|
  {
    if |s| > 0 {
      SumOfConstant(s[..|s| - 1], c);
    }
  }

  /** A sum of non-negative terms is zero exactly when every term is. */
  lemma {:induction false} SumOfNonNegativeIsZeroIff(s: seq<real>)
    requires forall i :: 0 <= i < |s| ==> 0.0 <= s[i]
    ensures Sum(s) == 0.0 <==> forall i :: 0 <= i < |s| ==> s[i] == 0.0
    decreases |s|
  {
    if |s| > 0 {
      var pre := s[..|s| - 1];
      SumOfNonNegativeIsZeroIff(pre);
      SumAtLeast(pre, 0.0);
      if Sum(s) == 0.0 {
        forall i | 0 <= i < |s| ensures s[i] == 0.0 {
          if i < |s| - 1 {
            assert s[i] == pre[i];
          }
        }
      }
    }
  }

  /** A sum of `n` naturals each at least one is at least `n`. */
  lemma {:induction false} SumNatAtLeastLength(s: seq<nat>)
    requires forall i :: 0 <= i < |s| ==> 1 <= s[i]
    ensures |s| <= SumNat(s)
    decreases |s|
  {
    if |s| > 0 {
      SumNatAtLeastLength(s[..|s| - 1]);
    }
  }
}
