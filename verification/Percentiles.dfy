/** Fee-history reward percentiles (CalculatePercentiles in evmrpc/info.go), for arbitrary gas
    thresholds in place of the floating-point ones. */
module Percentiles {
  import opened Integers
  import opened Permutations

  datatype GasAndReward = GasAndReward(gasUsed: Uint64, reward: int)

  // ---------------------------------------------------------------- what a percentile is

  /** The gas of the transactions rewarded at most `reward`. */
  function GasUpTo(xs: seq<GasAndReward>, reward: int): nat {
    if xs == [] then 0
    else GasUpTo(xs[..|xs| - 1], reward) + if xs[|xs| - 1].reward <= reward then xs[|xs| - 1].gasUsed else 0
  }

  function TotalGas(xs: seq<GasAndReward>): nat {
    if xs == [] then 0 else TotalGas(xs[..|xs| - 1]) + xs[|xs| - 1].gasUsed
  }

  /** The lowest reward at which the gas of all transactions rewarded that or less reaches the
      threshold, or the highest reward when no reward does. */
  ghost predicate IsPercentile(xs: seq<GasAndReward>, threshold: nat, reward: int) {
    && (exists i :: 0 <= i < |xs| && xs[i].reward == reward)
    && (GasUpTo(xs, reward) >= threshold || forall i :: 0 <= i < |xs| ==> xs[i].reward <= reward)
    && (forall i :: 0 <= i < |xs| && xs[i].reward < reward ==> GasUpTo(xs, xs[i].reward) < threshold)
  }

  /** A higher threshold never lowers the reward; in particular a percentile is unique. */
  lemma PercentilesAscend(xs: seq<GasAndReward>, t: nat, r: int, u: nat, s: int)
    requires IsPercentile(xs, t, r) && IsPercentile(xs, u, s) && t <= u
    ensures r <= s
  {
    var i :| 0 <= i < |xs| && xs[i].reward == s;
    assert s < r ==> GasUpTo(xs, s) < t;
  }

  // ---------------------------------------------------------------- order of the transactions

  lemma {:induction false} GasUpToWithout(xs: seq<GasAndReward>, i: nat, reward: int)
    requires i < |xs|
    ensures GasUpTo(xs, reward) ==
            GasUpTo(xs[..i] + xs[i + 1..], reward) + if xs[i].reward <= reward then xs[i].gasUsed else 0
  {
    var n := |xs| - 1;
    if i == n {
      assert xs[..i] + xs[i + 1..] == xs[..n];
    } else {
      GasUpToWithout(xs[..n], i, reward);
      WithoutBoth(xs, i);
    }
  }

  lemma {:induction false} GasUpToPermuted(xs: seq<GasAndReward>, ys: seq<GasAndReward>, reward: int)
    requires multiset(xs) == multiset(ys)
    ensures GasUpTo(xs, reward) == GasUpTo(ys, reward)
  {
    if xs == [] {
      assert |multiset(ys)| == 0;
    } else {
      var i := MatchLast(xs, ys);
      GasUpToPermuted(xs[..|xs| - 1], ys[..i] + ys[i + 1..], reward);
      GasUpToWithout(ys, i, reward);
    }
  }

  /** A percentile does not depend on the order of the transactions. */
  lemma PercentilePermuted(xs: seq<GasAndReward>, ys: seq<GasAndReward>, threshold: nat, reward: int)
    requires multiset(xs) == multiset(ys) && IsPercentile(xs, threshold, reward)
    ensures IsPercentile(ys, threshold, reward)
  {
    hide GasUpTo;
    var k :| 0 <= k < |xs| && xs[k].reward == reward;
    SameMember(xs, ys, k);
    GasUpToPermuted(xs, ys, reward);
    forall i | 0 <= i < |ys|
      ensures exists j :: 0 <= j < |xs| && xs[j] == ys[i]
      ensures GasUpTo(xs, ys[i].reward) == GasUpTo(ys, ys[i].reward)
    {
      SameMember(ys, xs, i);
      GasUpToPermuted(xs, ys, ys[i].reward);
    }
  }

  lemma SameMember(xs: seq<GasAndReward>, ys: seq<GasAndReward>, k: nat)
    requires multiset(xs) == multiset(ys) && k < |xs|
    ensures exists j :: 0 <= j < |ys| && ys[j] == xs[k]
  {
    assert xs[k] in multiset(ys);
  }

  // ---------------------------------------------------------------- the sorted sweep

  ghost predicate Ascending(xs: seq<GasAndReward>) {
    forall i, j :: 0 <= i < j < |xs| ==> xs[i].reward <= xs[j].reward
  }

  /** Gas of the first `k + 1` transactions. */
  function Cumulative(xs: seq<GasAndReward>, k: nat): nat
    requires k < |xs|
  {
    TotalGas(xs[..k + 1])
  }

  lemma {:induction false} TotalGasPrefix(xs: seq<GasAndReward>, i: nat, j: nat)
    requires i <= j <= |xs|
    ensures TotalGas(xs[..i]) <= TotalGas(xs[..j])
  {
    if i < j {
      TotalGasPrefix(xs, i, j - 1);
      assert xs[..j][..j - 1] == xs[..j - 1];
    }
  }

  lemma {:induction false} UpToCovers(xs: seq<GasAndReward>, n: nat, k: nat, reward: int)
    requires n <= |xs| && k <= n && forall i :: 0 <= i < k ==> xs[i].reward <= reward
    ensures GasUpTo(xs[..n], reward) >= TotalGas(xs[..k])
    ensures (forall i :: k <= i < n ==> xs[i].reward > reward) ==> GasUpTo(xs[..n], reward) == TotalGas(xs[..k])
  {
    if n > 0 {
      assert xs[..n][..n - 1] == xs[..n - 1];
      if k == n {
        UpToCovers(xs, n - 1, n - 1, reward);
      } else {
        UpToCovers(xs, n - 1, k, reward);
      }
    }
  }

  /** No index before `k` reaches the threshold. */
  ghost predicate StandsAt(ys: seq<GasAndReward>, k: nat, threshold: nat) {
    k < |ys| && forall j :: 0 <= j < k ==> Cumulative(ys, j) < threshold
  }

  /** On sorted transactions, the reward at the least index whose cumulative gas reaches the
      threshold, or at the last index, is the percentile. */
  lemma SweepFindsPercentile(xs: seq<GasAndReward>, threshold: nat, k: nat)
    requires Ascending(xs) && k < |xs| && StandsAt(xs, k, threshold)
    requires k == |xs| - 1 || Cumulative(xs, k) >= threshold
    ensures IsPercentile(xs, threshold, xs[k].reward)
  {
    assert xs[..|xs|] == xs;
    UpToCovers(xs, |xs|, k + 1, xs[k].reward);
    forall i | 0 <= i < |xs| && xs[i].reward < xs[k].reward
      ensures GasUpTo(xs, xs[i].reward) < threshold
    {
      var m := i;
      while xs[m + 1].reward <= xs[i].reward
        invariant i <= m < k && xs[m].reward <= xs[i].reward
        decreases k - m
      {
        m := m + 1;
      }
      UpToCovers(xs, |xs|, m + 1, xs[i].reward);
      assert Cumulative(xs, m) < threshold;
    }
  }

  /** The library's stable sort, by insertion. */
  method SortByReward(xs: seq<GasAndReward>) returns (ys: seq<GasAndReward>)
    ensures multiset(ys) == multiset(xs) && Ascending(ys)
  {
    ys := [];
    for i := 0 to |xs|
      invariant multiset(ys) == multiset(xs[..i]) && Ascending(ys)
    {
      hide Ascending;
      ys := InsertByReward(ys, xs[i]);
      OneMore(xs, i);
    }
    assert xs[..|xs|] == xs;
  }

  method InsertByReward(ys: seq<GasAndReward>, x: GasAndReward) returns (zs: seq<GasAndReward>)
    requires Ascending(ys)
    ensures Ascending(zs) && multiset(zs) == multiset(ys) + multiset{x}
  {
    var k := |ys|;
    while k > 0 && ys[k - 1].reward > x.reward
      invariant 0 <= k <= |ys| && (k < |ys| ==> ys[k].reward > x.reward)
    {
      k := k - 1;
    }
    hide Ascending;
    InsertKeeps(ys, k, x);
    zs := ys[..k] + [x] + ys[k..];
  }

  lemma OneMore(xs: seq<GasAndReward>, i: nat)
    requires i < |xs|
    ensures multiset(xs[..i + 1]) == multiset(xs[..i]) + multiset{xs[i]}
  {
    assert xs[..i + 1] == xs[..i] + [xs[i]];
  }

  lemma InsertKeeps(ys: seq<GasAndReward>, k: nat, x: GasAndReward)
    requires k <= |ys| && Ascending(ys)
    requires (k > 0 ==> ys[k - 1].reward <= x.reward) && (k < |ys| ==> x.reward <= ys[k].reward)
    ensures Ascending(ys[..k] + [x] + ys[k..]) && multiset(ys[..k] + [x] + ys[k..]) == multiset(ys) + multiset{x}
  {
    InsertOrdered(ys, k, x, ys[..k] + [x] + ys[k..]);
    InsertAt(ys, k, x);
  }

  lemma InsertOrdered(ys: seq<GasAndReward>, k: nat, x: GasAndReward, zs: seq<GasAndReward>)
    requires k <= |ys| && Ascending(ys)
    requires (k > 0 ==> ys[k - 1].reward <= x.reward) && (k < |ys| ==> x.reward <= ys[k].reward)
    requires |zs| == |ys| + 1 && zs[k] == x
    requires forall i :: 0 <= i < k ==> zs[i] == ys[i]
    requires forall i :: k < i < |zs| ==> zs[i] == ys[i - 1]
    ensures Ascending(zs)
  {
    forall i, j | 0 <= i < j < |zs|
      ensures zs[i].reward <= zs[j].reward
    {
      assert i < k ==> ys[i].reward <= x.reward;
      assert j > k ==> x.reward <= ys[j - 1].reward;
    }
  }

  /** The largest threshold so far. */
  function Highest(ts: seq<Uint64>, i: nat): Uint64
    requires i < |ts|
  {
    if i == 0 then ts[0] else if ts[i] > Highest(ts, i - 1) then ts[i] else Highest(ts, i - 1)
  }

  lemma {:induction false} HighestOfAscending(ts: seq<Uint64>, i: nat)
    requires i < |ts| && forall j, k :: 0 <= j < k < |ts| ==> ts[j] <= ts[k]
    ensures Highest(ts, i) == ts[i]
  {
    if i > 0 {
      HighestOfAscending(ts, i - 1);
    }
  }

  /** The running sum of the sweep, a uint64. */
  function Wrapped(ys: seq<GasAndReward>, k: nat): Uint64
    requires k < |ys|
  {
    Cumulative(ys, k) % TWO_64
  }

  /** Where the inner loop stops when it starts at `k`. */
  function Reach(ys: seq<GasAndReward>, k: nat, threshold: Uint64): (r: nat)
    requires k < |ys|
    ensures k <= r < |ys|
    decreases |ys| - k
  {
    if k == |ys| - 1 || Wrapped(ys, k) >= threshold then k else Reach(ys, k + 1, threshold)
  }

  /** Where the sweep stands after threshold number i. */
  function StopAt(ys: seq<GasAndReward>, ts: seq<Uint64>, i: nat): (r: nat)
    requires ys != [] && i < |ts|
    ensures r < |ys|
  {
    Reach(ys, if i == 0 then 0 else StopAt(ys, ts, i - 1), ts[i])
  }

  /** The inner loop. */
  method Advance(ys: seq<GasAndReward>, start: nat, sum: Uint64, threshold: Uint64)
    returns (txIndex: nat, sumGasUsed: Uint64)
    requires start < |ys| && sum == Wrapped(ys, start)
    ensures txIndex == Reach(ys, start, threshold) && sumGasUsed == Wrapped(ys, txIndex)
  {
    hide Wrapped;
    txIndex, sumGasUsed := start, sum;
    while sumGasUsed < threshold && txIndex < |ys| - 1
      invariant txIndex < |ys| && sumGasUsed == Wrapped(ys, txIndex)
      invariant Reach(ys, txIndex, threshold) == Reach(ys, start, threshold)
      decreases |ys| - txIndex
    {
      NextWrapped(ys, txIndex);
      txIndex := txIndex + 1;
      sumGasUsed := Add(sumGasUsed, ys[txIndex].gasUsed);
    }
  }

  /** One pass over the sorted transactions. */
  method Sweep(thresholds: seq<Uint64>, ys: seq<GasAndReward>) returns (res: seq<int>)
    requires ys != []
    ensures |res| == |thresholds| && forall i :: 0 <= i < |res| ==> res[i] == ys[StopAt(ys, thresholds, i)].reward
  {
    hide Wrapped, Reach;
    FirstWrapped(ys);
    res := [];
    var txIndex := 0;
    var sumGasUsed: Uint64 := ys[0].gasUsed;
    for i := 0 to |thresholds|
      invariant |res| == i && txIndex < |ys| && sumGasUsed == Wrapped(ys, txIndex)
      invariant txIndex == if i == 0 then 0 else StopAt(ys, thresholds, i - 1)
      invariant forall j :: 0 <= j < i ==> res[j] == ys[StopAt(ys, thresholds, j)].reward
    {
      txIndex, sumGasUsed := Advance(ys, txIndex, sumGasUsed, thresholds[i]);
      res := res + [ys[txIndex].reward];
    }
  }

  // ---------------------------------------------------------------- when the uint64 sum misleads

  const MAX_UINT64 := TWO_64 - 1

  /** The running sum jumps over every uint64 value at an index that is not the last. */
  ghost predicate JumpsAt(ys: seq<GasAndReward>, k: nat) {
    k < |ys| - 1 && Cumulative(ys, k) > MAX_UINT64 && (k > 0 ==> Cumulative(ys, k - 1) < MAX_UINT64)
  }

  /** The least index whose exact sum reaches the threshold, or the last. */
  ghost predicate IsStop(ys: seq<GasAndReward>, m: nat, threshold: nat) {
    StandsAt(ys, m, threshold) && (m == |ys| - 1 || Cumulative(ys, m) >= threshold)
  }

  /** The sweep behind a jump stops at no higher reward than at the jump. */
  ghost predicate Harmless(ys: seq<GasAndReward>) {
    forall k: nat :: JumpsAt(ys, k) ==> ys[Reach(ys, k, MAX_UINT64)].reward == ys[k].reward
  }

  /** The sweep stands at the right index, or, if that is a jump, between it and where the largest
      threshold would take it. */
  ghost predicate Settled(ys: seq<GasAndReward>, r: nat, m: nat, threshold: nat) {
    IsStop(ys, m, threshold) && (r == m || (JumpsAt(ys, m) && m <= r <= Reach(ys, m, MAX_UINT64)))
  }

  /** Where the sum is below the threshold it is exact, and the sweep walks on. */
  lemma {:induction false} WalksTo(ys: seq<GasAndReward>, j: nat, m: nat, threshold: Uint64)
    requires j <= m < |ys| && StandsAt(ys, m, threshold)
    ensures Reach(ys, j, threshold) == Reach(ys, m, threshold)
    decreases m - j
  {
    hide Cumulative;
    if j < m {
      assert Cumulative(ys, j) < threshold;
      WalksTo(ys, j + 1, m, threshold);
    }
  }

  /** No threshold takes the sweep past where the largest one would. */
  lemma {:induction false} ReachWithin(ys: seq<GasAndReward>, k: nat, j: nat, threshold: Uint64)
    requires k <= j < |ys| && j <= Reach(ys, k, MAX_UINT64)
    ensures j <= Reach(ys, j, threshold) <= Reach(ys, k, MAX_UINT64)
    decreases |ys| - j
  {
    hide Wrapped;
    ReachAgain(ys, k, j);
    if j < |ys| - 1 && Wrapped(ys, j) < threshold {
      ReachWithin(ys, k, j + 1, threshold);
    }
  }

  lemma {:induction false} ReachAgain(ys: seq<GasAndReward>, k: nat, j: nat)
    requires k <= j < |ys| && j <= Reach(ys, k, MAX_UINT64)
    ensures Reach(ys, j, MAX_UINT64) == Reach(ys, k, MAX_UINT64)
    decreases j - k
  {
    hide Wrapped;
    if k < j {
      ReachAgain(ys, k + 1, j);
    }
  }

  /** At the right index the sweep stays, unless it is a jump. */
  lemma StopsThere(ys: seq<GasAndReward>, m: nat, threshold: Uint64, highest: Uint64)
    requires IsStop(ys, m, highest) && threshold <= highest
    ensures Settled(ys, Reach(ys, m, threshold), m, highest)
  {
    hide Cumulative;
    ReachWithin(ys, m, m, threshold);
    if !JumpsAt(ys, m) && m < |ys| - 1 {
      ExactBelow(ys, m, highest);
    }
  }

  /** Without a jump, the sum is exact wherever the sweep may still be standing, or past the threshold. */
  lemma ExactBelow(ys: seq<GasAndReward>, k: nat, highest: Uint64)
    requires k < |ys| - 1 && !JumpsAt(ys, k) && StandsAt(ys, k, highest)
    ensures Wrapped(ys, k) == Cumulative(ys, k)
  {
    if k == 0 {
      FirstCumulative(ys);
    } else {
      assert Cumulative(ys, k - 1) < highest;
    }
  }

  lemma {:induction false} StopExists(ys: seq<GasAndReward>, m: nat, threshold: nat) returns (m': nat)
    requires StandsAt(ys, m, threshold)
    ensures m <= m' && IsStop(ys, m', threshold)
    decreases |ys| - m
  {
    hide Cumulative;
    if m == |ys| - 1 || Cumulative(ys, m) >= threshold {
      m' := m;
    } else {
      m' := StopExists(ys, m + 1, threshold);
    }
  }

  /** One more threshold. */
  lemma NextSettled(ys: seq<GasAndReward>, r: nat, m: nat, threshold: Uint64, highest: Uint64) returns (m': nat)
    requires r < |ys| && Settled(ys, r, m, highest)
    ensures Settled(ys, Reach(ys, r, threshold), m', if threshold > highest then threshold else highest)
  {
    hide Cumulative, Reach;
    var high := if threshold > highest then threshold else highest;
    StandsStill(ys, m, highest, high);
    m' := StopExists(ys, m, high);
    if m' == m {
      if r == m {
        StopsThere(ys, m, threshold, high);
      } else {
        ReachWithin(ys, m, r, threshold);
      }
    } else {
      assert Cumulative(ys, m) < high && high == threshold;
      assert !JumpsAt(ys, m);
      WalksTo(ys, m, m', threshold);
      StopsThere(ys, m', threshold, high);
    }
  }

  lemma StandsStill(ys: seq<GasAndReward>, k: nat, t: nat, u: nat)
    requires k < |ys| && (k == 0 || (StandsAt(ys, k, t) && t <= u))
    ensures StandsAt(ys, k, u)
  {
  }

  lemma {:induction false} SweepSettles(ys: seq<GasAndReward>, ts: seq<Uint64>, i: nat) returns (m: nat)
    requires ys != [] && i < |ts|
    ensures Settled(ys, StopAt(ys, ts, i), m, Highest(ts, i))
  {
    hide Settled, Reach;
    if i == 0 {
      m := FirstSettled(ys, ts[0]);
    } else {
      m := SweepSettles(ys, ts, i - 1);
      m := NextSettled(ys, StopAt(ys, ts, i - 1), m, ts[i], Highest(ts, i - 1));
    }
  }

  lemma FirstSettled(ys: seq<GasAndReward>, threshold: Uint64) returns (m: nat)
    requires ys != []
    ensures Settled(ys, Reach(ys, 0, threshold), m, threshold)
  {
    hide Cumulative, Reach;
    m := StopExists(ys, 0, threshold);
    WalksTo(ys, 0, m, threshold);
    StopsThere(ys, m, threshold, threshold);
  }

  /** If jumps are harmless, the sweep answers every threshold with the percentile of the highest so
      far. */
  lemma SweepRight(ys: seq<GasAndReward>, ts: seq<Uint64>, i: nat)
    requires ys != [] && Ascending(ys) && Harmless(ys) && i < |ts|
    ensures IsPercentile(ys, Highest(ts, i), ys[StopAt(ys, ts, i)].reward)
  {
    hide IsPercentile, Cumulative, StopAt, Highest, Reach;
    var m := SweepSettles(ys, ts, i);
    SweepFindsPercentile(ys, Highest(ts, i), m);
    assert ys[m].reward <= ys[StopAt(ys, ts, i)].reward;
    assert JumpsAt(ys, m) ==> ys[StopAt(ys, ts, i)].reward <= ys[Reach(ys, m, MAX_UINT64)].reward;
  }

  /** A jump that is not harmless makes the largest threshold be answered with too high a reward. */
  lemma JumpMisleads(ys: seq<GasAndReward>, k: nat)
    requires Ascending(ys) && JumpsAt(ys, k) && ys[Reach(ys, k, MAX_UINT64)].reward != ys[k].reward
    ensures !IsPercentile(ys, MAX_UINT64, ys[StopAt(ys, [MAX_UINT64], 0)].reward)
  {
    hide TotalGas, GasUpTo, Reach;
    JumpStands(ys, k);
    WalksTo(ys, 0, k, MAX_UINT64);
    assert ys[k].reward < ys[Reach(ys, k, MAX_UINT64)].reward;
    assert ys[..|ys|] == ys;
    UpToCovers(ys, |ys|, k + 1, ys[k].reward);
  }

  lemma JumpStands(ys: seq<GasAndReward>, k: nat)
    requires JumpsAt(ys, k)
    ensures StandsAt(ys, k, MAX_UINT64)
  {
    forall j | 0 <= j < k ensures Cumulative(ys, j) < MAX_UINT64 {
      TotalGasPrefix(ys, j + 1, k);
    }
  }

  /** Every threshold of every query is answered with a percentile exactly when the sweep behind a jump
      stops at no higher reward than at the jump. */
  lemma SweepRightExactly(ys: seq<GasAndReward>)
    requires ys != [] && Ascending(ys)
    ensures Harmless(ys) <==> forall ts: seq<Uint64>, i: nat :: i < |ts| ==>
              IsPercentile(ys, Highest(ts, i), ys[StopAt(ys, ts, i)].reward)
  {
    hide IsPercentile, StopAt, JumpsAt, Reach;
    if Harmless(ys) {
      forall ts: seq<Uint64>, i: nat | i < |ts|
        ensures IsPercentile(ys, Highest(ts, i), ys[StopAt(ys, ts, i)].reward)
      {
        SweepRight(ys, ts, i);
      }
    } else {
      var k: nat :| JumpsAt(ys, k) && ys[Reach(ys, k, MAX_UINT64)].reward != ys[k].reward;
      JumpMisleads(ys, k);
      assert Highest([MAX_UINT64], 0) == MAX_UINT64;
    }
  }

  /** A block whose gas fits a uint64 has no jump. */
  lemma FitsIsHarmless(ys: seq<GasAndReward>)
    requires TotalGas(ys) < TWO_64
    ensures Harmless(ys)
  {
    hide Reach;
    forall k: nat | k < |ys| ensures Cumulative(ys, k) < TWO_64 {
      assert ys[..|ys|] == ys;
      TotalGasPrefix(ys, k + 1, |ys|);
    }
  }

  /** CalculatePercentiles: the sweep of the sorted transactions, and percentiles unless the uint64 sum
      does harm. */
  method CalculatePercentiles(thresholds: seq<Uint64>, xs: seq<GasAndReward>)
    returns (res: seq<int>, ghost ys: seq<GasAndReward>)
    ensures |res| == |thresholds| && multiset(ys) == multiset(xs) && |ys| == |xs| && Ascending(ys)
    ensures xs == [] ==> forall i :: 0 <= i < |res| ==> res[i] == 0
    ensures xs != [] ==> forall i :: 0 <= i < |res| ==> res[i] == ys[StopAt(ys, thresholds, i)].reward
    ensures xs != [] && Harmless(ys) ==> forall i :: 0 <= i < |res| ==> IsPercentile(xs, Highest(thresholds, i), res[i])
    ensures TotalGas(xs) < TWO_64 ==> Harmless(ys)
  {
    hide IsPercentile, TotalGas, Ascending, Highest, StopAt, Harmless;
    var sorted := SortByReward(xs);
    ys := sorted;
    assert |xs| == |multiset(xs)| == |multiset(ys)| == |ys|;
    TotalGasPermuted(xs, ys);
    if TotalGas(xs) < TWO_64 {
      FitsIsHarmless(ys);
    }
    if |sorted| == 0 {
      res := [];
      for i := 0 to |thresholds|
        invariant |res| == i && forall j :: 0 <= j < i ==> res[j] == 0
      {
        res := res + [0];
      }
      return;
    }
    res := Sweep(thresholds, sorted);
    if Harmless(ys) {
      forall i | 0 <= i < |res|
        ensures IsPercentile(xs, Highest(thresholds, i), res[i])
      {
        SweepRight(ys, thresholds, i);
        PercentilePermuted(ys, xs, Highest(thresholds, i), res[i]);
      }
    }
  }

  lemma FirstWrapped(ys: seq<GasAndReward>)
    requires ys != []
    ensures Wrapped(ys, 0) == ys[0].gasUsed
  {
    FirstCumulative(ys);
  }

  lemma NextWrapped(ys: seq<GasAndReward>, k: nat)
    requires k + 1 < |ys|
    ensures Wrapped(ys, k + 1) == Add(Wrapped(ys, k), ys[k + 1].gasUsed)
  {
    hide Cumulative;
    NextCumulative(ys, k);
  }

  lemma FirstCumulative(ys: seq<GasAndReward>)
    requires ys != []
    ensures Cumulative(ys, 0) == ys[0].gasUsed
  {
    var one := ys[..1];
    assert TotalGas(one) == TotalGas(one[..0]) + ys[0].gasUsed;
  }

  lemma NextCumulative(ys: seq<GasAndReward>, k: nat)
    requires k + 1 < |ys|
    ensures Cumulative(ys, k + 1) == Cumulative(ys, k) + ys[k + 1].gasUsed <= TotalGas(ys)
  {
    assert ys[..k + 2][..k + 1] == ys[..k + 1] && ys[..|ys|] == ys;
    TotalGasPrefix(ys, k + 2, |ys|);
  }

  lemma {:induction false} TotalGasWithout(xs: seq<GasAndReward>, i: nat)
    requires i < |xs|
    ensures TotalGas(xs) == TotalGas(xs[..i] + xs[i + 1..]) + xs[i].gasUsed
  {
    var n := |xs| - 1;
    if i == n {
      assert xs[..i] + xs[i + 1..] == xs[..n];
    } else {
      TotalGasWithout(xs[..n], i);
      WithoutBoth(xs, i);
    }
  }

  lemma {:induction false} TotalGasPermuted(xs: seq<GasAndReward>, ys: seq<GasAndReward>)
    requires multiset(xs) == multiset(ys)
    ensures TotalGas(xs) == TotalGas(ys)
  {
    if xs == [] {
      assert |multiset(ys)| == 0;
    } else {
      var i := MatchLast(xs, ys);
      TotalGasPermuted(xs[..|xs| - 1], ys[..i] + ys[i + 1..]);
      TotalGasWithout(ys, i);
    }
  }

  /** For ascending thresholds each answer is the percentile of its own threshold and the answers
      ascend. */
  lemma AscendingThresholds(ts: seq<Uint64>, xs: seq<GasAndReward>, res: seq<int>, i: nat, j: nat)
    requires |res| == |ts| && i <= j < |ts|
    requires forall a, b :: 0 <= a < b < |ts| ==> ts[a] <= ts[b]
    requires forall k :: 0 <= k < |res| ==> IsPercentile(xs, Highest(ts, k), res[k])
    ensures IsPercentile(xs, ts[i], res[i]) && res[i] <= res[j]
  {
    hide IsPercentile;
    HighestOfAscending(ts, i);
    HighestOfAscending(ts, j);
    PercentilesAscend(xs, Highest(ts, i), res[i], Highest(ts, j), res[j]);
  }
}
