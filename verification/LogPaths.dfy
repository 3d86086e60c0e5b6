/** The two ways a log query walks a block range: windows over an indexed store, or block by
    block through worker batches (evmrpc/filter.go), and when the two give the same logs. */
module LogPaths {
  import opened EthLogs
  import opened TxIndexing
  import opened Blooms
  import opened LogFilter
  import opened Wrappers
  import opened LogMerge
  import opened Permutations

  const RANGE_QUERY_WINDOW_BLOCKS := 8
  const WORKER_BATCH_SIZE := 100

  /** One stored block: its transactions, the receipts seen from it, and its block bloom
      (absent when all zeroes). */
  datatype BlockData = BlockData(block: Block, view: View, bloom: Bloom)

  type Chain = map<nat, BlockData>

  datatype Fetch = Logs(logs: seq<Log>) | TooManyLogs | BlockUnavailable | Overloaded

  // ---------------------------------------------------------------- reference result of a range

  function LogsAt(chain: Chain, crit: Criteria, h: nat): seq<Log> {
    if h in chain then MatchingLogs(chain[h].view, chain[h].block, crit) else []
  }

  function LogsOf(chain: Chain, crit: Criteria, hs: seq<nat>): seq<Log> {
    if hs == [] then [] else LogsOf(chain, crit, hs[..|hs| - 1]) + LogsAt(chain, crit, hs[|hs| - 1])
  }

  /** The matching logs of heights lo, ..., hi - 1. */
  function RangeLogs(chain: Chain, crit: Criteria, lo: nat, hi: nat): seq<Log> {
    if hi <= lo then [] else RangeLogs(chain, crit, lo, hi - 1) + LogsAt(chain, crit, hi - 1)
  }

  lemma {:induction false} RangeSplit(chain: Chain, crit: Criteria, lo: nat, mid: nat, hi: nat)
    requires lo <= mid <= hi
    ensures RangeLogs(chain, crit, lo, hi) == RangeLogs(chain, crit, lo, mid) + RangeLogs(chain, crit, mid, hi)
  {
    hide LogsAt;
    if mid < hi {
      RangeSplit(chain, crit, lo, mid, hi - 1);
    }
  }

  lemma LogsOfStep(chain: Chain, crit: Criteria, hs: seq<nat>, h: nat)
    ensures LogsOf(chain, crit, hs + [h]) == LogsOf(chain, crit, hs) + LogsAt(chain, crit, h)
  {
    assert (hs + [h])[..|hs|] == hs;
  }

  lemma {:induction false} LogsOfAppend(chain: Chain, crit: Criteria, a: seq<nat>, b: seq<nat>)
    ensures LogsOf(chain, crit, a + b) == LogsOf(chain, crit, a) + LogsOf(chain, crit, b)
  {
    hide LogsAt;
    if b == [] {
      assert a + b == a;
    } else {
      hide LogsOf;
      var front, last := b[..|b| - 1], b[|b| - 1];
      LogsOfAppend(chain, crit, a, front);
      LogsOfStep(chain, crit, a + front, last);
      LogsOfStep(chain, crit, front, last);
      assert a + b == (a + front) + [last] && b == front + [last];
      Associative(LogsOf(chain, crit, a), LogsOf(chain, crit, front), LogsAt(chain, crit, last));
    }
  }

  /** What the node stores about its blocks. */
  ghost predicate WellFormed(hash: Hasher, chain: Chain) {
    forall h :: h in chain ==>
      && chain[h].block.height == h
      && BloomsCover(hash, chain[h].view)
      && BlockBloomCovers(hash, chain[h])
  }

  ghost predicate BlockBloomCovers(hash: Hasher, d: BlockData) {
    var listed := ListedIn(d.view, d.block);
    d.bloom.Bits? ==>
      forall l :: l in NumberedLogs(d.view, d.block.height, listed, |listed|) ==>
        Covers(hash, d.bloom.bits, l.address, l.topics)
  }

  // ---------------------------------------------------------------- what one query can see

  /** What one query meets: the cached blocks, whether a height lies within the watermarks at the moment
      the query asks, and whether the worker pool has no room for submission number i of the query. */
  datatype Reads = Reads(cached: set<nat>, available: nat -> bool, full: nat -> bool)

  /** The block-by-block path never looks at height 0, and it passes over a cached block whose
      availability check fails without reporting an error. */
  predicate Hides(r: Reads, h: nat) {
    h == 0 || (h in r.cached && !r.available(h))
  }

  function Visible(chain: Chain, r: Reads): Chain {
    map h | h in chain && !Hides(r, h) :: chain[h]
  }

  ghost predicate Subchain(sub: Chain, chain: Chain) {
    forall h :: h in sub ==> h in chain && sub[h] == chain[h]
  }

  lemma SubchainWellFormed(hash: Hasher, sub: Chain, chain: Chain)
    requires WellFormed(hash, chain) && Subchain(sub, chain)
    ensures WellFormed(hash, sub)
  {
  }

  lemma VisibleAt(chain: Chain, crit: Criteria, r: Reads, h: nat)
    ensures LogsAt(Visible(chain, r), crit, h) == if Hides(r, h) then [] else LogsAt(chain, crit, h)
  {
  }

  /** The blocks of the range that `sub` lacks have no match. */
  ghost predicate LacksNoMatch(sub: Chain, chain: Chain, crit: Criteria, lo: nat, hi: nat) {
    forall h :: lo <= h < hi && h !in sub ==> LogsAt(chain, crit, h) == []
  }

  lemma {:induction false} SubchainCount(sub: Chain, chain: Chain, crit: Criteria, lo: nat, hi: nat)
    requires Subchain(sub, chain)
    ensures var some, all := RangeLogs(sub, crit, lo, hi), RangeLogs(chain, crit, lo, hi);
            && |some| <= |all|
            && (LacksNoMatch(sub, chain, crit, lo, hi) ==> some == all)
            && (|some| == |all| ==> LacksNoMatch(sub, chain, crit, lo, hi))
  {
    hide LogsAt, Subchain;
    if lo < hi {
      hide LacksNoMatch;
      SubchainCount(sub, chain, crit, lo, hi - 1);
      SubchainAt(sub, chain, crit, hi - 1);
      LacksStep(sub, chain, crit, lo, hi - 1);
    }
  }

  lemma LacksStep(sub: Chain, chain: Chain, crit: Criteria, lo: nat, h: nat)
    requires lo <= h
    ensures LacksNoMatch(sub, chain, crit, lo, h + 1) <==>
            LacksNoMatch(sub, chain, crit, lo, h) && (h in sub || LogsAt(chain, crit, h) == [])
  {
    hide LogsAt;
  }

  lemma SubchainAt(sub: Chain, chain: Chain, crit: Criteria, h: nat)
    requires Subchain(sub, chain)
    ensures LogsAt(sub, crit, h) == if h in sub then LogsAt(chain, crit, h) else []
  {
  }

  /** Part of the chain gives all logs of a range exactly when the blocks it lacks have no match. */
  lemma SubchainExactly(sub: Chain, chain: Chain, crit: Criteria, lo: nat, hi: nat)
    requires Subchain(sub, chain)
    ensures RangeLogs(sub, crit, lo, hi) == RangeLogs(chain, crit, lo, hi) <==> LacksNoMatch(sub, chain, crit, lo, hi)
  {
    hide RangeLogs, LacksNoMatch;
    SubchainCount(sub, chain, crit, lo, hi);
  }

  ghost predicate HidesNoMatch(chain: Chain, crit: Criteria, r: Reads, lo: nat, hi: nat) {
    forall h :: lo <= h < hi && Hides(r, h) ==> LogsAt(chain, crit, h) == []
  }

  lemma HidesOrLacks(chain: Chain, crit: Criteria, r: Reads, lo: nat, hi: nat)
    ensures Subchain(Visible(chain, r), chain)
    ensures HidesNoMatch(chain, crit, r, lo, hi) <==> LacksNoMatch(Visible(chain, r), chain, crit, lo, hi)
  {
    hide MatchingLogs;
  }

  /** Chains that agree on a range give the same logs there. */
  lemma {:induction false} RangeAgrees(a: Chain, b: Chain, crit: Criteria, lo: nat, hi: nat)
    requires forall h :: lo <= h < hi ==> (h in a <==> h in b) && (h in a ==> a[h] == b[h])
    ensures RangeLogs(a, crit, lo, hi) == RangeLogs(b, crit, lo, hi)
  {
    if lo < hi {
      assert LogsAt(a, crit, hi - 1) == LogsAt(b, crit, hi - 1);
      hide LogsAt;
      RangeAgrees(a, b, crit, lo, hi - 1);
    }
  }

  // ---------------------------------------------------------------- order of the range

  lemma {:induction false} SelectKeepsOrder(ls: seq<Log>, crit: Criteria)
    requires StrictlySorted(ls)
    ensures StrictlySorted(Select(ls, crit))
  {
    if ls != [] {
      var front, x := ls[..|ls| - 1], ls[|ls| - 1];
      SelectKeepsOrder(front, crit);
      forall y | y in front ensures Less(y, x) {
        var i :| 0 <= i < |front| && front[i] == y;
        assert ls[i] == y;
      }
    }
  }

  lemma LogsAtOrdered(hash: Hasher, chain: Chain, crit: Criteria, h: nat)
    requires WellFormed(hash, chain)
    ensures StrictlySorted(LogsAt(chain, crit, h))
    ensures forall x :: x in LogsAt(chain, crit, h) ==> x.block == h
  {
    hide Select, NumberedLogs, Listing;
    if h in chain {
      var d := chain[h];
      var listed := ListedIn(d.view, d.block);
      LogIndicesCount(d.view, d.block.height, listed, |listed|);
      SelectKeepsOrder(NumberedLogs(d.view, d.block.height, listed, |listed|), crit);
    }
  }

  lemma {:induction false} RangeOrdered(hash: Hasher, chain: Chain, crit: Criteria, lo: nat, hi: nat)
    requires WellFormed(hash, chain)
    ensures StrictlySorted(RangeLogs(chain, crit, lo, hi))
    ensures forall x :: x in RangeLogs(chain, crit, lo, hi) ==> lo <= x.block < hi
  {
    hide LogsAt, WellFormed;
    if lo < hi {
      RangeOrdered(hash, chain, crit, lo, hi - 1);
      LogsAtOrdered(hash, chain, crit, hi - 1);
      var a, b := RangeLogs(chain, crit, lo, hi - 1), LogsAt(chain, crit, hi - 1);
      forall i, j | 0 <= i < |a| && 0 <= j < |b| ensures Less(a[i], b[j]) {
        assert a[i] in a && b[j] in b;
      }
    }
  }

  // ---------------------------------------------------------------- permutations

  lemma LogsOfMiddle(chain: Chain, crit: Criteria, b: seq<nat>, k: nat)
    requires k < |b|
    ensures multiset(LogsOf(chain, crit, b)) ==
            multiset(LogsOf(chain, crit, b[..k] + b[k + 1..])) + multiset(LogsAt(chain, crit, b[k]))
  {
    hide LogsOf, LogsAt;
    LogsOfAppend(chain, crit, b[..k], b[k + 1..]);
    LogsOfAppend(chain, crit, b[..k] + [b[k]], b[k + 1..]);
    LogsOfStep(chain, crit, b[..k], b[k]);
    assert b == b[..k] + [b[k]] + b[k + 1..];
  }

  lemma {:induction false} LogsOfPermuted(chain: Chain, crit: Criteria, a: seq<nat>, b: seq<nat>)
    requires multiset(a) == multiset(b)
    ensures multiset(LogsOf(chain, crit, a)) == multiset(LogsOf(chain, crit, b))
  {
    hide LogsOf, LogsAt;
    if a == [] {
      assert |multiset(b)| == 0;
    } else {
      var k := MatchLast(a, b);
      LogsOfPermuted(chain, crit, a[..|a| - 1], b[..k] + b[k + 1..]);
      LogsOfStep(chain, crit, a[..|a| - 1], b[k]);
      LogsOfMiddle(chain, crit, b, k);
    }
  }

  lemma FlattenStep(bs: seq<seq<Log>>, ls: seq<Log>)
    ensures Flatten(bs + [ls]) == Flatten(bs) + ls
  {
    FlattenAppend(bs, [ls]);
    assert Flatten([ls]) == ls;
  }

  lemma FlattenMiddle(b: seq<seq<Log>>, k: nat)
    requires k < |b|
    ensures multiset(Flatten(b)) == multiset(Flatten(b[..k] + b[k + 1..])) + multiset(b[k])
  {
    hide Flatten;
    FlattenAppend(b[..k], b[k + 1..]);
    FlattenAppend(b[..k] + [b[k]], b[k + 1..]);
    FlattenStep(b[..k], b[k]);
    assert b == b[..k] + [b[k]] + b[k + 1..];
  }

  lemma {:induction false} FlattenPermuted(a: seq<seq<Log>>, b: seq<seq<Log>>)
    requires multiset(a) == multiset(b)
    ensures multiset(Flatten(a)) == multiset(Flatten(b))
  {
    hide Flatten;
    if a == [] {
      assert |multiset(b)| == 0;
    } else {
      var k := MatchLast(a, b);
      FlattenPermuted(a[..|a| - 1], b[..k] + b[k + 1..]);
      FlattenStep(a[..|a| - 1], b[k]);
      FlattenMiddle(b, k);
    }
  }

  lemma TotalBytesMiddle(b: seq<Log>, k: nat)
    requires k < |b|
    ensures TotalBytes(b) == TotalBytes(b[..k] + b[k + 1..]) + HeapBytes(b[k])
  {
    hide TotalBytes, HeapBytes;
    TotalBytesAppend(b[..k], b[k + 1..]);
    TotalBytesAppend(b[..k] + [b[k]], b[k + 1..]);
    TotalBytesStep(b[..k], b[k]);
    assert b == b[..k] + [b[k]] + b[k + 1..];
  }

  lemma {:induction false} TotalBytesPermuted(a: seq<Log>, b: seq<Log>)
    requires multiset(a) == multiset(b)
    ensures |a| == |b| && TotalBytes(a) == TotalBytes(b)
  {
    hide TotalBytes, HeapBytes;
    assert |a| == |multiset(a)| == |multiset(b)| == |b|;
    if a != [] {
      var k := MatchLast(a, b);
      TotalBytesPermuted(a[..|a| - 1], b[..k] + b[k + 1..]);
      TotalBytesStep(a[..|a| - 1], b[k]);
      TotalBytesMiddle(b, k);
    }
  }

  /** The verdict of the budget does not depend on the order in which logs are charged. */
  lemma BudgetIgnoresOrder(caps: Caps, a: seq<Log>, b: seq<Log>)
    requires multiset(a) == multiset(b)
    ensures FitsAll(caps, 0, 0, a) == FitsAll(caps, 0, 0, b)
  {
    TotalBytesPermuted(a, b);
  }

  lemma FitsShift(caps: Caps, count: nat, bytes: nat, a: seq<Log>, b: seq<Log>)
    ensures FitsAll(caps, count, bytes, a + b) == FitsAll(caps, count + |a|, bytes + TotalBytes(a), b)
    ensures FitsAll(caps, count, bytes, a + b) ==> FitsAll(caps, count, bytes, a)
  {
    hide TotalBytes, HeapBytes;
    TotalBytesAppend(a, b);
  }

  // ---------------------------------------------------------------- windowed range path

  ghost predicate Ascending(hs: seq<nat>) {
    forall i, j :: 0 <= i < j < |hs| ==> hs[i] < hs[j]
  }

  lemma AtMostLast(hs: seq<nat>, h: nat)
    requires Ascending(hs) && h in hs
    ensures h <= hs[|hs| - 1] && (h < hs[|hs| - 1] ==> h in hs[..|hs| - 1])
  {
    var i :| 0 <= i < |hs| && hs[i] == h;
    assert i < |hs| - 1 ==> hs[..|hs| - 1][i] == h;
  }

  ghost predicate CoversWindow(chain: Chain, crit: Criteria, hs: seq<nat>, lo: nat, hi: nat) {
    && Ascending(hs) && (forall h :: h in hs ==> lo <= h < hi)
    && (forall h :: lo <= h < hi && LogsAt(chain, crit, h) != [] ==> h in hs)
  }

  /** All heights but the last cover the window up to the last, and nothing matches behind it. */
  lemma CoversFront(chain: Chain, crit: Criteria, hs: seq<nat>, lo: nat, hi: nat)
    requires hs != [] && CoversWindow(chain, crit, hs, lo, hi)
    ensures var last := hs[|hs| - 1];
            && lo <= last < hi && CoversWindow(chain, crit, hs[..|hs| - 1], lo, last)
            && forall h :: last + 1 <= h < hi ==> LogsAt(chain, crit, h) == []
  {
    hide LogsAt;
    var front, last := hs[..|hs| - 1], hs[|hs| - 1];
    assert last in hs;
    forall h | h in front ensures lo <= h < last {
      var i :| 0 <= i < |front| && front[i] == h;
      assert hs[i] == h && h in hs;
    }
    forall h | h in hs ensures h <= last && (h < last ==> h in front) {
      AtMostLast(hs, h);
    }
  }

  lemma RangeStep(chain: Chain, crit: Criteria, lo: nat, hi: nat)
    requires lo <= hi
    ensures RangeLogs(chain, crit, lo, hi + 1) == RangeLogs(chain, crit, lo, hi) + LogsAt(chain, crit, hi)
  {
  }

  /** Ascending heights of the window that include every height with a match give its logs. */
  lemma {:induction false} AscendingCover(chain: Chain, crit: Criteria, hs: seq<nat>, lo: nat, hi: nat)
    requires lo <= hi && CoversWindow(chain, crit, hs, lo, hi)
    ensures LogsOf(chain, crit, hs) == RangeLogs(chain, crit, lo, hi)
  {
    hide *;
    if hs == [] {
      CoveredByNone(chain, crit, lo, hi);
    } else {
      var front, last := hs[..|hs| - 1], hs[|hs| - 1];
      CoversFront(chain, crit, hs, lo, hi);
      AscendingCover(chain, crit, front, lo, last);
      assert hs == front + [last];
      LogsOfStep(chain, crit, front, last);
      RangeStep(chain, crit, lo, last);
      NoLogsInRange(chain, crit, last + 1, hi);
      RangeSplit(chain, crit, lo, last + 1, hi);
    }
  }

  lemma CoveredByNone(chain: Chain, crit: Criteria, lo: nat, hi: nat)
    requires CoversWindow(chain, crit, [], lo, hi)
    ensures LogsOf(chain, crit, []) == RangeLogs(chain, crit, lo, hi)
  {
    hide LogsAt;
    NoLogsInRange(chain, crit, lo, hi);
  }

  lemma {:induction false} NoLogsInRange(chain: Chain, crit: Criteria, lo: nat, hi: nat)
    requires forall h :: lo <= h < hi ==> LogsAt(chain, crit, h) == []
    ensures RangeLogs(chain, crit, lo, hi) == []
  {
    hide LogsAt;
    if lo < hi {
      NoLogsInRange(chain, crit, lo, hi - 1);
    }
  }

  lemma AscendingAppend(hs: seq<nat>, last: nat)
    requires Ascending(hs) && forall x :: x in hs ==> x < last
    ensures Ascending(hs + [last])
  {
    forall i | 0 <= i < |hs| ensures hs[i] < last {
      assert hs[i] in hs;
    }
  }

  function Insert(h: nat, hs: seq<nat>): (r: seq<nat>)
    requires Ascending(hs) && h !in hs
    ensures Ascending(r) && forall x :: x in r <==> x == h || x in hs
  {
    if hs == [] then [h]
    else
      var front, last := hs[..|hs| - 1], hs[|hs| - 1];
      assert hs == front + [last] && forall x :: x in front ==> x < last;
      if last < h then
        AscendingAppend(hs, h);
        hs + [h]
      else
        AscendingAppend(Insert(h, front), last);
        Insert(h, front) + [last]
  }

  ghost predicate Names(candidates: seq<Log>, h: nat) {
    exists i :: 0 <= i < |candidates| && candidates[i].block == h
  }

  /** The distinct block numbers of the candidates, sorted. */
  method BlockNumbers(candidates: seq<Log>) returns (blockNumbers: seq<nat>)
    ensures Ascending(blockNumbers) && forall h :: h in blockNumbers <==> Names(candidates, h)
  {
    var blockSet: set<nat> := {};
    blockNumbers := [];
    for i := 0 to |candidates|
      invariant Ascending(blockNumbers)
      invariant forall h :: h in blockSet <==> exists k :: 0 <= k < i && candidates[k].block == h
      invariant forall h :: h in blockNumbers <==> h in blockSet
    {
      var h := candidates[i].block;
      if h in blockSet {
        continue;
      }
      blockSet := blockSet + {h};
      blockNumbers := Insert(h, blockNumbers);
    }
  }

  /** Fetching the blocks `hs` and charging their logs in order on top of what the budget holds. */
  method CollectBlocks(hash: Hasher, chain: Chain, crit: Criteria, hs: seq<nat>, available: nat -> bool,
                       budget: LogBudget)
    returns (r: Fetch)
    requires WellFormed(hash, chain) && budget.Open()
    modifies budget
    ensures r.Logs? ==> r.logs == LogsOf(chain, crit, hs)
                        && budget.Charged(old(budget.usedCount), old(budget.usedBytes), r.logs)
    ensures r.TooManyLogs? ==> budget.tripped
    ensures r.TooManyLogs? ==>
              !FitsAll(budget.caps, old(budget.usedCount), old(budget.usedBytes), LogsOf(chain, crit, hs))
    ensures r.BlockUnavailable? ==> exists h :: h in hs && (h !in chain || !available(h))
    ensures r.Logs? ==> forall h :: h in hs ==> h in chain && available(h)
    ensures !r.Overloaded?
  {
    hide *;
    ghost var count, bytes := budget.usedCount, budget.usedBytes;
    var logs := [];
    NothingCharged(chain, crit, hs, budget);
    for i := 0 to |hs|
      invariant logs == LogsOf(chain, crit, hs[..i]) && budget.Charged(count, bytes, logs)
      invariant forall k :: 0 <= k < i ==> hs[k] in chain && available(hs[k])
    {
      ChargedUse(budget, count, bytes, logs);
      if hs[i] !in chain || !available(hs[i]) {
        return BlockUnavailable;
      }
      BlockFacts(hash, chain, crit, hs[i]);
      var ls, ok := CollectLogs(hash, chain[hs[i]].view, chain[hs[i]].block, crit, budget);
      CollectStep(chain, crit, hs, i, budget.caps, count, bytes);
      if !ok {
        return TooManyLogs;
      }
      ChargedAppend(budget, count, bytes, logs, ls);
      logs := logs + ls;
    }
    assert hs[..|hs|] == hs;
    return Logs(logs);
  }

  lemma NothingCharged(chain: Chain, crit: Criteria, hs: seq<nat>, budget: LogBudget)
    requires budget.Open()
    ensures LogsOf(chain, crit, hs[..0]) == [] && budget.Charged(budget.usedCount, budget.usedBytes, [])
  {
  }

  lemma ChargedUse(budget: LogBudget, count: nat, bytes: nat, ls: seq<Log>)
    requires budget.Charged(count, bytes, ls)
    ensures budget.Open() && FitsAll(budget.caps, count, bytes, ls)
    ensures budget.usedCount == count + |ls| && budget.usedBytes == bytes + TotalBytes(ls)
  {
  }

  lemma ChargedAppend(budget: LogBudget, count: nat, bytes: nat, a: seq<Log>, b: seq<Log>)
    requires budget.Charged(count + |a|, bytes + TotalBytes(a), b)
    ensures budget.Charged(count, bytes, a + b)
  {
    TotalBytesAppend(a, b);
  }

  lemma BlockFacts(hash: Hasher, chain: Chain, crit: Criteria, h: nat)
    requires WellFormed(hash, chain) && h in chain
    ensures BloomsCover(hash, chain[h].view)
    ensures LogsAt(chain, crit, h) == MatchingLogs(chain[h].view, chain[h].block, crit)
  {
  }

  lemma CollectStep(chain: Chain, crit: Criteria, hs: seq<nat>, i: nat, caps: Caps, count: nat, bytes: nat)
    requires i < |hs|
    ensures LogsOf(chain, crit, hs[..i + 1]) == LogsOf(chain, crit, hs[..i]) + LogsAt(chain, crit, hs[i])
    ensures var done := LogsOf(chain, crit, hs[..i]);
            !FitsAll(caps, count + |done|, bytes + TotalBytes(done), LogsAt(chain, crit, hs[i])) ==>
            !FitsAll(caps, count, bytes, LogsOf(chain, crit, hs))
  {
    hide LogsOf, LogsAt, FitsAll;
    assert hs[..i + 1] == hs[..i] + [hs[i]] && hs == hs[..i + 1] + hs[i + 1..];
    LogsOfStep(chain, crit, hs[..i], hs[i]);
    LogsOfAppend(chain, crit, hs[..i + 1], hs[i + 1..]);
    FitsShift(caps, count, bytes, LogsOf(chain, crit, hs[..i]), LogsAt(chain, crit, hs[i]));
    FitsShift(caps, count, bytes, LogsOf(chain, crit, hs[..i + 1]), LogsOf(chain, crit, hs[i + 1..]));
  }

  /** A store query finds candidate logs, given in the order in which the store's workers charge them:
      all in the window, and naming every block of the window that has a match. */
  ghost predicate NoFalseNegativeStore(chain: Chain, crit: Criteria, store: (nat, nat) -> seq<Log>) {
    forall from: nat, to: nat :: from <= to ==>
      && (forall x :: x in store(from, to) ==> from <= x.block <= to)
      && (forall h: nat :: from <= h <= to && LogsAt(chain, crit, h) != [] ==> Names(store(from, to), h))
  }

  /** The store's own budget caps the bytes of its candidates and not their number. */
  function CandidateCaps(caps: Caps): Caps {
    Caps(0, caps.maxBytes)
  }

  predicate CandidatesFit(caps: Caps, candidates: seq<Log>) {
    FitsAll(CandidateCaps(caps), 0, 0, candidates)
  }

  /** FilterLogs of the store: the candidates, or nothing exactly when they exceed its byte budget. */
  method FilterLogs(store: (nat, nat) -> seq<Log>, from: nat, to: nat, caps: Caps)
    returns (candidates: Option<seq<Log>>)
    ensures candidates == if CandidatesFit(caps, store(from, to)) then Some(store(from, to)) else None
  {
    hide HeapBytes;
    var found := store(from, to);
    var budget := new LogBudget(CandidateCaps(caps));
    for i := 0 to |found|
      invariant fresh(budget) && budget.caps == CandidateCaps(caps)
      invariant budget.Charged(0, 0, found[..i])
    {
      hide TotalBytes;
      TotalBytesStep(found[..i], found[i]);
      assert found[..i + 1] == found[..i] + [found[i]];
      var ok := budget.Reserve(found[i]);
      if !ok {
        assert found == found[..i + 1] + found[i + 1..];
        TotalBytesAppend(found[..i + 1], found[i + 1..]);
        return None;
      }
    }
    assert found[..|found|] == found;
    return Some(found);
  }

  /** Some window of the range has more candidate bytes than the store may hold. */
  ghost predicate StoreOverflows(store: (nat, nat) -> seq<Log>, caps: Caps, from: nat, to: nat) {
    exists k: nat ::
      from + RANGE_QUERY_WINDOW_BLOCKS * k <= to && !CandidatesFit(caps, WindowCandidates(store, from, to, k))
  }

  /** The candidates of window number k of the range. */
  function WindowCandidates(store: (nat, nat) -> seq<Log>, from: nat, to: nat, k: nat): seq<Log> {
    var lo := from + RANGE_QUERY_WINDOW_BLOCKS * k;
    store(lo, if lo + RANGE_QUERY_WINDOW_BLOCKS - 1 > to then to else lo + RANGE_QUERY_WINDOW_BLOCKS - 1)
  }

  /** One window: distinct candidate blocks in order, rebuilt from their receipts. */
  method NormalizeRangeQueryLogs(hash: Hasher, chain: Chain, crit: Criteria, candidates: seq<Log>,
                                 available: nat -> bool, budget: LogBudget, ghost lo: nat, ghost hi: nat)
    returns (r: Fetch)
    requires WellFormed(hash, chain) && budget.Open() && lo <= hi
    requires forall x :: x in candidates ==> lo <= x.block < hi
    requires forall h :: lo <= h < hi && LogsAt(chain, crit, h) != [] ==> Names(candidates, h)
    modifies budget
    ensures r.Logs? ==> r.logs == RangeLogs(chain, crit, lo, hi)
                        && budget.Charged(old(budget.usedCount), old(budget.usedBytes), r.logs)
    ensures r.TooManyLogs? ==> budget.tripped
    ensures r.TooManyLogs? ==>
              !FitsAll(budget.caps, old(budget.usedCount), old(budget.usedBytes), RangeLogs(chain, crit, lo, hi))
    ensures r.BlockUnavailable? ==> exists h :: lo <= h < hi && (h !in chain || !available(h))
    ensures !r.Overloaded?
  {
    hide LogsOf, LogsAt, RangeLogs, FitsAll, TotalBytes, WellFormed;
    var blockNumbers := BlockNumbers(candidates);
    forall h | h in blockNumbers ensures lo <= h < hi {
      var i :| 0 <= i < |candidates| && candidates[i].block == h;
      assert candidates[i] in candidates;
    }
    AscendingCover(chain, crit, blockNumbers, lo, hi);
    r := CollectBlocks(hash, chain, crit, blockNumbers, available, budget);
  }

  /** tryFilterLogsRange: the range in windows, each from the store's candidates. An overflow comes from
      the matching logs of the range or from the candidates of one window. */
  method TryFilterLogsRange(hash: Hasher, chain: Chain, crit: Criteria, store: (nat, nat) -> seq<Log>,
                            available: nat -> bool, fromBlock: nat, toBlock: nat, caps: Caps)
    returns (r: Fetch)
    requires WellFormed(hash, chain) && NoFalseNegativeStore(chain, crit, store)
    ensures r.Logs? ==> r.logs == RangeLogs(chain, crit, fromBlock, toBlock + 1) && FitsAll(caps, 0, 0, r.logs)
    ensures r.Logs? ==> !StoreOverflows(store, caps, fromBlock, toBlock)
    ensures r.TooManyLogs? ==>
              || !FitsAll(caps, 0, 0, RangeLogs(chain, crit, fromBlock, toBlock + 1))
              || StoreOverflows(store, caps, fromBlock, toBlock)
    ensures r.BlockUnavailable? ==> exists h :: fromBlock <= h <= toBlock && (h !in chain || !available(h))
    ensures !r.Overloaded?
  {
    hide LogsOf, LogsAt, RangeLogs, FitsAll, TotalBytes, WellFormed, LogBudget.Charged, CandidatesFit, Names;
    var budget := new LogBudget(caps);
    var result := [];
    var windowFrom := fromBlock;
    ghost var k: nat := 0;
    RangeStart(chain, crit, fromBlock, toBlock, budget);
    while windowFrom <= toBlock
      invariant fresh(budget) && budget.caps == caps && fromBlock <= windowFrom
      invariant result == RangeLogs(chain, crit, fromBlock, if windowFrom <= toBlock then windowFrom else toBlock + 1)
      invariant budget.Charged(0, 0, result)
      invariant windowFrom == fromBlock + RANGE_QUERY_WINDOW_BLOCKS * k
      invariant forall w: nat :: w < k ==> CandidatesFit(caps, WindowCandidates(store, fromBlock, toBlock, w))
      decreases toBlock + 1 - windowFrom
    {
      var windowTo := windowFrom + RANGE_QUERY_WINDOW_BLOCKS - 1;
      if windowTo > toBlock {
        windowTo := toBlock;
      }
      var candidates := FilterLogs(store, windowFrom, windowTo, caps);
      assert WindowCandidates(store, fromBlock, toBlock, k) == store(windowFrom, windowTo);
      if candidates.None? {
        return TooManyLogs;
      }
      ChargedUse(budget, 0, 0, result);
      var normalized :=
        NormalizeRangeQueryLogs(hash, chain, crit, candidates.value, available, budget, windowFrom, windowTo + 1);
      WindowStep(chain, crit, fromBlock, windowFrom, windowTo + 1, toBlock + 1, caps);
      match normalized {
        case Logs(ls) =>
          ChargedAppend(budget, 0, 0, result, ls);
          result := result + ls;
        case TooManyLogs => return TooManyLogs;
        case BlockUnavailable => return BlockUnavailable;
      }
      windowFrom := windowFrom + RANGE_QUERY_WINDOW_BLOCKS;
      k := k + 1;
    }
    ChargedUse(budget, 0, 0, result);
    return Logs(result);
  }

  /** Candidates that no visible log comes from: the query overflows although its matching logs fit. */
  lemma HiddenCandidatesOverflow(chain: Chain, crit: Criteria, x: Log, caps: Caps)
    requires 0 < caps.maxBytes < HeapBytes(x) && forall h: nat :: LogsAt(chain, crit, h) == []
    ensures var store := (from: nat, to: nat) => if from <= x.block <= to then [x] else [];
            && NoFalseNegativeStore(chain, crit, store)
            && FitsAll(caps, 0, 0, RangeLogs(chain, crit, x.block, x.block + 1))
            && StoreOverflows(store, caps, x.block, x.block)
  {
    hide LogsAt;
    var store := (from: nat, to: nat) => if from <= x.block <= to then [x] else [];
    NoLogsInRange(chain, crit, x.block, x.block + 1);
    assert TotalBytes([]) == 0;
    TotalBytesStep([], x);
    assert [] + [x] == [x];
    assert WindowCandidates(store, x.block, x.block, 0) == [x];
  }

  lemma RangeStart(chain: Chain, crit: Criteria, from: nat, to: nat, budget: LogBudget)
    requires budget.Open() && budget.usedCount == 0 && budget.usedBytes == 0
    ensures RangeLogs(chain, crit, from, if from <= to then from else to + 1) == [] && budget.Charged(0, 0, [])
  {
  }

  /** A window that does not fit behind the logs before it means the whole range does not fit. */
  lemma WindowStep(chain: Chain, crit: Criteria, from: nat, lo: nat, hi: nat, end: nat, caps: Caps)
    requires from <= lo <= hi <= end
    ensures RangeLogs(chain, crit, from, hi) == RangeLogs(chain, crit, from, lo) + RangeLogs(chain, crit, lo, hi)
    ensures var done := RangeLogs(chain, crit, from, lo);
            !FitsAll(caps, |done|, TotalBytes(done), RangeLogs(chain, crit, lo, hi)) ==>
            !FitsAll(caps, 0, 0, RangeLogs(chain, crit, from, end))
  {
    hide RangeLogs, FitsAll;
    RangeSplit(chain, crit, from, lo, hi);
    RangeSplit(chain, crit, from, hi, end);
    FitsShift(caps, 0, 0, RangeLogs(chain, crit, from, lo), RangeLogs(chain, crit, lo, hi));
    FitsShift(caps, 0, 0, RangeLogs(chain, crit, from, hi), RangeLogs(chain, crit, hi, end));
  }

  // ---------------------------------------------------------------- block-by-block path

  /** A block whose bloom fails the filter has no match. */
  lemma BloomSkipLosesNothing(hash: Hasher, chain: Chain, crit: Criteria, h: nat)
    requires WellFormed(hash, chain) && h in chain && chain[h].bloom.Bits?
    requires !MatchFilters(chain[h].bloom.bits, EncodeFilters(hash, crit))
    ensures LogsAt(chain, crit, h) == []
  {
    hide NumberedLogs, Listing, EncodeFilters, MatchFilters, MatchesCriteria;
    var d := chain[h];
    var listed := ListedIn(d.view, d.block);
    var all := NumberedLogs(d.view, d.block.height, listed, |listed|);
    forall x | x in all ensures !MatchesCriteria(x, crit) {
      if MatchesCriteria(x, crit) {
        NoFalseNegatives(hash, d.bloom.bits, x, crit);
      }
    }
    SelectNothing(all, crit);
  }

  predicate BloomSkips(hash: Hasher, chain: Chain, crit: Criteria, h: nat) {
    && h in chain && crit.HasFilters() && chain[h].bloom.Bits?
    && !MatchFilters(chain[h].bloom.bits, EncodeFilters(hash, crit))
  }

  /** A height whose fetch is reported as an error: not cached, not skipped by its bloom, and missing
      or outside the watermarks. */
  predicate FetchFails(hash: Hasher, chain: Chain, crit: Criteria, r: Reads, h: nat) {
    h != 0 && h !in r.cached && !BloomSkips(hash, chain, crit, h) && (h !in chain || !r.available(h))
  }

  ghost predicate SomeFetchFails(hash: Hasher, chain: Chain, crit: Criteria, r: Reads, lo: nat, hi: nat) {
    exists h :: lo <= h < hi && FetchFails(hash, chain, crit, r, h)
  }

  lemma FetchFailsStep(hash: Hasher, chain: Chain, crit: Criteria, r: Reads, lo: nat, mid: nat, hi: nat)
    requires lo <= mid <= hi
    ensures SomeFetchFails(hash, chain, crit, r, lo, hi) <==>
              SomeFetchFails(hash, chain, crit, r, lo, mid) || SomeFetchFails(hash, chain, crit, r, mid, hi)
    ensures SomeFetchFails(hash, chain, crit, r, mid, mid + 1) <==> FetchFails(hash, chain, crit, r, mid)
  {
    hide FetchFails;
  }

  /** processBatch: the heights start, ..., end whose blocks go to the channel. `chain` holds every
      block the node stores or caches. */
  method ProcessBatch(hash: Hasher, chain: Chain, crit: Criteria, r: Reads, start: nat, end: nat)
    returns (kept: seq<nat>, failed: bool)
    requires WellFormed(hash, chain) && start <= end + 1
    requires forall h :: h in r.cached ==> h in chain
    ensures failed <==> SomeFetchFails(hash, chain, crit, r, start, end + 1)
    ensures !failed ==> LogsOf(chain, crit, kept) == RangeLogs(Visible(chain, r), crit, start, end + 1)
    ensures (forall h :: h in kept ==> h in chain) && |kept| <= end + 1 - start
  {
    hide LogsAt, WellFormed, EncodeFilters, MatchFilters, Visible, SomeFetchFails;
    kept, failed := [], false;
    FetchStart(hash, chain, crit, r, start);
    for height := start to end + 1
      invariant failed <==> SomeFetchFails(hash, chain, crit, r, start, height)
      invariant !failed ==> LogsOf(chain, crit, kept) == RangeLogs(Visible(chain, r), crit, start, height)
      invariant (forall h :: h in kept ==> h in chain) && |kept| <= height - start
    {
      FetchFailsStep(hash, chain, crit, r, start, height, height + 1);
      VisibleAt(chain, crit, r, height);
      LogsOfStep(chain, crit, kept, height);
      if height == 0 {
        continue;
      }
      if height in r.cached {
        if !r.available(height) {
          continue;
        }
        kept := kept + [height];
        continue;
      }
      if BloomSkips(hash, chain, crit, height) {
        BloomSkipLosesNothing(hash, chain, crit, height);
        continue;
      }
      if height !in chain || !r.available(height) {
        failed := true;
        continue;
      }
      kept := kept + [height];
    }
  }

  /** How many worker batches n heights or blocks make. */
  function Stretches(n: nat): nat {
    (n + WORKER_BATCH_SIZE - 1) / WORKER_BATCH_SIZE
  }

  /** fetchBlocksByCrit: one worker batch per stretch of heights; it stops when the pool has no room. */
  method FetchBlocksByCrit(hash: Hasher, chain: Chain, crit: Criteria, r: Reads, begin: nat, end: nat)
    returns (kept: seq<nat>, failed: bool, overloaded: bool)
    requires WellFormed(hash, chain) && begin <= end
    requires forall h :: h in r.cached ==> h in chain
    ensures overloaded <==> exists i: nat :: i < Stretches(end + 1 - begin) && r.full(i)
    ensures !overloaded ==> (failed <==> SomeFetchFails(hash, chain, crit, r, begin, end + 1))
    ensures !overloaded && !failed ==>
              LogsOf(chain, crit, kept) == RangeLogs(Visible(chain, r), crit, begin, end + 1)
    ensures (forall h :: h in kept ==> h in chain) && |kept| <= end + 1 - begin
  {
    hide LogsOf, LogsAt, WellFormed, RangeLogs, SomeFetchFails, Visible;
    kept, failed, overloaded := [], false, false;
    var batchStart, submitted := begin, 0;
    FetchStart(hash, chain, crit, r, begin);
    while batchStart <= end
      invariant batchStart == begin + WORKER_BATCH_SIZE * submitted
      invariant forall i: nat :: i < submitted ==> !r.full(i)
      invariant submitted <= Stretches(end + 1 - begin)
      invariant failed <==>
                  SomeFetchFails(hash, chain, crit, r, begin, if batchStart <= end then batchStart else end + 1)
      invariant !failed ==>
                  LogsOf(chain, crit, kept) ==
                  RangeLogs(Visible(chain, r), crit, begin, if batchStart <= end then batchStart else end + 1)
      invariant (forall h :: h in kept ==> h in chain) && |kept| <= end + 1 - begin && |kept| <= batchStart - begin
    {
      var batchEnd := batchStart + WORKER_BATCH_SIZE - 1;
      if batchEnd > end {
        batchEnd := end;
      }
      if r.full(submitted) {
        overloaded := true;
        return;
      }
      submitted := submitted + 1;
      var part, bad := ProcessBatch(hash, chain, crit, r, batchStart, batchEnd);
      LogsOfAppend(chain, crit, kept, part);
      FetchFailsStep(hash, chain, crit, r, begin, batchStart, batchEnd + 1);
      RangeSplit(Visible(chain, r), crit, begin, batchStart, batchEnd + 1);
      kept := kept + part;
      failed := failed || bad;
      batchStart := batchStart + WORKER_BATCH_SIZE;
    }
  }

  lemma FetchStart(hash: Hasher, chain: Chain, crit: Criteria, r: Reads, begin: nat)
    ensures LogsOf(chain, crit, []) == RangeLogs(Visible(chain, r), crit, begin, begin)
    ensures !SomeFetchFails(hash, chain, crit, r, begin, begin)
  {
  }
}
