/** Logs, their order, and the k-way merge of sorted worker batches (evmrpc/filter.go). */
module EthLogs {

  type Bytes = seq<bv8>

  /** A log as the RPC namespace reports it; `index` counts the visible logs of the block. */
  datatype Log = Log(
    block: nat, txHash: Bytes, txIndex: nat, index: nat,
    address: Bytes, topics: seq<Bytes>, data: Bytes)

  /** The strict order of `logMergeHeap.Less` and of the per-batch sort. */
  predicate Less(a: Log, b: Log) {
    if a.block != b.block then a.block < b.block else a.index < b.index
  }

  predicate Leq(a: Log, b: Log) {
    !Less(b, a)
  }

  ghost predicate Sorted(s: seq<Log>) {
    forall i, j :: 0 <= i < j < |s| ==> Leq(s[i], s[j])
  }

  ghost predicate StrictlySorted(s: seq<Log>) {
    forall i, j :: 0 <= i < j < |s| ==> Less(s[i], s[j])
  }

  function Flatten(batches: seq<seq<Log>>): seq<Log> {
    if batches == [] then [] else batches[0] + Flatten(batches[1..])
  }

  lemma {:induction false} FlattenAppend(a: seq<seq<Log>>, b: seq<seq<Log>>)
    ensures Flatten(a + b) == Flatten(a) + Flatten(b)
  {
    if a == [] {
      assert a + b == b;
    } else {
      assert (a + b)[1..] == a[1..] + b;
      FlattenAppend(a[1..], b);
    }
  }
}

module LogMerge {
  import opened EthLogs

  datatype MergeItem = MergeItem(log: Log, batchIdx: nat, itemIdx: nat)

  function Parent(k: nat): nat
    requires k > 0
  {
    (k - 1) / 2
  }

  ghost predicate HeapOrdered(s: seq<MergeItem>, n: nat)
    requires n <= |s|
  {
    forall k {:trigger Parent(k)} :: 0 < k < n ==> Leq(s[Parent(k)].log, s[k].log)
  }

  /** The root of a heap is below every item. */
  lemma {:induction false} RootIsLeast(s: seq<MergeItem>, n: nat, k: nat)
    requires k < n <= |s| && HeapOrdered(s, n)
    ensures Leq(s[0].log, s[k].log)
  {
    if k > 0 {
      RootIsLeast(s, n, Parent(k));
    }
  }

  /** Heap order everywhere but between `i` and its children, which are still above `i`'s parent. */
  ghost predicate OrderedExceptBelow(s: seq<MergeItem>, n: nat, i: nat)
    requires n <= |s|
  {
    && (forall k {:trigger Parent(k)} :: 0 < k < n && Parent(k) != i ==> Leq(s[Parent(k)].log, s[k].log))
    && (forall k {:trigger Parent(k)} :: 0 < k < n && i > 0 && Parent(k) == i ==> Leq(s[Parent(i)].log, s[k].log))
  }

  /** `j` is the child of `i` that `heap.down` compares with `i`. */
  ghost predicate LesserChild(s: seq<MergeItem>, n: nat, i: nat, j: nat)
    requires n <= |s|
  {
    && (j == 2 * i + 1 || j == 2 * i + 2) && j < n
    && Leq(s[j].log, s[2 * i + 1].log)
    && (2 * i + 2 < n ==> Leq(s[j].log, s[2 * i + 2].log))
  }

  lemma OrderedWhenChildrenAbove(s: seq<MergeItem>, n: nat, i: nat, j: nat)
    requires n <= |s| && OrderedExceptBelow(s, n, i) && LesserChild(s, n, i, j)
    requires !Less(s[j].log, s[i].log)
    ensures HeapOrdered(s, n)
  {
    forall k | 0 < k < n ensures Leq(s[Parent(k)].log, s[k].log) {
      assert Parent(k) == i ==> k == 2 * i + 1 || k == 2 * i + 2;
    }
  }

  lemma SinkStep(s: seq<MergeItem>, t: seq<MergeItem>, n: nat, i: nat, j: nat)
    requires n <= |s| == |t| && OrderedExceptBelow(s, n, i) && LesserChild(s, n, i, j)
    requires Less(s[j].log, s[i].log)
    requires t[i] == s[j] && t[j] == s[i]
    requires forall k :: 0 <= k < |s| && k != i && k != j ==> t[k] == s[k]
    ensures OrderedExceptBelow(t, n, j)
  {
    assert Parent(j) == i;
    forall k | 0 < k < n && Parent(k) != j ensures Leq(t[Parent(k)].log, t[k].log) {
      if Parent(k) == i {
        assert k == 2 * i + 1 || k == 2 * i + 2;
      } else if k == i {
        assert Leq(s[Parent(i)].log, s[j].log);
      } else {
        assert t[Parent(k)] == s[Parent(k)] && t[k] == s[k];
      }
    }
    forall k | 0 < k < n && Parent(k) == j ensures Leq(t[Parent(j)].log, t[k].log) {
      assert k > j && Leq(s[Parent(k)].log, s[k].log);
    }
  }

  lemma SwapKeepsItems<T>(s: seq<T>, i: nat, j: nat)
    requires i < |s| && j < |s|
    ensures multiset(s[i := s[j]][j := s[i]]) == multiset(s)
  {
  }

  /** The min-heap that `container/heap` maintains over `logMergeHeap`. */
  class LogMergeHeap {
    var items: seq<MergeItem>

    ghost predicate Valid()
      reads this
    {
      HeapOrdered(items, |items|)
    }

    constructor ()
      ensures Valid() && items == []
    {
      items := [];
    }

    method Swap(i: nat, j: nat)
      requires i < |items| && j < |items|
      modifies this
      ensures |items| == |old(items)|
      ensures items[i] == old(items)[j] && items[j] == old(items)[i]
      ensures forall k :: 0 <= k < |items| && k != i && k != j ==> items[k] == old(items)[k]
      ensures multiset(items) == old(multiset(items))
    {
      SwapKeepsItems(items, i, j);
      items := items[i := items[j]][j := items[i]];
    }

    /** Sift the item at `start` towards the root. */
    method Up(start: nat)
      requires start < |items|
      requires forall k {:trigger Parent(k)} :: 0 < k < |items| && k != start ==>
               Leq(items[Parent(k)].log, items[k].log)
      requires forall k {:trigger Parent(k)} :: 0 < k < |items| ==> Parent(k) != start
      modifies this
      ensures Valid() && multiset(items) == old(multiset(items))
    {
      var j := start;
      while j > 0 && Less(items[j].log, items[Parent(j)].log)
        invariant j < |items| == |old(items)|
        invariant forall k {:trigger Parent(k)} :: 0 < k < |items| && k != j ==> Leq(items[Parent(k)].log, items[k].log)
        invariant forall k {:trigger Parent(k)} :: 0 < k < |items| && j > 0 && Parent(k) == j ==>
                  Leq(items[Parent(j)].log, items[k].log)
        invariant multiset(items) == old(multiset(items))
      {
        var i := Parent(j);
        Swap(j, i);
        j := i;
      }
    }

    /** Sift the root down within the first `n` items. */
    method Down(n: nat)
      requires n <= |items| && OrderedExceptBelow(items, n, 0)
      modifies this
      ensures |items| == |old(items)| && HeapOrdered(items, n)
      ensures forall k :: n <= k < |items| ==> items[k] == old(items)[k]
      ensures multiset(items) == old(multiset(items))
    {
      var i := 0;
      while 2 * i + 1 < n
        invariant 0 <= i && |items| == |old(items)| && OrderedExceptBelow(items, n, i)
        invariant forall k :: n <= k < |items| ==> items[k] == old(items)[k]
        invariant multiset(items) == old(multiset(items))
        decreases n - i
      {
        var j := 2 * i + 1;
        if j + 1 < n && Less(items[j + 1].log, items[j].log) {
          j := j + 1;
        }
        if !Less(items[j].log, items[i].log) {
          OrderedWhenChildrenAbove(items, n, i, j);
          return;
        }
        ghost var before := items;
        Swap(i, j);
        SinkStep(before, items, n, i, j);
        i := j;
      }
      assert forall k {:trigger Parent(k)} :: 0 < k < n ==> Parent(k) != i;
    }

    /** `heap.Push`: append, then sift up. */
    method Push(x: MergeItem)
      requires Valid()
      modifies this
      ensures Valid() && multiset(items) == old(multiset(items)) + multiset{x}
    {
      items := items + [x];
      Up(|items| - 1);
    }

    /** `heap.Pop`: move the root to the end, sift the new root down, cut the end off. */
    method Pop() returns (x: MergeItem)
      requires Valid() && items != []
      modifies this
      ensures Valid() && multiset(items) + multiset{x} == old(multiset(items))
      ensures forall y :: y in old(items) ==> Leq(x.log, y.log)
    {
      forall y | y in items ensures Leq(items[0].log, y.log) {
        var k :| 0 <= k < |items| && items[k] == y;
        RootIsLeast(items, |items|, k);
      }
      var n := |items| - 1;
      Swap(0, n);
      Down(n);
      x := items[n];
      assert items == items[..n] + [x];
      assert x == items[n..][0] == old(items)[0];
      items := items[..n];
    }
  }

  /** What batch positions `pos` leave unmerged in the first `k` batches. */
  ghost function Unmerged(batches: seq<seq<Log>>, pos: seq<nat>, k: nat): multiset<Log>
    requires k <= |batches| == |pos|
    requires forall b :: 0 <= b < |batches| ==> pos[b] <= |batches[b]|
  {
    if k == 0 then multiset{}
    else Unmerged(batches, pos, k - 1) + multiset(batches[k - 1][pos[k - 1]..])
  }

  lemma {:induction false} UnmergedAtStart(batches: seq<seq<Log>>, k: nat)
    requires k <= |batches|
    ensures var zero := seq(|batches|, _ => 0); Unmerged(batches, zero, k) == multiset(Flatten(batches[..k]))
  {
    if k > 0 {
      UnmergedAtStart(batches, k - 1);
      assert batches[..k] == batches[..k - 1] + [batches[k - 1]];
      FlattenAppend(batches[..k - 1], [batches[k - 1]]);
      assert Flatten([batches[k - 1]]) == batches[k - 1];
    }
  }

  lemma {:induction false} UnmergedAfterTake(batches: seq<seq<Log>>, pos: seq<nat>, b: nat, k: nat)
    requires k <= |batches| == |pos| && b < |batches|
    requires forall c :: 0 <= c < |batches| ==> pos[c] <= |batches[c]|
    requires pos[b] < |batches[b]|
    ensures var next := pos[b := pos[b] + 1];
            Unmerged(batches, pos, k) ==
            Unmerged(batches, next, k) + (if b < k then multiset{batches[b][pos[b]]} else multiset{})
  {
    if k > 0 {
      UnmergedAfterTake(batches, pos, b, k - 1);
      if b == k - 1 {
        assert batches[b][pos[b]..] == [batches[b][pos[b]]] + batches[b][pos[b] + 1..];
      }
    }
  }

  lemma {:induction false} UnmergedMember(batches: seq<seq<Log>>, pos: seq<nat>, k: nat, y: Log)
    returns (b: nat, i: nat)
    requires k <= |batches| == |pos|
    requires forall c :: 0 <= c < |batches| ==> pos[c] <= |batches[c]|
    requires y in Unmerged(batches, pos, k)
    ensures b < k && pos[b] <= i < |batches[b]| && batches[b][i] == y
  {
    if y in batches[k - 1][pos[k - 1]..] {
      b := k - 1;
      var d :| 0 <= d < |batches[b][pos[b]..]| && batches[b][pos[b]..][d] == y;
      i := pos[b] + d;
    } else {
      b, i := UnmergedMember(batches, pos, k - 1, y);
    }
  }

  ghost predicate Within(batches: seq<seq<Log>>, pos: seq<nat>) {
    && |batches| == |pos|
    && forall b :: 0 <= b < |batches| ==> pos[b] <= |batches[b]|
  }

  ghost predicate IsFront(x: MergeItem, batches: seq<seq<Log>>, pos: seq<nat>)
    requires Within(batches, pos)
  {
    && x.batchIdx < |batches| && x.itemIdx == pos[x.batchIdx] < |batches[x.batchIdx]|
    && x.log == batches[x.batchIdx][x.itemIdx]
  }

  /** The heap holds exactly the least unmerged item of every non-exhausted batch, once. */
  ghost predicate HoldsFronts(items: multiset<MergeItem>, batches: seq<seq<Log>>, pos: seq<nat>)
    requires Within(batches, pos)
  {
    && (forall x :: x in items ==> items[x] == 1 && IsFront(x, batches, pos))
    && (forall b :: 0 <= b < |batches| && pos[b] < |batches[b]| ==>
          MergeItem(batches[b][pos[b]], b, pos[b]) in items)
  }

  /** Replacing a front by its successor in the batch, if any, again holds the fronts. */
  lemma FrontsAfterTake(items: multiset<MergeItem>, batches: seq<seq<Log>>, pos: seq<nat>, x: MergeItem)
    requires Within(batches, pos) && HoldsFronts(items, batches, pos) && x in items
    ensures IsFront(x, batches, pos)
    ensures var b := x.batchIdx; var next := pos[b := pos[b] + 1];
            && Within(batches, next)
            && HoldsFronts(if next[b] < |batches[b]|
                             then items - multiset{x} + multiset{MergeItem(batches[b][next[b]], b, next[b])}
                             else items - multiset{x},
                           batches, next)
  {
    forall y | y in items && y != x ensures y.batchIdx != x.batchIdx {
    }
  }

  /** `res` is a sorted choice of the least logs of `all`. */
  ghost predicate LeastLogs(res: seq<Log>, all: multiset<Log>) {
    && Sorted(res)
    && multiset(res) <= all
    && forall x, y :: x in multiset(res) && y in all - multiset(res) ==> Leq(x, y)
  }

  lemma FrontIsLeast(items: multiset<MergeItem>, batches: seq<seq<Log>>, pos: seq<nat>, x: MergeItem, y: Log)
    requires Within(batches, pos) && HoldsFronts(items, batches, pos)
    requires forall b :: 0 <= b < |batches| ==> Sorted(batches[b])
    requires forall z :: z in items ==> Leq(x.log, z.log)
    requires y in Unmerged(batches, pos, |batches|)
    ensures Leq(x.log, y)
  {
    var b, i := UnmergedMember(batches, pos, |batches|, y);
    assert MergeItem(batches[b][pos[b]], b, pos[b]) in items;
  }

  /** Positions before the first pass over batch `i`: earlier batches unread, later ones not offered. */
  ghost function StartPos(batches: seq<seq<Log>>, i: nat): (pos: seq<nat>)
    ensures |pos| == |batches|
    ensures forall b :: 0 <= b < |batches| ==> pos[b] == if b < i then 0 else |batches[b]|
  {
    seq(|batches|, b requires 0 <= b < |batches| => if b < i then 0 else |batches[b]|)
  }

  lemma {:induction false} NothingUnmerged(batches: seq<seq<Log>>, pos: seq<nat>, k: nat)
    requires k <= |batches| == |pos|
    requires forall b :: 0 <= b < |batches| ==> pos[b] == |batches[b]|
    ensures Unmerged(batches, pos, k) == multiset{}
  {
    if k > 0 {
      NothingUnmerged(batches, pos, k - 1);
    }
  }

  lemma AppendLeast(res: seq<Log>, all: multiset<Log>, rest: multiset<Log>, x: Log)
    requires LeastLogs(res, all) && multiset(res) + rest == all
    requires x in rest && forall y :: y in rest ==> Leq(x, y)
    ensures LeastLogs(res + [x], all)
  {
    assert all - multiset(res) == rest;
    assert multiset(res + [x]) == multiset(res) + multiset{x};
    assert all - multiset(res + [x]) == rest - multiset{x};
    forall i | 0 <= i < |res| ensures Leq(res[i], x) {
      assert res[i] in multiset(res);
    }
  }

  /** A heap of the first log of every non-empty batch. */
  method FirstLogs(batches: seq<seq<Log>>) returns (h: LogMergeHeap)
    ensures fresh(h) && h.Valid()
    ensures HoldsFronts(multiset(h.items), batches, StartPos(batches, |batches|))
  {
    h := new LogMergeHeap();
    for i := 0 to |batches|
      invariant h.Valid() && fresh(h) && HoldsFronts(multiset(h.items), batches, StartPos(batches, i))
    {
      if |batches[i]| > 0 {
        h.Push(MergeItem(batches[i][0], i, 0));
      }
    }
  }

  /** What the merge has done when `pos` logs of each batch are in `res`. */
  ghost predicate Merged(batches: seq<seq<Log>>, pos: seq<nat>, res: seq<Log>, all: multiset<Log>)
    requires Within(batches, pos)
  {
    && multiset(res) + Unmerged(batches, pos, |batches|) == all
    && LeastLogs(res, all)
  }

  lemma MergeStep(items: multiset<MergeItem>, batches: seq<seq<Log>>, pos: seq<nat>, x: MergeItem,
                  res: seq<Log>, all: multiset<Log>)
    requires Within(batches, pos) && HoldsFronts(items, batches, pos) && Merged(batches, pos, res, all)
    requires forall b :: 0 <= b < |batches| ==> Sorted(batches[b])
    requires x in items && forall z :: z in items ==> Leq(x.log, z.log)
    ensures |res| < |all|
    ensures var next := pos[x.batchIdx := pos[x.batchIdx] + 1];
            Within(batches, next) && Merged(batches, next, res + [x.log], all)
  {
    UnmergedAfterTake(batches, pos, x.batchIdx, |batches|);
    forall y | y in Unmerged(batches, pos, |batches|) ensures Leq(x.log, y) {
      FrontIsLeast(items, batches, pos, x, y);
    }
    AppendLeast(res, all, Unmerged(batches, pos, |batches|), x.log);
    assert |all| == |multiset(res)| + |Unmerged(batches, pos, |batches|)|;
  }

  /** Pop the least front and offer the next log of its batch, if there is one. */
  method TakeLeast(h: LogMergeHeap, batches: seq<seq<Log>>, ghost pos: seq<nat>) returns (item: MergeItem)
    requires h.Valid() && h.items != []
    requires Within(batches, pos) && HoldsFronts(multiset(h.items), batches, pos)
    modifies h
    ensures h.Valid() && item in old(multiset(h.items)) && IsFront(item, batches, pos)
    ensures forall z :: z in old(multiset(h.items)) ==> Leq(item.log, z.log)
    ensures Within(batches, pos[item.batchIdx := item.itemIdx + 1])
    ensures HoldsFronts(multiset(h.items), batches, pos[item.batchIdx := item.itemIdx + 1])
  {
    hide HoldsFronts, HeapOrdered;
    ghost var before := multiset(h.items);
    item := h.Pop();
    FrontsAfterTake(before, batches, pos, item);
    assert multiset(h.items) == before - multiset{item};
    var nextItemIdx := item.itemIdx + 1;
    if nextItemIdx < |batches[item.batchIdx]| {
      h.Push(MergeItem(batches[item.batchIdx][nextItemIdx], item.batchIdx, nextItemIdx));
    }
  }

  method MergeSortedLogs(batches: seq<seq<Log>>, limit: int) returns (res: seq<Log>)
    requires forall b :: 0 <= b < |batches| ==> Sorted(batches[b])
    ensures LeastLogs(res, multiset(Flatten(batches)))
    ensures |res| == if 0 < limit < |Flatten(batches)| then limit else |Flatten(batches)|
  {
    hide LeastLogs, Unmerged, HoldsFronts, HeapOrdered, Flatten;
    ghost var all := multiset(Flatten(batches));
    ghost var pos: seq<nat> := StartPos(batches, |batches|);
    MergeAtStart(batches);
    res := [];
    var h := FirstLogs(batches);
    while h.items != [] && !(limit > 0 && |res| >= limit)
      invariant fresh(h) && h.Valid()
      invariant Within(batches, pos) && HoldsFronts(multiset(h.items), batches, pos)
      invariant Merged(batches, pos, res, all)
      invariant limit > 0 ==> |res| <= limit
      decreases |all| - |res|
    {
      ghost var before := multiset(h.items);
      var item := TakeLeast(h, batches, pos);
      MergeStep(before, batches, pos, item, res, all);
      res := res + [item.log];
      pos := pos[item.batchIdx := item.itemIdx + 1];
    }
    MergeAtEnd(h.items, batches, pos, res, all);
  }

  lemma MergeAtStart(batches: seq<seq<Log>>)
    ensures Merged(batches, StartPos(batches, |batches|), [], multiset(Flatten(batches)))
  {
    assert StartPos(batches, |batches|) == seq(|batches|, _ => 0);
    assert batches[..|batches|] == batches;
    UnmergedAtStart(batches, |batches|);
  }

  lemma MergeAtEnd(items: seq<MergeItem>, batches: seq<seq<Log>>, pos: seq<nat>, res: seq<Log>, all: multiset<Log>)
    requires Within(batches, pos) && HoldsFronts(multiset(items), batches, pos) && Merged(batches, pos, res, all)
    ensures if items == [] then |res| == |all| else |res| < |all|
  {
    assert |all| == |multiset(res)| + |Unmerged(batches, pos, |batches|)|;
    if items == [] {
      assert forall b :: 0 <= b < |batches| ==> pos[b] == |batches[b]|;
      NothingUnmerged(batches, pos, |batches|);
    } else {
      assert items[0] in multiset(items);
      UnmergedAfterTake(batches, pos, items[0].batchIdx, |batches|);
    }
  }

  lemma TailItems<T>(s: seq<T>)
    requires s != []
    ensures multiset(s) == multiset{s[0]} + multiset(s[1..])
  {
    assert s == [s[0]] + s[1..];
  }

  lemma LeastHead(res: seq<Log>, sorted: seq<Log>)
    requires StrictlySorted(sorted) && res != []
    requires LeastLogs(res, multiset(sorted))
    ensures sorted != [] && res[0] == sorted[0]
  {
    assert res[0] in multiset(sorted);
    var i :| 0 <= i < |sorted| && sorted[i] == res[0];
    assert res[0] in multiset(res);
    assert Leq(res[0], sorted[0]) by {
      if sorted[0] in multiset(res) {
        var k :| 0 <= k < |res| && res[k] == sorted[0];
      }
    }
  }

  /** Without equal keys the uncapped merge is the one sorted arrangement of all logs, and a
      capped merge is its prefix. */
  lemma {:induction false} MergeIsSortedPrefix(res: seq<Log>, sorted: seq<Log>)
    requires StrictlySorted(sorted)
    requires LeastLogs(res, multiset(sorted))
    ensures |res| <= |sorted| && res == sorted[..|res|]
  {
    if res != [] {
      LeastHead(res, sorted);
      TailItems(res);
      TailItems(sorted);
      LeastTail(res, sorted);
      MergeIsSortedPrefix(res[1..], sorted[1..]);
    }
  }

  lemma LeastTail(res: seq<Log>, sorted: seq<Log>)
    requires res != [] && sorted != [] && res[0] == sorted[0]
    requires LeastLogs(res, multiset(sorted))
    ensures LeastLogs(res[1..], multiset(sorted[1..]))
  {
    TailItems(res);
    TailItems(sorted);
    assert multiset(sorted[1..]) - multiset(res[1..]) == multiset(sorted) - multiset(res);
    assert multiset(res[1..]) <= multiset(sorted[1..]);
    forall x | x in multiset(res[1..]) ensures x in multiset(res) {
    }
  }
}
