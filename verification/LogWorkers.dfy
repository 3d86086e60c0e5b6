/** The block-by-block path after the blocks are fetched: worker batches that charge one shared
    budget in any interleaving, and the merge of what they kept (evmrpc/filter.go). */
module LogWorkers {
  import opened EthLogs
  import opened Blooms
  import opened LogFilter
  import opened LogMerge
  import opened LogPaths
  import opened Permutations

  /** The choices left to the scheduler and to an unstable sort: the order in which blocks arrive on
      the channel, who takes the next step, the order in which batches finish, and how a batch is
      sorted. */
  datatype Scheduling = Scheduling(
    arrive: seq<nat> -> seq<nat>,
    pick: nat -> nat,
    finish: seq<seq<Log>> -> seq<seq<Log>>,
    sort: seq<Log> -> seq<Log>)
  {
    ghost predicate Valid() {
      && (forall s: seq<nat> :: multiset(arrive(s)) == multiset(s))
      && (forall s: seq<seq<Log>> :: multiset(finish(s)) == multiset(s))
      && (forall s: seq<Log> :: multiset(sort(s)) == multiset(s) && Sorted(sort(s)))
    }
  }

  lemma ScheduleFacts(sched: Scheduling, hs: seq<nat>, bs: seq<seq<Log>>, ls: seq<Log>)
    requires sched.Valid()
    ensures multiset(sched.arrive(hs)) == multiset(hs)
    ensures multiset(sched.finish(bs)) == multiset(bs)
    ensures multiset(sched.sort(ls)) == multiset(ls) && Sorted(sched.sort(ls))
  {
  }

  // ---------------------------------------------------------------- one worker

  /** A worker between two steps: the blocks it has not begun, the matching logs of its current block
      it has not charged, the logs it kept, and whether it gave up. */
  datatype Worker = Worker(blocks: seq<nat>, pending: seq<Log>, kept: seq<Log>, stopped: bool) {
    predicate Finished() {
      stopped || (blocks == [] && pending == [])
    }
  }

  /** All logs of a worker's batch: kept, being charged, and to come. */
  function Batch(chain: Chain, crit: Criteria, w: Worker): seq<Log> {
    w.kept + w.pending + LogsOf(chain, crit, w.blocks)
  }

  ghost function Remaining(chain: Chain, crit: Criteria, w: Worker): nat {
    if w.stopped then 0 else |w.blocks| + |w.pending| + |LogsOf(chain, crit, w.blocks)| + 1
  }

  lemma NextBlock(chain: Chain, crit: Criteria, w: Worker)
    requires w.blocks != [] && w.pending == []
    ensures var w' := w.(blocks := w.blocks[1..], pending := LogsAt(chain, crit, w.blocks[0]));
            && Batch(chain, crit, w') == Batch(chain, crit, w)
            && (!w.stopped ==> Remaining(chain, crit, w') < Remaining(chain, crit, w))
  {
    hide LogsAt;
    var h, rest := w.blocks[0], w.blocks[1..];
    assert w.blocks == [h] + rest && [] + [h] == [h];
    LogsOfAppend(chain, crit, [h], rest);
    LogsOfStep(chain, crit, [], h);
    assert LogsOf(chain, crit, []) == [];
    Associative(w.kept, LogsAt(chain, crit, h), LogsOf(chain, crit, rest));
  }

  /** One step of a worker: look at the budget and begin a block, or charge the next matching log.
      The logs charged for a block are those CollectLogs charges. */
  method StepWorker(chain: Chain, crit: Criteria, w: Worker, budget: LogBudget)
    returns (w': Worker, ghost charged: seq<Log>)
    requires !w.Finished() && budget.caps.Fit(budget.usedCount, budget.usedBytes)
    modifies budget
    ensures budget.caps.Fit(budget.usedCount, budget.usedBytes) && (old(budget.tripped) ==> budget.tripped)
    ensures Batch(chain, crit, w') == Batch(chain, crit, w) && Remaining(chain, crit, w') < Remaining(chain, crit, w)
    ensures w'.kept == w.kept + charged && |charged| <= 1
    ensures budget.usedCount == old(budget.usedCount) + |charged|
    ensures budget.usedBytes == old(budget.usedBytes) + if charged == [] then 0 else HeapBytes(charged[0])
    ensures (w'.stopped ==> budget.tripped) && (budget.tripped ==> charged == [])
    ensures budget.tripped && !old(budget.tripped) ==>
              w.pending != [] && !budget.caps.Fit(budget.usedCount + 1, budget.usedBytes + HeapBytes(w.pending[0]))
  {
    hide LogsOf, LogsAt, HeapBytes;
    charged := [];
    if w.pending == [] {
      if budget.tripped {
        w' := w.(stopped := true);
        return;
      }
      NextBlock(chain, crit, w);
      w' := w.(blocks := w.blocks[1..], pending := LogsAt(chain, crit, w.blocks[0]));
      return;
    }
    var ok := budget.Reserve(w.pending[0]);
    if !ok {
      w' := w.(stopped := true);
      return;
    }
    charged := [w.pending[0]];
    w' := w.(pending := w.pending[1..], kept := w.kept + [w.pending[0]]);
    assert w.pending == [w.pending[0]] + w.pending[1..];
  }

  // ---------------------------------------------------------------- all workers

  function KeptCount(ws: seq<Worker>): nat {
    if ws == [] then 0 else KeptCount(ws[..|ws| - 1]) + |ws[|ws| - 1].kept|
  }

  function KeptBytes(ws: seq<Worker>): nat {
    if ws == [] then 0 else KeptBytes(ws[..|ws| - 1]) + TotalBytes(ws[|ws| - 1].kept)
  }

  lemma {:induction false} KeptUpdate(ws: seq<Worker>, i: nat, w: Worker)
    requires i < |ws|
    ensures KeptCount(ws[i := w]) == KeptCount(ws) - |ws[i].kept| + |w.kept|
    ensures KeptBytes(ws[i := w]) == KeptBytes(ws) - TotalBytes(ws[i].kept) + TotalBytes(w.kept)
  {
    hide TotalBytes;
    var n := |ws| - 1;
    if i < n {
      KeptUpdate(ws[..n], i, w);
      assert ws[i := w][..n] == ws[..n][i := w];
    } else {
      assert ws[i := w][..n] == ws[..n];
    }
  }

  lemma KeptStart(ws: seq<Worker>, batch: seq<nat>)
    ensures var ws' := ws + [Worker(batch, [], [], false)];
            KeptCount(ws') == KeptCount(ws) && KeptBytes(ws') == KeptBytes(ws)
  {
    assert (ws + [Worker(batch, [], [], false)])[..|ws|] == ws;
  }

  ghost function TotalRemaining(chain: Chain, crit: Criteria, ws: seq<Worker>): nat {
    if ws == [] then 0 else TotalRemaining(chain, crit, ws[..|ws| - 1]) + Remaining(chain, crit, ws[|ws| - 1])
  }

  lemma {:induction false} RemainingUpdate(chain: Chain, crit: Criteria, ws: seq<Worker>, i: nat, w: Worker)
    requires i < |ws| && Remaining(chain, crit, w) < Remaining(chain, crit, ws[i])
    ensures TotalRemaining(chain, crit, ws[i := w]) < TotalRemaining(chain, crit, ws)
  {
    hide Remaining;
    var n := |ws| - 1;
    if i < n {
      RemainingUpdate(chain, crit, ws[..n], i, w);
      assert ws[i := w][..n] == ws[..n][i := w];
    } else {
      assert ws[i := w][..n] == ws[..n];
    }
  }

  function Concat(batches: seq<seq<nat>>): seq<nat> {
    if batches == [] then [] else Concat(batches[..|batches| - 1]) + batches[|batches| - 1]
  }

  /** One more batch adds its logs. */
  lemma ConcatStep(chain: Chain, crit: Criteria, batches: seq<seq<nat>>, n: nat)
    requires n < |batches|
    ensures Concat(batches[..n + 1]) == Concat(batches[..n]) + batches[n]
    ensures var batch := LogsOf(chain, crit, batches[n]);
            var before := LogsOf(chain, crit, Concat(batches[..n]));
            var after := LogsOf(chain, crit, Concat(batches[..n + 1]));
            |after| == |before| + |batch| && TotalBytes(after) == TotalBytes(before) + TotalBytes(batch)
  {
    hide LogsOf, TotalBytes;
    assert batches[..n + 1][..n] == batches[..n];
    LogsOfAppend(chain, crit, Concat(batches[..n]), batches[n]);
    TotalBytesAppend(LogsOf(chain, crit, Concat(batches[..n])), LogsOf(chain, crit, batches[n]));
  }

  lemma NothingKept(chain: Chain, crit: Criteria, ws: seq<Worker>, batches: seq<seq<nat>>)
    ensures KeptCount(ws[..0]) == 0 && KeptBytes(ws[..0]) == 0
    ensures LogsOf(chain, crit, Concat(batches[..0])) == [] && TotalBytes([]) == 0
  {
  }

  lemma KeptStep(ws: seq<Worker>, n: nat)
    requires n < |ws|
    ensures KeptCount(ws[..n + 1]) == KeptCount(ws[..n]) + |ws[n].kept| &&
            KeptBytes(ws[..n + 1]) == KeptBytes(ws[..n]) + TotalBytes(ws[n].kept)
  {
    hide TotalBytes;
    assert ws[..n + 1][..n] == ws[..n];
  }

  /** Each worker holds the logs of its own batch. */
  ghost predicate Assigned(chain: Chain, crit: Criteria, ws: seq<Worker>, batches: seq<seq<nat>>) {
    && |ws| <= |batches|
    && forall i :: 0 <= i < |ws| ==> Batch(chain, crit, ws[i]) == LogsOf(chain, crit, batches[i])
  }

  lemma AssignedAt(chain: Chain, crit: Criteria, ws: seq<Worker>, batches: seq<seq<nat>>, i: nat)
    requires Assigned(chain, crit, ws, batches) && i < |ws|
    ensures |ws| <= |batches| && Batch(chain, crit, ws[i]) == LogsOf(chain, crit, batches[i])
  {
  }

  /** What is kept, with one more log of worker `i` that is being charged, is part of all logs. */
  lemma {:induction false} KeptWithin(chain: Chain, crit: Criteria, ws: seq<Worker>, batches: seq<seq<nat>>, n: nat,
                                      i: nat)
    requires Assigned(chain, crit, ws, batches) && n <= |ws| && i < |ws| && ws[i].pending != []
    ensures var all := LogsOf(chain, crit, Concat(batches[..n]));
            && KeptCount(ws[..n]) + (if i < n then 1 else 0) <= |all|
            && KeptBytes(ws[..n]) + (if i < n then HeapBytes(ws[i].pending[0]) else 0) <= TotalBytes(all)
  {
    hide *;
    if n == 0 {
      NothingKept(chain, crit, ws, batches);
    } else {
      AssignedAt(chain, crit, ws, batches, n - 1);
      KeptWithin(chain, crit, ws, batches, n - 1, i);
      WorkerWithin(chain, crit, ws[n - 1]);
      ConcatStep(chain, crit, batches, n - 1);
      KeptStep(ws, n - 1);
    }
  }

  lemma WorkerWithin(chain: Chain, crit: Criteria, w: Worker)
    ensures |w.kept| <= |Batch(chain, crit, w)| && TotalBytes(w.kept) <= TotalBytes(Batch(chain, crit, w))
    ensures w.pending != [] ==>
              && |w.kept| + 1 <= |Batch(chain, crit, w)|
              && TotalBytes(w.kept) + HeapBytes(w.pending[0]) <= TotalBytes(Batch(chain, crit, w))
  {
    hide LogsOf, TotalBytes, HeapBytes;
    var rest := LogsOf(chain, crit, w.blocks);
    TotalBytesAppend(w.kept + w.pending, rest);
    TotalBytesAppend(w.kept, w.pending);
    if w.pending != [] {
      assert w.pending == [w.pending[0]] + w.pending[1..] && [] + [w.pending[0]] == [w.pending[0]];
      TotalBytesAppend([w.pending[0]], w.pending[1..]);
      TotalBytesStep([], w.pending[0]);
    }
  }

  /** The shared budget in step with what the workers kept; once tripped, all logs together do not fit. */
  ghost predicate Balanced(chain: Chain, crit: Criteria, ws: seq<Worker>, batches: seq<seq<nat>>, budget: LogBudget)
    reads budget
  {
    && budget.usedCount == KeptCount(ws) && budget.usedBytes == KeptBytes(ws)
    && budget.caps.Fit(budget.usedCount, budget.usedBytes)
    && (forall i :: 0 <= i < |ws| && ws[i].stopped ==> budget.tripped)
    && (budget.tripped ==> !FitsAll(budget.caps, 0, 0, LogsOf(chain, crit, Concat(batches))))
  }

  lemma TripMeansTooMany(chain: Chain, crit: Criteria, ws: seq<Worker>, batches: seq<seq<nat>>, i: nat, caps: Caps)
    requires Assigned(chain, crit, ws, batches) && i < |ws| && ws[i].pending != []
    requires !caps.Fit(KeptCount(ws) + 1, KeptBytes(ws) + HeapBytes(ws[i].pending[0]))
    ensures !FitsAll(caps, 0, 0, LogsOf(chain, crit, Concat(batches)))
  {
    hide LogsOf, TotalBytes, HeapBytes, Concat, Batch, KeptCount, KeptBytes;
    assert ws[..|ws|] == ws;
    KeptWithin(chain, crit, ws, batches, |ws|, i);
    MoreBatches(chain, crit, batches, |ws|);
  }

  lemma MoreBatches(chain: Chain, crit: Criteria, batches: seq<seq<nat>>, n: nat)
    requires n <= |batches|
    ensures |LogsOf(chain, crit, Concat(batches[..n]))| <= |LogsOf(chain, crit, Concat(batches))|
    ensures TotalBytes(LogsOf(chain, crit, Concat(batches[..n]))) <= TotalBytes(LogsOf(chain, crit, Concat(batches)))
    decreases |batches| - n
  {
    hide LogsOf, TotalBytes, Concat;
    if n == |batches| {
      assert batches[..n] == batches;
    } else {
      MoreBatches(chain, crit, batches, n + 1);
      ConcatStep(chain, crit, batches, n);
    }
  }

  lemma KeptIsBatch(chain: Chain, crit: Criteria, w: Worker)
    requires w.Finished() && !w.stopped
    ensures w.kept == Batch(chain, crit, w)
  {
  }

  /** Workers that all finished without giving up kept all logs. */
  lemma {:induction false} AllKept(chain: Chain, crit: Criteria, ws: seq<Worker>, batches: seq<seq<nat>>, n: nat)
    requires Assigned(chain, crit, ws, batches) && n <= |ws|
    requires forall i :: 0 <= i < |ws| ==> ws[i].Finished() && !ws[i].stopped
    ensures forall i :: 0 <= i < n ==> ws[i].kept == LogsOf(chain, crit, batches[i])
    ensures var all := LogsOf(chain, crit, Concat(batches[..n]));
            KeptCount(ws[..n]) == |all| && KeptBytes(ws[..n]) == TotalBytes(all)
  {
    hide *;
    if n == 0 {
      NothingKept(chain, crit, ws, batches);
    } else {
      AssignedAt(chain, crit, ws, batches, n - 1);
      AllKept(chain, crit, ws, batches, n - 1);
      KeptIsBatch(chain, crit, ws[n - 1]);
      ConcatStep(chain, crit, batches, n - 1);
      KeptStep(ws, n - 1);
    }
  }

  method Unfinished(ws: seq<Worker>) returns (runnable: seq<nat>)
    ensures forall k :: 0 <= k < |runnable| ==> runnable[k] < |ws| && !ws[runnable[k]].Finished()
    ensures runnable == [] ==> forall i :: 0 <= i < |ws| ==> ws[i].Finished()
  {
    runnable := [];
    for i := 0 to |ws|
      invariant forall k :: 0 <= k < |runnable| ==> runnable[k] < i && !ws[runnable[k]].Finished()
      invariant runnable == [] ==> forall k :: 0 <= k < i ==> ws[k].Finished()
    {
      if !ws[i].Finished() {
        runnable := runnable + [i];
      }
    }
  }

  /** What `batches` holds once the blocks `hs` are processed. */
  ghost predicate Gathered(chain: Chain, crit: Criteria, batches: seq<seq<Log>>, hs: seq<nat>) {
    && multiset(Flatten(batches)) == multiset(LogsOf(chain, crit, hs))
    && forall b :: 0 <= b < |batches| ==> Sorted(batches[b])
  }

  lemma GatherBatch(chain: Chain, crit: Criteria, batches: seq<seq<Log>>, hs: seq<nat>, batch: seq<nat>,
                    sorted: seq<Log>)
    requires Gathered(chain, crit, batches, hs)
    requires multiset(sorted) == multiset(LogsOf(chain, crit, batch)) && Sorted(sorted)
    ensures Gathered(chain, crit, batches + [sorted], hs + batch)
  {
    hide Flatten, LogsOf, Sorted;
    FlattenStep(batches, sorted);
    LogsOfAppend(chain, crit, hs, batch);
  }

  /** One step of some worker keeps the balance. */
  lemma WorkerStepKeeps(chain: Chain, crit: Criteria, ws: seq<Worker>, batches: seq<seq<nat>>, i: nat, w: Worker,
                        charged: seq<Log>)
    requires Assigned(chain, crit, ws, batches) && i < |ws| && Batch(chain, crit, w) == Batch(chain, crit, ws[i])
    requires w.kept == ws[i].kept + charged && |charged| <= 1
    ensures Assigned(chain, crit, ws[i := w], batches)
    ensures KeptCount(ws[i := w]) == KeptCount(ws) + |charged|
    ensures KeptBytes(ws[i := w]) == KeptBytes(ws) + if charged == [] then 0 else HeapBytes(charged[0])
  {
    hide LogsOf, TotalBytes, HeapBytes, Batch, KeptCount, KeptBytes;
    KeptUpdate(ws, i, w);
    if charged == [] {
      assert w.kept == ws[i].kept;
    } else {
      assert charged == [charged[0]];
      TotalBytesStep(ws[i].kept, charged[0]);
    }
  }

  method StepAt(chain: Chain, crit: Criteria, ws: seq<Worker>, batches: seq<seq<nat>>, i: nat, budget: LogBudget)
    returns (ws': seq<Worker>)
    requires i < |ws| && !ws[i].Finished()
    requires Assigned(chain, crit, ws, batches) && Balanced(chain, crit, ws, batches, budget)
    modifies budget
    ensures |ws'| == |ws| && Assigned(chain, crit, ws', batches) && Balanced(chain, crit, ws', batches, budget)
    ensures old(budget.tripped) ==> budget.tripped
    ensures TotalRemaining(chain, crit, ws') < TotalRemaining(chain, crit, ws)
  {
    hide LogsOf, TotalBytes, HeapBytes, Batch, Concat, Remaining, FitsAll, KeptCount, KeptBytes, TotalRemaining,
         Assigned;
    ghost var wasTripped := budget.tripped;
    var w, charged := StepWorker(chain, crit, ws[i], budget);
    WorkerStepKeeps(chain, crit, ws, batches, i, w, charged);
    RemainingUpdate(chain, crit, ws, i, w);
    if budget.tripped && !wasTripped {
      TripMeansTooMany(chain, crit, ws, batches, i, budget.caps);
    }
    ws' := ws[i := w];
  }

  lemma NewWorkerKeeps(chain: Chain, crit: Criteria, ws: seq<Worker>, batches: seq<seq<nat>>)
    requires Assigned(chain, crit, ws, batches) && |ws| < |batches|
    ensures Assigned(chain, crit, ws + [Worker(batches[|ws|], [], [], false)], batches)
  {
    hide LogsOf;
    var w := Worker(batches[|ws|], [], [], false);
    assert Batch(chain, crit, w) == LogsOf(chain, crit, batches[|ws|]);
  }

  /** The workers and the submitting loop in any interleaving; the loop looks at the budget before it
      submits a batch and stops once it sees it tripped or finds no room in the pool, and a worker stops
      before a block once it sees the budget tripped. */
  method RunWorkers(chain: Chain, crit: Criteria, batches: seq<seq<nat>>, pick: nat -> nat, full: nat -> bool,
                    budget: LogBudget)
    returns (ws: seq<Worker>, overloaded: bool)
    requires budget.Open() && budget.usedCount == 0 && budget.usedBytes == 0
    modifies budget
    ensures overloaded ==> exists i: nat :: i < |batches| && full(i)
    ensures budget.tripped ==> !FitsAll(budget.caps, 0, 0, LogsOf(chain, crit, Concat(batches)))
    ensures !overloaded && !budget.tripped ==>
              && FitsAll(budget.caps, 0, 0, LogsOf(chain, crit, Concat(batches)))
              && |ws| == |batches| && forall i :: 0 <= i < |ws| ==> ws[i].kept == LogsOf(chain, crit, batches[i])
    ensures !overloaded && !budget.tripped ==> forall i: nat :: i < |batches| ==> !full(i)
  {
    hide LogsOf, TotalBytes, HeapBytes, Batch, Concat, Remaining, FitsAll;
    ws, overloaded := [], false;
    var gaveUp, looked, t := false, false, 0;
    var runnable: seq<nat> := Unfinished(ws);
    while runnable != [] || (!gaveUp && |ws| < |batches|)
      invariant Assigned(chain, crit, ws, batches) && Balanced(chain, crit, ws, batches, budget)
      invariant gaveUp ==> budget.tripped
      invariant forall i: nat :: i < |ws| ==> !full(i)
      invariant forall k :: 0 <= k < |runnable| ==> runnable[k] < |ws| && !ws[runnable[k]].Finished()
      invariant runnable == [] ==> forall i :: 0 <= i < |ws| ==> ws[i].Finished()
      decreases if gaveUp then 0 else |batches| + 1 - |ws|, !looked, TotalRemaining(chain, crit, ws)
    {
      hide KeptCount, KeptBytes, TotalRemaining;
      var submits := !gaveUp && |ws| < |batches|;
      var k := pick(t) % (|runnable| + if submits then 1 else 0);
      t := t + 1;
      if k < |runnable| {
        ws := StepAt(chain, crit, ws, batches, runnable[k], budget);
      } else if !looked {
        gaveUp, looked := budget.tripped, true;
      } else if full(|ws|) {
        overloaded := true;
        return;
      } else {
        KeptStart(ws, batches[|ws|]);
        NewWorkerKeeps(chain, crit, ws, batches);
        ws, looked := ws + [Worker(batches[|ws|], [], [], false)], false;
      }
      runnable := Unfinished(ws);
    }
    if !budget.tripped {
      AllKept(chain, crit, ws, batches, |ws|);
      assert ws[..|ws|] == ws && batches[..|ws|] == batches;
      EverythingFits(budget.caps, LogsOf(chain, crit, Concat(batches)));
    }
  }

  lemma EverythingFits(caps: Caps, ls: seq<Log>)
    requires caps.Fit(|ls|, TotalBytes(ls))
    ensures FitsAll(caps, 0, 0, ls)
  {
  }

  /** The blocks in arrival order, cut into worker batches. */
  method CutBatches(blocks: seq<nat>) returns (batches: seq<seq<nat>>)
    ensures Concat(batches) == blocks && |batches| == Stretches(|blocks|)
  {
    batches := [];
    var from := 0;
    while from < |blocks|
      invariant from <= |blocks| && Concat(batches) == blocks[..from]
      invariant |batches| == Stretches(from) && (from == |blocks| || from % WORKER_BATCH_SIZE == 0)
    {
      var to := if from + WORKER_BATCH_SIZE <= |blocks| then from + WORKER_BATCH_SIZE else |blocks|;
      assert (batches + [blocks[from..to]])[..|batches|] == batches;
      assert blocks[..from] + blocks[from..to] == blocks[..to];
      batches := batches + [blocks[from..to]];
      from := to;
    }
    assert blocks[..|blocks|] == blocks;
  }

  /** What the finished workers hand over: each batch sorted. */
  method SortBatches(chain: Chain, crit: Criteria, batches: seq<seq<nat>>, ws: seq<Worker>, sched: Scheduling)
    returns (out: seq<seq<Log>>)
    requires sched.Valid() && |ws| == |batches|
    requires forall i :: 0 <= i < |ws| ==> ws[i].kept == LogsOf(chain, crit, batches[i])
    ensures Gathered(chain, crit, out, Concat(batches))
  {
    hide LogsOf, Gathered, Scheduling.Valid, Sorted;
    out := [];
    GatherStart(chain, crit, batches);
    for i := 0 to |ws|
      invariant Gathered(chain, crit, out, Concat(batches[..i]))
    {
      ScheduleFacts(sched, [], [], ws[i].kept);
      GatherBatch(chain, crit, out, Concat(batches[..i]), batches[i], sched.sort(ws[i].kept));
      ConcatStep(chain, crit, batches, i);
      out := out + [sched.sort(ws[i].kept)];
    }
    assert batches[..|ws|] == batches;
  }

  lemma GatherStart(chain: Chain, crit: Criteria, batches: seq<seq<nat>>)
    ensures Gathered(chain, crit, [], Concat(batches[..0]))
  {
  }

  // ---------------------------------------------------------------- the block-by-block path

  /** The pool has no room at one of the submissions that a query over n heights may make. */
  ghost predicate Busy(r: Reads, n: nat) {
    exists i: nat :: i < 2 * Stretches(n) && r.full(i)
  }

  /** For every scheduling the path returns, in block order, exactly the matching logs of the blocks
      it can see; it reports an overflow only when those do not fit, and an error exactly when a fetch
      fails, unless the worker pool has no room. */
  method GetLogsBlockByBlock(hash: Hasher, chain: Chain, crit: Criteria, r: Reads, begin: nat, end: nat, caps: Caps,
                             sched: Scheduling)
    returns (f: Fetch)
    requires WellFormed(hash, chain) && sched.Valid() && begin <= end
    requires forall h :: h in r.cached ==> h in chain
    ensures f.Overloaded? ==> Busy(r, end + 1 - begin)
    ensures !f.Overloaded? ==> (f.BlockUnavailable? <==> SomeFetchFails(hash, chain, crit, r, begin, end + 1))
    ensures var vis := RangeLogs(Visible(chain, r), crit, begin, end + 1);
            && (f.Logs? ==> f.logs == vis && FitsAll(caps, 0, 0, vis))
            && (f.TooManyLogs? ==> !FitsAll(caps, 0, 0, vis))
  {
    hide LogsOf, LogsAt, WellFormed, FitsAll, RangeLogs, LeastLogs, Flatten, Sorted, Visible, SomeFetchFails,
         Scheduling.Valid, Stretches, AfterFetching, Busy;
    var kept, failed, overloaded := FetchBlocksByCrit(hash, chain, crit, r, begin, end);
    if overloaded {
      FetchMeansBusy(r, end + 1 - begin);
      return Overloaded;
    }
    if failed {
      return BlockUnavailable;
    }
    var blocks := sched.arrive(kept);
    ScheduleFacts(sched, kept, [], []);
    LogsOfPermuted(chain, crit, blocks, kept);
    BudgetIgnoresOrder(caps, LogsOf(chain, crit, blocks), LogsOf(chain, crit, kept));
    var batches := CutBatches(blocks);
    var budget := new LogBudget(caps);
    var full := AfterFetching(r, end + 1 - begin);
    var ws, rejected := RunWorkers(chain, crit, batches, sched.pick, full, budget);
    if rejected {
      RejectedMeansBusy(r, kept, blocks, end + 1 - begin);
      return Overloaded;
    }
    if budget.tripped {
      return TooManyLogs;
    }
    var out := SortBatches(chain, crit, batches, ws, sched);
    var sortedBatches := sched.finish(out);
    ScheduleFacts(sched, [], out, []);
    FinishKeepsBatches(out, sortedBatches);
    var merged := MergeSortedLogs(sortedBatches, caps.maxLog);
    HidesOrLacks(chain, crit, r, begin, end + 1);
    SubchainWellFormed(hash, Visible(chain, r), chain);
    MergedIsRange(hash, Visible(chain, r), crit, begin, end + 1, sortedBatches, merged, caps);
    return Logs(merged);
  }

  /** The submissions behind those that fetch the blocks of n heights. */
  function AfterFetching(r: Reads, n: nat): nat -> bool {
    (i: nat) => r.full(Stretches(n) + i)
  }

  lemma FetchMeansBusy(r: Reads, n: nat)
    requires exists i: nat :: i < Stretches(n) && r.full(i)
    ensures Busy(r, n)
  {
  }

  lemma RejectedMeansBusy(r: Reads, kept: seq<nat>, blocks: seq<nat>, n: nat)
    requires multiset(blocks) == multiset(kept) && |kept| <= n
    requires exists i: nat :: i < Stretches(|blocks|) && AfterFetching(r, n)(i)
    ensures Busy(r, n)
  {
    assert |multiset(blocks)| == |multiset(kept)| && |blocks| == |kept|;
    var i: nat :| i < Stretches(|blocks|) && AfterFetching(r, n)(i);
    assert Stretches(n) + i < 2 * Stretches(n) && r.full(Stretches(n) + i);
  }

  lemma FinishKeepsBatches(batches: seq<seq<Log>>, finished: seq<seq<Log>>)
    requires multiset(finished) == multiset(batches)
    requires forall b :: 0 <= b < |batches| ==> Sorted(batches[b])
    ensures multiset(Flatten(finished)) == multiset(Flatten(batches))
    ensures forall b :: 0 <= b < |finished| ==> Sorted(finished[b])
  {
    hide Flatten, Sorted;
    FlattenPermuted(finished, batches);
    forall b | 0 <= b < |finished| ensures Sorted(finished[b]) {
      assert finished[b] in multiset(finished);
      assert finished[b] in batches;
    }
  }

  lemma MergedIsRange(hash: Hasher, chain: Chain, crit: Criteria, lo: nat, hi: nat,
                      batches: seq<seq<Log>>, merged: seq<Log>, caps: Caps)
    requires WellFormed(hash, chain)
    requires multiset(Flatten(batches)) == multiset(RangeLogs(chain, crit, lo, hi))
    requires FitsAll(caps, 0, 0, RangeLogs(chain, crit, lo, hi))
    requires LeastLogs(merged, multiset(Flatten(batches)))
    requires |merged| == if 0 < caps.maxLog < |Flatten(batches)| then caps.maxLog else |Flatten(batches)|
    ensures merged == RangeLogs(chain, crit, lo, hi)
  {
    hide RangeLogs, WellFormed, LeastLogs, Flatten, StrictlySorted, TotalBytes;
    var all := RangeLogs(chain, crit, lo, hi);
    assert |multiset(Flatten(batches))| == |multiset(all)| == |all|;
    RangeOrdered(hash, chain, crit, lo, hi);
    MergeIsSortedPrefix(merged, all);
    assert all[..|all|] == all;
  }

  /** The two paths return the same logs exactly when no block that the block-by-block path passes
      over has a match: a cached block whose availability check fails, or block 0, which no chain
      has, since the first block of a chain has height 1 or more. */
  lemma PathsAgree(chain: Chain, crit: Criteria, r: Reads, begin: nat, end: nat)
    ensures RangeLogs(Visible(chain, r), crit, begin, end + 1) == RangeLogs(chain, crit, begin, end + 1)
            <==> HidesNoMatch(chain, crit, r, begin, end + 1)
  {
    HidesOrLacks(chain, crit, r, begin, end + 1);
    SubchainExactly(Visible(chain, r), chain, crit, begin, end + 1);
  }

  /** A cached block that is outside the watermarks when it is read loses its logs, and the query
      still succeeds. */
  lemma CachedBlockDropped(hash: Hasher, chain: Chain, crit: Criteria, h: nat)
    requires h in chain && LogsAt(chain, crit, h) != []
    ensures var r := Reads({h}, (_: nat) => false, (_: nat) => false);
            && !SomeFetchFails(hash, chain, crit, r, h, h + 1)
            && RangeLogs(Visible(chain, r), crit, h, h + 1) == [] != RangeLogs(chain, crit, h, h + 1)
  {
    hide LogsAt;
    var r := Reads({h}, (_: nat) => false, (_: nat) => false);
    VisibleAt(chain, crit, r, h);
    assert RangeLogs(chain, crit, h, h + 1) == RangeLogs(chain, crit, h, h) + LogsAt(chain, crit, h);
    assert RangeLogs(Visible(chain, r), crit, h, h + 1) == RangeLogs(Visible(chain, r), crit, h, h) + [];
  }
}
