/** Bloom filters of logs and filter criteria (evmrpc/ethbloom/bloom.go). */
module Blooms {
  import opened EthLogs

  datatype Criteria = Criteria(addresses: seq<Bytes>, topics: seq<seq<Bytes>>) {
    predicate HasFilters() {
      addresses != [] || topics != []
    }
  }

  /** The three bit positions of an item; keccak itself is not modelled. */
  type Hasher = Bytes -> seq<nat>

  predicate MatchesCriteria(log: Log, crit: Criteria) {
    && (crit.addresses != [] ==> log.address in crit.addresses)
    && forall i :: 0 <= i < |crit.topics| && crit.topics[i] != [] ==>
                     i < |log.topics| && log.topics[i] in crit.topics[i]
  }

  /** One group of alternatives per non-empty clause of the criteria. */
  function Groups(hash: Hasher, clauses: seq<seq<Bytes>>): seq<seq<seq<nat>>> {
    if clauses == [] then []
    else if clauses[0] == [] then Groups(hash, clauses[1..])
    else [seq(|clauses[0]|, i requires 0 <= i < |clauses[0]| => hash(clauses[0][i]))] + Groups(hash, clauses[1..])
  }

  function EncodeFilters(hash: Hasher, crit: Criteria): seq<seq<seq<nat>>> {
    Groups(hash, [crit.addresses] + crit.topics)
  }

  predicate MatchGroup(bits: set<nat>, group: seq<seq<nat>>) {
    exists i :: 0 <= i < |group| && forall k :: 0 <= k < |group[i]| ==> group[i][k] in bits
  }

  predicate MatchFilters(bits: set<nat>, groups: seq<seq<seq<nat>>>) {
    forall g :: 0 <= g < |groups| ==> MatchGroup(bits, groups[g])
  }

  ghost predicate HoldsItem(hash: Hasher, bits: set<nat>, item: Bytes) {
    forall k :: 0 <= k < |hash(item)| ==> hash(item)[k] in bits
  }

  /** A bloom built over a log has the bits of its address and of each topic. */
  ghost predicate Covers(hash: Hasher, bits: set<nat>, address: Bytes, topics: seq<Bytes>) {
    HoldsItem(hash, bits, address) && forall t :: t in topics ==> HoldsItem(hash, bits, t)
  }

  lemma {:induction false} ClausesMatch(hash: Hasher, bits: set<nat>, clauses: seq<seq<Bytes>>)
    requires forall c :: 0 <= c < |clauses| && clauses[c] != [] ==>
                           exists item :: item in clauses[c] && HoldsItem(hash, bits, item)
    ensures MatchFilters(bits, Groups(hash, clauses))
  {
    if clauses != [] {
      forall c | 0 <= c < |clauses[1..]| && clauses[1..][c] != []
        ensures exists item :: item in clauses[1..][c] && HoldsItem(hash, bits, item)
      {
        assert clauses[1..][c] == clauses[c + 1];
      }
      ClausesMatch(hash, bits, clauses[1..]);
      if clauses[0] != [] {
        var item :| item in clauses[0] && HoldsItem(hash, bits, item);
        var i :| 0 <= i < |clauses[0]| && clauses[0][i] == item;
        assert Groups(hash, clauses)[0][i] == hash(item);
        assert MatchGroup(bits, Groups(hash, clauses)[0]);
      }
    }
  }

  /** No false negatives: a bloom covering a matching log passes the encoded filter. */
  lemma NoFalseNegatives(hash: Hasher, bits: set<nat>, log: Log, crit: Criteria)
    requires Covers(hash, bits, log.address, log.topics)
    requires MatchesCriteria(log, crit)
    ensures MatchFilters(bits, EncodeFilters(hash, crit))
  {
    var clauses := [crit.addresses] + crit.topics;
    forall c | 0 <= c < |clauses| && clauses[c] != []
      ensures exists item :: item in clauses[c] && HoldsItem(hash, bits, item)
    {
      if c == 0 {
        assert log.address in clauses[0];
      } else {
        assert clauses[c] == crit.topics[c - 1];
        assert log.topics[c - 1] in clauses[c];
      }
    }
    ClausesMatch(hash, bits, clauses);
  }
}

/** Collecting the matching logs of one block under a shared budget
    (evmrpc/filter.go, sei-db/ledger_db/receipt/log_budget.go). */
module LogFilter {
  import opened EthLogs
  import opened TxIndexing
  import opened Blooms

  // ---------------------------------------------------------------- budget

  datatype Caps = Caps(maxLog: int, maxBytes: int) {
    /** A non-positive cap disables its dimension. */
    predicate Fit(count: nat, bytes: nat) {
      (maxLog > 0 ==> count <= maxLog) && (maxBytes > 0 ==> bytes <= maxBytes)
    }
  }

  /** EstimateLogHeapBytes: address, data, topics header, topics, pointer and struct overhead. */
  function HeapBytes(log: Log): nat {
    20 + |log.data| + 24 + 32 * |log.topics| + 8 + 124
  }

  function TotalBytes(ls: seq<Log>): nat {
    if ls == [] then 0 else TotalBytes(ls[..|ls| - 1]) + HeapBytes(ls[|ls| - 1])
  }

  lemma {:induction false} TotalBytesAppend(a: seq<Log>, b: seq<Log>)
    ensures TotalBytes(a + b) == TotalBytes(a) + TotalBytes(b)
  {
    if b == [] {
      assert a + b == a;
    } else {
      assert (a + b)[..|a + b| - 1] == a + b[..|b| - 1];
      TotalBytesAppend(a, b[..|b| - 1]);
    }
  }

  /** Whether `ls` still fits on top of what is already used. */
  predicate FitsAll(caps: Caps, count: nat, bytes: nat, ls: seq<Log>) {
    caps.Fit(count + |ls|, bytes + TotalBytes(ls))
  }

  class LogBudget {
    const caps: Caps
    var usedCount: nat
    var usedBytes: nat
    var tripped: bool

    constructor (caps: Caps)
      ensures this.caps == caps && usedCount == 0 && usedBytes == 0 && Open()
    {
      this.caps, usedCount, usedBytes, tripped := caps, 0, 0, false;
    }

    ghost predicate Open()
      reads this
    {
      !tripped && caps.Fit(usedCount, usedBytes)
    }

    /** Charges exactly the logs `ls` on top of (count, bytes). */
    ghost predicate Charged(count: nat, bytes: nat, ls: seq<Log>)
      reads this
    {
      Open() && usedCount == count + |ls| && usedBytes == bytes + TotalBytes(ls)
    }

    method Reserve(log: Log) returns (ok: bool)
      modifies this
      ensures ok <==> !old(tripped) && caps.Fit(old(usedCount) + 1, old(usedBytes) + HeapBytes(log))
      ensures tripped == !ok
      ensures if ok then usedCount == old(usedCount) + 1 && usedBytes == old(usedBytes) + HeapBytes(log)
              else usedCount == old(usedCount) && usedBytes == old(usedBytes)
    {
      if tripped {
        return false;
      }
      if (caps.maxLog > 0 && usedCount + 1 > caps.maxLog) ||
         (caps.maxBytes > 0 && usedBytes + HeapBytes(log) > caps.maxBytes)
      {
        tripped := true;
        return false;
      }
      usedCount := usedCount + 1;
      usedBytes := usedBytes + HeapBytes(log);
      return true;
    }
  }

  // ---------------------------------------------------------------- reference result of a block

  function Select(ls: seq<Log>, crit: Criteria): (sel: seq<Log>)
    ensures forall x :: x in sel ==> x in ls && MatchesCriteria(x, crit)
  {
    if ls == [] then []
    else Select(ls[..|ls| - 1], crit) + if MatchesCriteria(ls[|ls| - 1], crit) then [ls[|ls| - 1]] else []
  }

  lemma {:induction false} SelectAppend(a: seq<Log>, b: seq<Log>, crit: Criteria)
    ensures Select(a + b, crit) == Select(a, crit) + Select(b, crit)
  {
    if b == [] {
      assert a + b == a;
    } else {
      assert (a + b)[..|a + b| - 1] == a + b[..|b| - 1];
      SelectAppend(a, b[..|b| - 1], crit);
    }
  }

  lemma {:induction false} SelectNothing(ls: seq<Log>, crit: Criteria)
    requires forall x :: x in ls ==> !MatchesCriteria(x, crit)
    ensures Select(ls, crit) == []
  {
    if ls != [] {
      SelectNothing(ls[..|ls| - 1], crit);
      assert ls[|ls| - 1] in ls;
    }
  }

  function ListedIn(view: View, block: Block): (listed: seq<IndexedMsg>)
    ensures AllFound(view, listed)
  {
    Listing(view, block.height, Messages(block.txs))
  }

  /** The logs of a block that match the criteria, in order, numbered among all visible logs. */
  function MatchingLogs(view: View, block: Block, crit: Criteria): seq<Log> {
    var listed := ListedIn(view, block);
    Select(NumberedLogs(view, block.height, listed, |listed|), crit)
  }

  /** Every stored receipt bloom covers the logs of its receipt. */
  ghost predicate BloomsCover(hash: Hasher, view: View) {
    forall h :: h in view.receipts && view.receipts[h].bloom.Bits? ==>
      forall l :: l in view.receipts[h].logs ==>
        Covers(hash, view.receipts[h].bloom.bits, l.address, l.topics)
  }

  predicate SkipsReceipt(hash: Hasher, crit: Criteria, r: Receipt) {
    crit.HasFilters() && r.bloom.Bits? && !MatchFilters(r.bloom.bits, EncodeFilters(hash, crit))
  }

  /** A receipt that the bloom test skips has no matching log. */
  lemma SkippedHasNoMatch(hash: Hasher, view: View, crit: Criteria, h: Bytes, height: nat, txIdx: nat, start: nat)
    requires BloomsCover(hash, view) && h in view.receipts && SkipsReceipt(hash, crit, view.receipts[h])
    ensures Select(TxLogs(height, h, view.receipts[h], txIdx, start), crit) == []
  {
    var r := view.receipts[h];
    var ls := TxLogs(height, h, r, txIdx, start);
    forall x | x in ls ensures !MatchesCriteria(x, crit) {
      var j :| 0 <= j < |ls| && ls[j] == x;
      assert r.logs[j] in r.logs;
      if MatchesCriteria(x, crit) {
        NoFalseNegatives(hash, r.bloom.bits, x, crit);
      }
    }
    SelectNothing(ls, crit);
  }

  // ---------------------------------------------------------------- collectLogs

  lemma {:induction false} NumberedPrefix(view: View, height: nat, ms: seq<IndexedMsg>, p: nat)
    requires p <= |ms| && AllFound(view, ms)
    ensures NumberedLogs(view, height, ms, p) <= NumberedLogs(view, height, ms, |ms|)
    decreases |ms| - p
  {
    if p < |ms| {
      NumberedPrefix(view, height, ms, p + 1);
    }
  }

  lemma SelectPrefix(a: seq<Log>, all: seq<Log>, crit: Criteria)
    requires a <= all
    ensures Select(a, crit) <= Select(all, crit)
  {
    assert all == a + all[|a|..];
    SelectAppend(a, all[|a|..], crit);
  }

  lemma SelectStep(done: seq<Log>, x: Log, crit: Criteria)
    ensures Select(done + [x], crit) == Select(done, crit) + if MatchesCriteria(x, crit) then [x] else []
  {
    assert (done + [x])[..|done|] == done;
  }

  lemma TotalBytesStep(sel: seq<Log>, x: Log)
    ensures TotalBytes(sel + [x]) == TotalBytes(sel) + HeapBytes(x)
  {
    assert (sel + [x])[..|sel|] == sel;
  }

  lemma RefusedWithin(caps: Caps, count: nat, bytes: nat, sel: seq<Log>, x: Log, all: seq<Log>)
    requires sel + [x] <= all
    requires !caps.Fit(count + |sel| + 1, bytes + TotalBytes(sel) + HeapBytes(x))
    ensures !FitsAll(caps, count, bytes, all)
  {
    hide TotalBytes, HeapBytes;
    var b := all[|sel| + 1..];
    assert all == (sel + [x]) + b;
    TotalBytesStep(sel, x);
    TotalBytesAppend(sel + [x], b);
  }

  /** The matching logs of one receipt are appended to `prior`, each charged to the budget. */
  method CollectReceipt(ls: seq<Log>, crit: Criteria, budget: LogBudget, prior: seq<Log>,
                        ghost count: nat, ghost bytes: nat, ghost all: seq<Log>)
    returns (logs: seq<Log>, ok: bool)
    requires budget.Charged(count, bytes, prior)
    requires prior + Select(ls, crit) <= all
    modifies budget
    ensures ok ==> logs == prior + Select(ls, crit) && budget.Charged(count, bytes, logs)
    ensures !ok ==> budget.tripped && !FitsAll(budget.caps, count, bytes, all)
  {
    hide Select, TotalBytes, HeapBytes, MatchesCriteria, FitsAll;
    CollectStart(ls, crit);
    logs := prior;
    ok := true;
    for j := 0 to |ls|
      invariant logs == prior + Select(ls[..j], crit)
      invariant budget.Charged(count, bytes, logs)
    {
      SelectStep(ls[..j], ls[j], crit);
      assert ls[..j] + [ls[j]] == ls[..j + 1];
      if !MatchesCriteria(ls[j], crit) {
        continue;
      }
      ghost var before := logs;
      var reserved := budget.Reserve(ls[j]);
      if !reserved {
        SelectPrefix(ls[..j + 1], ls, crit);
        RefusedWithin(budget.caps, count, bytes, before, ls[j], all);
        return logs, false;
      }
      TotalBytesStep(logs, ls[j]);
      logs := logs + [ls[j]];
    }
    assert ls[..|ls|] == ls;
  }

  /** collectLogs: receipt by receipt, skipping by bloom, numbering as it goes. */
  method CollectLogs(hash: Hasher, view: View, block: Block, crit: Criteria, budget: LogBudget)
    returns (logs: seq<Log>, ok: bool)
    requires BloomsCover(hash, view) && budget.Open()
    modifies budget
    ensures ok ==> logs == MatchingLogs(view, block, crit)
                   && budget.Charged(old(budget.usedCount), old(budget.usedBytes), logs)
    ensures !ok ==> budget.tripped &&
                    !FitsAll(budget.caps, old(budget.usedCount), old(budget.usedBytes), MatchingLogs(view, block, crit))
  {
    hide *;
    var listed := FilterTransactions(view, block);
    ghost var all := MatchingLogs(view, block, crit);
    ghost var count, bytes := budget.usedCount, budget.usedBytes;
    MatchingLogsOf(view, block, crit, listed, count, bytes, budget);
    logs := [];
    ok := true;
    var logIndex := 0;
    for txIdx := 0 to |listed|
      invariant ok && logIndex == Offset(view, listed, txIdx)
      invariant logs == Select(NumberedLogs(view, block.height, listed, txIdx), crit)
      invariant budget.Charged(count, bytes, logs)
    {
      NumberedStep(view, block.height, listed, txIdx);
      var h := listed[txIdx].Hash();
      var r := view.receipts[h];
      var ls := TxLogs(block.height, h, r, txIdx, logIndex);
      SelectAppend(NumberedLogs(view, block.height, listed, txIdx), ls, crit);
      if SkipsReceipt(hash, crit, r) {
        SkippedHasNoMatch(hash, view, crit, h, block.height, txIdx, logIndex);
        logIndex := logIndex + |r.logs|;
        continue;
      }
      NumberedPrefix(view, block.height, listed, txIdx + 1);
      SelectPrefix(NumberedLogs(view, block.height, listed, txIdx + 1),
                   NumberedLogs(view, block.height, listed, |listed|), crit);
      logs, ok := CollectReceipt(ls, crit, budget, logs, count, bytes, all);
      if !ok {
        return;
      }
      logIndex := logIndex + |r.logs|;
    }
  }

  lemma CollectStart(ls: seq<Log>, crit: Criteria)
    ensures Select(ls[..0], crit) == []
  {
  }

  lemma MatchingLogsOf(view: View, block: Block, crit: Criteria, listed: seq<IndexedMsg>,
                       count: nat, bytes: nat, budget: LogBudget)
    requires listed == Listing(view, block.height, Messages(block.txs))
    requires budget.Open() && budget.usedCount == count && budget.usedBytes == bytes
    ensures AllFound(view, listed) && Offset(view, listed, 0) == 0
    ensures Select(NumberedLogs(view, block.height, listed, 0), crit) == []
    ensures MatchingLogs(view, block, crit) == Select(NumberedLogs(view, block.height, listed, |listed|), crit)
    ensures budget.Charged(count, bytes, [])
  {
  }

  lemma NumberedStep(view: View, height: nat, ms: seq<IndexedMsg>, p: nat)
    requires p < |ms| && AllFound(view, ms)
    ensures ms[p].Hash() in view.receipts
    ensures var r := view.receipts[ms[p].Hash()];
            && Offset(view, ms, p + 1) == Offset(view, ms, p) + |r.logs|
            && NumberedLogs(view, height, ms, p + 1) ==
               NumberedLogs(view, height, ms, p) + TxLogs(height, ms[p].Hash(), r, p, Offset(view, ms, p))
  {
  }
}
