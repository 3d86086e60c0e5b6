/** Which messages of a block the RPC lists, and how receipts and logs are numbered
    (evmrpc/utils.go, evmrpc/tx.go). */
module TxIndexing {
  import opened EthLogs

  /** A log as stored in a receipt; `index` is its position inside the transaction. */
  datatype StoredLog = StoredLog(address: Bytes, topics: seq<Bytes>, data: Bytes, index: nat)

  /** `bloom` is absent when the stored filter is empty. */
  datatype Receipt = Receipt(
    blockNumber: nat, failed: bool, gasPrice: nat, shell: bool, nonceError: bool,
    logs: seq<StoredLog>, bloom: Bloom)

  datatype Bloom = NoBloom | Bits(bits: set<nat>)

  datatype Msg =
    | EvmTx(hash: Bytes, sender: Bytes, nonce: nat, associate: bool)
    | ExecuteContract
    | OtherMsg

  datatype Tx = Undecodable | Decoded(hash: Bytes, msgs: seq<Msg>)

  datatype Block = Block(height: nat, txs: seq<Tx>)

  /** What the node knows around one block; `startNonce` is read at the previous height. */
  datatype View = View(
    receipts: map<Bytes, Receipt>, startNonce: map<Bytes, nat>, beforeV580: bool, synthetic: bool)

  datatype IndexedMsg = IndexedMsg(msg: Msg, index: nat, txHash: Bytes) {
    /** The hash under which the message's receipt is stored. */
    function Hash(): Bytes {
      if msg.EvmTx? then msg.hash else txHash
    }
  }

  predicate FromAnteError(view: View, r: Receipt) {
    r.gasPrice == 0 && (view.beforeV580 || r.nonceError)
  }

  function StartNonce(view: View, sender: Bytes): nat {
    if sender in view.startNonce then view.startNonce[sender] else 0
  }

  // ---------------------------------------------------------------- reference listing

  /** The candidate messages of the block in order, with transaction index and receipt hash. */
  function Messages(txs: seq<Tx>): seq<IndexedMsg> {
    if txs == [] then []
    else Messages(txs[..|txs| - 1]) + OfTx(txs[|txs| - 1], |txs| - 1)
  }

  function OfTx(tx: Tx, index: nat): (ms: seq<IndexedMsg>)
    ensures tx.Undecodable? ==> ms == []
    ensures tx.Decoded? ==> |ms| == |tx.msgs|
    ensures forall i :: 0 <= i < |ms| ==> ms[i].index == index && ms[i].msg == tx.msgs[i]
  {
    match tx
    case Undecodable => []
    case Decoded(hash, msgs) =>
      seq(|msgs|, i requires 0 <= i < |msgs| =>
        IndexedMsg(msgs[i], index, hash))
  }

  /** Listed EVM messages of one sender. */
  function SentBy(sender: Bytes, ms: seq<IndexedMsg>): nat {
    if ms == [] then 0
    else SentBy(sender, ms[..|ms| - 1]) +
         (var m := ms[|ms| - 1].msg; if m.EvmTx? && m.sender == sender then 1 else 0)
  }

  /** Whether message `m` is listed after the messages `listed`. */
  predicate Lists(view: View, height: nat, listed: seq<IndexedMsg>, m: IndexedMsg) {
    match m.msg
    case EvmTx(hash, sender, nonce, associate) =>
      && !associate
      && hash in view.receipts
      && var r := view.receipts[hash];
      && r.blockNumber == height
      && !FromAnteError(view, r)
      && (r.failed && r.gasPrice == 0 ==> SentBy(sender, listed) + StartNonce(view, sender) == nonce)
      && (r.shell ==> view.synthetic)
    case ExecuteContract => view.synthetic && m.Hash() in view.receipts
    case OtherMsg => false
  }

  function Listing(view: View, height: nat, ms: seq<IndexedMsg>): (listed: seq<IndexedMsg>)
    ensures AllFound(view, listed)
  {
    if ms == [] then []
    else
      var listed := Listing(view, height, ms[..|ms| - 1]);
      var m := ms[|ms| - 1];
      if Lists(view, height, listed, m) then listed + [m] else listed
  }

  ghost predicate AllFound(view: View, ms: seq<IndexedMsg>) {
    forall k :: 0 <= k < |ms| ==> ms[k].Hash() in view.receipts
  }

  lemma ListingStep(view: View, height: nat, ms: seq<IndexedMsg>, m: IndexedMsg)
    ensures var listed := Listing(view, height, ms);
            Listing(view, height, ms + [m]) == if Lists(view, height, listed, m) then listed + [m] else listed
  {
    assert (ms + [m])[..|ms|] == ms;
  }

  lemma SentByStep(sender: Bytes, ms: seq<IndexedMsg>, m: IndexedMsg)
    ensures SentBy(sender, ms + [m]) ==
            SentBy(sender, ms) + if m.msg.EvmTx? && m.msg.sender == sender then 1 else 0
  {
    assert (ms + [m])[..|ms|] == ms;
  }

  /** `counts` is the per-sender tally of `listed`; a missing sender counts zero. */
  ghost predicate Tallies(counts: map<Bytes, nat>, listed: seq<IndexedMsg>) {
    forall s :: (if s in counts then counts[s] else 0) == SentBy(s, listed)
  }

  ghost predicate Caches(nonces: map<Bytes, nat>, view: View) {
    forall s :: s in nonces ==> nonces[s] == StartNonce(view, s)
  }

  /** One message of the inner loop of filterTransactions, with its two maps. */
  method FilterMessage(view: View, height: nat, m: IndexedMsg, listed: seq<IndexedMsg>,
                       txCounts: map<Bytes, nat>, startOfBlockNonce: map<Bytes, nat>)
    returns (listed': seq<IndexedMsg>, txCounts': map<Bytes, nat>, startOfBlockNonce': map<Bytes, nat>)
    requires Tallies(txCounts, listed) && Caches(startOfBlockNonce, view)
    ensures listed' == if Lists(view, height, listed, m) then listed + [m] else listed
    ensures Tallies(txCounts', listed') && Caches(startOfBlockNonce', view)
  {
    listed', txCounts', startOfBlockNonce' := listed, txCounts, startOfBlockNonce;
    match m.msg
    case EvmTx(hash, sender, nonce, associate) =>
      if associate || hash !in view.receipts {
        return;
      }
      var r := view.receipts[hash];
      if r.blockNumber != height || FromAnteError(view, r) {
        return;
      }
      var txCount := if sender in txCounts then txCounts[sender] else 0;
      if r.failed && r.gasPrice == 0 {
        if sender !in startOfBlockNonce {
          startOfBlockNonce' := startOfBlockNonce[sender := StartNonce(view, sender)];
        }
        if txCount + startOfBlockNonce'[sender] != nonce {
          return;
        }
      }
      if !view.synthetic && r.shell {
        return;
      }
      forall s ensures SentBy(s, listed + [m]) == SentBy(s, listed) + if s == sender then 1 else 0 {
        SentByStep(s, listed, m);
      }
      txCounts' := txCounts[sender := txCount + 1];
      listed' := listed + [m];
    case ExecuteContract =>
      if view.synthetic && m.Hash() in view.receipts {
        forall s ensures SentBy(s, listed + [m]) == SentBy(s, listed) {
          SentByStep(s, listed, m);
        }
        listed' := listed + [m];
      }
    case OtherMsg =>
  }

  lemma ListingOfNothing(view: View, height: nat)
    ensures Listing(view, height, Messages([])) == []
    ensures Tallies(map[], [])
  {
  }

  method FilterTransactions(view: View, block: Block) returns (txs: seq<IndexedMsg>)
    ensures txs == Listing(view, block.height, Messages(block.txs))
  {
    hide Listing, SentBy, Lists, OfTx, Tallies;
    txs := [];
    var txCounts: map<Bytes, nat> := map[];
    var startOfBlockNonce: map<Bytes, nat> := map[];
    ListingOfNothing(view, block.height);
    assert block.txs[..0] == [];
    for i := 0 to |block.txs|
      invariant txs == Listing(view, block.height, Messages(block.txs[..i]))
      invariant Tallies(txCounts, txs) && Caches(startOfBlockNonce, view)
    {
      ghost var before := Messages(block.txs[..i]);
      var ofTx := OfTx(block.txs[i], i);
      assert before + ofTx[..0] == before;
      for j := 0 to |ofTx|
        invariant txs == Listing(view, block.height, before + ofTx[..j])
        invariant Tallies(txCounts, txs) && Caches(startOfBlockNonce, view)
      {
        ListingStep(view, block.height, before + ofTx[..j], ofTx[j]);
        assert before + ofTx[..j] + [ofTx[j]] == before + ofTx[..j + 1];
        txs, txCounts, startOfBlockNonce :=
          FilterMessage(view, block.height, ofTx[j], txs, txCounts, startOfBlockNonce);
      }
      assert ofTx[..|ofTx|] == ofTx;
      assert block.txs[..i + 1][..i] == block.txs[..i];
    }
    assert block.txs[..|block.txs|] == block.txs;
  }

  // ---------------------------------------------------------------- numbering

  /** Logs of the listed messages before position `p`. */
  function Offset(view: View, ms: seq<IndexedMsg>, p: nat): nat
    requires p <= |ms| && AllFound(view, ms)
  {
    if p == 0 then 0 else Offset(view, ms, p - 1) + |view.receipts[ms[p - 1].Hash()].logs|
  }

  /** The logs of one receipt numbered as log number `start` onwards of the block. */
  function TxLogs(height: nat, hash: Bytes, r: Receipt, txIdx: nat, start: nat): (ls: seq<Log>)
    ensures |ls| == |r.logs|
    ensures forall j :: 0 <= j < |ls| ==> ls[j].block == height && ls[j].txIndex == txIdx && ls[j].index == start + j
  {
    seq(|r.logs|, j requires 0 <= j < |r.logs| =>
      Log(height, hash, txIdx, start + j, r.logs[j].address, r.logs[j].topics, r.logs[j].data))
  }

  /** All visible logs of a block as the log endpoints number them. */
  function NumberedLogs(view: View, height: nat, ms: seq<IndexedMsg>, p: nat): (ls: seq<Log>)
    requires p <= |ms| && AllFound(view, ms)
  {
    if p == 0 then []
    else NumberedLogs(view, height, ms, p - 1) +
         TxLogs(height, ms[p - 1].Hash(), view.receipts[ms[p - 1].Hash()], p - 1, Offset(view, ms, p - 1))
  }

  /** Log number i of the block carries index i: indices are gap-free and strictly increase. */
  lemma {:induction false} LogIndicesCount(view: View, height: nat, ms: seq<IndexedMsg>, p: nat)
    requires p <= |ms| && AllFound(view, ms)
    ensures var ls := NumberedLogs(view, height, ms, p);
            && |ls| == Offset(view, ms, p)
            && forall i :: 0 <= i < |ls| ==> ls[i].index == i && ls[i].block == height && ls[i].txIndex < p
  {
    if p > 0 {
      LogIndicesCount(view, height, ms, p - 1);
    }
  }

  /** The logs of listed message `q` are the stretch of the block's logs from its offset on. */
  lemma {:induction false} LogsOfMessage(view: View, height: nat, ms: seq<IndexedMsg>, q: nat, p: nat)
    requires q < p <= |ms| && AllFound(view, ms)
    ensures var r := view.receipts[ms[q].Hash()]; var start := Offset(view, ms, q);
            var ls := NumberedLogs(view, height, ms, p);
            && start + |r.logs| <= |ls|
            && ls[start..start + |r.logs|] == TxLogs(height, ms[q].Hash(), r, q, start)
  {
    LogIndicesCount(view, height, ms, p - 1);
    var ls := NumberedLogs(view, height, ms, p);
    var last := TxLogs(height, ms[p - 1].Hash(), view.receipts[ms[p - 1].Hash()], p - 1, Offset(view, ms, p - 1));
    if q == p - 1 {
      assert ls[|ls| - |last|..] == last;
    } else {
      LogsOfMessage(view, height, ms, q, p - 1);
      var r, start := view.receipts[ms[q].Hash()], Offset(view, ms, q);
      assert ls[start..start + |r.logs|] == NumberedLogs(view, height, ms, p - 1)[start..start + |r.logs|];
    }
  }

  /** Messages among `ms` whose receipt is found. */
  function FoundIn(view: View, ms: seq<IndexedMsg>): (found: seq<IndexedMsg>)
    ensures AllFound(view, found)
  {
    if ms == [] then []
    else FoundIn(view, ms[..|ms| - 1]) +
         (if ms[|ms| - 1].Hash() in view.receipts then [ms[|ms| - 1]] else [])
  }

  lemma {:induction false} FoundInIsPrefix(view: View, ms: seq<IndexedMsg>, i: nat)
    requires i <= |ms|
    ensures FoundIn(view, ms[..i]) <= FoundIn(view, ms)
    ensures i < |ms| && ms[i].Hash() in view.receipts ==> FoundIn(view, ms[..i]) + [ms[i]] <= FoundIn(view, ms)
    decreases |ms| - i
  {
    if i < |ms| {
      assert ms[..i + 1][..i] == ms[..i];
      FoundInIsPrefix(view, ms, i + 1);
    } else {
      assert ms[..i] == ms;
    }
  }

  lemma {:induction false} AllFoundIn(view: View, ms: seq<IndexedMsg>)
    requires AllFound(view, ms)
    ensures FoundIn(view, ms) == ms
  {
    if ms != [] {
      AllFoundIn(view, ms[..|ms| - 1]);
      assert ms == ms[..|ms| - 1] + [ms[|ms| - 1]];
    }
  }

  lemma {:induction false} OffsetOfPrefix(view: View, a: seq<IndexedMsg>, b: seq<IndexedMsg>, p: nat)
    requires AllFound(view, b) && a <= b && p <= |a|
    ensures AllFound(view, a) && Offset(view, a, p) == Offset(view, b, p)
  {
    forall k | 0 <= k < |a| ensures a[k].Hash() in view.receipts {
      assert a[k] == b[k];
    }
    if p > 0 {
      OffsetOfPrefix(view, a, b, p - 1);
    }
  }

  /** Where the receipt endpoint places transaction `txIndex`: the first message of that
      transaction among those with a receipt. */
  ghost predicate PlacedAt(view: View, ms: seq<IndexedMsg>, txIndex: nat, q: nat) {
    var found := FoundIn(view, ms);
    q < |found| && found[q].index == txIndex && forall k :: 0 <= k < q ==> found[k].index != txIndex
  }

  method GetEvmTxIndex(view: View, msgs: seq<IndexedMsg>, txIndex: nat)
    returns (index: int, found: bool, logIndexOffset: int)
    ensures found ==> index >= 0 && PlacedAt(view, msgs, txIndex, index)
                      && logIndexOffset == Offset(view, FoundIn(view, msgs), index)
    ensures !found ==> forall m :: m in FoundIn(view, msgs) ==> m.index != txIndex
  {
    var evmTxIndex, logIndex := 0, 0;
    for i := 0 to |msgs|
      invariant evmTxIndex == |FoundIn(view, msgs[..i])|
      invariant logIndex == Offset(view, FoundIn(view, msgs[..i]), evmTxIndex)
      invariant forall m :: m in FoundIn(view, msgs[..i]) ==> m.index != txIndex
    {
      assert msgs[..i + 1][..i] == msgs[..i];
      if msgs[i].Hash() !in view.receipts {
        assert FoundIn(view, msgs[..i + 1]) == FoundIn(view, msgs[..i]);
        continue;
      }
      FoundInIsPrefix(view, msgs, i);
      OffsetOfPrefix(view, FoundIn(view, msgs[..i]), FoundIn(view, msgs), evmTxIndex);
      OffsetOfPrefix(view, FoundIn(view, msgs[..i]), FoundIn(view, msgs[..i + 1]), evmTxIndex);
      if msgs[i].index == txIndex {
        return evmTxIndex, true, logIndex;
      }
      assert FoundIn(view, msgs[..i + 1]) == FoundIn(view, msgs[..i]) + [msgs[i]];
      evmTxIndex := evmTxIndex + 1;
      logIndex := logIndex + |view.receipts[msgs[i].Hash()].logs|;
    }
    assert msgs[..|msgs|] == msgs;
    return -1, false, -1;
  }

  datatype Encoded = Encoded(transactionIndex: nat, logs: seq<Log>) | NotInBlock

  /** The logs of a receipt as GetLogsForTx converts them: own index plus the offset. */
  function ReceiptLogs(r: Receipt, hash: Bytes, txIdx: nat, offset: nat): seq<Log> {
    seq(|r.logs|, j requires 0 <= j < |r.logs| =>
      Log(r.blockNumber, hash, txIdx, r.logs[j].index + offset,
          r.logs[j].address, r.logs[j].topics, r.logs[j].data))
  }

  /** The index part of encodeReceipt for a stored receipt of transaction `txIndex`. */
  method EncodeReceipt(view: View, block: Block, hash: Bytes, r: Receipt, txIndex: nat) returns (e: Encoded)
    ensures var listed := Listing(view, block.height, Messages(block.txs));
            match e
            case Encoded(q, logs) =>
              && PlacedAt(view, listed, txIndex, q) && q < |listed|
              && logs == ReceiptLogs(r, hash, q, Offset(view, listed, q))
            case NotInBlock => forall m :: m in listed ==> m.index != txIndex
  {
    var msgs := FilterTransactions(view, block);
    AllFoundIn(view, msgs);
    var evmTxIndex, foundTx, logIndexOffset := GetEvmTxIndex(view, msgs, txIndex);
    if !foundTx {
      return NotInBlock;
    }
    return Encoded(evmTxIndex, ReceiptLogs(r, hash, evmTxIndex, logIndexOffset));
  }

  /** A message whose receipt belongs to this block and numbers its own logs. */
  ghost predicate OwnReceipt(view: View, height: nat, m: IndexedMsg) {
    && m.Hash() in view.receipts
    && var r := view.receipts[m.Hash()];
    && r.blockNumber == height
    && forall j :: 0 <= j < |r.logs| ==> r.logs[j].index == j
  }

  /** The receipt endpoint gives listed message `q` the transaction index of the log endpoints
      exactly when no earlier listed message comes from the same transaction, and then it also
      reports the very logs the log endpoints number for it. */
  lemma ReceiptAgreesWithLogs(view: View, height: nat, listed: seq<IndexedMsg>, q: nat, placed: nat)
    requires AllFound(view, listed) && q < |listed| && OwnReceipt(view, height, listed[q])
    requires PlacedAt(view, listed, listed[q].index, placed)
    ensures placed == q <==> forall k :: 0 <= k < q ==> listed[k].index != listed[q].index
    ensures placed == q ==>
              var r, start := view.receipts[listed[q].Hash()], Offset(view, listed, q);
              var all := NumberedLogs(view, height, listed, |listed|);
              && start + |r.logs| <= |all|
              && ReceiptLogs(r, listed[q].Hash(), placed, start) == all[start..start + |r.logs|]
  {
    hide NumberedLogs, Offset, FoundIn, TxLogs, ReceiptLogs;
    AllFoundIn(view, listed);
    LogsOfMessage(view, height, listed, q, |listed|);
    SameConversion(view.receipts[listed[q].Hash()], height, listed[q].Hash(), q, Offset(view, listed, q));
  }

  lemma SameConversion(r: Receipt, height: nat, hash: Bytes, txIdx: nat, start: nat)
    requires r.blockNumber == height && forall j :: 0 <= j < |r.logs| ==> r.logs[j].index == j
    ensures ReceiptLogs(r, hash, txIdx, start) == TxLogs(height, hash, r, txIdx, start)
  {
  }

  /** A transaction with two contract executions is listed twice, and the receipt endpoint places both
      of its messages at the first. */
  lemma SecondMessageMisplaced(height: nat, hash: Bytes, r: Receipt)
    ensures var view, m := View(map[hash := r], map[], false, true), IndexedMsg(ExecuteContract, 0, hash);
            var listed := Listing(view, height, Messages([Decoded(hash, [ExecuteContract, ExecuteContract])]));
            && listed == [m, m]
            && PlacedAt(view, listed, listed[1].index, 0) && !PlacedAt(view, listed, listed[1].index, 1)
  {
    var view, m := View(map[hash := r], map[], false, true), IndexedMsg(ExecuteContract, 0, hash);
    TwoMessages(hash);
    AlwaysListed(view, height, [], m);
    AlwaysListed(view, height, [m], m);
    hide Messages, Listing, OfTx;
    ListingOfNothing(view, height);
    ListingStep(view, height, [], m);
    ListingStep(view, height, [m], m);
    assert [] + [m] == [m] && [m] + [m] == [m, m];
    AllFoundIn(view, [m, m]);
  }

  lemma TwoMessages(hash: Bytes)
    ensures var m := IndexedMsg(ExecuteContract, 0, hash);
            Messages([Decoded(hash, [ExecuteContract, ExecuteContract])]) == [m, m]
  {
    var tx, m := Decoded(hash, [ExecuteContract, ExecuteContract]), IndexedMsg(ExecuteContract, 0, hash);
    assert [tx][..0] == [] && OfTx(tx, 0) == [m, m];
  }

  lemma AlwaysListed(view: View, height: nat, listed: seq<IndexedMsg>, m: IndexedMsg)
    requires view.synthetic && m.msg.ExecuteContract? && m.txHash in view.receipts
    ensures Lists(view, height, listed, m)
  {
  }
}
