/** The four block executors of app/app.go and the dispatch among them. Transactions run on cached
    stores: the regular cache and the giga cache of a branched multistore are siblings over the same
    parent, so the order of their flushes decides what the next transaction sees. */
module Dispatch {
  import opened Wrappers

  /** A store key; some stores are registered as giga stores. */
  datatype Key = Key(giga: bool, name: string)
  type Store = map<Key, string>
  /** Pending writes of a cache; `None` is a deletion. */
  type Writes = map<Key, Option<string>>

  datatype EthTx = EthTx(to: Option<string>, dataLength: nat, value: int)
  datatype Tx = Cosmos(raw: string) | Evm(raw: string, eth: Option<EthTx>)

  datatype Response = Response(code: nat, codespace: string, data: string)

  const GIGA_ABORT_CODE := 1
  const GIGA_ABORT_CODESPACE := "giga"

  predicate IsSentinel(r: Response) {
    r.code == GIGA_ABORT_CODE && r.codespace == GIGA_ABORT_CODESPACE
  }

  // ---------------------------------------------------------------- stores and caches

  function Apply(ws: Writes, s: Store): Store {
    map k | k in s.Keys + ws.Keys && (k in ws ==> ws[k].Some?) :: if k in ws then ws[k].value else s[k]
  }

  function Giga(ws: Writes): Writes {
    map k | k in ws && k.giga :: ws[k]
  }

  function Regular(ws: Writes): Writes {
    map k | k in ws && !k.giga :: ws[k]
  }

  /** A branched multistore: its regular cache, its giga cache, and their common parent. */
  datatype Branch = Branch(cache: Writes, giga: Writes, parent: Store) {
    /** What the V2 executor reads. */
    function View(): Store {
      Apply(cache, parent)
    }
    /** What the giga executor reads: giga stores through the giga cache only. */
    function GigaView(): Store {
      map k | k in parent.Keys + cache.Keys + giga.Keys &&
              (if k.giga then k in Apply(giga, parent) else k in Apply(cache, parent)) ::
        if k.giga then Apply(giga, parent)[k] else Apply(cache, parent)[k]
    }
    function Write(): Branch {
      Branch(map[], giga, Apply(cache, parent))
    }
    function WriteGiga(): Branch {
      Branch(cache, map[], Apply(giga, parent))
    }
    predicate Separate() {
      (forall k :: k in cache ==> !k.giga) && (forall k :: k in giga ==> k.giga)
    }
  }

  // ---------------------------------------------------------------- the executors' collaborators

  datatype Delivery = Delivery(result: Response, writes: Writes)

  datatype GigaDelivery =
    | Executed(result: Response, writes: Writes)
    | Aborted(reason: string)
    | IteratorPanic
    | Error(message: string)

  datatype Entry = Entry(index: nat, tx: Tx)

  /** DeliverTx, the giga executor of one transaction, and the optimistic scheduler; any scheduler
      run and the construction of the giga block cache may fail. */
  datatype Env = Env(
    v2: (Store, Entry) -> Delivery,
    giga: (Store, Entry) -> GigaDelivery,
    scheduleV2: (Store, seq<Entry>) -> Option<(seq<Response>, Store)>,
    scheduleGiga: (Branch, seq<Entry>) -> Option<(seq<Response>, Branch)>,
    blockCacheBuilds: bool)

  function DeliverV2(env: Env, s: Store, e: Entry): (Response, Store) {
    var d := env.v2(s, e);
    (d.result, Apply(d.writes, s))
  }

  /** In-order execution with V2: the meaning of a block. */
  function InOrder(env: Env, s: Store, es: seq<Entry>): (r: (seq<Response>, Store))
    ensures |r.0| == |es|
  {
    if es == [] then ([], s)
    else
      var (rs, t) := InOrder(env, s, es[..|es| - 1]);
      var (r, t') := DeliverV2(env, t, es[|es| - 1]);
      (rs + [r], t')
  }

  /** The giga delivery callback: an abort writes nothing and answers with the sentinel. */
  function DeliverGiga(env: Env, b: Branch, e: Entry): (Response, Branch) {
    if !e.tx.Evm? then (Response(1, "", "not an EVM transaction"), b)
    else
      match env.giga(b.GigaView(), e)
      case Executed(r, ws) => (r, Branch(Overlay(b.cache, Regular(ws)), Overlay(b.giga, Giga(ws)), b.parent))
      case Aborted(reason) => (Response(GIGA_ABORT_CODE, GIGA_ABORT_CODESPACE, reason), b)
      case IteratorPanic => (Response(GIGA_ABORT_CODE, GIGA_ABORT_CODESPACE, "store_iterator"), b)
      case Error(message) => (Response(1, "", "giga executor error: " + message), b)
  }

  function Overlay(older: Writes, newer: Writes): Writes {
    older + newer
  }

  function GigaInOrder(env: Env, b: Branch, es: seq<Entry>): (r: (seq<Response>, Branch))
    ensures |r.0| == |es|
  {
    if es == [] then ([], b)
    else
      var (rs, c) := GigaInOrder(env, b, es[..|es| - 1]);
      var (r, c') := DeliverGiga(env, c, es[|es| - 1]);
      (rs + [r], c')
  }

  ghost predicate Agrees(s: Store, g: GigaDelivery, d: Delivery) {
    match g
    case Executed(r, ws) => r == d.result && Apply(ws, s) == Apply(d.writes, s)
    case Aborted(_) => true
    case IteratorPanic => true
    case Error(_) => false
  }

  /** A giga transaction aborts or does what V2 does, and V2 never answers with the sentinel. */
  ghost predicate GigaMatchesV2(env: Env) {
    && (forall s: Store, e: Entry :: !IsSentinel(env.v2(s, e).result))
    && (forall s: Store, e: Entry :: e.tx.Evm? ==> Agrees(s, env.giga(s, e), env.v2(s, e)))
  }

  /** A scheduler run that succeeds equals in-order execution. */
  ghost predicate SchedulesInOrder(env: Env) {
    && (forall s, es :: env.scheduleV2(s, es).Some? ==> env.scheduleV2(s, es).value == InOrder(env, s, es))
    && (forall b, es :: env.scheduleGiga(b, es).Some? ==> env.scheduleGiga(b, es).value == GigaInOrder(env, b, es))
  }

  /** Nothing outside the transactions fails. */
  ghost predicate Healthy(env: Env) {
    && env.blockCacheBuilds
    && (forall s, es :: env.scheduleV2(s, es).Some?)
    && (forall b, es :: env.scheduleGiga(b, es).Some?)
  }

  function Entries(txs: seq<Tx>): seq<Entry> {
    seq(|txs|, i requires 0 <= i < |txs| => Entry(i, txs[i]))
  }

  /** What every executor must give: the results and the store of in-order V2 execution. */
  ghost predicate Means(env: Env, s: Store, txs: seq<Tx>, results: Option<seq<Response>>, s': Store) {
    results.Some? ==> (results.value, s') == InOrder(env, s, Entries(txs))
  }

  // ---------------------------------------------------------------- lemmas about stores

  function Read(s: Store, k: Key): Option<string> {
    if k in s then Some(s[k]) else None
  }

  lemma SameReads(s: Store, t: Store)
    requires forall k :: Read(s, k) == Read(t, k)
    ensures s == t
  {
    forall k: Key
      ensures k in s <==> k in t
      ensures k in s ==> s[k] == t[k]
    {
      assert Read(s, k) == Read(t, k);
    }
  }

  lemma ReadApply(ws: Writes, s: Store, k: Key)
    ensures Read(Apply(ws, s), k) == if k in ws then ws[k] else Read(s, k)
  {
  }

  lemma ReadGigaView(b: Branch, k: Key)
    ensures var ws := if k.giga then b.giga else b.cache;
            Read(b.GigaView(), k) == if k in ws then ws[k] else Read(b.parent, k)
  {
  }

  lemma ApplyOverlay(older: Writes, newer: Writes, s: Store)
    ensures Apply(Overlay(older, newer), s) == Apply(newer, Apply(older, s))
  {
  }

  /** With separate caches and nothing in the giga cache both executors read the same store. */
  lemma SameView(b: Branch)
    requires b.Separate() && b.giga == map[]
    ensures b.View() == b.GigaView()
  {
  }

  lemma ExecutedView(b: Branch, ws: Writes)
    requires b.Separate()
    ensures var c := Branch(Overlay(b.cache, Regular(ws)), Overlay(b.giga, Giga(ws)), b.parent);
            c.Separate() && c.GigaView() == Apply(ws, b.GigaView())
  {
    hide Apply, Branch.GigaView;
    var c := Branch(Overlay(b.cache, Regular(ws)), Overlay(b.giga, Giga(ws)), b.parent);
    forall k: Key
      ensures Read(c.GigaView(), k) == Read(Apply(ws, b.GigaView()), k)
    {
      ReadGigaView(b, k);
      ReadGigaView(c, k);
      ReadApply(ws, b.GigaView(), k);
    }
    SameReads(c.GigaView(), Apply(ws, b.GigaView()));
  }

  lemma FlushGigaView(b: Branch)
    requires b.Separate()
    ensures b.WriteGiga().Separate() && b.WriteGiga().View() == b.GigaView()
    ensures b.Write().WriteGiga().parent == b.GigaView()
  {
    hide Apply, Branch.GigaView;
    forall k: Key
      ensures Read(b.WriteGiga().View(), k) == Read(b.GigaView(), k) == Read(b.Write().WriteGiga().parent, k)
    {
      ReadGigaView(b, k);
      ReadApply(b.giga, b.parent, k);
      ReadApply(b.cache, Apply(b.giga, b.parent), k);
      ReadApply(b.cache, b.parent, k);
      ReadApply(b.giga, Apply(b.cache, b.parent), k);
    }
    SameReads(b.WriteGiga().View(), b.GigaView());
    SameReads(b.Write().WriteGiga().parent, b.GigaView());
  }

  lemma InOrderStep(env: Env, s: Store, es: seq<Entry>, n: nat)
    requires n < |es|
    ensures var before, after := InOrder(env, s, es[..n]), InOrder(env, s, es[..n + 1]);
            var d := DeliverV2(env, before.1, es[n]);
            after == (before.0 + [d.0], d.1)
  {
    assert es[..n + 1][..n] == es[..n];
  }

  lemma {:induction false} InOrderSplit(env: Env, s: Store, es: seq<Entry>, fs: seq<Entry>)
    ensures var first := InOrder(env, s, es); var second := InOrder(env, first.1, fs);
            InOrder(env, s, es + fs) == (first.0 + second.0, second.1)
  {
    if fs == [] {
      assert es + fs == es;
      var first := InOrder(env, s, es).0;
      assert first + [] == first;
    } else {
      InOrderSplit(env, s, es, fs[..|fs| - 1]);
      assert (es + fs)[..|es + fs| - 1] == es + fs[..|fs| - 1];
      var first, part := InOrder(env, s, es), InOrder(env, InOrder(env, s, es).1, fs[..|fs| - 1]);
      var d := DeliverV2(env, part.1, fs[|fs| - 1]);
      assert (first.0 + part.0) + [d.0] == first.0 + (part.0 + [d.0]);
    }
  }

  // ---------------------------------------------------------------- the executors

  /** ProcessTxsSynchronousV2. */
  method ProcessTxsSynchronousV2(env: Env, s: Store, txs: seq<Tx>) returns (results: Option<seq<Response>>, s': Store)
    ensures results.Some? && Means(env, s, txs, results, s')
  {
    hide DeliverV2;
    var rs: seq<Response> := [];
    s' := s;
    for i := 0 to |txs|
      invariant (rs, s') == InOrder(env, s, Entries(txs)[..i])
    {
      var d := DeliverV2(env, s', Entry(i, txs[i]));
      InOrderStep(env, s, Entries(txs), i);
      rs, s' := rs + [d.0], d.1;
    }
    assert Entries(txs)[..|txs|] == Entries(txs);
    results := Some(rs);
  }

  /** The branch after a V2 delivery on it, flushed. */
  lemma V2OnBranch(env: Env, b: Branch, e: Entry)
    requires b.Separate() && b.giga == map[]
    ensures var d := env.v2(b.View(), e);
            var c := Branch(Overlay(b.cache, d.writes), b.giga, b.parent).Write();
            c.Separate() && c.giga == map[] && (d.result, c.View()) == DeliverV2(env, b.View(), e)
  {
    var d := env.v2(b.View(), e);
    ApplyOverlay(b.cache, d.writes, b.parent);
    EmptyBranch(Apply(Overlay(b.cache, d.writes), b.parent));
  }

  /** The branch after a giga execution on it, its giga cache flushed. */
  lemma GigaOnBranch(env: Env, b: Branch, e: Entry)
    requires e.tx.Evm? && b.Separate() && b.giga == map[] && env.giga(b.GigaView(), e).Executed?
    ensures var g := env.giga(b.GigaView(), e);
            var c := Branch(Overlay(b.cache, Regular(g.writes)), Overlay(b.giga, Giga(g.writes)), b.parent).WriteGiga();
            && c.Separate() && c.giga == map[]
            && (GigaMatchesV2(env) ==> (g.result, c.View()) == DeliverV2(env, b.View(), e))
  {
    var g := env.giga(b.GigaView(), e);
    var c := Branch(Overlay(b.cache, Regular(g.writes)), Overlay(b.giga, Giga(g.writes)), b.parent);
    assert c.WriteGiga().giga == map[];
    hide Apply, Branch.GigaView, Branch.View, Branch.Separate, Branch.WriteGiga;
    SameView(b);
    ExecutedView(b, g.writes);
    FlushGigaView(c);
    if GigaMatchesV2(env) {
      assert Agrees(b.GigaView(), g, env.v2(b.GigaView(), e));
    }
  }

  lemma NoErrors(env: Env, s: Store, e: Entry)
    requires e.tx.Evm? && env.giga(s, e).Error?
    ensures !GigaMatchesV2(env)
  {
    assert !Agrees(s, env.giga(s, e), env.v2(s, e));
  }

  lemma EmptyBranch(s: Store)
    ensures var b := Branch(map[], map[], s); b.Separate() && b.View() == s && b.GigaView() == s
  {
  }

  /** ProcessTxsSynchronousGiga: transactions the giga executor cannot take re-run on V2, and each
      kind of delivery flushes the cache it wrote. */
  method ProcessTxsSynchronousGiga(env: Env, s: Store, txs: seq<Tx>) returns (results: Option<seq<Response>>, s': Store)
    ensures results.Some? == env.blockCacheBuilds
    ensures GigaMatchesV2(env) ==> Means(env, s, txs, results, s')
  {
    hide DeliverV2, GigaMatchesV2, Apply, Branch.GigaView, Overlay;
    var b := Branch(map[], map[], s);
    EmptyBranch(s);
    if !env.blockCacheBuilds {
      return None, b.Write().parent;
    }
    var rs: seq<Response> := [];
    for i := 0 to |txs|
      invariant b.Separate() && b.giga == map[]
      invariant GigaMatchesV2(env) ==> (rs, b.View()) == InOrder(env, s, Entries(txs)[..i])
    {
      hide InOrder, Branch.View, Branch.Write, Branch.WriteGiga, Branch.Separate;
      var e := Entry(i, txs[i]);
      InOrderStep(env, s, Entries(txs), i);
      if txs[i].Cosmos? {
        V2OnBranch(env, b, e);
        var d := env.v2(b.View(), e);
        b := Branch(Overlay(b.cache, d.writes), b.giga, b.parent).Write();
        rs := rs + [d.result];
        continue;
      }
      var g := env.giga(b.GigaView(), e);
      if g.Aborted? || g.IteratorPanic? {
        V2OnBranch(env, b, e);
        var d := env.v2(b.View(), e);
        b := Branch(Overlay(b.cache, d.writes), b.giga, b.parent).Write();
        rs := rs + [d.result];
        continue;
      }
      if g.Error? {
        NoErrors(env, b.GigaView(), e);
        rs := rs + [Response(1, "", "[BUG] giga executor error: " + g.message)];
        continue;
      }
      GigaOnBranch(env, b, e);
      b := Branch(Overlay(b.cache, Regular(g.writes)), Overlay(b.giga, Giga(g.writes)), b.parent).WriteGiga();
      rs := rs + [g.result];
    }
    assert Entries(txs)[..|txs|] == Entries(txs);
    results, s' := Some(rs), b.Write().parent;
  }

  /** ProcessTXsWithOCCV2. */
  method ProcessTXsWithOCCV2(env: Env, s: Store, txs: seq<Tx>) returns (results: Option<seq<Response>>, s': Store)
    ensures Healthy(env) ==> results.Some?
    ensures SchedulesInOrder(env) ==> Means(env, s, txs, results, s')
  {
    var entries: seq<Entry> := [];
    for i := 0 to |txs|
      invariant entries == Entries(txs)[..i]
    {
      entries := entries + [Entry(i, txs[i])];
    }
    assert entries == Entries(txs);
    if |entries| == 0 {
      return Some([]), s;
    }
    var batch := env.scheduleV2(s, entries);
    if batch.None? {
      return None, s;
    }
    var responses := batch.value.0;
    var rs: seq<Response> := [];
    for i := 0 to |responses|
      invariant rs == responses[..i]
    {
      rs := rs + [responses[i]];
    }
    assert rs == responses && env.scheduleV2(s, Entries(txs)) == batch;
    results, s' := Some(rs), batch.value.1;
  }

  /** A run of giga deliveries without a sentinel is a run of V2 deliveries. */
  lemma {:induction false} GigaRunMatches(env: Env, b: Branch, es: seq<Entry>)
    requires GigaMatchesV2(env) && b.Separate()
    requires forall e :: e in es ==> e.tx.Evm?
    requires forall r :: r in GigaInOrder(env, b, es).0 ==> !IsSentinel(r)
    ensures var g := GigaInOrder(env, b, es);
            g.1.Separate() && (g.0, g.1.GigaView()) == InOrder(env, b.GigaView(), es)
  {
    if es != [] {
      hide Apply, Branch.GigaView, Branch.Separate;
      var es', e := es[..|es| - 1], es[|es| - 1];
      var g := GigaInOrder(env, b, es');
      var d := DeliverGiga(env, g.1, e);
      assert GigaInOrder(env, b, es).0 == g.0 + [d.0];
      assert !IsSentinel((g.0 + [d.0])[|g.0|]);
      GigaRunMatches(env, b, es');
      assert Agrees(g.1.GigaView(), env.giga(g.1.GigaView(), e), env.v2(g.1.GigaView(), e));
      ExecutedView(g.1, env.giga(g.1.GigaView(), e).writes);
    }
  }

  /** The partition loop: EVM entries first, the rest after, or no partition when an EVM
      transaction follows another kind. */
  method Partition(txs: seq<Tx>) returns (mixed: bool, evm: seq<Entry>, v2: seq<Entry>)
    ensures mixed <==> exists i, j :: 0 <= i < j < |txs| && txs[i].Cosmos? && txs[j].Evm?
    ensures !mixed ==> evm + v2 == Entries(txs)
    ensures !mixed ==> (forall e :: e in evm ==> e.tx.Evm?) && (forall e :: e in v2 ==> e.tx.Cosmos?)
  {
    mixed, evm, v2 := false, [], [];
    var firstCosmosSeen := false;
    for i := 0 to |txs|
      invariant firstCosmosSeen <==> exists k :: 0 <= k < i && txs[k].Cosmos?
      invariant firstCosmosSeen <==> v2 != []
      invariant evm + v2 == Entries(txs)[..i]
      invariant (forall e :: e in evm ==> e.tx.Evm?) && (forall e :: e in v2 ==> e.tx.Cosmos?)
      invariant !exists k, j :: 0 <= k < j < i && txs[k].Cosmos? && txs[j].Evm?
    {
      if txs[i].Evm? {
        if firstCosmosSeen {
          mixed := true;
          return;
        }
        evm := evm + [Entry(i, txs[i])];
      } else {
        firstCosmosSeen := true;
        v2 := v2 + [Entry(i, txs[i])];
      }
      assert Entries(txs)[..i + 1] == Entries(txs)[..i] + [Entry(i, txs[i])];
    }
    assert Entries(txs)[..|txs|] == Entries(txs);
  }

  /** The EVM part: run on a branch, discarded as a whole if any transaction aborted. */
  method ProcessEvmBatch(env: Env, s: Store, evm: seq<Entry>)
    returns (batch: Option<seq<Response>>, fallback: bool, s': Store)
    requires forall e :: e in evm ==> e.tx.Evm?
    ensures Healthy(env) ==> batch.Some?
    ensures fallback ==> s' == s
    ensures batch.Some? && !fallback && GigaMatchesV2(env) && SchedulesInOrder(env) ==>
            (batch.value, s') == InOrder(env, s, evm)
  {
    hide Apply, Branch.GigaView, InOrder, GigaInOrder, GigaMatchesV2, SchedulesInOrder;
    if !env.blockCacheBuilds {
      return None, false, s;
    }
    var branch := Branch(map[], map[], s);
    EmptyBranch(s);
    var run := env.scheduleGiga(branch, evm);
    if run.None? {
      return None, false, s;
    }
    var responses := run.value.0;
    for i := 0 to |responses|
      invariant forall k :: 0 <= k < i ==> !IsSentinel(responses[k])
    {
      if IsSentinel(responses[i]) {
        return Some([]), true, s;
      }
    }
    batch, fallback, s' := Some(responses), false, run.value.1.Write().WriteGiga().parent;
    if GigaMatchesV2(env) && SchedulesInOrder(env) {
      Scheduled(env, branch, evm);
      GigaRunMatches(env, branch, evm);
      FlushGigaView(run.value.1);
    }
  }

  lemma Scheduled(env: Env, b: Branch, es: seq<Entry>)
    requires SchedulesInOrder(env) && env.scheduleGiga(b, es).Some?
    ensures env.scheduleGiga(b, es).value == GigaInOrder(env, b, es)
  {
  }

  /** ProcessTXsWithOCCGiga. */
  method ProcessTXsWithOCCGiga(env: Env, s: Store, txs: seq<Tx>) returns (results: Option<seq<Response>>, s': Store)
    ensures Healthy(env) ==> results.Some?
    ensures GigaMatchesV2(env) && SchedulesInOrder(env) ==> Means(env, s, txs, results, s')
  {
    hide GigaMatchesV2, InOrder;
    var mixed, evm, v2 := Partition(txs);
    if mixed {
      results, s' := ProcessTXsWithOCCV2(env, s, txs);
      return;
    }
    var evmResults: seq<Response> := [];
    s' := s;
    ghost var ran := evm;
    if |evm| > 0 {
      var batch, fallback;
      batch, fallback, s' := ProcessEvmBatch(env, s, evm);
      if batch.None? {
        return None, s';
      }
      evmResults := batch.value;
      if fallback {
        evmResults, v2, ran := [], [], [];
        for i := 0 to |txs|
          invariant v2 == Entries(txs)[..i]
        {
          v2 := v2 + [Entry(i, txs[i])];
        }
        assert ran + v2 == Entries(txs);
      }
    }
    EmptyRun(env, s);
    assert GigaMatchesV2(env) && SchedulesInOrder(env) ==> (evmResults, s') == InOrder(env, s, ran);
    var v2Results: seq<Response> := [];
    ghost var middle := s';
    if |v2| > 0 {
      var batch := env.scheduleV2(s', v2);
      if batch.None? {
        return None, s';
      }
      v2Results, s' := batch.value.0, batch.value.1;
    }
    EmptyRun(env, middle);
    InOrderSplit(env, s, ran, v2);
    results := Some(evmResults + v2Results);
  }

  lemma EmptyRun(env: Env, s: Store)
    ensures InOrder(env, s, []) == ([], s)
  {
  }

  const MIN_SINGLE_RECIPIENT_TRANSFERS := 64

  /** A plain EVM transfer of a positive value to `to`. */
  predicate TransfersTo(tx: Tx, to: string) {
    tx.Evm? && tx.eth.Some? && tx.eth.value.to == Some(to) && tx.eth.value.dataLength == 0 && tx.eth.value.value > 0
  }

  predicate AllTransferTo(txs: seq<Tx>, to: string) {
    forall i :: 0 <= i < |txs| ==> TransfersTo(txs[i], to)
  }

  lemma OneRecipient(txs: seq<Tx>, i: nat, recipient: string)
    requires 0 < i < |txs| && TransfersTo(txs[0], recipient) && !TransfersTo(txs[i], recipient)
    ensures forall to :: !AllTransferTo(txs, to)
  {
  }

  /** shouldProcessSingleRecipientEVMTransfersSynchronously. */
  method SingleRecipientTransfers(txs: seq<Tx>) returns (yes: bool)
    ensures yes <==> |txs| >= MIN_SINGLE_RECIPIENT_TRANSFERS && exists to :: AllTransferTo(txs, to)
  {
    if |txs| < MIN_SINGLE_RECIPIENT_TRANSFERS {
      return false;
    }
    var recipient := "";
    for i := 0 to |txs|
      invariant forall k :: 0 <= k < i ==> TransfersTo(txs[k], recipient)
    {
      var tx := txs[i];
      if tx.Cosmos? || tx.eth.None? || tx.eth.value.to.None? ||
         tx.eth.value.dataLength != 0 || tx.eth.value.value <= 0
      {
        return false;
      }
      if i == 0 {
        recipient := tx.eth.value.to.value;
      } else if tx.eth.value.to.value != recipient {
        OneRecipient(txs, i, recipient);
        return false;
      }
    }
    assert AllTransferTo(txs, recipient);
    return true;
  }

  datatype Mode = Mode(gigaExecutor: bool, gigaOcc: bool, occ: bool)

  /** ExecuteTxsConcurrently: whichever executor the mode selects, results and store are those of
      in-order V2 execution. */
  method ExecuteTxsConcurrently(env: Env, mode: Mode, s: Store, txs: seq<Tx>)
    returns (results: Option<seq<Response>>, s': Store)
    ensures Healthy(env) ==> results.Some?
    ensures GigaMatchesV2(env) && SchedulesInOrder(env) ==> Means(env, s, txs, results, s')
  {
    hide GigaMatchesV2, SchedulesInOrder, Means;
    var synchronously := SingleRecipientTransfers(txs);
    if mode.gigaExecutor && mode.gigaOcc && !synchronously {
      results, s' := ProcessTXsWithOCCGiga(env, s, txs);
    } else if mode.gigaExecutor {
      results, s' := ProcessTxsSynchronousGiga(env, s, txs);
    } else if !mode.occ || synchronously {
      results, s' := ProcessTxsSynchronousV2(env, s, txs);
    } else {
      results, s' := ProcessTXsWithOCCV2(env, s, txs);
    }
  }
}
